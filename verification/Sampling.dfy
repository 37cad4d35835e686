/**
 Shuffling an array and drawing from it without replacement (src/util/util.go, src/rank/rank.go).
 A run is fixed by the numbers that rand.Intn returned, one for each swap.
 */
module Sampling {
  import opened Results
  import opened Swaps

  // ---------- One run ----------

  /** The t-th number is drawn among the positions that no swap has settled yet. */
  ghost predicate Drawable(cs: seq<nat>, n: nat) {
    |cs| <= n && forall t :: 0 <= t < |cs| ==> cs[t] < n - t
  }

  /** Each draw settles the last unsettled position. */
  function Run<T>(s: seq<T>, cs: seq<nat>): (r: seq<T>)
    requires Drawable(cs, |s|)
    ensures |r| == |s|
    decreases |cs|
  {
    if cs == [] then s else
    var u, n := Swap(s, cs[0], |s| - 1), |s| - 1;
    Run(u[..n], cs[1..]) + [s[cs[0]]]
  }

  /** What is drawn, first draw first. */
  function Drawn<T>(s: seq<T>, cs: seq<nat>): (r: seq<T>)
    requires Drawable(cs, |s|)
    ensures |r| == |cs|
    decreases |cs|
  {
    if cs == [] then [] else
    [s[cs[0]]] + Drawn(Swap(s, cs[0], |s| - 1)[..|s| - 1], cs[1..])
  }

  /** The draws end up behind the rest, last draw first. */
  lemma {:induction false} DrawnAreLast<T>(s: seq<T>, cs: seq<nat>, t: nat)
    requires Drawable(cs, |s|) && t < |cs|
    ensures Run(s, cs)[|s| - 1 - t] == Drawn(s, cs)[t]
    decreases |cs|
  {
    if t > 0 {
      DrawnAreLast(Swap(s, cs[0], |s| - 1)[..|s| - 1], cs[1..], t - 1);
    }
  }

  // ---------- Every run permutes ----------

  lemma {:induction false} SwapSplits<T>(s: seq<T>, i: nat)
    requires i < |s|
    ensures multiset(s) == multiset(Swap(s, i, |s| - 1)[..|s| - 1]) + multiset{s[i]}
  {
    var u, n := Swap(s, i, |s| - 1), |s| - 1;
    assert multiset(u) == multiset(s);
    assert u == u[..n] + [s[i]];
  }

  lemma {:induction false} RunPermutes<T>(s: seq<T>, cs: seq<nat>)
    requires Drawable(cs, |s|)
    ensures multiset(Run(s, cs)) == multiset(s)
    decreases |cs|
  {
    if cs != [] {
      RunPermutes(Swap(s, cs[0], |s| - 1)[..|s| - 1], cs[1..]);
      SwapSplits(s, cs[0]);
    }
  }

  // ---------- And every permutation is one run ----------

  ghost predicate Distinct<T>(s: seq<T>) {
    forall i, j :: 0 <= i < j < |s| ==> s[i] != s[j]
  }

  lemma {:induction false} RestDistinct<T>(s: seq<T>, i: nat)
    requires i < |s| && Distinct(s)
    ensures Distinct(Swap(s, i, |s| - 1)[..|s| - 1])
  {
  }

  /** Different draws give different results. */
  lemma {:induction false} RunsDiffer<T>(s: seq<T>, cs: seq<nat>, ds: seq<nat>)
    requires Distinct(s) && Drawable(cs, |s|) && Drawable(ds, |s|) && |cs| == |ds|
    requires Drawn(s, cs) == Drawn(s, ds)
    ensures cs == ds
    decreases |cs|
  {
    if cs != [] {
      var a, b := Drawn(s, cs), Drawn(s, ds);
      assert a[0] == b[0] && a[1..] == b[1..];
      assert cs[0] == ds[0];
      RestDistinct(s, cs[0]);
      RunsDiffer(Swap(s, cs[0], |s| - 1)[..|s| - 1], cs[1..], ds[1..]);
      assert cs == [cs[0]] + cs[1..] && ds == [ds[0]] + ds[1..];
    }
  }

  /** Any selection in any order can be drawn. */
  lemma {:induction false} AllAreDrawn<T>(s: seq<T>, want: seq<T>) returns (cs: seq<nat>)
    requires multiset(want) <= multiset(s)
    ensures |cs| == |want| && Drawable(cs, |s|) && Drawn(s, cs) == want
    decreases |want|
  {
    cs := [];
    if want != [] {
      var x, rest := want[0], want[1..];
      assert want == [x] + rest;
      assert x in multiset(s);
      var j :| 0 <= j < |s| && s[j] == x;
      var u := Swap(s, j, |s| - 1)[..|s| - 1];
      SwapSplits(s, j);
      assert multiset(want) == multiset(rest) + multiset{x};
      CancelOne(multiset(rest), multiset(u), x);
      cs := AllAreDrawn(u, rest);
      cs := Prepend(j, cs, |s|);
    }
  }

  /** Every selection of different elements, in every order, comes of exactly one sequence of numbers. */
  lemma {:induction false} DrawnReachesOnce<T>(s: seq<T>, want: seq<T>) returns (cs: seq<nat>)
    requires Distinct(s) && multiset(want) <= multiset(s)
    ensures |cs| == |want| && Drawable(cs, |s|) && Drawn(s, cs) == want
    ensures forall ds :: |ds| == |want| && Drawable(ds, |s|) && Drawn(s, ds) == want ==> ds == cs
  {
    cs := AllAreDrawn(s, want);
    forall ds | |ds| == |want| && Drawable(ds, |s|) && Drawn(s, ds) == want ensures ds == cs {
      RunsDiffer(s, cs, ds);
    }
  }

  lemma {:induction false} CancelOne<T>(a: multiset<T>, b: multiset<T>, x: T)
    requires a + multiset{x} <= b + multiset{x}
    ensures a <= b
  {
    forall y | y in a ensures a[y] <= b[y] {
      assert (a + multiset{x})[y] <= (b + multiset{x})[y];
    }
  }

  lemma {:induction false} Prepend(j: nat, ds: seq<nat>, n: nat) returns (cs: seq<nat>)
    requires j < n && Drawable(ds, n - 1)
    ensures cs == [j] + ds && Drawable(cs, n) && cs[1..] == ds
  {
    cs := [j] + ds;
  }

  // ---------- Any array ----------

  ghost predicate Within(ps: seq<nat>, n: nat) {
    forall k :: 0 <= k < |ps| ==> ps[k] < n
  }

  /** The elements of `s` at some positions. */
  function At<T>(s: seq<T>, ps: seq<nat>): (r: seq<T>)
    requires Within(ps, |s|)
    ensures |r| == |ps|
  {
    seq(|ps|, k requires 0 <= k < |ps| && Within(ps, |s|) => s[ps[k]])
  }

  lemma {:induction false} RunWithin(ps: seq<nat>, cs: seq<nat>, n: nat)
    requires Within(ps, n) && Drawable(cs, |ps|)
    ensures Within(Run<nat>(ps, cs), n)
    decreases |cs|
  {
    if cs != [] {
      RunWithin(Swap<nat>(ps, cs[0], |ps| - 1)[..|ps| - 1], cs[1..], n);
    }
  }

  /** A run does not look at the elements: it moves positions. */
  lemma {:induction false} RunMovesPositions<T>(s: seq<T>, ps: seq<nat>, cs: seq<nat>)
    requires Within(ps, |s|) && Drawable(cs, |ps|)
    ensures Within(Run<nat>(ps, cs), |s|) && Run(At(s, ps), cs) == At(s, Run<nat>(ps, cs))
    decreases |cs|
  {
    RunWithin(ps, cs, |s|);
    if cs != [] {
      var n := |ps| - 1;
      var us := Swap<nat>(ps, cs[0], n)[..n];
      RunMovesPositions(s, us, cs[1..]);
      AtSwap(s, ps, cs[0]);
      AtSnoc(s, Run<nat>(us, cs[1..]), ps[cs[0]]);
    }
  }

  lemma {:induction false} AtSwap<T>(s: seq<T>, ps: seq<nat>, i: nat)
    requires Within(ps, |s|) && i < |ps|
    ensures Within(Swap<nat>(ps, i, |ps| - 1)[..|ps| - 1], |s|)
    ensures Swap(At(s, ps), i, |ps| - 1)[..|ps| - 1] == At(s, Swap<nat>(ps, i, |ps| - 1)[..|ps| - 1])
  {
  }

  lemma {:induction false} AtSnoc<T>(s: seq<T>, ps: seq<nat>, p: nat)
    requires Within(ps, |s|) && p < |s|
    ensures Within(ps + [p], |s|) && At(s, ps + [p]) == At(s, ps) + [s[p]]
  {
  }

  // ---------- Shuffle ----------

  function Reversed<T>(s: seq<T>): (r: seq<T>)
    ensures |r| == |s|
    ensures forall k :: 0 <= k < |s| ==> r[k] == s[|s| - 1 - k]
  {
    if s == [] then [] else [s[|s| - 1]] + Reversed(s[..|s| - 1])
  }

  lemma {:induction false} ReversedPermutes<T>(s: seq<T>)
    ensures multiset(Reversed(s)) == multiset(s)
  {
    if s != [] {
      ReversedPermutes(s[..|s| - 1]);
      assert s == s[..|s| - 1] + [s[|s| - 1]];
    }
  }

  lemma {:induction false} RunEndsInDraws<T>(s: seq<T>, cs: seq<nat>)
    requires Drawable(cs, |s|)
    ensures Run(s, cs)[|s| - |cs|..] == Reversed(Drawn(s, cs))
  {
    var r, d := Run(s, cs)[|s| - |cs|..], Reversed(Drawn(s, cs));
    forall k | 0 <= k < |cs| ensures r[k] == d[k] {
      DrawnAreLast(s, cs, |cs| - 1 - k);
    }
  }

  lemma {:induction false} ReversedInjective<T>(a: seq<T>, b: seq<T>)
    requires Reversed(a) == Reversed(b)
    ensures a == b
  {
    assert forall k :: 0 <= k < |a| ==> a[k] == Reversed(a)[|a| - 1 - k];
    assert forall k :: 0 <= k < |b| ==> b[k] == Reversed(b)[|b| - 1 - k];
  }

  lemma {:induction false} ReversedTwice<T>(s: seq<T>)
    ensures Reversed(Reversed(s)) == s
  {
  }

  /** One number for every position but the last. */
  ghost predicate Shuffling(cs: seq<nat>, n: nat) {
    Drawable(cs, n) && |cs| == if n == 0 then 0 else n - 1
  }

  lemma {:induction false} SameFirst<T>(a: seq<T>, b: seq<T>)
    requires a != [] && b != [] && multiset(a) == multiset(b) && a[1..] == b[1..]
    ensures a == b
  {
    assert a == [a[0]] + a[1..] && b == [b[0]] + b[1..];
    assert multiset(a) == multiset{a[0]} + multiset(a[1..]);
    assert multiset(b) == multiset{b[0]} + multiset(a[1..]);
    assert multiset(a)[a[0]] == 1 + multiset(a[1..])[a[0]];
  }

  /** Every permutation of different elements comes of exactly one sequence of numbers. */
  lemma {:induction false} ShuffleReachesOnce<T>(s: seq<T>, p: seq<T>) returns (cs: seq<nat>)
    requires Distinct(s) && multiset(p) == multiset(s)
    ensures Shuffling(cs, |s|) && Run(s, cs) == p
    ensures forall ds :: Shuffling(ds, |s|) && Run(s, ds) == p ==> ds == cs
  {
    assert |multiset(p)| == |p| && |multiset(s)| == |s|;
    if s == [] {
      cs := [];
    } else {
      cs := RunTo(s, p);
      forall ds | Shuffling(ds, |s|) && Run(s, ds) == p ensures ds == cs {
        OneRunTo(s, cs, ds);
      }
    }
  }

  lemma {:induction false} RunTo<T>(s: seq<T>, p: seq<T>) returns (cs: seq<nat>)
    requires s != [] && |p| == |s| && multiset(p) == multiset(s)
    ensures Shuffling(cs, |s|) && Run(s, cs) == p
  {
    assert p == [p[0]] + p[1..];
    ReversedPermutes(p[1..]);
    cs := AllAreDrawn(s, Reversed(p[1..]));
    RunEndsInDraws(s, cs);
    ReversedTwice(p[1..]);
    RunPermutes(s, cs);
    SameFirst(Run(s, cs), p);
  }

  lemma {:induction false} OneRunTo<T>(s: seq<T>, cs: seq<nat>, ds: seq<nat>)
    requires Distinct(s) && Drawable(cs, |s|) && Drawable(ds, |s|) && |cs| == |ds| && Run(s, cs) == Run(s, ds)
    ensures cs == ds
  {
    RunEndsInDraws(s, cs);
    RunEndsInDraws(s, ds);
    ReversedInjective(Drawn(s, cs), Drawn(s, ds));
    RunsDiffer(s, cs, ds);
  }

  method SwapAt<T>(arr: array<T>, i: nat, j: nat)
    requires i < arr.Length && j < arr.Length
    modifies arr
    ensures arr[..] == Swap(old(arr[..]), i, j)
  {
    arr[i], arr[j] := arr[j], arr[i];
  }

  /** `cs` are the numbers drawn. */
  method Shuffle(arr: array<int>, cs: seq<nat>)
    requires Shuffling(cs, arr.Length)
    modifies arr
    ensures arr[..] == Run(old(arr[..]), cs)
  {
    var size := arr.Length;
    ghost var was := arr[..];
    NothingToShuffle(was, cs);
    if size == 0 {
      return;
    }
    var i := size - 1;
    while i > 0
      invariant 0 <= i < size && ShuffledTo(was, cs, arr[..], i)
    {
      var j := cs[size - 1 - i];
      ghost var now := arr[..];
      ShufflesOn(was, cs, now, i);
      SwapAt(arr, j, i);
      assert arr[..] == Swap(now, j, i);
      i := i - 1;
    }
    ShuffledAll(was, cs, arr[..]);
  }

  /** The positions above `i` are settled. */
  ghost predicate ShuffledTo<T>(was: seq<T>, cs: seq<nat>, now: seq<T>, i: nat)
    requires Shuffling(cs, |was|)
  {
    i < |was| && Running(was, cs, now, |was| - 1 - i)
  }

  lemma {:induction false} NothingToShuffle<T>(was: seq<T>, cs: seq<nat>)
    requires Shuffling(cs, |was|)
    ensures if was == [] then Run(was, cs) == was else ShuffledTo(was, cs, was, |was| - 1)
  {
    RunningStart(was, cs);
  }

  lemma {:induction false} ShuffledAll<T>(was: seq<T>, cs: seq<nat>, now: seq<T>)
    requires Shuffling(cs, |was|) && ShuffledTo(was, cs, now, 0)
    ensures now == Run(was, cs)
  {
    RunningDone(was, cs, now);
  }

  lemma {:induction false} ShufflesOn<T>(was: seq<T>, cs: seq<nat>, now: seq<T>, i: nat)
    requires Shuffling(cs, |was|) && ShuffledTo(was, cs, now, i) && i > 0
    ensures var j := cs[|was| - 1 - i]; j <= i < |now| && ShuffledTo(was, cs, Swap(now, j, i), i - 1)
  {
    RunningNext(was, cs, now, |was| - 1 - i);
  }

  /** `now` is `was` after the first `t` swaps. */
  ghost predicate Running<T>(was: seq<T>, cs: seq<nat>, now: seq<T>, t: nat)
    requires Drawable(cs, |was|)
  {
    && t <= |cs| && |now| == |was|
    && Run(was, cs) == Run(now[..|now| - t], cs[t..]) + now[|now| - t..]
  }

  lemma {:induction false} RunningStart<T>(was: seq<T>, cs: seq<nat>)
    requires Drawable(cs, |was|)
    ensures Running(was, cs, was, 0)
  {
    assert was[..|was|] == was && cs[0..] == cs;
  }

  lemma {:induction false} RunningNext<T>(was: seq<T>, cs: seq<nat>, now: seq<T>, t: nat)
    requires Drawable(cs, |was|) && Running(was, cs, now, t) && t < |cs|
    ensures Running(was, cs, Swap(now, cs[t], |now| - 1 - t), t + 1)
  {
    var l := |now| - t;
    var next := Swap(now, cs[t], l - 1);
    var head := now[..l];
    assert next[..l - 1] == Swap(head, cs[t], l - 1)[..l - 1];
    assert next[l - 1..] == [head[cs[t]]] + now[l..];
    assert cs[t..][0] == cs[t] && cs[t..][1..] == cs[t + 1..];
  }

  lemma {:induction false} RunningDone<T>(was: seq<T>, cs: seq<nat>, now: seq<T>)
    requires Drawable(cs, |was|) && Running(was, cs, now, |cs|)
    ensures now == Run(was, cs)
  {
    assert now == now[..|now| - |cs|] + now[|now| - |cs|..];
  }

  // ---------- Drawing without replacement ----------

  /**
   The loop that draws `num` elements of an array and swaps each behind those not drawn. It draws
   until it has that many, so for a negative number it draws them all and then panics on none left.
   */
  method Draw<T>(raws: array<T>, num: int, cs: seq<nat>) returns (plist: Result<seq<T>>)
    requires num <= raws.Length && |cs| == Draws(raws.Length, num) && Drawable(cs, raws.Length)
    modifies raws
    ensures plist == if num < 0 then Panic else Ok(Drawn(old(raws[..]), cs))
    ensures raws[..] == Run(old(raws[..]), cs)
  {
    ghost var was := raws[..];
    var drawn: seq<T> := [];
    var l := raws.Length;
    var i := 0;
    RunningStart(was, cs);
    while i != num
      invariant 0 <= i <= |cs| && l == raws.Length - i
      invariant Drawing(was, cs, raws[..], i, drawn)
      decreases l
    {
      if l == 0 {
        DrawingDone(was, cs, raws[..], drawn);
        return Panic;
      }
      var n := cs[i];
      ghost var now := raws[..];
      DrawingNext(was, cs, now, i, drawn);
      drawn := drawn + [raws[n]];
      SwapAt(raws, n, l - 1);
      assert raws[..] == Swap(now, cs[i], |now| - 1 - i);
      l := l - 1;
      i := i + 1;
    }
    DrawingDone(was, cs, raws[..], drawn);
    plist := Ok(drawn);
  }

  /** How many are drawn before it ends. */
  function Draws(n: nat, num: int): nat {
    if num < 0 then n else num
  }

  /** `now` is `was` after the first `t` draws, and these are what was drawn. */
  ghost predicate Drawing<T>(was: seq<T>, cs: seq<nat>, now: seq<T>, t: nat, drawn: seq<T>)
    requires Drawable(cs, |was|)
  {
    Running(was, cs, now, t) && drawn == Reversed(now[|now| - t..])
  }

  lemma {:induction false} DrawingNext<T>(was: seq<T>, cs: seq<nat>, now: seq<T>, t: nat, drawn: seq<T>)
    requires Drawable(cs, |was|) && Drawing(was, cs, now, t, drawn) && t < |cs|
    ensures Drawing(was, cs, Swap(now, cs[t], |now| - 1 - t), t + 1, drawn + [now[cs[t]]])
  {
    RunningNext(was, cs, now, t);
    DrawnNext(now, cs[t], t, drawn);
  }

  lemma {:induction false} DrawnNext<T>(now: seq<T>, i: nat, t: nat, drawn: seq<T>)
    requires t < |now| && i < |now| - t && drawn == Reversed(now[|now| - t..])
    ensures drawn + [now[i]] == Reversed(Swap(now, i, |now| - 1 - t)[|now| - 1 - t..])
  {
    SwappedIn(now, i, |now| - 1 - t);
  }

  lemma {:induction false} DrawingDone<T>(was: seq<T>, cs: seq<nat>, now: seq<T>, drawn: seq<T>)
    requires Drawable(cs, |was|) && Drawing(was, cs, now, |cs|, drawn)
    ensures now == Run(was, cs) && drawn == Drawn(was, cs)
  {
    RunningDone(was, cs, now);
    RunEndsInDraws(was, cs);
    ReversedTwice(Drawn(was, cs));
  }

  lemma {:induction false} SwappedIn<T>(s: seq<T>, i: nat, j: nat)
    requires i <= j < |s|
    ensures Reversed(Swap(s, i, j)[j..]) == Reversed(s[j + 1..]) + [s[i]]
  {
    var a, b := Swap(s, i, j)[j..], s[j + 1..];
    assert a == [s[i]] + b;
  }

  method RandCopy<T>(raws: array<T>, num: int, cs: seq<nat>) returns (rc: Result<seq<T>>)
    requires num <= raws.Length ==> |cs| == Draws(raws.Length, num) && Drawable(cs, raws.Length)
    modifies raws
    ensures num > raws.Length ==> rc == Ok(old(raws[..])) && raws[..] == old(raws[..])
    ensures num <= raws.Length ==> raws[..] == Run(old(raws[..]), cs)
    ensures num <= raws.Length ==> rc == if num < 0 then Panic else Ok(Drawn(old(raws[..]), cs))
    ensures num >= 0 ==> rc.Ok? && |rc.value| == if num > raws.Length then raws.Length else num
  {
    if num > raws.Length {
      rc := Ok(raws[..]);
    } else {
      rc := Draw(raws, num, cs);
    }
  }

  /** The elements drawn stand at different positions of the array, whatever they are. */
  lemma {:induction false} DrawnPositions<T>(s: seq<T>, cs: seq<nat>) returns (ps: seq<nat>)
    requires Drawable(cs, |s|)
    ensures Distinct(ps) && Within(ps, |s|) && Drawn(s, cs) == At(s, ps)
    ensures |ps| == |cs| && multiset(s) == multiset(Run(s, cs))
  {
    var all: seq<nat> := Positions(|s|);
    assert At(s, all) == s;
    RunPermutes(s, cs);
    DrawnDistinct<nat>(all, cs);
    DrawnMovesPositions(s, all, cs);
    ps := Drawn<nat>(all, cs);
  }

  lemma {:induction false} DrawnMovesPositions<T>(s: seq<T>, ps: seq<nat>, cs: seq<nat>)
    requires Within(ps, |s|) && Drawable(cs, |ps|)
    ensures Within(Drawn<nat>(ps, cs), |s|) && Drawn(At(s, ps), cs) == At(s, Drawn<nat>(ps, cs))
  {
    var ds := Drawn<nat>(ps, cs);
    RunMovesPositions(s, ps, cs);
    forall t | 0 <= t < |cs| ensures ds[t] < |s| && Drawn(At(s, ps), cs)[t] == s[ds[t]] {
      DrawnAreLast<nat>(ps, cs, t);
      DrawnAreLast(At(s, ps), cs, t);
    }
  }

  function Positions(n: nat): seq<nat> { seq(n, k => k) }

  lemma {:induction false} DrawnDistinct<T>(s: seq<T>, cs: seq<nat>)
    requires Distinct(s) && Drawable(cs, |s|)
    ensures Distinct(Drawn(s, cs)) && forall x :: x in Drawn(s, cs) ==> x in s
    decreases |cs|
  {
    if cs != [] {
      var u := Swap(s, cs[0], |s| - 1)[..|s| - 1];
      RestDistinct(s, cs[0]);
      DrawnDistinct(u, cs[1..]);
      assert forall x :: x in u ==> x in s && x != s[cs[0]];
      var rest := Drawn(u, cs[1..]);
      assert forall k :: 0 <= k < |rest| ==> rest[k] in rest;
      assert Drawn(s, cs) == [s[cs[0]]] + rest;
    }
  }

  // ---------- Priority ----------

  /** The elements for which `on` holds, or does not hold, in order. */
  function Filter<T>(s: seq<T>, on: T -> bool, want: bool): (r: seq<T>)
    ensures forall k :: 0 <= k < |r| ==> on(r[k]) == want
  {
    if s == [] then [] else
    var n := |s| - 1;
    var r := Filter(s[..n], on, want);
    assert s == s[..n] + [s[n]];
    if on(s[n]) == want then r + [s[n]] else r
  }

  /** The ads of the channel first, and others drawn to make up the number. */
  ghost function Priority<T>(s: seq<T>, on: T -> bool, num: nat, cs: seq<nat>): seq<T>
    requires num < |s| ==> DrawsOthers(s, on, num, cs)
  {
    var ps := Filter(s, on, true);
    if num >= |s| then s
    else if num <= |ps| then ps[..num]
    else ps + Drawn(Filter(s, on, false), cs)
  }

  /** The numbers drawn are as many as the ads that are missing. */
  ghost predicate DrawsOthers<T>(s: seq<T>, on: T -> bool, num: nat, cs: seq<nat>) {
    var missing := num - |Filter(s, on, true)|;
    |cs| == (if missing > 0 then missing else 0) && Drawable(cs, |Filter(s, on, false)|)
  }

  lemma {:induction false} FilterSplits<T>(s: seq<T>, on: T -> bool)
    ensures multiset(s) == multiset(Filter(s, on, true)) + multiset(Filter(s, on, false))
    ensures |s| == |Filter(s, on, true)| + |Filter(s, on, false)|
  {
    if s != [] {
      var n := |s| - 1;
      FilterSplits(s[..n], on);
      assert multiset(s) == multiset(s[..n]) + multiset{s[n]} by { assert s == s[..n] + [s[n]]; }
      SnocMultiset(Filter(s[..n], on, true), s[n]);
      SnocMultiset(Filter(s[..n], on, false), s[n]);
    }
  }

  lemma {:induction false} SnocMultiset<T>(s: seq<T>, x: T)
    ensures multiset(s + [x]) == multiset(s) + multiset{x}
  {
  }

  /** The elements that were kept stand in the order they had, and none that qualifies is missing. */
  lemma {:induction false} FilterInOrder<T>(s: seq<T>, on: T -> bool, want: bool) returns (ps: seq<nat>)
    ensures Within(ps, |s|) && Filter(s, on, want) == At(s, ps)
    ensures forall i, j :: 0 <= i < j < |ps| ==> ps[i] < ps[j]
    ensures forall k :: 0 <= k < |s| ==> (on(s[k]) == want <==> k in ps)
  {
    if s == [] {
      ps := [];
    } else {
      var n := |s| - 1;
      ps := FilterInOrder(s[..n], on, want);
      KeptBefore(s, n, ps);
      if on(s[n]) == want { ps := ps + [n]; }
    }
  }

  lemma {:induction false} KeptBefore<T>(s: seq<T>, n: nat, ps: seq<nat>)
    requires n < |s| && Within(ps, n)
    ensures Within(ps + [n], |s|) && At(s, ps) == At(s[..n], ps) && At(s, ps + [n]) == At(s[..n], ps) + [s[n]]
  {
  }

  /**
   There are exactly `num` of them, or all; no other is taken while there are ads of the channel; none is
   taken twice.
   */
  lemma {:induction false} PriorityIsPrefix<T>(s: seq<T>, on: T -> bool, num: nat, cs: seq<nat>)
    requires num < |s| && DrawsOthers(s, on, num, cs)
    ensures var r, ps := Priority(s, on, num, cs), Filter(s, on, true);
            && |r| == num && (if num <= |ps| then r <= ps else ps <= r)
            && (forall k :: 0 <= k < |r| ==> (on(r[k]) <==> k < |ps|))
            && multiset(r) <= multiset(s)
  {
    var ps, os := Filter(s, on, true), Filter(s, on, false);
    FilterSplits(s, on);
    if num <= |ps| {
      assert ps == ps[..num] + ps[num..];
    } else {
      DrawnWithin(os, cs);
      OthersAreOff(s, on, cs);
    }
  }

  lemma {:induction false} OthersAreOff<T>(s: seq<T>, on: T -> bool, cs: seq<nat>)
    requires Drawable(cs, |Filter(s, on, false)|)
    ensures forall k :: 0 <= k < |cs| ==> !on(Drawn(Filter(s, on, false), cs)[k])
  {
    var os := Filter(s, on, false);
    DrawnWithin(os, cs);
    forall k | 0 <= k < |cs| ensures !on(Drawn(os, cs)[k]) {
      assert Drawn(os, cs)[k] in os;
    }
  }

  lemma {:induction false} DrawnWithin<T>(s: seq<T>, cs: seq<nat>)
    requires Drawable(cs, |s|)
    ensures multiset(Drawn(s, cs)) <= multiset(s)
    ensures forall k :: 0 <= k < |cs| ==> Drawn(s, cs)[k] in multiset(s)
  {
    var r := Run(s, cs);
    RunPermutes(s, cs);
    RunEndsInDraws(s, cs);
    ReversedPermutes(Drawn(s, cs));
    assert r == r[..|s| - |cs|] + r[|s| - |cs|..];
    assert forall k :: 0 <= k < |cs| ==> Drawn(s, cs)[k] in multiset(Drawn(s, cs));
  }

  /** A negative number panics where the list is cut. */
  method PriorityCopy<T(0)>(raws: seq<T>, onChannel: T -> bool, adNum: int, cs: seq<nat>) returns (rc: Result<seq<T>>)
    requires 0 <= adNum < |raws| ==> DrawsOthers(raws, onChannel, adNum, cs)
    ensures rc == if adNum < 0 then Panic else Ok(Priority(raws, onChannel, adNum, cs))
  {
    if adNum >= |raws| {
      return Ok(raws);
    }
    var pList, otherList: seq<T> := [], [];
    for i := 0 to |raws|
      invariant pList == Filter(raws[..i], onChannel, true) && otherList == Filter(raws[..i], onChannel, false)
    {
      assert raws[..i + 1][..i] == raws[..i];
      if onChannel(raws[i]) {
        pList := pList + [raws[i]];
      } else {
        otherList := otherList + [raws[i]];
      }
    }
    assert raws[..|raws|] == raws;
    if adNum > |pList| {
      FilterSplits(raws, onChannel);
      var drawn := DrawOthers(otherList, adNum - |pList|, cs);
      pList := pList + drawn;
      assert pList[..adNum] == pList;
    }
    rc := if adNum < 0 then Panic else Ok(pList[..adNum]);
  }

  method DrawOthers<T(0)>(otherList: seq<T>, num: nat, cs: seq<nat>) returns (drawn: seq<T>)
    requires |cs| == num <= |otherList| && Drawable(cs, |otherList|)
    ensures drawn == Drawn(otherList, cs)
  {
    var others := new T[|otherList|];
    forall k | 0 <= k < |otherList| {
      others[k] := otherList[k];
    }
    assert others[..] == otherList;
    var r := Draw(others, num, cs);
    drawn := r.value;
  }
}
