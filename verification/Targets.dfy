/** The targeting conditions of an ad and the text they are printed as (src/raw_ad/raw_ad.go). */
module Targets {
  import opened Options
  import opened Text

  datatype Target = Target(key: string, belong: bool, vals: seq<string>)

  /** One call of AddTarget. */
  datatype Call = Call(key: string, value: string, belong: bool) {
    function New(): Target { Target(key, belong, [value]) }
  }

  // ---------- One call ----------

  /** The first target for a key, or the length. */
  function Find(ts: seq<Target>, key: string): (i: nat)
    ensures i <= |ts| && (forall k :: 0 <= k < i ==> ts[k].key != key) && (i < |ts| ==> ts[i].key == key)
  {
    if ts == [] || ts[0].key == key then 0 else Find(ts[1..], key) + 1
  }

  function Append(t: Target, value: string): Target {
    if value in t.vals then t else t.(vals := t.vals + [value])
  }

  function Add(ts: seq<Target>, c: Call): seq<Target> {
    var i := Find(ts, c.key);
    if i == |ts| then ts + [c.New()]
    else if ts[i].belong == c.belong then ts[i := Append(ts[i], c.value)]
    else if c.belong then ts[..i] + ts[i + 1..] + [c.New()]
    else ts
  }

  // ---------- The text ----------

  function Print(t: Target): string {
    t.key + " " + (if t.belong then "in" else "not in") + " { " + Join(t.vals, ",") + " }"
  }

  function Prints(ts: seq<Target>): seq<string> {
    if ts == [] then [] else Prints(ts[..|ts| - 1]) + [Print(ts[|ts| - 1])]
  }

  function Conjunction(ts: seq<Target>): string {
    "( " + Join(Prints(ts), " and ") + " )"
  }

  class RawAdObj {
    var targets: seq<Target>
    var dnf: string

    constructor ()
      ensures targets == AddAll([]) && dnf == ""
    {
      targets, dnf := [], "";
    }

    method AddTarget(key: string, value: string, belong: bool)
      modifies this`targets
      ensures targets == Add(old(targets), Call(key, value, belong))
    {
      var i := 0;
      while i != |targets|
        invariant i <= |targets| && targets == old(targets)
        invariant forall k :: 0 <= k < i ==> targets[k].key != key
      {
        var t := targets[i];
        if t.key == key {
          if t.belong != belong {
            if belong {
              targets := targets[..i] + targets[i + 1..];
              break;
            } else {
              return;
            }
          } else {
            for j := 0 to |t.vals|
              invariant value !in t.vals[..j]
            {
              if t.vals[j] == value {
                assert targets[i := t] == targets;
                return;
              }
            }
            targets := targets[i := t.(vals := t.vals + [value])];
          }
          return;
        }
        i := i + 1;
      }
      targets := targets + [Target(key, belong, [value])];
    }

    /** Without targets the text stays what it was. */
    method GenDnf()
      modifies this`dnf
      ensures dnf == if targets == [] then old(dnf) else Conjunction(targets)
    {
      var amts: seq<string> := [];
      for i := 0 to |targets|
        invariant amts == Prints(targets[..i])
      {
        var t := targets[i];
        var op := if t.belong then "in" else "not in";
        assert targets[..i + 1][..i] == targets[..i];
        amts := amts + [t.key + " " + op + " { " + Join(t.vals, ",") + " }"];
      }
      assert targets[..|targets|] == targets;
      if |amts| != 0 {
        dnf := "( " + Join(amts, " and ") + " )";
      }
    }
  }

  // ---------- Any calls ----------

  function AddAll(calls: seq<Call>): seq<Target> {
    if calls == [] then [] else Add(AddAll(calls[..|calls| - 1]), calls[|calls| - 1])
  }

  ghost predicate UniqueKeys(ts: seq<Target>) {
    forall i, j :: 0 <= i < j < |ts| ==> ts[i].key != ts[j].key
  }

  function Lookup(ts: seq<Target>, key: string): Option<Target> {
    var i := Find(ts, key);
    if i < |ts| then Some(ts[i]) else None
  }

  /** The values added for a key as "in", or as "not in", each where it was first added. */
  function Values(calls: seq<Call>, key: string, belong: bool): seq<string> {
    if calls == [] then [] else
    var vs, c := Values(calls[..|calls| - 1], key, belong), calls[|calls| - 1];
    if c.key == key && c.belong == belong && c.value !in vs then vs + [c.value] else vs
  }

  /** "in" wins over "not in". */
  function Condition(key: string, ins: seq<string>, outs: seq<string>): Option<Target> {
    if ins != [] then Some(Target(key, true, ins))
    else if outs != [] then Some(Target(key, false, outs))
    else None
  }

  function ConditionOf(calls: seq<Call>, key: string): Option<Target> {
    Condition(key, Values(calls, key, true), Values(calls, key, false))
  }

  /** The call whose target for the key is still there: the first "in", or else the first "not in". */
  function Birth(calls: seq<Call>, key: string): nat {
    var i := First(calls, key, true);
    if i < |calls| then i else First(calls, key, false)
  }

  function First(calls: seq<Call>, key: string, belong: bool): (i: nat)
    ensures i <= |calls|
    ensures forall k :: 0 <= k < i ==> !(calls[k].key == key && calls[k].belong == belong)
    ensures i < |calls| ==> calls[i].key == key && calls[i].belong == belong
  {
    if calls == [] then 0 else
    var n := |calls| - 1;
    var i := First(calls[..n], key, belong);
    if i < n then i else if calls[n].key == key && calls[n].belong == belong then n else n + 1
  }

  ghost predicate InBirthOrder(ts: seq<Target>, calls: seq<Call>) {
    forall i, j :: 0 <= i < j < |ts| ==> Birth(calls, ts[i].key) < Birth(calls, ts[j].key)
  }

  /**
   Whatever the calls were, every key has at most one target. It holds the "in" values if any were
   added, else the "not in" values; the targets stand in the order of the calls they date from.
   */
  lemma {:induction false} TargetsAreConditions(calls: seq<Call>)
    ensures UniqueKeys(AddAll(calls)) && InBirthOrder(AddAll(calls), calls)
    ensures forall key :: Lookup(AddAll(calls), key) == ConditionOf(calls, key)
  {
    if calls != [] {
      var n := |calls| - 1;
      var ts, c := AddAll(calls[..n]), calls[n];
      TargetsAreConditions(calls[..n]);
      AddKeepsUnique(ts, c);
      forall key ensures Lookup(Add(ts, c), key) == ConditionOf(calls, key) {
        AddAt(ts, c, key);
        MergedIsCondition(calls, key);
      }
      AddKeepsOrder(ts, calls);
    }
  }

  lemma {:induction false} ValueWasAdded(calls: seq<Call>, key: string, belong: bool, v: string)
    ensures v in Values(calls, key, belong) <==> FirstOf(calls, Call(key, v, belong)) < |calls|
  {
    if calls != [] {
      ValueWasAdded(calls[..|calls| - 1], key, belong, v);
    }
  }

  ghost predicate FirstSeenOrder(vs: seq<string>, calls: seq<Call>, key: string, belong: bool) {
    forall i, j :: 0 <= i < j < |vs| ==>
      FirstOf(calls, Call(key, vs[i], belong)) < FirstOf(calls, Call(key, vs[j], belong))
  }

  /** The values of a key are exactly those added for it, in the order of the calls that first added them. */
  lemma {:induction false} ValuesAreFirstSeen(calls: seq<Call>, key: string, belong: bool)
    ensures forall v :: v in Values(calls, key, belong) <==> Call(key, v, belong) in calls
    ensures FirstSeenOrder(Values(calls, key, belong), calls, key, belong)
  {
    forall v ensures v in Values(calls, key, belong) <==> Call(key, v, belong) in calls {
      ValueWasAdded(calls, key, belong, v);
    }
    if calls != [] {
      var n := |calls| - 1;
      ValuesAreFirstSeen(calls[..n], key, belong);
      forall i | 0 <= i < |Values(calls[..n], key, belong)|
        ensures var c := Call(key, Values(calls[..n], key, belong)[i], belong);
                FirstOf(calls, c) == FirstOf(calls[..n], c) < n
      {
        ValueWasAdded(calls[..n], key, belong, Values(calls[..n], key, belong)[i]);
      }
      LastSeen(Values(calls[..n], key, belong), calls, key, belong);
    }
  }

  lemma {:induction false} LastSeen(vs: seq<string>, calls: seq<Call>, key: string, belong: bool)
    requires calls != [] && FirstSeenOrder(vs, calls[..|calls| - 1], key, belong)
    requires forall i :: 0 <= i < |vs| ==>
      var c := Call(key, vs[i], belong); FirstOf(calls, c) == FirstOf(calls[..|calls| - 1], c) < |calls| - 1
    ensures FirstSeenOrder(vs, calls, key, belong)
    ensures var c := calls[|calls| - 1];
            c.key == key && c.belong == belong && c.value !in vs && FirstOf(calls, c) == |calls| - 1
            ==> FirstSeenOrder(vs + [c.value], calls, key, belong)
  {
  }

  /** The first call of its kind, or the length. */
  function FirstOf(calls: seq<Call>, c: Call): (i: nat)
    ensures i <= |calls| && (i < |calls| ==> calls[i] == c) && forall k :: 0 <= k < i ==> calls[k] != c
  {
    if calls == [] then 0 else
    var n := |calls| - 1;
    var i := FirstOf(calls[..n], c);
    if i < n || calls[n] == c then i else n + 1
  }

  // ---------- One more call ----------

  function Merged(o: Option<Target>, c: Call): Target {
    match o
    case None => c.New()
    case Some(t) => if t.belong == c.belong then Append(t, c.value) else if c.belong then c.New() else t
  }

  lemma {:induction false} LookupIs(ts: seq<Target>, i: nat)
    requires UniqueKeys(ts) && i < |ts|
    ensures Find(ts, ts[i].key) == i && Lookup(ts, ts[i].key) == Some(ts[i])
  {
  }

  lemma {:induction false} AddKeepsUnique(ts: seq<Target>, c: Call)
    requires UniqueKeys(ts)
    ensures UniqueKeys(Add(ts, c))
  {
    var i := Find(ts, c.key);
    if i < |ts| && c.belong != ts[i].belong && c.belong {
      var rest := ts[..i] + ts[i + 1..];
      forall a, b | 0 <= a < b < |rest| ensures rest[a].key != rest[b].key {
        assert rest[a] == ts[if a < i then a else a + 1];
        assert rest[b] == ts[if b < i then b else b + 1];
      }
      forall a | 0 <= a < |rest| ensures rest[a].key != c.key {
        assert rest[a] == ts[if a < i then a else a + 1];
      }
    }
  }

  /** Where a target of the other keys goes. */
  lemma {:induction false} OthersStay(ts: seq<Target>, c: Call, j: nat) returns (k: nat)
    requires UniqueKeys(ts) && j < |ts| && ts[j].key != c.key
    ensures k < |Add(ts, c)| && Add(ts, c)[k] == ts[j]
  {
    var i := Find(ts, c.key);
    k := if i < |ts| && ts[i].belong != c.belong && c.belong && j > i then j - 1 else j;
  }

  /** And where a target of the other keys comes from. */
  lemma {:induction false} OthersWere(ts: seq<Target>, c: Call, k: nat) returns (j: nat)
    requires k < |Add(ts, c)| && Add(ts, c)[k].key != c.key
    ensures j < |ts| && Add(ts, c)[k] == ts[j]
  {
    var i := Find(ts, c.key);
    j := if i < |ts| && ts[i].belong != c.belong && c.belong && k >= i then k + 1 else k;
  }

  lemma {:induction false} OwnIs(ts: seq<Target>, c: Call) returns (k: nat)
    requires UniqueKeys(ts)
    ensures k < |Add(ts, c)| && Add(ts, c)[k] == Merged(Lookup(ts, c.key), c)
  {
    var i := Find(ts, c.key);
    k := if i == |ts| || ts[i].belong == c.belong || !c.belong then i else |ts| - 1;
  }

  lemma {:induction false} AddAt(ts: seq<Target>, c: Call, key: string)
    requires UniqueKeys(ts)
    ensures Lookup(Add(ts, c), key) == if key == c.key then Some(Merged(Lookup(ts, key), c)) else Lookup(ts, key)
  {
    AddKeepsUnique(ts, c);
    var us := Add(ts, c);
    if key == c.key {
      var k := OwnIs(ts, c);
      LookupIs(us, k);
    } else if Find(ts, key) < |ts| {
      var k := OthersStay(ts, c, Find(ts, key));
      LookupIs(us, k);
    } else if Find(us, key) < |us| {
      var j := OthersWere(ts, c, Find(us, key));
    }
  }

  lemma {:induction false} MergedIsCondition(calls: seq<Call>, key: string)
    requires calls != []
    ensures var c := calls[|calls| - 1];
            var before := ConditionOf(calls[..|calls| - 1], key);
            ConditionOf(calls, key) == if key == c.key then Some(Merged(before, c)) else before
  {
    var n := |calls| - 1;
    var c := calls[n];
    var ins, outs := Values(calls[..n], key, true), Values(calls[..n], key, false);
    assert [] + [c.value] == [c.value];
  }

  lemma {:induction false} FirstMeansValues(calls: seq<Call>, key: string, belong: bool)
    ensures First(calls, key, belong) < |calls| <==> Values(calls, key, belong) != []
  {
    if calls != [] {
      FirstMeansValues(calls[..|calls| - 1], key, belong);
    }
  }

  /** A target that stays keeps its birth, and one that is made anew is born now. */
  lemma {:induction false} BirthAfter(calls: seq<Call>, key: string)
    requires calls != []
    ensures var n := |calls| - 1;
            var before := ConditionOf(calls[..n], key);
            && (before.Some? ==> Birth(calls[..n], key) < n)
            && Birth(calls, key) ==
                 if key == calls[n].key && (before.None? || (calls[n].belong && !before.value.belong)) then n
                 else if before.None? then n + 1 else Birth(calls[..n], key)
  {
    var n := |calls| - 1;
    FirstMeansValues(calls[..n], key, true);
    FirstMeansValues(calls[..n], key, false);
  }

  /** The targets are as the calls but the last left them. */
  ghost predicate BeforeLast(ts: seq<Target>, calls: seq<Call>) {
    && calls != [] && UniqueKeys(ts) && InBirthOrder(ts, calls[..|calls| - 1])
    && forall key :: Lookup(ts, key) == ConditionOf(calls[..|calls| - 1], key)
  }

  ghost predicate Replaces(c: Call, t: Target) {
    t.key == c.key && c.belong && !t.belong
  }

  lemma {:induction false} BirthStays(ts: seq<Target>, calls: seq<Call>, k: nat)
    requires BeforeLast(ts, calls) && k < |ts|
    ensures Birth(calls[..|calls| - 1], ts[k].key) < |calls| - 1
    ensures !Replaces(calls[|calls| - 1], ts[k]) ==> Birth(calls, ts[k].key) == Birth(calls[..|calls| - 1], ts[k].key)
  {
    LookupIs(ts, k);
    BirthAfter(calls, ts[k].key);
  }

  lemma {:induction false} BornNow(ts: seq<Target>, calls: seq<Call>)
    requires BeforeLast(ts, calls)
    requires var i := Find(ts, calls[|calls| - 1].key); i < |ts| ==> Replaces(calls[|calls| - 1], ts[i])
    ensures Birth(calls, calls[|calls| - 1].key) == |calls| - 1
  {
    var c := calls[|calls| - 1];
    assert Lookup(ts, c.key) == ConditionOf(calls[..|calls| - 1], c.key);
    BirthAfter(calls, c.key);
  }

  lemma {:induction false} AddKeepsOrder(ts: seq<Target>, calls: seq<Call>)
    requires BeforeLast(ts, calls)
    ensures InBirthOrder(Add(ts, calls[|calls| - 1]), calls)
  {
    var c := calls[|calls| - 1];
    var i := Find(ts, c.key);
    if i == |ts| {
      BornNow(ts, calls);
      AppendKeepsOrder(ts, c.New(), calls);
    } else if Replaces(c, ts[i]) {
      BornNow(ts, calls);
      AppendKeepsOrder(ts, c.New(), calls);
    } else {
      StayInOrder(ts, Add(ts, c), calls);
    }
  }

  lemma {:induction false} StayInOrder(ts: seq<Target>, us: seq<Target>, calls: seq<Call>)
    requires BeforeLast(ts, calls)
    requires |us| == |ts| && forall k :: 0 <= k < |ts| ==>
        us[k].key == ts[k].key && !Replaces(calls[|calls| - 1], ts[k])
    ensures InBirthOrder(us, calls)
  {
    forall a, b | 0 <= a < b < |us| ensures Birth(calls, us[a].key) < Birth(calls, us[b].key) {
      BirthStays(ts, calls, a);
      BirthStays(ts, calls, b);
    }
  }

  /** The targets that stay when the target of a key, if there is one, is taken out. */
  function Others(ts: seq<Target>, key: string): seq<Target> {
    var i := Find(ts, key);
    if i == |ts| then ts else ts[..i] + ts[i + 1..]
  }

  lemma {:induction false} OthersAt(ts: seq<Target>, key: string, a: nat) returns (k: nat)
    requires UniqueKeys(ts) && a < |Others(ts, key)|
    ensures k == (if a < Find(ts, key) then a else a + 1) < |ts|
    ensures Others(ts, key)[a] == ts[k] && ts[k].key != key
  {
    var i := Find(ts, key);
    if a < i {
      k := a;
    } else {
      k := a + 1;
      WithoutAt(ts, i, a);
    }
  }

  lemma {:induction false} WithoutAt(ts: seq<Target>, i: nat, a: nat)
    requires i <= a < |ts| - 1
    ensures (ts[..i] + ts[i + 1..])[a] == ts[a + 1]
  {
  }

  lemma {:induction false} OtherBirth(ts: seq<Target>, calls: seq<Call>, a: nat) returns (k: nat)
    requires BeforeLast(ts, calls) && a < |Others(ts, calls[|calls| - 1].key)|
    ensures k == (if a < Find(ts, calls[|calls| - 1].key) then a else a + 1) < |ts|
    ensures Others(ts, calls[|calls| - 1].key)[a] == ts[k]
    ensures Birth(calls, ts[k].key) == Birth(calls[..|calls| - 1], ts[k].key) < |calls| - 1
  {
    k := OthersAt(ts, calls[|calls| - 1].key, a);
    BirthStays(ts, calls, k);
  }

  lemma {:induction false} AppendKeepsOrder(ts: seq<Target>, t: Target, calls: seq<Call>)
    requires BeforeLast(ts, calls) && t.key == calls[|calls| - 1].key && Birth(calls, t.key) == |calls| - 1
    ensures InBirthOrder(Others(ts, t.key) + [t], calls)
  {
    var rest := Others(ts, t.key);
    forall a, b | 0 <= a < b < |rest| + 1
      ensures Birth(calls, (rest + [t])[a].key) < Birth(calls, (rest + [t])[b].key)
    {
      var a' := OtherBirth(ts, calls, a);
      if b < |rest| {
        var b' := OtherBirth(ts, calls, b);
      }
    }
  }
}
