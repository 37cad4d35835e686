/**
 An empty fast result makes `ReplaceTpl` of src/raw_ad/replace.go ask for creatives a second time.
 Here is for which templates and maps the two askings can be told from one.
 */
module ReplaceAsking {
  import opened AdRequests
  import opened Creatives
  import opened Images
  import opened Macros
  import opened Options
  import opened Replace
  import opened ReplaceAgreement
  import opened ReplaceMeaning
  import opened Scanner
  import opened Text

  // ---------- When a template can vanish ----------

  /** Whether the macro at position `i` can be replaced by nothing. */
  ghost predicate Vanishes(m: map<string, string>, keys: seq<string>, i: nat)
    requires i < |keys|
  {
    var key := keys[i];
    if key in m then
      m[key] == "" && (key in keys[..i] ==> HasAt(key, 0, GLOBAL))
    else if Contains(key, IMG) then
      ReadSize(IMG, key).Some? && forall k :: 0 <= k < i ==> !IsSize(m, keys[k])
    else
      Contains(key, G_IMG) && ReadSize(G_IMG, key).Some?
  }

  ghost predicate AllVanish(m: map<string, string>, keys: seq<string>) {
    forall i :: 0 <= i < |keys| ==> Vanishes(m, keys, i)
  }

  predicate AllEmpty(texts: seq<string>) {
    forall k :: 0 <= k < |texts| ==> texts[k] == ""
  }

  /** Some creatives leave no text of the template. */
  ghost predicate CanVanish(g: Grammar, s: string, m: map<string, string>) {
    AllEmpty(SplitAtMatches(g, s)) && AllVanish(m, FindAllString(g, s))
  }

  /** The macros that the map does not replace. */
  function Unmapped(m: map<string, string>, keys: seq<string>): nat {
    if keys == [] then 0 else
    Unmapped(m, keys[..|keys| - 1]) + if keys[|keys| - 1] in m then 0 else 1
  }

  lemma {:induction false} WeaveEmpty(subs: seq<string>, texts: seq<string>)
    requires |subs| == |texts| + 1
    ensures Weave(subs, texts) == "" <==> AllEmpty(subs) && AllEmpty(texts)
    decreases |texts|
  {
    if texts != [] {
      var n := |texts| - 1;
      WeaveEmpty(subs[..n + 1], texts[..n]);
      LastEmpty(subs);
      LastEmpty(texts);
    } else {
      assert AllEmpty(subs) <==> subs[0] == "";
    }
  }

  lemma {:induction false} LastEmpty(texts: seq<string>)
    requires texts != []
    ensures AllEmpty(texts) <==> AllEmpty(texts[..|texts| - 1]) && texts[|texts| - 1] == ""
  {
    assert forall k :: 0 <= k < |texts| - 1 ==> texts[..|texts| - 1][k] == texts[k];
  }

  // ---------- An empty result means that everything vanished ----------

  /** A macro replaced by nothing is one that can be. */
  lemma {:induction false} PlacedEmpty(m: map<string, string>, ctx: Context, draws: nat, keys: seq<string>, i: nat)
    requires i < |keys| && Bracketed(keys[i]) && Placed(Job(m, keys, false), ctx, draws, i, "")
    ensures Vanishes(m, keys, i)
  {
    OpensAtStart(keys[i], IMG);
    OpensAtStart(keys[i], G_IMG);
    NotBothSizes(keys[i]);
  }

  lemma {:induction false} EmptyTexts(m: map<string, string>, ctx: Context, chosen: Option<Img>, draws: nat,
                                      keys: seq<string>)
    requires AllBracketed(keys)
    requires AllEmpty(SlowTexts(m, ctx, Start(chosen, draws), keys).0)
    ensures AllVanish(m, keys)
  {
    var texts := SlowTexts(m, ctx, Start(chosen, draws), keys).0;
    SlowWalks(Job(m, keys, false), ctx, chosen, draws, |keys|);
    assert keys[..|keys|] == keys;
    forall i | 0 <= i < |keys| ensures Vanishes(m, keys, i) {
      assert texts[i] == "";
      PlacedEmpty(m, ctx, draws, keys, i);
    }
  }

  lemma {:induction false} EmptyMeansVanishing(g: Grammar, s: string, m: map<string, string>, ctx: Context,
                                               chosen: Option<Img>, draws: nat)
    requires Slow(g, s, m, ctx, chosen, draws).text == ""
    ensures CanVanish(g, s, m)
  {
    var keys := FindAllString(g, s);
    WeaveEmpty(SplitAtMatches(g, s), SlowTexts(m, ctx, Start(chosen, draws), keys).0);
    MacrosAreBracketed(g, s);
    EmptyTexts(m, ctx, chosen, draws, keys);
  }

  // ---------- Without an offer the askings are the same ----------

  lemma {:induction false} NothingAsked(m: map<string, string>, ctx: Context, chosen: Option<Img>, draws: nat,
                                        keys: seq<string>)
    requires Unmapped(m, keys) == 0
    ensures var env := SlowTexts(m, ctx, Start(chosen, draws), keys).1; env.chosen == chosen && env.draws == draws
  {
    if keys != [] {
      NothingAsked(m, ctx, chosen, draws, keys[..|keys| - 1]);
    }
  }

  // ---------- A walk over macros that can vanish ----------

  /** The size of a macro, of either kind. */
  function SizeOf(key: string): Option<(nat, nat)> {
    if ReadSize(IMG, key).Some? then ReadSize(IMG, key) else ReadSize(G_IMG, key)
  }

  /** What the n-th call answers for a macro. */
  function PickOf(ctx: Context, n: nat, key: string): Option<Img> {
    match SizeOf(key)
    case Some((w, h)) => ctx.pick(n, w, h)
    case None => None
  }

  /** The text put in the place of a macro that was given a creative, or none. */
  function TextFor(country: string, key: string, pick: Option<Img>): string {
    match pick
    case Some(img) => CdnConv(country, img)
    case None => key
  }

  ghost predicate AllSized(m: map<string, string>, keys: seq<string>) {
    forall k :: 0 <= k < |keys| && keys[k] !in m ==> SizeOf(keys[k]).Some?
  }

  lemma {:induction false} VanishingHasSize(m: map<string, string>, keys: seq<string>, i: nat)
    requires i < |keys| && Vanishes(m, keys, i) && keys[i] !in m
    ensures SizeOf(keys[i]).Some?
  {
  }

  lemma {:induction false} VanishingAreSized(m: map<string, string>, keys: seq<string>)
    requires AllVanish(m, keys)
    ensures AllSized(m, keys)
  {
    forall k | 0 <= k < |keys| && keys[k] !in m ensures SizeOf(keys[k]).Some? {
      VanishingHasSize(m, keys, k);
    }
  }

  type Picks = seq<Option<Img>>

  /** The macros that the map does not replace are offered one by one. */
  function PickAt(m: map<string, string>, ctx: Context, draws: nat, keys: seq<string>, k: nat): Option<Img>
    requires k < |keys|
  {
    if keys[k] in m then None else PickOf(ctx, draws + Unmapped(m, keys[..k]), keys[k])
  }

  function PicksOf(m: map<string, string>, ctx: Context, draws: nat, keys: seq<string>): (picks: Picks)
    ensures |picks| == |keys|
  {
    seq(|keys|, k requires 0 <= k < |keys| => PickAt(m, ctx, draws, keys, k))
  }

  /** The texts that come of some picks, and the creative chosen after them. */
  function Shown(m: map<string, string>, country: string, keys: seq<string>, picks: Picks): (texts: seq<string>)
    requires |picks| == |keys|
    ensures |texts| == |keys|
  {
    seq(|keys|, k requires 0 <= k < |keys| && |picks| == |keys| =>
      if keys[k] in m then "" else TextFor(country, keys[k], picks[k]))
  }

  function LastGiven(picks: Picks, chosen: Option<Img>): Option<Img> {
    if picks == [] then chosen
    else if picks[|picks| - 1].Some? then picks[|picks| - 1]
    else LastGiven(picks[..|picks| - 1], chosen)
  }

  lemma {:induction false} PickBefore(m: map<string, string>, ctx: Context, draws: nat, keys: seq<string>, n: nat,
                                      k: nat)
    requires k < n <= |keys|
    ensures PickAt(m, ctx, draws, keys[..n], k) == PickAt(m, ctx, draws, keys, k)
  {
    assert keys[..n][..k] == keys[..k];
    assert keys[..n][k] == keys[k];
  }

  lemma {:induction false} PicksNext(m: map<string, string>, ctx: Context, draws: nat, keys: seq<string>)
    requires keys != []
    ensures var n := |keys| - 1;
            PicksOf(m, ctx, draws, keys) == PicksOf(m, ctx, draws, keys[..n]) + [PickAt(m, ctx, draws, keys, n)]
  {
    var n := |keys| - 1;
    var a, b := PicksOf(m, ctx, draws, keys), PicksOf(m, ctx, draws, keys[..n]);
    forall k | 0 <= k < n ensures a[k] == b[k] {
      PickBefore(m, ctx, draws, keys, n, k);
    }
  }

  lemma {:induction false} ShownNext(m: map<string, string>, country: string, keys: seq<string>, picks: Picks,
                                     pick: Option<Img>)
    requires |keys| == |picks| + 1
    ensures var n := |picks|;
            Shown(m, country, keys, picks + [pick]) ==
            Shown(m, country, keys[..n], picks) + [if keys[n] in m then "" else TextFor(country, keys[n], pick)]
  {
  }

  lemma {:induction false} LastGivenNext(picks: Picks, pick: Option<Img>, chosen: Option<Img>)
    ensures LastGiven(picks + [pick], chosen) == if pick.Some? then pick else LastGiven(picks, chosen)
  {
    assert (picks + [pick])[..|picks|] == picks;
  }

  /** A macro that can vanish is offered if the map does not replace it, and is replaced by nothing if it does. */
  lemma {:induction false} KeyPicks(m: map<string, string>, ctx: Context, env: Env, keys: seq<string>, i: nat)
    requires i < |keys| && Bracketed(keys[i]) && Vanishes(m, keys, i) && Remembers(m, keys[..i], env)
    requires keys[i] !in m
    ensures var (t, env') := SlowKey(m, ctx, env, keys[i]);
            var pick := PickOf(ctx, env.draws, keys[i]);
            && t == TextFor(ctx.country, keys[i], pick) && env'.draws == env.draws + 1
            && env'.chosen == if pick.Some? then pick else env.chosen
  {
    var key := keys[i];
    NotBothSizes(key);
    OpensOnlyAtStart(key, IMG);
    OpensOnlyAtStart(key, G_IMG);
  }

  lemma {:induction false} MappedVanishes(m: map<string, string>, ctx: Context, env: Env, keys: seq<string>, i: nat)
    requires i < |keys| && Vanishes(m, keys, i) && Remembers(m, keys[..i], env) && keys[i] in m
    ensures var (t, env') := SlowKey(m, ctx, env, keys[i]);
            t == "" && env'.draws == env.draws && env'.chosen == env.chosen
  {
  }

  /** The environment after a walk. */
  ghost predicate After(m: map<string, string>, chosen: Option<Img>, draws: nat, keys: seq<string>, picks: Picks,
                        env: Env) {
    env.chosen == LastGiven(picks, chosen) && env.draws == draws + Unmapped(m, keys)
  }

  lemma {:induction false} NextPicks(m: map<string, string>, ctx: Context, chosen: Option<Img>, draws: nat,
                                     keys: seq<string>, picks: Picks, env: Env)
    requires keys != [] && Bracketed(keys[|keys| - 1]) && Vanishes(m, keys, |keys| - 1)
    requires Remembers(m, keys[..|keys| - 1], env) && After(m, chosen, draws, keys[..|keys| - 1], picks, env)
    ensures var n := |keys| - 1;
            var pick := PickAt(m, ctx, draws, keys, n);
            var (t, env') := SlowKey(m, ctx, env, keys[n]);
            && After(m, chosen, draws, keys, picks + [pick], env')
            && t == if keys[n] in m then "" else TextFor(ctx.country, keys[n], pick)
  {
    var n := |keys| - 1;
    LastGivenNext(picks, PickAt(m, ctx, draws, keys, n), chosen);
    if keys[n] in m {
      MappedVanishes(m, ctx, env, keys, n);
    } else {
      KeyPicks(m, ctx, env, keys, n);
    }
  }

  lemma {:induction false} WalkPicks(m: map<string, string>, ctx: Context, chosen: Option<Img>, draws: nat,
                                     keys: seq<string>)
    requires AllVanish(m, keys) && AllBracketed(keys)
    ensures var (texts, env) := SlowTexts(m, ctx, Start(chosen, draws), keys);
            var picks := PicksOf(m, ctx, draws, keys);
            texts == Shown(m, ctx.country, keys, picks) && After(m, chosen, draws, keys, picks, env)
  {
    if keys != [] {
      var n := |keys| - 1;
      var picks := PicksOf(m, ctx, draws, keys[..n]);
      VanishPrefix(m, keys);
      WalkPicks(m, ctx, chosen, draws, keys[..n]);
      WalkRemembers(m, ctx, chosen, draws, keys[..n]);
      NextPicks(m, ctx, chosen, draws, keys, picks, SlowTexts(m, ctx, Start(chosen, draws), keys[..n]).1);
      PicksNext(m, ctx, draws, keys);
      ShownNext(m, ctx.country, keys, picks, PickAt(m, ctx, draws, keys, n));
    }
  }

  lemma {:induction false} WalkRemembers(m: map<string, string>, ctx: Context, chosen: Option<Img>, draws: nat,
                                         keys: seq<string>)
    requires AllBracketed(keys)
    ensures Remembers(m, keys, SlowTexts(m, ctx, Start(chosen, draws), keys).1)
  {
    SlowWalks(Job(m, keys, false), ctx, chosen, draws, |keys|);
    assert keys[..|keys|] == keys;
  }

  lemma {:induction false} VanishPrefix(m: map<string, string>, keys: seq<string>)
    requires keys != [] && AllVanish(m, keys)
    ensures AllVanish(m, keys[..|keys| - 1])
  {
    var init := keys[..|keys| - 1];
    forall i | 0 <= i < |init| ensures Vanishes(m, init, i) {
      assert Vanishes(m, keys, i);
      assert init[..i] == keys[..i] && forall k :: 0 <= k < i ==> init[k] == keys[k];
    }
  }

  lemma {:induction false} UnmappedBefore(m: map<string, string>, keys: seq<string>, k: nat)
    requires k < |keys| && keys[k] !in m
    ensures Unmapped(m, keys[..k]) < Unmapped(m, keys)
  {
    var n := |keys| - 1;
    if k < n {
      UnmappedBefore(m, keys[..n], k);
      assert keys[..n][..k] == keys[..k];
    }
  }

  lemma {:induction false} SomeUnmapped(m: map<string, string>, keys: seq<string>) returns (i: nat)
    requires Unmapped(m, keys) > 0
    ensures i < |keys| && keys[i] !in m
  {
    var n := |keys| - 1;
    if keys[n] !in m {
      i := n;
    } else {
      i := SomeUnmapped(m, keys[..n]);
    }
  }

  ghost predicate Blank(m: map<string, string>, country: string, keys: seq<string>, picks: Picks)
    requires |picks| == |keys|
  {
    AllEmpty(Shown(m, country, keys, picks))
  }

  /** What an asking of a template that can vanish comes to, by what was given. */
  function OutcomeOf(g: Grammar, s: string, m: map<string, string>, country: string, picks: Picks, chosen: Option<Img>,
                     draws: nat): Outcome
    requires |picks| == |FindAllString(g, s)|
  {
    var keys := FindAllString(g, s);
    var texts := Shown(m, country, keys, picks);
    Outcome(Weave(SplitAtMatches(g, s), texts), LastGiven(picks, chosen), draws + Unmapped(m, keys))
  }

  lemma {:induction false} AskingIs(g: Grammar, s: string, m: map<string, string>, ctx: Context, chosen: Option<Img>,
                                    draws: nat)
    requires CanVanish(g, s, m)
    ensures Slow(g, s, m, ctx, chosen, draws) ==
            OutcomeOf(g, s, m, ctx.country, PicksOf(m, ctx, draws, FindAllString(g, s)), chosen, draws)
  {
    MacrosAreBracketed(g, s);
    WalkPicks(m, ctx, chosen, draws, FindAllString(g, s));
  }

  lemma {:induction false} BlankIsEmpty(g: Grammar, s: string, m: map<string, string>, country: string, picks: Picks,
                                        chosen: Option<Img>, draws: nat)
    requires CanVanish(g, s, m) && |picks| == |FindAllString(g, s)|
    ensures OutcomeOf(g, s, m, country, picks, chosen, draws).text == "" <==>
            Blank(m, country, FindAllString(g, s), picks)
  {
    WeaveEmpty(SplitAtMatches(g, s), Shown(m, country, FindAllString(g, s), picks));
  }

  // ---------- What an ad can give ----------

  /** Some luck makes the ad answer so for a macro. */
  ghost predicate Gives(a: AdRequest, key: string, o: Option<Img>) {
    match SizeOf(key)
    case Some((w, h)) => Selected(a.m, a.Wanted(w, h), o)
    case None => false
  }

  /** It may give a creative without a text, or a text, or nothing at all. */
  ghost predicate MayBlank(a: AdRequest, key: string) {
    exists o :: Gives(a, key, o) && TextFor(a.country, key, o) == ""
  }

  ghost predicate MayShow(a: AdRequest, key: string) {
    exists o :: Gives(a, key, o) && TextFor(a.country, key, o) != ""
  }

  ghost predicate MayVary(a: AdRequest, key: string) {
    exists o, o' :: o != o' && Gives(a, key, o) && Gives(a, key, o')
  }

  /** The picks are such as the ad may give. */
  ghost predicate FitAt(m: map<string, string>, a: AdRequest, key: string, pick: Option<Img>) {
    if key in m then pick == None else Gives(a, key, pick)
  }

  ghost predicate Fit(m: map<string, string>, a: AdRequest, keys: seq<string>, picks: Picks) {
    |picks| == |keys| && forall k :: 0 <= k < |keys| ==> FitAt(m, a, keys[k], picks[k])
  }

  /** The answer to one macro, under one luck. */
  function PickBy(a: AdRequest, key: string, luck: Luck): Option<Img> {
    match SizeOf(key)
    case Some((w, h)) => Chosen(a.m, a.Wanted(w, h), luck)
    case None => None
  }

  lemma {:induction false} PickIs(a: AdRequest, lucks: Lucks, n: nat, key: string)
    ensures PickOf(a.ToContext(lucks), n, key) == PickBy(a, key, lucks(n))
  {
  }

  lemma {:induction false} PickIsGiven(a: AdRequest, key: string, luck: Luck)
    requires luck.For(a.m) && SizeOf(key).Some?
    ensures Gives(a, key, PickBy(a, key, luck))
  {
    var (w, h) := SizeOf(key).value;
    ChosenIsSelected(a.m, a.Wanted(w, h), luck);
  }

  lemma {:induction false} PickFits(m: map<string, string>, a: AdRequest, lucks: Lucks, draws: nat, keys: seq<string>,
                                    k: nat)
    requires a.Lucky(lucks) && k < |keys| && keys[k] !in m && SizeOf(keys[k]).Some?
    ensures Gives(a, keys[k], PickAt(m, a.ToContext(lucks), draws, keys, k))
  {
    var n := draws + Unmapped(m, keys[..k]);
    PickIs(a, lucks, n, keys[k]);
    PickIsGiven(a, keys[k], lucks(n));
  }

  /** With any luck the picks fit. */
  lemma {:induction false} PicksFit(m: map<string, string>, a: AdRequest, lucks: Lucks, draws: nat, keys: seq<string>)
    requires a.Lucky(lucks) && AllSized(m, keys)
    ensures Fit(m, a, keys, PicksOf(m, a.ToContext(lucks), draws, keys))
  {
    var ctx := a.ToContext(lucks);
    forall k | 0 <= k < |keys| ensures FitAt(m, a, keys[k], PickAt(m, ctx, draws, keys, k)) {
      if keys[k] !in m { PickFits(m, a, lucks, draws, keys, k); }
    }
  }

  lemma {:induction false} GivenBy(a: AdRequest, key: string, o: Option<Img>) returns (luck: Luck)
    requires Gives(a, key, o)
    ensures luck.For(a.m) && PickBy(a, key, luck) == o
  {
    var (w, h) := SizeOf(key).value;
    LuckReaches(a.m, a.Wanted(w, h), o);
    luck :| luck.For(a.m) && Chosen(a.m, a.Wanted(w, h), luck) == o;
  }

  /** What an asking that starts at the call `draws` picks for one macro. */
  function AskedAt(m: map<string, string>, a: AdRequest, lucks: Lucks, draws: nat, keys: seq<string>,
                   k: nat): Option<Img>
    requires k < |keys|
  {
    if keys[k] in m then None else PickBy(a, keys[k], lucks(draws + Unmapped(m, keys[..k])))
  }

  /** The first `n` macros were given these picks. */
  ghost predicate AskedTo(m: map<string, string>, a: AdRequest, lucks: Lucks, draws: nat, keys: seq<string>,
                          picks: Picks, n: nat) {
    && |picks| == |keys| && n <= |keys|
    && forall k :: 0 <= k < n ==> picks[k] == AskedAt(m, a, lucks, draws, keys, k)
  }

  lemma {:induction false} AskedIs(m: map<string, string>, a: AdRequest, lucks: Lucks, draws: nat, keys: seq<string>,
                                   picks: Picks)
    requires AskedTo(m, a, lucks, draws, keys, picks, |keys|)
    ensures PicksOf(m, a.ToContext(lucks), draws, keys) == picks
  {
    var ctx := a.ToContext(lucks);
    forall k | 0 <= k < |keys| ensures PickAt(m, ctx, draws, keys, k) == picks[k] {
      assert picks[k] == AskedAt(m, a, lucks, draws, keys, k);
      PickIs(a, lucks, draws + Unmapped(m, keys[..k]), keys[k]);
    }
  }

  lemma {:induction false} UnmappedOrder(m: map<string, string>, keys: seq<string>, k: nat, n: nat)
    requires k < n <= |keys| && keys[k] !in m
    ensures Unmapped(m, keys[..k]) < Unmapped(m, keys[..n])
  {
    UnmappedBefore(m, keys[..n], k);
    assert keys[..n][..k] == keys[..k];
  }

  function Replaced(lucks: Lucks, n: nat, luck: Luck): Lucks { (i: nat) => if i == n then luck else lucks(i) }

  lemma {:induction false} StillAsked(m: map<string, string>, a: AdRequest, lucks: Lucks, other: Lucks, draws: nat,
                                      keys: seq<string>, picks: Picks, n: nat)
    requires AskedTo(m, a, lucks, draws, keys, picks, n)
    requires forall i :: draws <= i < draws + Unmapped(m, keys[..n]) ==> other(i) == lucks(i)
    ensures AskedTo(m, a, other, draws, keys, picks, n)
  {
    forall k | 0 <= k < n ensures picks[k] == AskedAt(m, a, other, draws, keys, k) {
      assert picks[k] == AskedAt(m, a, lucks, draws, keys, k);
      if keys[k] !in m { UnmappedOrder(m, keys, k, n); }
    }
  }

  /** The luck of one more call. */
  lemma {:induction false} OneMoreLuck(m: map<string, string>, a: AdRequest, draws: nat, keys: seq<string>,
                                       picks: Picks, n: nat, lucks: Lucks)
    returns (lucks': Lucks)
    requires n < |keys| && a.Lucky(lucks) && AskedTo(m, a, lucks, draws, keys, picks, n)
    requires FitAt(m, a, keys[n], picks[n])
    ensures a.Lucky(lucks') && AskedTo(m, a, lucks', draws, keys, picks, n + 1)
  {
    lucks' := lucks;
    if keys[n] !in m {
      var luck := GivenBy(a, keys[n], picks[n]);
      lucks' := Replaced(lucks, draws + Unmapped(m, keys[..n]), luck);
      StillAsked(m, a, lucks, lucks', draws, keys, picks, n);
    }
    assert picks[n] == AskedAt(m, a, lucks', draws, keys, n);
  }

  /** Any picks that fit are those of an asking under some luck. */
  lemma {:induction false} LucksFor(m: map<string, string>, a: AdRequest, draws: nat, keys: seq<string>, picks: Picks,
                                    n: nat)
    returns (lucks: Lucks)
    requires Fit(m, a, keys, picks) && n <= |keys|
    ensures a.Lucky(lucks) && AskedTo(m, a, lucks, draws, keys, picks, n)
  {
    if n == 0 {
      var luck := SomeLuck(a.m);
      lucks := (i: nat) => luck;
    } else {
      lucks := LucksFor(m, a, draws, keys, picks, n - 1);
      assert FitAt(m, a, keys[n - 1], picks[n - 1]);
      lucks := OneMoreLuck(m, a, draws, keys, picks, n - 1, lucks);
    }
  }

  function Joined(first: Lucks, second: Lucks, n: nat): Lucks { (i: nat) => if i < n then first(i) else second(i) }

  /** And so are any two in a row. */
  lemma {:induction false} LucksForBoth(m: map<string, string>, a: AdRequest, keys: seq<string>, picks: Picks,
                                        picks2: Picks)
    returns (lucks: Lucks)
    requires Fit(m, a, keys, picks) && Fit(m, a, keys, picks2)
    ensures a.Lucky(lucks) && PicksOf(m, a.ToContext(lucks), 0, keys) == picks
    ensures PicksOf(m, a.ToContext(lucks), Unmapped(m, keys), keys) == picks2
  {
    var limit := Unmapped(m, keys);
    var first := LucksFor(m, a, 0, keys, picks, |keys|);
    var second := LucksFor(m, a, limit, keys, picks2, |keys|);
    lucks := Joined(first, second, limit);
    assert keys[..|keys|] == keys;
    StillAsked(m, a, first, lucks, 0, keys, picks, |keys|);
    StillAsked(m, a, second, lucks, limit, keys, picks2, |keys|);
    AskedIs(m, a, lucks, 0, keys, picks);
    AskedIs(m, a, lucks, limit, keys, picks2);
  }

  // ---------- Blank askings ----------

  /** Every macro left to the creatives may be given one without a text. */
  ghost predicate AllBlank(m: map<string, string>, a: AdRequest, keys: seq<string>) {
    forall key :: key in keys && key !in m ==> MayBlank(a, key)
  }

  lemma {:induction false} BlankPicks(m: map<string, string>, a: AdRequest, keys: seq<string>) returns (picks: Picks)
    requires AllBlank(m, a, keys)
    ensures Fit(m, a, keys, picks) && Blank(m, a.country, keys, picks)
  {
    picks := [];
    if keys != [] {
      var n := |keys| - 1;
      picks := BlankPicks(m, a, keys[..n]);
      var last: Option<Img> := None;
      if keys[n] !in m {
        last :| Gives(a, keys[n], last) && TextFor(a.country, keys[n], last) == "";
      }
      ShownNext(m, a.country, keys, picks, last);
      LastEmpty(Shown(m, a.country, keys, picks + [last]));
      FitNext(m, a, keys, picks, last);
      picks := picks + [last];
    }
  }

  lemma {:induction false} FitNext(m: map<string, string>, a: AdRequest, keys: seq<string>, picks: Picks,
                                   pick: Option<Img>)
    requires |keys| == |picks| + 1 && Fit(m, a, keys[..|picks|], picks) && FitAt(m, a, keys[|picks|], pick)
    ensures Fit(m, a, keys, picks + [pick])
  {
    var n := |picks|;
    forall k | 0 <= k < n ensures FitAt(m, a, keys[k], picks[k]) {
      assert FitAt(m, a, keys[..n][k], picks[k]) && keys[..n][k] == keys[k];
    }
  }

  lemma {:induction false} BlankMeansAll(m: map<string, string>, a: AdRequest, keys: seq<string>, picks: Picks)
    requires Fit(m, a, keys, picks) && Blank(m, a.country, keys, picks)
    ensures AllBlank(m, a, keys)
  {
    forall key | key in keys && key !in m ensures MayBlank(a, key) {
      var k :| 0 <= k < |keys| && keys[k] == key;
      assert Shown(m, a.country, keys, picks)[k] == "" && FitAt(m, a, keys[k], picks[k]);
    }
  }

  /** The last macro that is left to the creatives, or -1. */
  function LastLeft(m: map<string, string>, keys: seq<string>): (j: int)
    ensures -1 <= j < |keys| && (j >= 0 ==> keys[j] !in m) && forall i :: j < i < |keys| ==> keys[i] in m
    ensures j == -1 <==> Unmapped(m, keys) == 0
  {
    if keys == [] then -1 else
    var n := |keys| - 1;
    if keys[n] !in m then n else LastLeft(m, keys[..n])
  }

  /** What it is given is what is chosen after the asking. */
  lemma {:induction false} LastIsChosen(m: map<string, string>, keys: seq<string>, picks: Picks, chosen: Option<Img>)
    requires |picks| == |keys| && forall k :: 0 <= k < |keys| && keys[k] in m ==> picks[k] == None
    ensures var j := LastLeft(m, keys); j >= 0 && picks[j].Some? ==> LastGiven(picks, chosen) == picks[j]
    ensures LastLeft(m, keys) == -1 ==> LastGiven(picks, chosen) == chosen
  {
    if keys != [] && keys[|keys| - 1] in m {
      LastIsChosen(m, keys[..|keys| - 1], picks[..|keys| - 1], chosen);
    }
  }

  lemma {:induction false} NothingIsKept(picks: Picks, chosen: Option<Img>)
    requires forall k :: 0 <= k < |picks| ==> picks[k] == None
    ensures LastGiven(picks, chosen) == chosen
  {
    if picks != [] { NothingIsKept(picks[..|picks| - 1], chosen); }
  }

  lemma {:induction false} SomethingIsTaken(picks: Picks, chosen: Option<Img>, other: Option<Img>, k: nat)
    requires k < |picks| && picks[k].Some?
    ensures LastGiven(picks, chosen) == LastGiven(picks, other)
  {
    if picks[|picks| - 1] == None { SomethingIsTaken(picks[..|picks| - 1], chosen, other, k); }
  }

  // ---------- Two askings ----------

  ghost predicate Agree(g: Grammar, s: string, m: map<string, string>, ctx: Context, chosen: Option<Img>, draws: nat) {
    var both, slow := FastThenSlow(g, Pieces(g, s), s, m, ctx, chosen, draws), Slow(g, s, m, ctx, chosen, draws);
    both.text == slow.text && both.chosen == slow.chosen
  }

  /** The outcome is that of one asking: of the first if that leaves some text, and else of the second alone. */
  ghost predicate OneAsking(g: Grammar, s: string, m: map<string, string>, ctx: Context, chosen: Option<Img>,
                            draws: nat) {
    var first := Slow(g, s, m, ctx, chosen, draws);
    FastThenSlow(g, Pieces(g, s), s, m, ctx, chosen, draws) ==
    if first.text != "" then first else Slow(g, s, m, ctx, chosen, first.draws)
  }

  ghost predicate NothingLeft(g: Grammar, s: string, m: map<string, string>) {
    CanVanish(g, s, m) && Unmapped(m, FindAllString(g, s)) > 0
  }

  /** After a first asking that left nothing, the second counts. */
  lemma {:induction false} SecondCounts(g: Grammar, s: string, m: map<string, string>, ctx: Context,
                                        chosen: Option<Img>,
                                        draws: nat, first: Outcome)
    requires MapOk(g, m) && first == Slow(g, s, m, ctx, chosen, draws)
    ensures FastThenSlow(g, Pieces(g, s), s, m, ctx, chosen, draws) ==
            if first.text != "" then first else Slow(g, s, m, ctx, first.chosen, first.draws)
  {
    FastIsSlow(g, s, m, ctx, chosen, draws);
  }

  /** What agreement and one asking mean after a first asking that left nothing. */
  lemma {:induction false} AfterNothing(g: Grammar, s: string, m: map<string, string>, ctx: Context,
                                        chosen: Option<Img>,
                                        draws: nat, first: Outcome, second: Outcome, alone: Outcome)
    requires MapOk(g, m) && first == Slow(g, s, m, ctx, chosen, draws) && first.text == ""
    requires second == Slow(g, s, m, ctx, first.chosen, first.draws) && alone == Slow(g, s, m, ctx, chosen, first.draws)
    ensures Agree(g, s, m, ctx, chosen, draws) <==> second.text == "" && second.chosen == first.chosen
    ensures OneAsking(g, s, m, ctx, chosen, draws) <==> second == alone
  {
    SecondCounts(g, s, m, ctx, chosen, draws, first);
  }

  /** What the picks of a template that can vanish make of a first and a second asking. */
  lemma {:induction false} FirstAsking(g: Grammar, s: string, m: map<string, string>, ctx: Context, chosen: Option<Img>,
                                       draws: nat, picks: Picks)
    requires CanVanish(g, s, m) && picks == PicksOf(m, ctx, draws, FindAllString(g, s))
    requires Blank(m, ctx.country, FindAllString(g, s), picks)
    ensures Slow(g, s, m, ctx, chosen, draws) ==
            Outcome("", LastGiven(picks, chosen), draws + Unmapped(m, FindAllString(g, s)))
  {
    AskingIs(g, s, m, ctx, chosen, draws);
    BlankIsEmpty(g, s, m, ctx.country, picks, chosen, draws);
  }

  lemma {:induction false} SecondAsking(g: Grammar, s: string, m: map<string, string>, ctx: Context, c: Option<Img>,
                                        chosen: Option<Img>, draws: nat, picks: Picks)
    requires CanVanish(g, s, m) && picks == PicksOf(m, ctx, draws, FindAllString(g, s))
    ensures var second, alone := Slow(g, s, m, ctx, c, draws), Slow(g, s, m, ctx, chosen, draws);
            && (second.text == "" <==> Blank(m, ctx.country, FindAllString(g, s), picks))
            && second.chosen == LastGiven(picks, c)
            && (second == alone <==> LastGiven(picks, c) == LastGiven(picks, chosen))
  {
    AskingIs(g, s, m, ctx, c, draws);
    AskingIs(g, s, m, ctx, chosen, draws);
    BlankIsEmpty(g, s, m, ctx.country, picks, c, draws);
  }

  lemma {:induction false} TwoAskings(g: Grammar, s: string, m: map<string, string>, ctx: Context, chosen: Option<Img>,
                                      draws: nat, limit: nat, picks: Picks, picks2: Picks)
    requires MapOk(g, m) && CanVanish(g, s, m) && limit == draws + Unmapped(m, FindAllString(g, s))
    requires picks == PicksOf(m, ctx, draws, FindAllString(g, s))
    requires picks2 == PicksOf(m, ctx, limit, FindAllString(g, s))
    requires Blank(m, ctx.country, FindAllString(g, s), picks)
    ensures Agree(g, s, m, ctx, chosen, draws) <==>
            && Blank(m, ctx.country, FindAllString(g, s), picks2)
            && LastGiven(picks2, LastGiven(picks, chosen)) == LastGiven(picks, chosen)
    ensures OneAsking(g, s, m, ctx, chosen, draws) <==>
            LastGiven(picks2, LastGiven(picks, chosen)) == LastGiven(picks2, chosen)
  {
    var c := LastGiven(picks, chosen);
    FirstAsking(g, s, m, ctx, chosen, draws, picks);
    SecondAsking(g, s, m, ctx, c, chosen, limit, picks2);
    AfterNothing(g, s, m, ctx, chosen, draws, Outcome("", c, limit),
                 Slow(g, s, m, ctx, c, limit), Slow(g, s, m, ctx, chosen, limit));
  }

  lemma {:induction false} NotEmptyAgrees(g: Grammar, s: string, m: map<string, string>, ctx: Context,
                                          chosen: Option<Img>, draws: nat)
    requires MapOk(g, m) && (NothingLeft(g, s, m) ==> Slow(g, s, m, ctx, chosen, draws).text != "")
    ensures Agree(g, s, m, ctx, chosen, draws) && OneAsking(g, s, m, ctx, chosen, draws)
  {
    var first := Slow(g, s, m, ctx, chosen, draws);
    SecondCounts(g, s, m, ctx, chosen, draws, first);
    if first.text == "" {
      EmptyMeansVanishing(g, s, m, ctx, chosen, draws);
      NothingAsked(m, ctx, chosen, draws, FindAllString(g, s));
    }
  }

  // ---------- What an ad leaves of a template ----------

  /**
   Some luck leaves no text if and only if the template can vanish and the ad may give every macro a
   creative without one.
   */
  lemma {:induction false} VanishesExactly(g: Grammar, s: string, m: map<string, string>, a: AdRequest)
    ensures (exists lucks, chosen, draws ::
               a.Lucky(lucks) && Slow(g, s, m, a.ToContext(lucks), chosen, draws).text == "") <==>
            CanVanish(g, s, m) && AllBlank(m, a, FindAllString(g, s))
  {
    var keys := FindAllString(g, s);
    if CanVanish(g, s, m) && AllBlank(m, a, keys) {
      var picks := BlankPicks(m, a, keys);
      var lucks := LucksForBoth(m, a, keys, picks, picks);
      AskingIs(g, s, m, a.ToContext(lucks), None, 0);
      BlankIsEmpty(g, s, m, a.country, picks, None, 0);
    }
    forall lucks, chosen, draws | a.Lucky(lucks) && Slow(g, s, m, a.ToContext(lucks), chosen, draws).text == ""
      ensures CanVanish(g, s, m) && AllBlank(m, a, keys)
    {
      EmptyIsBlank(g, s, m, a, lucks, chosen, draws);
    }
  }

  lemma {:induction false} EmptyPicks(g: Grammar, s: string, m: map<string, string>, a: AdRequest, lucks: Lucks,
                                      chosen: Option<Img>, draws: nat)
    requires a.Lucky(lucks) && Slow(g, s, m, a.ToContext(lucks), chosen, draws).text == ""
    ensures CanVanish(g, s, m) && AllSized(m, FindAllString(g, s))
    ensures Blank(m, a.country, FindAllString(g, s), PicksOf(m, a.ToContext(lucks), draws, FindAllString(g, s)))
  {
    EmptyMeansVanishing(g, s, m, a.ToContext(lucks), chosen, draws);
    AskingIs(g, s, m, a.ToContext(lucks), chosen, draws);
    BlankIsEmpty(g, s, m, a.country, PicksOf(m, a.ToContext(lucks), draws, FindAllString(g, s)), chosen, draws);
    VanishingAreSized(m, FindAllString(g, s));
  }

  lemma {:induction false} EmptyIsBlank(g: Grammar, s: string, m: map<string, string>, a: AdRequest, lucks: Lucks,
                                        chosen: Option<Img>, draws: nat)
    requires a.Lucky(lucks) && Slow(g, s, m, a.ToContext(lucks), chosen, draws).text == ""
    ensures CanVanish(g, s, m) && AllBlank(m, a, FindAllString(g, s))
  {
    var keys := FindAllString(g, s);
    EmptyPicks(g, s, m, a, lucks, chosen, draws);
    PicksFit(m, a, lucks, draws, keys);
    BlankMeansAll(m, a, keys, PicksOf(m, a.ToContext(lucks), draws, keys));
  }

  // ---------- When ReplaceTpl is the slow path ----------

  /** ReplaceTpl answers and chooses as the slow path alone would, whatever the luck. */
  ghost predicate AlwaysAgree(g: Grammar, s: string, m: map<string, string>, a: AdRequest) {
    forall lucks, chosen, draws :: a.Lucky(lucks) ==> Agree(g, s, m, a.ToContext(lucks), chosen, draws)
  }

  /** Some macro may be given a text, or the last one different creatives. */
  ghost predicate MayDiffer(m: map<string, string>, a: AdRequest, keys: seq<string>) {
    || (exists key :: key in keys && key !in m && MayShow(a, key))
    || (LastLeft(m, keys) >= 0 && MayVary(a, keys[LastLeft(m, keys)]))
  }

  lemma {:induction false} ShownOtherwise(m: map<string, string>, a: AdRequest, keys: seq<string>, picks: Picks)
    returns (picks2: Picks)
    requires Fit(m, a, keys, picks) && exists key :: key in keys && key !in m && MayShow(a, key)
    ensures Fit(m, a, keys, picks2) && !Blank(m, a.country, keys, picks2)
  {
    var key :| key in keys && key !in m && MayShow(a, key);
    var k :| 0 <= k < |keys| && keys[k] == key;
    var o :| Gives(a, key, o) && TextFor(a.country, key, o) != "";
    picks2 := picks[k := o];
    assert Shown(m, a.country, keys, picks2)[k] != "";
  }

  lemma {:induction false} GivenOtherwise(m: map<string, string>, a: AdRequest, keys: seq<string>, picks: Picks)
    returns (picks2: Picks)
    requires Fit(m, a, keys, picks) && LastLeft(m, keys) >= 0 && MayVary(a, keys[LastLeft(m, keys)])
    ensures Fit(m, a, keys, picks2) && picks2[LastLeft(m, keys)] != picks[LastLeft(m, keys)]
  {
    var j := LastLeft(m, keys);
    var o, o' :| o != o' && Gives(a, keys[j], o) && Gives(a, keys[j], o');
    picks2 := picks[j := if picks[j] == o then o' else o];
  }

  /** Two askings in a row that differ. */
  lemma {:induction false} DifferingPicks(m: map<string, string>, a: AdRequest, keys: seq<string>)
    returns (picks: Picks, picks2: Picks)
    requires AllBlank(m, a, keys) && MayDiffer(m, a, keys) && AllBracketed(keys)
    ensures Fit(m, a, keys, picks) && Fit(m, a, keys, picks2) && Blank(m, a.country, keys, picks)
    ensures !(Blank(m, a.country, keys, picks2) && LastGiven(picks2, LastGiven(picks, None)) == LastGiven(picks, None))
  {
    picks := BlankPicks(m, a, keys);
    if exists key :: key in keys && key !in m && MayShow(a, key) {
      picks2 := ShownOtherwise(m, a, keys, picks);
    } else {
      picks2 := GivenOtherwise(m, a, keys, picks);
      if Blank(m, a.country, keys, picks2) {
        LastOfBlank(m, a, keys, picks, None);
        LastOfBlank(m, a, keys, picks2, LastGiven(picks, None));
      }
    }
  }

  lemma {:induction false} LastOfBlank(m: map<string, string>, a: AdRequest, keys: seq<string>, picks: Picks,
                                       chosen: Option<Img>)
    requires Fit(m, a, keys, picks) && Blank(m, a.country, keys, picks) && AllBracketed(keys) && LastLeft(m, keys) >= 0
    ensures picks[LastLeft(m, keys)].Some? && LastGiven(picks, chosen) == picks[LastLeft(m, keys)]
  {
    var j := LastLeft(m, keys);
    assert Shown(m, a.country, keys, picks)[j] == "" && Bracketed(keys[j]);
    LastIsChosen(m, keys, picks, chosen);
  }

  lemma {:induction false} SameAgain(m: map<string, string>, a: AdRequest, keys: seq<string>, picks: Picks,
                                     picks2: Picks, chosen: Option<Img>)
    requires Fit(m, a, keys, picks) && Fit(m, a, keys, picks2) && Blank(m, a.country, keys, picks)
    requires !MayDiffer(m, a, keys) && AllBracketed(keys) && LastLeft(m, keys) >= 0
    ensures Blank(m, a.country, keys, picks2) && LastGiven(picks2, LastGiven(picks, chosen)) == LastGiven(picks, chosen)
  {
    forall k | 0 <= k < |keys| ensures Shown(m, a.country, keys, picks2)[k] == "" {
      if keys[k] !in m { assert !MayShow(a, keys[k]); }
    }
    LastOfBlank(m, a, keys, picks, chosen);
    LastOfBlank(m, a, keys, picks2, LastGiven(picks, chosen));
  }

  /**
   ReplaceTpl is the slow path for an ad, whatever the luck, if and only if some text is left of the template
   whatever creatives come, or no macro is left to them, or the ad cannot give each of these a creative without
   a text, or can do nothing else and has but one such creative for the last of them.
   */
  lemma {:induction false} AgreeExactly(g: Grammar, s: string, m: map<string, string>, a: AdRequest)
    requires MapOk(g, m)
    ensures AlwaysAgree(g, s, m, a) <==>
            !NothingLeft(g, s, m) || !AllBlank(m, a, FindAllString(g, s)) || !MayDiffer(m, a, FindAllString(g, s))
  {
    var keys := FindAllString(g, s);
    if NothingLeft(g, s, m) && AllBlank(m, a, keys) && MayDiffer(m, a, keys) {
      LuckDiffers(g, s, m, a);
    } else {
      forall lucks, chosen, draws | a.Lucky(lucks) ensures Agree(g, s, m, a.ToContext(lucks), chosen, draws) {
        LuckAgrees(g, s, m, a, lucks, chosen, draws);
      }
    }
  }

  lemma {:induction false} LuckDiffers(g: Grammar, s: string, m: map<string, string>, a: AdRequest)
    requires MapOk(g, m) && NothingLeft(g, s, m)
    requires AllBlank(m, a, FindAllString(g, s)) && MayDiffer(m, a, FindAllString(g, s))
    ensures !AlwaysAgree(g, s, m, a)
  {
    var keys := FindAllString(g, s);
    MacrosAreBracketed(g, s);
    var picks, picks2 := DifferingPicks(m, a, keys);
    var lucks := LucksForBoth(m, a, keys, picks, picks2);
    TwoAskings(g, s, m, a.ToContext(lucks), None, 0, Unmapped(m, keys), picks, picks2);
    assert !Agree(g, s, m, a.ToContext(lucks), None, 0);
  }

  /** The picks of an asking that left nothing, and of the next. */
  lemma {:induction false} PicksAfterNothing(g: Grammar, s: string, m: map<string, string>, a: AdRequest, lucks: Lucks,
                                             chosen: Option<Img>, draws: nat, limit: nat)
    returns (picks: Picks, picks2: Picks)
    requires a.Lucky(lucks) && Slow(g, s, m, a.ToContext(lucks), chosen, draws).text == ""
    ensures CanVanish(g, s, m) && AllBracketed(FindAllString(g, s))
    ensures Fit(m, a, FindAllString(g, s), picks) && Fit(m, a, FindAllString(g, s), picks2)
    ensures picks == PicksOf(m, a.ToContext(lucks), draws, FindAllString(g, s))
    ensures picks2 == PicksOf(m, a.ToContext(lucks), limit, FindAllString(g, s))
    ensures Blank(m, a.country, FindAllString(g, s), picks)
  {
    var keys := FindAllString(g, s);
    picks, picks2 := PicksOf(m, a.ToContext(lucks), draws, keys), PicksOf(m, a.ToContext(lucks), limit, keys);
    EmptyPicks(g, s, m, a, lucks, chosen, draws);
    MacrosAreBracketed(g, s);
    PicksFit(m, a, lucks, draws, keys);
    PicksFit(m, a, lucks, limit, keys);
  }

  lemma {:induction false} BlankAgrees(g: Grammar, s: string, m: map<string, string>, a: AdRequest, lucks: Lucks,
                                       chosen: Option<Img>, draws: nat)
    requires MapOk(g, m) && a.Lucky(lucks) && Unmapped(m, FindAllString(g, s)) > 0
    requires Slow(g, s, m, a.ToContext(lucks), chosen, draws).text == "" && !MayDiffer(m, a, FindAllString(g, s))
    ensures Agree(g, s, m, a.ToContext(lucks), chosen, draws)
  {
    var keys := FindAllString(g, s);
    var limit := draws + Unmapped(m, keys);
    var picks, picks2 := PicksAfterNothing(g, s, m, a, lucks, chosen, draws, limit);
    SameAgain(m, a, keys, picks, picks2, chosen);
    TwoAskings(g, s, m, a.ToContext(lucks), chosen, draws, limit, picks, picks2);
  }

  lemma {:induction false} LuckAgrees(g: Grammar, s: string, m: map<string, string>, a: AdRequest, lucks: Lucks,
                                      chosen: Option<Img>, draws: nat)
    requires MapOk(g, m) && a.Lucky(lucks)
    requires var keys := FindAllString(g, s);
             !NothingLeft(g, s, m) || !AllBlank(m, a, keys) || !MayDiffer(m, a, keys)
    ensures Agree(g, s, m, a.ToContext(lucks), chosen, draws)
  {
    if NothingLeft(g, s, m) && Slow(g, s, m, a.ToContext(lucks), chosen, draws).text == "" {
      EmptyIsBlank(g, s, m, a, lucks, chosen, draws);
      BlankAgrees(g, s, m, a, lucks, chosen, draws);
    } else {
      NotEmptyAgrees(g, s, m, a.ToContext(lucks), chosen, draws);
    }
  }

  // ---------- When it is one asking ----------

  ghost predicate AlwaysOneAsking(g: Grammar, s: string, m: map<string, string>, a: AdRequest) {
    forall lucks, chosen, draws :: a.Lucky(lucks) ==> OneAsking(g, s, m, a.ToContext(lucks), chosen, draws)
  }

  /** Every macro left to the creatives may be given none. */
  ghost predicate AllMissing(m: map<string, string>, a: AdRequest, keys: seq<string>) {
    forall key :: key in keys && key !in m ==> Gives(a, key, None)
  }

  function Nothing(n: nat): Picks { seq(n, _ => None) }

  /**
   The outcome for an ad is always that of one asking, the first or the second, if and only if something is
   left of the template, or nothing of it to the creatives, or the ad cannot give each macro a creative without
   a text, or cannot give none of them anything. Otherwise the text can be of the second asking and the creative
   chosen of the first.
   */
  lemma {:induction false} OneAskingExactly(g: Grammar, s: string, m: map<string, string>, a: AdRequest)
    requires MapOk(g, m)
    ensures AlwaysOneAsking(g, s, m, a) <==>
            !NothingLeft(g, s, m) || !AllBlank(m, a, FindAllString(g, s)) || !AllMissing(m, a, FindAllString(g, s))
  {
    var keys := FindAllString(g, s);
    if NothingLeft(g, s, m) && AllBlank(m, a, keys) && AllMissing(m, a, keys) {
      LuckMixes(g, s, m, a);
    } else {
      forall lucks, chosen, draws | a.Lucky(lucks) ensures OneAsking(g, s, m, a.ToContext(lucks), chosen, draws) {
        LuckIsOne(g, s, m, a, lucks, chosen, draws);
      }
    }
  }

  lemma {:induction false} MixingPicks(m: map<string, string>, a: AdRequest, keys: seq<string>) returns (picks: Picks)
    requires AllBlank(m, a, keys) && AllBracketed(keys) && Unmapped(m, keys) > 0
    ensures Fit(m, a, keys, picks) && Blank(m, a.country, keys, picks)
    ensures var none := Nothing(|keys|); LastGiven(none, LastGiven(picks, None)) != LastGiven(none, None)
  {
    picks := BlankPicks(m, a, keys);
    LastOfBlank(m, a, keys, picks, None);
    NothingIsKept(Nothing(|keys|), LastGiven(picks, None));
    NothingIsKept(Nothing(|keys|), None);
  }

  lemma {:induction false} LuckMixes(g: Grammar, s: string, m: map<string, string>, a: AdRequest)
    requires MapOk(g, m) && NothingLeft(g, s, m)
    requires AllBlank(m, a, FindAllString(g, s)) && AllMissing(m, a, FindAllString(g, s))
    ensures !AlwaysOneAsking(g, s, m, a)
  {
    var keys := FindAllString(g, s);
    MacrosAreBracketed(g, s);
    var picks := MixingPicks(m, a, keys);
    var lucks := LucksForBoth(m, a, keys, picks, Nothing(|keys|));
    TwoAskings(g, s, m, a.ToContext(lucks), None, 0, Unmapped(m, keys), picks, Nothing(|keys|));
    assert !OneAsking(g, s, m, a.ToContext(lucks), None, 0);
  }

  lemma {:induction false} BlankIsOne(g: Grammar, s: string, m: map<string, string>, a: AdRequest, lucks: Lucks,
                                      chosen: Option<Img>, draws: nat)
    requires MapOk(g, m) && a.Lucky(lucks) && !AllMissing(m, a, FindAllString(g, s))
    requires Slow(g, s, m, a.ToContext(lucks), chosen, draws).text == ""
    ensures OneAsking(g, s, m, a.ToContext(lucks), chosen, draws)
  {
    var keys := FindAllString(g, s);
    var limit := draws + Unmapped(m, keys);
    var picks, picks2 := PicksAfterNothing(g, s, m, a, lucks, chosen, draws, limit);
    var k := SomeGiven(m, a, keys, picks2);
    SomethingIsTaken(picks2, LastGiven(picks, chosen), chosen, k);
    TwoAskings(g, s, m, a.ToContext(lucks), chosen, draws, limit, picks, picks2);
  }

  lemma {:induction false} LuckIsOne(g: Grammar, s: string, m: map<string, string>, a: AdRequest, lucks: Lucks,
                                     chosen: Option<Img>, draws: nat)
    requires MapOk(g, m) && a.Lucky(lucks)
    requires var keys := FindAllString(g, s);
             !NothingLeft(g, s, m) || !AllBlank(m, a, keys) || !AllMissing(m, a, keys)
    ensures OneAsking(g, s, m, a.ToContext(lucks), chosen, draws)
  {
    if NothingLeft(g, s, m) && Slow(g, s, m, a.ToContext(lucks), chosen, draws).text == "" {
      EmptyIsBlank(g, s, m, a, lucks, chosen, draws);
      BlankIsOne(g, s, m, a, lucks, chosen, draws);
    } else {
      NotEmptyAgrees(g, s, m, a.ToContext(lucks), chosen, draws);
    }
  }

  lemma {:induction false} SomeGiven(m: map<string, string>, a: AdRequest, keys: seq<string>, picks: Picks)
    returns (k: nat)
    requires Fit(m, a, keys, picks) && !AllMissing(m, a, keys)
    ensures k < |picks| && picks[k].Some?
  {
    var key :| key in keys && key !in m && !Gives(a, key, None);
    k :| k < |keys| && keys[k] == key;
  }
}
