/**
 What a replacement by src/raw_ad/replace.go means, macro by macro: which text takes the place of
 each one, which creatives are asked for, and which one the ad remembers. One rule covers both
 paths; they differ in whether a global size that the map replaces is offered to the creatives.
 */
module ReplaceMeaning {
  import opened Images
  import opened MacroMatching
  import opened Macros
  import opened Options
  import opened Replace
  import opened ReplaceAgreement
  import opened Scanner
  import opened Text

  // ---------- The rule ----------

  /**
   The address of an image for a country is one of its own two. It is the domestic one for
   requests from China if there is one, and the other in all other cases.
   */
  ghost predicate AddressFor(country: string, img: Img, text: string) {
    && text in {img.url, img.domesticCDN}
    && (img.url != img.domesticCDN ==> (text == img.domesticCDN <==> country == "CN" && img.domesticCDN != ""))
  }

  /** The macros of a template, what the map replaces, and whether global sizes come before the map. */
  datatype Job = Job(m: map<string, string>, keys: seq<string>, globalsFirst: bool)

  /** An unmapped macro for one size. */
  predicate IsSize(m: map<string, string>, key: string) {
    key !in m && Contains(key, "{$img_")
  }

  ghost predicate IsFirstSize(j: Job, i: nat)
    requires i < |j.keys|
  {
    IsSize(j.m, j.keys[i]) && forall k :: 0 <= k < i ==> !IsSize(j.m, j.keys[k])
  }

  /** The size a creative is asked for at position `i`: at global sizes and at the first unmapped other one. */
  ghost function Asked(j: Job, i: nat): Option<(nat, nat)>
    requires i < |j.keys|
  {
    if Contains(j.keys[i], "{$g_img_") && (j.globalsFirst || j.keys[i] !in j.m) then ReadSize("{$g_img_", j.keys[i])
    else if IsFirstSize(j, i) then ReadSize("{$img_", j.keys[i])
    else None
  }

  /** How many creatives are asked for before position `i`. */
  ghost function AskedBefore(j: Job, i: nat): nat
    requires i <= |j.keys|
  {
    if i == 0 then 0 else AskedBefore(j, i - 1) + if Asked(j, i - 1).Some? then 1 else 0
  }

  /** The answer for position `i`, if a creative is asked for there, after `draws` others. */
  ghost function Answer(j: Job, ctx: Context, draws: nat, i: nat): Option<Img>
    requires i < |j.keys|
  {
    match Asked(j, i)
    case Some((w, h)) => ctx.pick(draws, w, h)
    case None => None
  }

  /** The creative found for position `i` in a walk that starts after `draws` others. */
  ghost function Found(j: Job, ctx: Context, draws: nat, i: nat): Option<Img>
    requires i < |j.keys|
  {
    Answer(j, ctx, draws + AskedBefore(j, i), i)
  }

  /**
   A macro that a creative was found for is replaced by its address. A mapped macro is replaced
   where it first stands, and a global one everywhere. Every other macro stays.
   */
  ghost predicate PutsIn(j: Job, country: string, i: nat, found: Option<Img>, text: string)
    requires i < |j.keys|
  {
    match found
    case Some(img) => AddressFor(country, img, text)
    case None => text == if MapReplaces(j, i) then j.m[j.keys[i]] else j.keys[i]
  }

  ghost predicate Placed(j: Job, ctx: Context, draws: nat, i: nat, text: string)
    requires i < |j.keys|
  {
    PutsIn(j, ctx.country, i, Found(j, ctx, draws, i), text)
  }

  predicate MapReplaces(j: Job, i: nat)
    requires i < |j.keys|
  {
    j.keys[i] in j.m && (j.keys[i] in j.keys[..i] ==> HasAt(j.keys[i], 0, "{$g_"))
  }

  ghost predicate AllPlaced(j: Job, ctx: Context, draws: nat, texts: seq<string>) {
    |texts| <= |j.keys| && forall i :: 0 <= i < |texts| ==> Placed(j, ctx, draws, i, texts[i])
  }

  /** The last creative found before position `n`, or `chosen` if none was. */
  ghost function LastFound(j: Job, ctx: Context, draws: nat, n: nat, chosen: Option<Img>): Option<Img>
    requires n <= |j.keys|
  {
    if n == 0 then chosen
    else if Found(j, ctx, draws, n - 1).Some? then Found(j, ctx, draws, n - 1)
    else LastFound(j, ctx, draws, n - 1, chosen)
  }

  // ---------- One macro ----------

  /** The environment of the walk remembers the mapped keys replaced and whether a size was met. */
  ghost predicate Remembers(m: map<string, string>, keys: seq<string>, env: Env) {
    && (forall k :: k in keys && k in m && !HasAt(k, 0, GLOBAL) ==> k in env.replaced)
    && (forall k :: k in env.replaced ==> k in keys && k in m)
    && (env.creativeReplaced <==> exists k :: 0 <= k < |keys| && IsSize(m, keys[k]))
  }

  /** What one macro does to the walk. */
  ghost predicate Step(j: Job, ctx: Context, i: nat, env: Env, text: string, env': Env)
    requires i < |j.keys|
  {
    var img := Answer(j, ctx, env.draws, i);
    && env'.draws == env.draws + (if Asked(j, i).Some? then 1 else 0)
    && env'.chosen == (if img.Some? then img else env.chosen)
    && PutsIn(j, ctx.country, i, img, text)
  }

  ghost predicate Opens(key: string) { key == "" || Bracketed(key) }

  lemma {:induction false} OpensAtStart(key: string, w: string)
    requires Opens(key) && w != "" && w[0] == '{'
    ensures Contains(key, w) <==> HasAt(key, 0, w)
  {
    if key != "" { OpensOnlyAtStart(key, w); }
  }

  lemma {:induction false} MetBefore(j: Job, env: Env, i: nat)
    requires i < |j.keys| && Remembers(j.m, j.keys[..i], env)
    ensures MapReplaces(j, i) <==> j.keys[i] in j.m && (j.keys[i] in env.replaced ==> HasAt(j.keys[i], 0, GLOBAL))
    ensures IsFirstSize(j, i) <==> IsSize(j.m, j.keys[i]) && !env.creativeReplaced
  {
    assert forall k :: 0 <= k < i ==> j.keys[..i][k] == j.keys[k];
  }

  lemma {:induction false} SlowKeySteps(j: Job, ctx: Context, env: Env, i: nat)
    requires !j.globalsFirst && i < |j.keys| && Opens(j.keys[i]) && Remembers(j.m, j.keys[..i], env)
    ensures var (t, env') := SlowKey(j.m, ctx, env, j.keys[i]); Step(j, ctx, i, env, t, env')
  {
    MetBefore(j, env, i);
    OpensAtStart(j.keys[i], IMG);
    OpensAtStart(j.keys[i], G_IMG);
    NotBothSizes(j.keys[i]);
  }

  lemma {:induction false} FastKeySteps(j: Job, ctx: Context, env: Env, i: nat)
    requires j.globalsFirst && i < |j.keys| && Opens(j.keys[i]) && Remembers(j.m, j.keys[..i], env)
    ensures var (t, env') := FastKey(j.m, ctx, env, j.keys[i]); Step(j, ctx, i, env, t, env')
  {
    MetBefore(j, env, i);
    OpensAtStart(j.keys[i], IMG);
    OpensAtStart(j.keys[i], G_IMG);
    NotBothSizes(j.keys[i]);
  }

  lemma {:induction false} RemembersMore(m: map<string, string>, keys: seq<string>, env: Env, key: string, env': Env)
    requires Remembers(m, keys, env)
    requires env.replaced <= env'.replaced <= env.replaced + {key}
    requires key in env'.replaced ==> key in m
    requires key in m && !HasAt(key, 0, GLOBAL) ==> key in env'.replaced
    requires env'.creativeReplaced == (env.creativeReplaced || IsSize(m, key))
    ensures Remembers(m, keys + [key], env')
  {
    assert (keys + [key])[|keys|] == key && forall k :: 0 <= k < |keys| ==> (keys + [key])[k] == keys[k];
  }

  lemma {:induction false} SlowKeyRemembers(m: map<string, string>, ctx: Context, env: Env, keys: seq<string>,
                                            key: string)
    requires Opens(key) && Remembers(m, keys, env)
    ensures Remembers(m, keys + [key], SlowKey(m, ctx, env, key).1)
  {
    RemembersMore(m, keys, env, key, SlowKey(m, ctx, env, key).1);
  }

  lemma {:induction false} FastKeyRemembers(m: map<string, string>, ctx: Context, env: Env, keys: seq<string>,
                                            key: string)
    requires Opens(key) && Remembers(m, keys, env)
    ensures Remembers(m, keys + [key], FastKey(m, ctx, env, key).1)
  {
    OpensAtStart(key, IMG);
    OpensAtStart(key, G_IMG);
    NotBothSizes(key);
    GlobalSizeIsGlobal(key);
    RemembersMore(m, keys, env, key, FastKey(m, ctx, env, key).1);
  }

  lemma {:induction false} GlobalSizeIsGlobal(key: string)
    ensures HasAt(key, 0, G_IMG) ==> HasAt(key, 0, GLOBAL)
  {
    assert G_IMG[..4] == GLOBAL;
    if HasAt(key, 0, G_IMG) { assert key[0..4] == key[0..8][..4]; }
  }

  // ---------- A walk ----------

  /** The walk over the first `n` macros. */
  ghost predicate Walked(j: Job, ctx: Context, n: nat, chosen: Option<Img>, draws: nat, texts: seq<string>, env: Env)
    requires n <= |j.keys|
  {
    && |texts| == n && Remembers(j.m, j.keys[..n], env)
    && env.draws == draws + AskedBefore(j, n)
    && env.chosen == LastFound(j, ctx, draws, n, chosen)
    && AllPlaced(j, ctx, draws, texts)
  }

  lemma {:induction false} PlacedMore(j: Job, ctx: Context, draws: nat, texts: seq<string>, t: string)
    requires |texts| < |j.keys| && AllPlaced(j, ctx, draws, texts) && Placed(j, ctx, draws, |texts|, t)
    ensures AllPlaced(j, ctx, draws, texts + [t])
  {
  }

  lemma {:induction false} AskedNext(j: Job, n: nat)
    requires n < |j.keys|
    ensures AskedBefore(j, n + 1) == AskedBefore(j, n) + if Asked(j, n).Some? then 1 else 0
  {
  }

  lemma {:induction false} StepFinds(j: Job, ctx: Context, n: nat, draws: nat, env: Env, text: string, env': Env)
    requires n < |j.keys| && env.draws == draws + AskedBefore(j, n) && Step(j, ctx, n, env, text, env')
    ensures Answer(j, ctx, env.draws, n) == Found(j, ctx, draws, n)
  {
  }

  lemma {:induction false} StepPlaces(j: Job, ctx: Context, draws: nat, env: Env, texts: seq<string>, t: string,
                                      env': Env)
    requires |texts| < |j.keys| && AllPlaced(j, ctx, draws, texts)
    requires env.draws == draws + AskedBefore(j, |texts|) && Step(j, ctx, |texts|, env, t, env')
    ensures AllPlaced(j, ctx, draws, texts + [t])
  {
    StepFinds(j, ctx, |texts|, draws, env, t, env');
    assert Placed(j, ctx, draws, |texts|, t);
    PlacedMore(j, ctx, draws, texts, t);
  }

  lemma {:induction false} StepChooses(j: Job, ctx: Context, n: nat, draws: nat, env: Env, t: string, env': Env,
                                       chosen: Option<Img>)
    requires n < |j.keys| && env.chosen == LastFound(j, ctx, draws, n, chosen)
    requires env.draws == draws + AskedBefore(j, n) && Step(j, ctx, n, env, t, env')
    ensures env'.chosen == LastFound(j, ctx, draws, n + 1, chosen)
    ensures env'.draws == draws + AskedBefore(j, n + 1)
  {
    StepFinds(j, ctx, n, draws, env, t, env');
    AskedNext(j, n);
  }

  lemma {:induction false} WalkStep(j: Job, ctx: Context, n: nat, chosen: Option<Img>, draws: nat,
                                    texts: seq<string>, env: Env, t: string, env': Env)
    requires n < |j.keys| && Walked(j, ctx, n, chosen, draws, texts, env)
    requires Step(j, ctx, n, env, t, env') && Remembers(j.m, j.keys[..n] + [j.keys[n]], env')
    ensures Walked(j, ctx, n + 1, chosen, draws, texts + [t], env')
  {
    assert j.keys[..n] + [j.keys[n]] == j.keys[..n + 1];
    StepChooses(j, ctx, n, draws, env, t, env', chosen);
    StepPlaces(j, ctx, draws, env, texts, t, env');
  }

  ghost predicate AllOpen(keys: seq<string>) {
    forall k :: 0 <= k < |keys| ==> Opens(keys[k])
  }

  lemma {:induction false} SlowWalks(j: Job, ctx: Context, chosen: Option<Img>, draws: nat, n: nat)
    requires !j.globalsFirst && AllOpen(j.keys) && n <= |j.keys|
    ensures var (texts, env) := SlowTexts(j.m, ctx, Start(chosen, draws), j.keys[..n]);
            Walked(j, ctx, n, chosen, draws, texts, env)
  {
    if n > 0 {
      var k := n - 1;
      SlowWalks(j, ctx, chosen, draws, k);
      var (texts, env) := SlowTexts(j.m, ctx, Start(chosen, draws), j.keys[..k]);
      var (t, env') := SlowKey(j.m, ctx, env, j.keys[k]);
      SlowKeySteps(j, ctx, env, k);
      SlowKeyRemembers(j.m, ctx, env, j.keys[..k], j.keys[k]);
      WalkStep(j, ctx, k, chosen, draws, texts, env, t, env');
      SlowTextsNext(j.m, ctx, Start(chosen, draws), j.keys, k);
    }
  }

  lemma {:induction false} FastWalks(j: Job, ctx: Context, chosen: Option<Img>, draws: nat, n: nat)
    requires j.globalsFirst && AllOpen(j.keys) && n <= |j.keys|
    ensures var (texts, env) := FastTexts(j.m, ctx, Start(chosen, draws), j.keys[..n]);
            Walked(j, ctx, n, chosen, draws, texts, env)
  {
    if n > 0 {
      var k := n - 1;
      FastWalks(j, ctx, chosen, draws, k);
      var (texts, env) := FastTexts(j.m, ctx, Start(chosen, draws), j.keys[..k]);
      var (t, env') := FastKey(j.m, ctx, env, j.keys[k]);
      FastKeySteps(j, ctx, env, k);
      FastKeyRemembers(j.m, ctx, env, j.keys[..k], j.keys[k]);
      WalkStep(j, ctx, k, chosen, draws, texts, env, t, env');
      FastTextsNext(j.m, ctx, Start(chosen, draws), j.keys, k);
    }
  }

  ghost predicate AllBracketed(keys: seq<string>) {
    forall k :: 0 <= k < |keys| ==> Bracketed(keys[k])
  }

  lemma {:induction false} MacrosAreBracketed(g: Grammar, s: string)
    ensures AllBracketed(FindAllString(g, s))
  {
    var keys := FindAllString(g, s);
    KeysAreMacros(g, s);
    forall k | 0 <= k < |keys| ensures Bracketed(keys[k]) {
      MacroIsBracketed(g, keys[k]);
    }
  }

  // ---------- The text of a replacement ----------

  /** Pieces with texts in place of their keys, and nothing where the texts have run out. */
  function WithTexts(ps: PosSlice, texts: seq<string>): PosSlice {
    seq(|ps|, i requires 0 <= i < |ps| => Pos(ps[i].prefix, if i < |texts| then texts[i] else ""))
  }

  lemma {:induction false} RenderMore(ps: PosSlice, p: Pos)
    ensures Render(ps + [p]) == Render(ps) + (p.prefix + p.key)
  {
    if ps == [] {
      RenderOne(p);
    } else {
      RenderMore(ps[1..], p);
      assert (ps + [p])[1..] == ps[1..] + [p];
      RenderFirst(ps + [p]);
      RenderFirst(ps);
      JoinThree(ps[0].prefix + ps[0].key, Render(ps[1..]), p.prefix + p.key);
    }
  }

  lemma {:induction false} RenderFirst(ps: PosSlice)
    requires ps != []
    ensures Render(ps) == ps[0].prefix + ps[0].key + Render(ps[1..])
  {
  }

  lemma {:induction false} JoinThree(a: string, b: string, c: string)
    ensures a + (b + c) == a + b + c
  {
  }

  lemma {:induction false} RenderOne(p: Pos)
    ensures Render([] + [p]) == "" + (p.prefix + p.key)
  {
    var ps := [p];
    assert ps[1..] == [] && Render(ps[1..]) == "";
    assert Render(ps) == p.prefix + p.key + "";
    assert [] + [p] == ps;
  }

  lemma {:induction false} RenderIsGlue(qs: PosSlice, ps: PosSlice, texts: seq<string>)
    requires |qs| == |ps| == |texts|
    requires forall k :: 0 <= k < |ps| ==> qs[k] == Pos(ps[k].prefix, texts[k])
    ensures Render(qs) == Glue(ps, texts)
  {
    if ps != [] {
      var n := |ps| - 1;
      RenderIsGlue(qs[..n], ps[..n], texts[..n]);
      RenderMore(qs[..n], qs[n]);
      assert qs == qs[..n] + [qs[n]];
    }
  }

  /**
   What a replacement does, by the rule: texts take the places of the keys, and nothing else of the
   pieces changes. It remembers the last creative found and counts those asked for.
   */
  ghost predicate Replaces(ps: PosSlice, j: Job, ctx: Context, chosen: Option<Img>, draws: nat, o: Outcome) {
    exists texts :: ReplacesBy(ps, j, ctx, chosen, draws, texts, o)
  }

  ghost predicate ReplacesBy(ps: PosSlice, j: Job, ctx: Context, chosen: Option<Img>, draws: nat, texts: seq<string>,
                             o: Outcome) {
    && |texts| == |j.keys| && o.text == Render(WithTexts(ps, texts))
    && AllPlaced(j, ctx, draws, texts)
    && o.chosen == LastFound(j, ctx, draws, |j.keys|, chosen)
    && o.draws == draws + AskedBefore(j, |j.keys|)
  }

  /** The fast path does it with global sizes before the map, for any map and the pieces of any template. */
  lemma {:induction false} FastReplaces(g: Grammar, s: string, m: map<string, string>, ctx: Context,
                                        chosen: Option<Img>, draws: nat)
    ensures Replaces(Pieces(g, s), Job(m, Keys(Pieces(g, s)), true), ctx, chosen, draws,
                     Fast(Pieces(g, s), m, ctx, chosen, draws))
  {
    var ps := Pieces(g, s);
    var j := Job(m, Keys(ps), true);
    PiecesAreSplit(g, s);
    MacrosAreBracketed(g, s);
    FastWalks(j, ctx, chosen, draws, |ps|);
    assert j.keys[..|ps|] == j.keys;
    var texts := FastTexts(m, ctx, Start(chosen, draws), j.keys).0;
    RenderIsGlue(WithTexts(ps, texts), ps, texts);
    assert ReplacesBy(ps, j, ctx, chosen, draws, texts, Fast(ps, m, ctx, chosen, draws));
  }

  /** The slow path does it with the map before all sizes, and without the empty key of the last piece. */
  lemma {:induction false} SlowReplaces(g: Grammar, s: string, m: map<string, string>, ctx: Context,
                                        chosen: Option<Img>, draws: nat)
    ensures Replaces(Pieces(g, s), Job(m, FindAllString(g, s), false), ctx, chosen, draws,
                     Slow(g, s, m, ctx, chosen, draws))
  {
    var ps := Pieces(g, s);
    var j := Job(m, FindAllString(g, s), false);
    PiecesAreSplit(g, s);
    MacrosAreBracketed(g, s);
    SlowWalks(j, ctx, chosen, draws, |j.keys|);
    assert j.keys[..|j.keys|] == j.keys;
    var texts := SlowTexts(m, ctx, Start(chosen, draws), j.keys).0;
    GlueIsWeave(ps, SplitAtMatches(g, s), texts);
    RenderIsGlue(WithTexts(ps, texts), ps, texts + [""]);
    assert ReplacesBy(ps, j, ctx, chosen, draws, texts, Slow(g, s, m, ctx, chosen, draws));
  }
}
