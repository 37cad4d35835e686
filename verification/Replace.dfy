/**
 Macro replacement in templates (src/raw_ad/replace.go): `contact`, the fast path over scanned
 pieces, and the scan-and-replace path of `ReplaceTpl`. The two test their cases in a different
 order; the results below say for which macro maps they agree.
 */
module Replace {
  import opened Options
  import opened Text
  import opened Macros
  import opened Scanner
  import opened Templates
  import opened Images

  // ---------- What the replacement may ask for ----------

  /**
   The request context, and the answers of getMatchedCreative: `pick(n, w, h)` is what the n-th
   call since the ad was created returns for that size. Nothing is assumed of it here;
   AdRequests.dfy says which answers there are.
   */
  datatype Context = Context(country: string, pick: (nat, nat, nat) -> Option<Img>) {
    function CreativeCdnConv(img: Img): string { CdnConv(country, img) }
  }

  function CdnConv(country: string, img: Img): string {
    if country == "CN" && |img.domesticCDN| > 0 then img.domesticCDN else img.url
  }

  const IMG := "{$img_"
  const G_IMG := "{$g_img_"
  const GLOBAL := "{$g_"
  const INT_LIMIT: nat := 0x8000_0000_0000_0000

  /** fmt.Sscanf(key, lead + "%dx%d}"): fails on a number that does not fit an int. */
  function ReadSize(lead: string, key: string): Option<(nat, nat)> {
    if !HasAt(key, 0, lead) || SizeEnd(key, |lead|).None? then None else
    var a := DigitsEnd(key, |lead|);
    var b := DigitsEnd(key, a + 1);
    var w, h := Value(key[|lead|..a]), Value(key[a + 1..b]);
    if w < INT_LIMIT && h < INT_LIMIT then Some((w, h)) else None
  }

  lemma {:induction false} SizeSpots(lead: string, a: string, b: string, key: string)
    requires a != "" && b != "" && AllDigits(a) && AllDigits(b) && key == lead + a + "x" + b + "}"
    ensures var m := |lead| + |a|;
            && HasAt(key, 0, lead) && |lead| < m < m + 1 < |key| - 1 && key[m] == 'x' && key[|key| - 1] == '}'
            && DigitsEnd(key, |lead|) == m && key[|lead|..m] == a
            && DigitsEnd(key, m + 1) == |key| - 1 && key[m + 1..|key| - 1] == b
  {
    var mid := lead + a + "x";
    assert key == lead + a + ("x" + b + "}") == mid + b + "}";
    DigitsEndAfter(lead, a, "x" + b + "}");
    DigitsEndAfter(mid, b, "}");
    assert key[..|lead|] == lead && key[|lead| + |a|] == 'x' && key[|mid| + |b|] == '}';
  }

  lemma {:induction false} ReadsAt(lead: string, key: string, m: nat)
    requires HasAt(key, 0, lead) && |lead| < m < m + 1 < |key| - 1
    requires DigitsEnd(key, |lead|) == m && DigitsEnd(key, m + 1) == |key| - 1
    requires key[m] == 'x' && key[|key| - 1] == '}'
    ensures var w, h := Value(key[|lead|..m]), Value(key[m + 1..|key| - 1]);
            ReadSize(lead, key) == if w < INT_LIMIT && h < INT_LIMIT then Some((w, h)) else None
  {
  }

  lemma {:induction false} ReadsSpots(lead: string, a: string, b: string, key: string)
    requires a != "" && b != "" && AllDigits(a) && AllDigits(b) && key == lead + a + "x" + b + "}"
    ensures ReadSize(lead, key) ==
            if Value(a) < INT_LIMIT && Value(b) < INT_LIMIT then Some((Value(a), Value(b))) else None
  {
    SizeSpots(lead, a, b, key);
    ReadsAt(lead, key, |lead| + |a|);
  }

  /** It reads back the two numbers a size macro was written with. */
  lemma {:induction false} ReadSizeReads(lead: string, w: nat, h: nat)
    ensures ReadSize(lead, lead + Decimal(w) + "x" + Decimal(h) + "}") ==
            if w <= 0x7fff_ffff_ffff_ffff && h <= 0x7fff_ffff_ffff_ffff then Some((w, h)) else None
  {
    ReadsSpots(lead, Decimal(w), Decimal(h), lead + Decimal(w) + "x" + Decimal(h) + "}");
    ValueDecimal(w);
    ValueDecimal(h);
  }

  // ---------- One key ----------

  /** What a walk over the macros carries along. */
  datatype Env = Env(replaced: set<string>, creativeReplaced: bool, chosen: Option<Img>, draws: nat) {
    function Draw(chosen': Option<Img>): Env {
      this.(draws := draws + 1, chosen := if chosen'.Some? then chosen' else chosen)
    }
  }

  /** The text of the creative for a size, if the key states one and a creative fits it. */
  function Creative(lead: string, key: string, ctx: Context, env: Env): (Option<string>, Env) {
    match ReadSize(lead, key)
    case Some((w, h)) =>
      var img := ctx.pick(env.draws, w, h);
      (if img.Some? then Some(ctx.CreativeCdnConv(img.value)) else None, env.Draw(img))
    case None => (None, env)
  }

  function Mapped(m: map<string, string>, env: Env, key: string): (string, Env)
    requires key in m
  {
    if key in env.replaced && !HasAt(key, 0, GLOBAL) then (key, env)
    else (m[key], env.(replaced := env.replaced + {key}))
  }

  /** The key's replacement in `contact`: global sizes first, then the map, then sizes. */
  function FastKey(m: map<string, string>, ctx: Context, env: Env, key: string): (string, Env) {
    var (g, env1) := if Contains(key, G_IMG) then Creative(G_IMG, key, ctx, env) else (None, env);
    if g.Some? then (g.value, env1)
    else if key in m then Mapped(m, env1, key)
    else if !env1.creativeReplaced && Contains(key, IMG) then
      var (c, env2) := Creative(IMG, key, ctx, env1.(creativeReplaced := true));
      (if c.Some? then c.value else key, env2)
    else (key, env1)
  }

  /** The key's replacement in the slow path: the map first, then sizes, then global sizes. */
  function SlowKey(m: map<string, string>, ctx: Context, env: Env, key: string): (string, Env) {
    if key in m then Mapped(m, env, key) else
    var (c, env1) := if !env.creativeReplaced && Contains(key, IMG)
                     then Creative(IMG, key, ctx, env.(creativeReplaced := true)) else (None, env);
    if c.Some? then (c.value, env1) else
    var (g, env2) := if Contains(key, G_IMG) then Creative(G_IMG, key, ctx, env1) else (None, env1);
    (if g.Some? then g.value else key, env2)
  }

  // ---------- All keys of a template ----------

  function FastTexts(m: map<string, string>, ctx: Context, env: Env, keys: seq<string>): (r: (seq<string>, Env))
    ensures |r.0| == |keys|
  {
    if keys == [] then ([], env) else
    var n := |keys| - 1;
    var (texts, env1) := FastTexts(m, ctx, env, keys[..n]);
    var (t, env2) := FastKey(m, ctx, env1, keys[n]);
    (texts + [t], env2)
  }

  function SlowTexts(m: map<string, string>, ctx: Context, env: Env, keys: seq<string>): (r: (seq<string>, Env))
    ensures |r.0| == |keys|
  {
    if keys == [] then ([], env) else
    var n := |keys| - 1;
    var (texts, env1) := SlowTexts(m, ctx, env, keys[..n]);
    var (t, env2) := SlowKey(m, ctx, env1, keys[n]);
    (texts + [t], env2)
  }

  /** The texts between their surroundings: subs[0] texts[0] subs[1] ... */
  function Weave(subs: seq<string>, texts: seq<string>): string
    requires |subs| == |texts| + 1
    decreases |texts|
  {
    if texts == [] then subs[0] else
    var n := |texts| - 1;
    Weave(subs[..n + 1], texts[..n]) + texts[n] + subs[n + 1]
  }

  function Keys(ps: PosSlice): (keys: seq<string>)
    ensures |keys| == |ps|
  {
    seq(|ps|, i requires 0 <= i < |ps| => ps[i].key)
  }

  function Glue(ps: PosSlice, texts: seq<string>): string
    requires |ps| == |texts|
  {
    if ps == [] then "" else
    var n := |ps| - 1;
    Glue(ps[..n], texts[..n]) + (ps[n].prefix + texts[n])
  }

  /** What a replacement returns and leaves behind. */
  datatype Outcome = Outcome(text: string, chosen: Option<Img>, draws: nat)

  function Start(chosen: Option<Img>, draws: nat): Env { Env({}, false, chosen, draws) }

  function Fast(ps: PosSlice, m: map<string, string>, ctx: Context, chosen: Option<Img>, draws: nat): Outcome {
    var (texts, env) := FastTexts(m, ctx, Start(chosen, draws), Keys(ps));
    Outcome(Glue(ps, texts), env.chosen, env.draws)
  }

  function Slow(g: Grammar, tpl: string, m: map<string, string>, ctx: Context, chosen: Option<Img>,
                draws: nat): Outcome {
    var (texts, env) := SlowTexts(m, ctx, Start(chosen, draws), FindAllString(g, tpl));
    Outcome(Weave(SplitAtMatches(g, tpl), texts), env.chosen, env.draws)
  }

  // ---------- One more key ----------

  lemma {:induction false} FastTextsNext(m: map<string, string>, ctx: Context, env: Env, keys: seq<string>, i: nat)
    requires i < |keys|
    ensures var (texts, env1) := FastTexts(m, ctx, env, keys[..i]);
            var (t, env2) := FastKey(m, ctx, env1, keys[i]);
            FastTexts(m, ctx, env, keys[..i + 1]) == (texts + [t], env2)
  {
    assert keys[..i + 1][..i] == keys[..i];
  }

  lemma {:induction false} SlowTextsNext(m: map<string, string>, ctx: Context, env: Env, keys: seq<string>, i: nat)
    requires i < |keys|
    ensures var (texts, env1) := SlowTexts(m, ctx, env, keys[..i]);
            var (t, env2) := SlowKey(m, ctx, env1, keys[i]);
            SlowTexts(m, ctx, env, keys[..i + 1]) == (texts + [t], env2)
  {
    assert keys[..i + 1][..i] == keys[..i];
  }

  lemma {:induction false} GlueNext(ps: PosSlice, texts: seq<string>, t: string, i: nat)
    requires i < |ps| && |texts| == i
    ensures Glue(ps[..i + 1], texts + [t]) == Glue(ps[..i], texts) + (ps[i].prefix + t)
  {
    assert ps[..i + 1][..i] == ps[..i] && (texts + [t])[..i] == texts;
  }

  lemma {:induction false} WeaveNext(subs: seq<string>, texts: seq<string>, t: string, i: nat)
    requires i + 1 < |subs| && |texts| == i
    ensures Weave(subs[..i + 2], texts + [t]) == Weave(subs[..i + 1], texts) + t + subs[i + 1]
  {
    assert subs[..i + 2][..i + 1] == subs[..i + 1] && (texts + [t])[..i] == texts;
  }

  // ---------- The code ----------

  class RawAdObj {
    var creativeChosen: Option<Img>
    var draws: nat

    constructor ()
      ensures creativeChosen == None && draws == 0
    {
      creativeChosen, draws := None, 0;
    }

    method GetMatchedCreative(ctx: Context, w: nat, h: nat) returns (img: Option<Img>)
      modifies this`draws
      ensures img == ctx.pick(old(draws), w, h) && draws == old(draws) + 1
    {
      img := ctx.pick(draws, w, h);
      draws := draws + 1;
    }

    /** The state as the walk functions see it, given the locals of the running loop. */
    ghost function EnvOf(replaced: set<string>, creativeReplaced: bool): Env
      reads this
    {
      Env(replaced, creativeReplaced, creativeChosen, draws)
    }

    /** Sscanf on the key, then the creative for that size: the block the two paths repeat. */
    method ChooseCreative(lead: string, key: string, ctx: Context) returns (text: Option<string>)
      modifies this
      ensures forall replaced, creativeReplaced ::
                (text, EnvOf(replaced, creativeReplaced)) ==
                Creative(lead, key, ctx, old(EnvOf(replaced, creativeReplaced)))
    {
      text := None;
      var size := ReadSize(lead, key);
      if size.Some? {
        var creative := GetMatchedCreative(ctx, size.value.0, size.value.1);
        if creative.Some? {
          creativeChosen := creative;
          text := Some(ctx.CreativeCdnConv(creative.value));
        }
      }
    }

    /** The body of the loop of `contact`, for one key. */
    method ContactKey(key: string, m: map<string, string>, ctx: Context, replaced: set<string>, creativeReplaced: bool)
      returns (text: string, replaced': set<string>, creativeReplaced': bool)
      modifies this
      ensures (text, EnvOf(replaced', creativeReplaced')) ==
              FastKey(m, ctx, old(EnvOf(replaced, creativeReplaced)), key)
    {
      replaced', creativeReplaced' := replaced, creativeReplaced;
      if Contains(key, G_IMG) {
        var url := ChooseCreative(G_IMG, key, ctx);
        if url.Some? {
          text := url.value;
          return;
        }
      }
      if key in m {
        if key in replaced && !HasAt(key, 0, GLOBAL) {
          text := key;
          return;
        }
        replaced' := replaced + {key};
        text := m[key];
        return;
      }
      if !creativeReplaced && Contains(key, IMG) {
        creativeReplaced' := true;
        var url := ChooseCreative(IMG, key, ctx);
        if url.Some? {
          text := url.value;
          return;
        }
      }
      text := key;
    }

    method Contact(posSlice: PosSlice, m: map<string, string>, ctx: Context) returns (res: string)
      modifies this
      ensures Outcome(res, creativeChosen, draws) == Fast(posSlice, m, ctx, old(creativeChosen), old(draws))
    {
      res := "";
      var creativeReplaced := false;
      var replaced: set<string> := {};
      ghost var start := Start(creativeChosen, draws);
      ghost var keys := Keys(posSlice);
      ghost var texts: seq<string> := [];
      for i := 0 to |posSlice|
        invariant (texts, EnvOf(replaced, creativeReplaced)) == FastTexts(m, ctx, start, keys[..i])
        invariant res == Glue(posSlice[..i], texts)
      {
        var text;
        text, replaced, creativeReplaced := ContactKey(posSlice[i].key, m, ctx, replaced, creativeReplaced);
        FastTextsNext(m, ctx, start, keys, i);
        GlueNext(posSlice, texts, text, i);
        texts := texts + [text];
        res := res + (posSlice[i].prefix + text);
      }
      assert keys[..|posSlice|] == keys && posSlice[..|posSlice|] == posSlice;
    }

    /** The closure ReplaceTpl hands to reg.ReplaceAllFunc. */
    method ReplaceCapture(capture: string, m: map<string, string>, ctx: Context, replaced: set<string>,
                          creativeReplaced: bool)
      returns (text: string, replaced': set<string>, creativeReplaced': bool)
      modifies this
      ensures (text, EnvOf(replaced', creativeReplaced')) ==
              SlowKey(m, ctx, old(EnvOf(replaced, creativeReplaced)), capture)
    {
      replaced', creativeReplaced' := replaced, creativeReplaced;
      if capture in m {
        if capture in replaced && !HasAt(capture, 0, GLOBAL) {
          text := capture;
          return;
        }
        replaced' := replaced + {capture};
        text := m[capture];
        return;
      }
      if !creativeReplaced && Contains(capture, IMG) {
        creativeReplaced' := true;
        var url := ChooseCreative(IMG, capture, ctx);
        if url.Some? {
          text := url.value;
          return;
        }
      }
      if Contains(capture, G_IMG) {
        var url := ChooseCreative(G_IMG, capture, ctx);
        if url.Some? {
          text := url.value;
          return;
        }
      }
      text := capture;
    }

    /** reg.ReplaceAllFunc with that closure. */
    method ReplaceAll(g: Grammar, tpl: string, m: map<string, string>, ctx: Context) returns (res: string)
      modifies this
      ensures Outcome(res, creativeChosen, draws) == Slow(g, tpl, m, ctx, old(creativeChosen), old(draws))
    {
      var subs, captures := SplitAtMatches(g, tpl), FindAllString(g, tpl);
      var creativeReplaced := false;
      var replaced: set<string> := {};
      ghost var start := Start(creativeChosen, draws);
      ghost var texts: seq<string> := [];
      res := subs[0];
      for i := 0 to |captures|
        invariant (texts, EnvOf(replaced, creativeReplaced)) == SlowTexts(m, ctx, start, captures[..i])
        invariant res == Weave(subs[..i + 1], texts)
      {
        var text;
        text, replaced, creativeReplaced := ReplaceCapture(captures[i], m, ctx, replaced, creativeReplaced);
        SlowTextsNext(m, ctx, start, captures, i);
        WeaveNext(subs, texts, text, i);
        texts := texts + [text];
        res := res + text + subs[i + 1];
      }
      assert captures[..|captures|] == captures && subs[..|captures| + 1] == subs;
    }

    /** An empty fast result falls through, and the slow path then runs on the state it left. */
    method ReplaceTpl(g: Grammar, t: TemplateObj?, tpl: string, m: map<string, string>, ctx: Context)
        returns (res: string)
      modifies this
      ensures Outcome(res, creativeChosen, draws) ==
              if t != null && old(t.initFlag) then
                FastThenSlow(g, old(t.posSlice), tpl, m, ctx, old(creativeChosen), old(draws))
              else
                Slow(g, tpl, m, ctx, old(creativeChosen), old(draws))
    {
      if t != null && t.initFlag {
        res := Contact(t.posSlice, m, ctx);
        if res != "" {
          return;
        }
      }
      res := ReplaceAll(g, tpl, m, ctx);
    }
  }

  function FastThenSlow(g: Grammar, ps: PosSlice, tpl: string, m: map<string, string>, ctx: Context,
                        chosen: Option<Img>, draws: nat): Outcome
  {
    var fast := Fast(ps, m, ctx, chosen, draws);
    if fast.text != "" then fast else Slow(g, tpl, m, ctx, fast.chosen, fast.draws)
  }
}
