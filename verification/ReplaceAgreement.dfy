/**
 When the fast path of src/raw_ad/replace.go agrees with the slow one, and what the slow one
 means position by position.
 */
module ReplaceAgreement {
  import opened AdRequests
  import opened Options
  import opened Text
  import opened MacroMatching
  import opened Macros
  import opened Scanner
  import opened Images
  import opened Replace

  // ---------- One key ----------

  lemma {:induction false} OpensOnlyAtStart(key: string, w: string)
    requires Bracketed(key) && w != "" && w[0] == '{'
    ensures Contains(key, w) <==> HasAt(key, 0, w)
  {
    if Contains(key, w) {
      var i :| 0 <= i <= |key| && HasAt(key, i, w);
      assert key[i] == key[i..i + |w|][0];
    }
  }

  lemma {:induction false} NotBothSizes(key: string)
    ensures !(HasAt(key, 0, IMG) && HasAt(key, 0, G_IMG))
  {
    assert HasAt(key, 0, IMG) ==> key[2] == key[0..|IMG|][2] == 'i';
    assert HasAt(key, 0, G_IMG) ==> key[2] == key[0..|G_IMG|][2] == 'g';
  }

  /** The map offers no text for this key that a creative could override. */
  ghost predicate KeyOk(m: map<string, string>, key: string) {
    key in m ==> ReadSize(G_IMG, key).None?
  }

  lemma {:induction false} KeyAgrees(m: map<string, string>, ctx: Context, env: Env, key: string)
    requires Bracketed(key) && KeyOk(m, key)
    ensures FastKey(m, ctx, env, key) == SlowKey(m, ctx, env, key)
  {
    OpensOnlyAtStart(key, IMG);
    OpensOnlyAtStart(key, G_IMG);
    NotBothSizes(key);
  }

  lemma {:induction false} TextsAgree(m: map<string, string>, ctx: Context, env: Env, keys: seq<string>)
    requires forall k :: 0 <= k < |keys| ==> Bracketed(keys[k]) && KeyOk(m, keys[k])
    ensures FastTexts(m, ctx, env, keys) == SlowTexts(m, ctx, env, keys)
  {
    if keys != [] {
      var n := |keys| - 1;
      TextsAgree(m, ctx, env, keys[..n]);
      KeyAgrees(m, ctx, SlowTexts(m, ctx, env, keys[..n]).1, keys[n]);
    }
  }

  // ---------- A whole template ----------

  /**
   The maps for which the paths agree: no text for a global image macro whose size can be read,
   and none for the empty key that ends every piece list.
   */
  ghost predicate MapOk(g: Grammar, m: map<string, string>) {
    && ("" in m ==> m[""] == "")
    && forall k :: k in m && IsMacro(g, k) ==> KeyOk(m, k)
  }

  lemma {:induction false} PiecesAreSplit(g: Grammar, s: string)
    ensures var ps := Pieces(g, s);
            && Keys(ps) == FindAllString(g, s) + [""]
            && |ps| == |SplitAtMatches(g, s)| && forall k :: 0 <= k < |ps| ==> ps[k].prefix == SplitAtMatches(g, s)[k]
    decreases |s|
  {
    match NextMatch(g, s, 0)
    case Some((b, e)) =>
      PiecesAreSplit(g, s[e..]);
      assert Keys(Pieces(g, s)) == [s[b..e]] + Keys(Pieces(g, s[e..]));
    case None =>
  }

  lemma {:induction false} KeysAreMacros(g: Grammar, s: string)
    ensures forall k :: 0 <= k < |FindAllString(g, s)| ==> IsMacro(g, FindAllString(g, s)[k])
    decreases |s|
  {
    match NextMatch(g, s, 0)
    case Some((b, e)) =>
      MacroEndExact(g, s, b, e);
      KeysAreMacros(g, s[e..]);
    case None =>
  }

  lemma {:induction false} GlueIsWeave(ps: PosSlice, subs: seq<string>, texts: seq<string>)
    requires |ps| == |subs| == |texts| + 1
    requires forall k :: 0 <= k < |ps| ==> ps[k].prefix == subs[k]
    ensures Glue(ps, texts + [""]) == Weave(subs, texts)
    decreases |texts|
  {
    var n := |texts|;
    assert (texts + [""])[..n] == texts;
    if n > 0 {
      assert texts == texts[..n - 1] + [texts[n - 1]];
      GlueIsWeave(ps[..n], subs[..n], texts[..n - 1]);
      GlueLast(ps[..n], texts[..n - 1], texts[n - 1]);
    }
  }

  lemma {:induction false} GlueLast(ps: PosSlice, texts: seq<string>, t: string)
    requires |ps| == |texts| + 1
    ensures Glue(ps, texts + [t]) == Glue(ps, texts + [""]) + t
  {
    assert (texts + [t])[..|texts|] == texts == (texts + [""])[..|texts|];
  }

  /** The fast path over the pieces of a template does what the slow path does to its text. */
  lemma {:induction false} FastIsSlow(g: Grammar, s: string, m: map<string, string>, ctx: Context,
                                      chosen: Option<Img>, draws: nat)
    requires MapOk(g, m)
    ensures Fast(Pieces(g, s), m, ctx, chosen, draws) == Slow(g, s, m, ctx, chosen, draws)
  {
    var ps, keys := Pieces(g, s), FindAllString(g, s);
    var start := Start(chosen, draws);
    PiecesAreSplit(g, s);
    KeysAreMacros(g, s);
    forall k | 0 <= k < |keys| ensures Bracketed(keys[k]) && KeyOk(m, keys[k]) {
      MacroIsBracketed(g, keys[k]);
    }
    TextsAgree(m, ctx, start, keys);
    FastTextsNext(m, ctx, start, Keys(ps), |keys|);
    assert Keys(ps)[..|keys|] == keys && Keys(ps)[..|ps|] == Keys(ps);
    EmptyKey(m, ctx, SlowTexts(m, ctx, start, keys).1);
    GlueIsWeave(ps, SplitAtMatches(g, s), SlowTexts(m, ctx, start, keys).0);
  }

  lemma {:induction false} EmptyKey(m: map<string, string>, ctx: Context, env: Env)
    requires "" in m ==> m[""] == ""
    ensures var (t, env') := FastKey(m, ctx, env, "");
            t == "" && env'.chosen == env.chosen && env'.draws == env.draws
  {
    assert forall i :: 0 <= i <= |""| ==> !HasAt("", i, G_IMG) && !HasAt("", i, IMG);
  }

  lemma {:induction false} FastOfPieces(ps: PosSlice, k: string, m: map<string, string>, ctx: Context)
    requires ps == [Pos("", k), Pos("", "")] && ("" in m ==> m[""] == "")
    ensures Fast(ps, m, ctx, None, 0).text == FastKey(m, ctx, Start(None, 0), k).0
  {
    var start := Start(None, 0);
    var (t, env) := FastKey(m, ctx, start, k);
    assert Keys(ps) == [k, ""];
    FastTextsNext(m, ctx, start, [k, ""], 0);
    FastTextsNext(m, ctx, start, [k, ""], 1);
    assert [k, ""][..2] == [k, ""] && [] + [t] == [t];
    EmptyKey(m, ctx, env);
    GlueTwo(ps, t);
  }

  lemma {:induction false} GlueTwo(ps: PosSlice, t: string)
    requires |ps| == 2 && ps[0].prefix == ps[1].prefix == ""
    ensures Glue(ps, [t] + [""]) == t
  {
    GlueNext(ps, [], t, 0);
    GlueNext(ps, [t], "", 1);
    assert ps[..2] == ps && ps[..0] == [] && [] + [t] == [t];
  }

  lemma {:induction false} SlowOfMacro(g: Grammar, k: string, m: map<string, string>, ctx: Context)
    requires FindAllString(g, k) == [k] && SplitAtMatches(g, k) == ["", ""]
    ensures Slow(g, k, m, ctx, None, 0).text == SlowKey(m, ctx, Start(None, 0), k).0
  {
    var u := SlowKey(m, ctx, Start(None, 0), k).0;
    SlowTextsNext(m, ctx, Start(None, 0), [k], 0);
    assert [k][..1] == [k] && [] + [u] == [u];
    WeaveOne(u);
  }

  lemma {:induction false} WeaveOne(t: string)
    ensures Weave(["", ""], [t]) == t
  {
    WeaveTwo(["", ""], t);
  }

  lemma {:induction false} WeaveTwo(subs: seq<string>, t: string)
    requires |subs| == 2
    ensures Weave(subs, [t]) == subs[0] + t + subs[1]
  {
    assert [t][..0] == [] && subs[..1][0] == subs[0];
  }

  lemma {:induction false} OneMacroPieces(g: Grammar, s: string)
    requires IsMacro(g, s)
    ensures Pieces(g, s) == [Pos("", s), Pos("", "")]
    ensures FindAllString(g, s) == [s] && SplitAtMatches(g, s) == ["", ""]
  {
    MacroIsBracketed(g, s);
    assert s[0..|s|] == s && s[..0] == "" && s[|s|..] == "";
    MacroEndExact(g, s, 0, |s|);
    assert NextMatch(g, s, 0) == Some((0, |s|));
    assert NextMatch(g, "", 0).None?;
  }

  /** A template of one mapped global size, with a creative to hand: the paths differ. */
  lemma {:induction false} OverriddenKey(g: Grammar, k: string, m: map<string, string>, ctx: Context, img: Img)
    requires IsMacro(g, k) && k in m && ReadSize(G_IMG, k).Some? && ("" in m ==> m[""] == "")
    requires var (w, h) := ReadSize(G_IMG, k).value; ctx.pick(0, w, h) == Some(img)
    ensures Fast(Pieces(g, k), m, ctx, None, 0).text == ctx.CreativeCdnConv(img)
    ensures Slow(g, k, m, ctx, None, 0).text == m[k]
  {
    OneMacroPieces(g, k);
    FastOfPieces(Pieces(g, k), k, m, ctx);
    SlowOfMacro(g, k, m, ctx);
    MacroIsBracketed(g, k);
    OpensOnlyAtStart(k, G_IMG);
  }

  lemma {:induction false} EmptyPieces(g: Grammar)
    ensures Pieces(g, "") == [Pos("", "")] && FindAllString(g, "") == [] && SplitAtMatches(g, "") == [""]
  {
    assert NextMatch(g, "", 0).None?;
  }

  lemma {:induction false} NoSizeInEmpty(s: string)
    requires s == ""
    ensures !Contains(s, G_IMG)
  {
  }

  lemma {:induction false} FastOfLast(ps: PosSlice, m: map<string, string>, ctx: Context)
    requires ps == [Pos("", "")] && "" in m
    ensures Fast(ps, m, ctx, None, 0).text == m[""]
  {
    var keys := Keys(ps);
    NoSizeInEmpty(keys[0]);
    FastTextsNext(m, ctx, Start(None, 0), keys, 0);
    assert keys[..1] == keys && [] + [m[""]] == [m[""]];
    GlueNext(ps, [], m[""], 0);
    assert ps[..1] == ps && ps[..0] == [];
  }

  lemma {:induction false} EmptyTemplate(g: Grammar, m: map<string, string>, ctx: Context)
    requires "" in m
    ensures Fast(Pieces(g, ""), m, ctx, None, 0).text == m[""]
    ensures Slow(g, "", m, ctx, None, 0).text == ""
  {
    EmptyPieces(g);
    FastOfLast(Pieces(g, ""), m, ctx);
  }

  /** For every other map some template and some indexed ad tell the paths apart. */
  lemma {:induction false} OtherMapsDisagree(g: Grammar, m: map<string, string>)
    returns (s: string, a: AdRequest, lucks: Lucks)
    requires !MapOk(g, m)
    ensures a.Valid() && a.Lucky(lucks)
    ensures Fast(Pieces(g, s), m, a.ToContext(lucks), None, 0).text != Slow(g, s, m, a.ToContext(lucks), None, 0).text
  {
    lucks := (n: nat) => PLAIN;
    if "" in m && m[""] != "" {
      s, a := "", Gallery([]);
      GalleryIsValid([]);
      EmptyTemplate(g, m, a.ToContext(lucks));
    } else {
      s :| s in m && IsMacro(g, s) && !KeyOk(m, s);
      var (w, h) := ReadSize(G_IMG, s).value;
      var url := "https://" + m[s];
      var other := Img(w, h, url, "", "");
      assert url[0..8] == "https://";
      a := Gallery([other]);
      GalleryIsValid([other]);
      OnlyImage(other);
      OverriddenKey(g, s, m, a.ToContext(lucks), other);
    }
  }

  // ---------- The maps of the server ----------

  /** The callers' maps have texts for fixed words of the template grammar only. */
  ghost predicate WordsOnly(m: map<string, string>) {
    forall k :: k in m ==> exists i :: 0 <= i < |TEMPLATE_MARCOS| && IsWord(TEMPLATE_MARCOS[i], k)
  }

  predicate IsWord(marco: Marco, k: string) {
    marco.Word? && k == "{$" + marco.name + "}"
  }

  lemma {:induction false} NamesAreNoSizes(i: nat)
    requires i < |TEMPLATE_MARCOS| && TEMPLATE_MARCOS[i].Word? && |TEMPLATE_MARCOS[i].name| > 3
    ensures var n := TEMPLATE_MARCOS[i].name; n[2] != 'i' || n[3] != 'm'
  {
  }

  lemma {:induction false} WordIsNoSize(i: nat, k: string)
    requires i < |TEMPLATE_MARCOS| && IsWord(TEMPLATE_MARCOS[i], k)
    ensures k != "" && ReadSize(G_IMG, k).None?
  {
    var n := TEMPLATE_MARCOS[i].name;
    if HasAt(k, 0, G_IMG) {
      assert k[4] == k[0..|G_IMG|][4] == 'i' && k[5] == k[0..|G_IMG|][5] == 'm';
      assert k[4] == n[2] && k[5] == n[3];
      NamesAreNoSizes(i);
      assert false;
    }
  }

  /** So on the H5 templates of the server, with the maps it makes, the two paths agree. */
  lemma {:induction false} ServerMapsAgree(s: string, m: map<string, string>, ctx: Context, chosen: Option<Img>,
                                           draws: nat)
    requires WordsOnly(m)
    ensures Fast(Pieces(TemplateGrammar(), s), m, ctx, chosen, draws) ==
            Slow(TemplateGrammar(), s, m, ctx, chosen, draws)
  {
    forall k | k in m ensures k != "" && KeyOk(m, k) {
      var i :| 0 <= i < |TEMPLATE_MARCOS| && IsWord(TEMPLATE_MARCOS[i], k);
      WordIsNoSize(i, k);
    }
    FastIsSlow(TemplateGrammar(), s, m, ctx, chosen, draws);
  }

  // ---------- ReplaceTpl as a whole ----------

  /** The answer for a size does not depend on how often it was asked. */
  ghost predicate Repeatable(ctx: Context) {
    forall i, j, w, h :: ctx.pick(i, w, h) == ctx.pick(j, w, h)
  }

  /** `f` came out of `e` by a walk, `f2` out of `e2` by the same walk from another chosen creative. */
  ghost predicate SameWalk(e: Env, f: Env, e2: Env, f2: Env) {
    && f.replaced == f2.replaced && f.creativeReplaced == f2.creativeReplaced
    && (f.chosen == f2.chosen || (f.chosen == e.chosen && f2.chosen == e2.chosen))
  }

  lemma {:induction false} SlowTextsFrom(m: map<string, string>, ctx: Context, e: Env, e2: Env, keys: seq<string>)
    requires Repeatable(ctx) && e.replaced == e2.replaced && e.creativeReplaced == e2.creativeReplaced
    ensures SlowTexts(m, ctx, e, keys).0 == SlowTexts(m, ctx, e2, keys).0
    ensures SameWalk(e, SlowTexts(m, ctx, e, keys).1, e2, SlowTexts(m, ctx, e2, keys).1)
  {
    if keys != [] {
      var n := |keys| - 1;
      SlowTextsFrom(m, ctx, e, e2, keys[..n]);
      SlowKeyFrom(m, ctx, SlowTexts(m, ctx, e, keys[..n]).1, SlowTexts(m, ctx, e2, keys[..n]).1, keys[n]);
    }
  }

  lemma {:induction false} SlowKeyFrom(m: map<string, string>, ctx: Context, e: Env, e2: Env, key: string)
    requires Repeatable(ctx) && e.replaced == e2.replaced && e.creativeReplaced == e2.creativeReplaced
    ensures SlowKey(m, ctx, e, key).0 == SlowKey(m, ctx, e2, key).0
    ensures SameWalk(e, SlowKey(m, ctx, e, key).1, e2, SlowKey(m, ctx, e2, key).1)
  {
    if key !in m {
      var f, f2 := e, e2;
      if !e.creativeReplaced && Contains(key, IMG) {
        f, f2 := e.(creativeReplaced := true), e2.(creativeReplaced := true);
        CreativeFrom(IMG, key, ctx, f, f2);
        f, f2 := Creative(IMG, key, ctx, f).1, Creative(IMG, key, ctx, f2).1;
      }
      CreativeFrom(G_IMG, key, ctx, f, f2);
    }
  }

  lemma {:induction false} CreativeFrom(lead: string, key: string, ctx: Context, e: Env, e2: Env)
    requires Repeatable(ctx) && e.replaced == e2.replaced && e.creativeReplaced == e2.creativeReplaced
    ensures Creative(lead, key, ctx, e).0 == Creative(lead, key, ctx, e2).0
    ensures SameWalk(e, Creative(lead, key, ctx, e).1, e2, Creative(lead, key, ctx, e2).1)
  {
  }

  /**
   With pieces in step with the text, ReplaceTpl answers what the slow path alone would answer
   and chooses the same creative, whether or not the fast result is empty. Creatives that change
   from one call to the next can only matter after an empty result.
   */
  lemma {:induction false} ReplaceTplIsSlow(g: Grammar, s: string, m: map<string, string>, ctx: Context,
                                            chosen: Option<Img>, draws: nat)
    requires MapOk(g, m)
    ensures var both := FastThenSlow(g, Pieces(g, s), s, m, ctx, chosen, draws);
            var slow := Slow(g, s, m, ctx, chosen, draws);
            && (slow.text != "" ==> both == slow)
            && (Repeatable(ctx) ==> both.text == slow.text && both.chosen == slow.chosen)
  {
    FastIsSlow(g, s, m, ctx, chosen, draws);
    var slow := Slow(g, s, m, ctx, chosen, draws);
    if Repeatable(ctx) {
      SlowTextsFrom(m, ctx, Start(chosen, draws), Start(slow.chosen, slow.draws), FindAllString(g, s));
    }
  }
}
