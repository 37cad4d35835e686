/**
 The template scanner of src/ssp/pos.go: `scanTpl` without its memo table. It cuts a template
 into (prefix, macro) pieces; the memo table and the base64 layer are in Templates.dfy.
 */
module Scanner {
  import opened Options
  import opened MacroMatching
  import opened Macros
  import opened Text

  // ---------- The macro list ----------

  /** An alternation of well-formed patterns. */
  type Grammar = ps: seq<Pattern> | AllValid(ps) witness []

  predicate BraceFree(n: string) {
    forall k :: 0 <= k < |n| ==> n[k] != '{' && n[k] != '}'
  }

  type Name = n: string | BraceFree(n) witness ""

  /** A line of the `marcos` list: {$name}, or {$name_<digits>x<digits>}. */
  datatype Marco = Word(name: Name) | Size(name: Name) {
    function ToPattern(): (p: Pattern)
      ensures p.Valid()
    {
      match this
      case Word(n) => Plain("{$" + n + "}")
      case Size(n) => Sized("{$" + n + "_")
    }
  }

  const MARCOS: seq<Marco> := [
    Word("icon"), Word("title"), Size("img"), Word("desc"), Word("btntext"), Word("subtitle"),
    Word("rank"), Word("acicon"), Word("aclink"), Word("price"), Word("vasttag"), Word("vastjs"),
    Word("img"), Word("choiceslink")]

  const GLOBAL_MARCOS: seq<Marco> := [
    Word("g_icon"), Word("g_title"), Size("g_img"), Word("g_desc"), Word("g_btntext"), Word("g_subtitle"),
    Word("g_rank"), Word("g_acicon"), Word("g_aclink"), Word("g_price")]

  function ToGrammar(ms: seq<Marco>): (g: Grammar)
    ensures |g| == |ms| && forall i :: 0 <= i < |g| ==> g[i] == ms[i].ToPattern()
  {
    seq(|ms|, i requires 0 <= i < |ms| => ms[i].ToPattern())
  }

  const TEMPLATE_MARCOS: seq<Marco> := MARCOS + GLOBAL_MARCOS

  /** The grammar of H5 templates. The results below hold of any grammar, hence of this one. */
  function TemplateGrammar(): Grammar { ToGrammar(TEMPLATE_MARCOS) }

  /** The word of a line of the list: a name, or a name and two runs of digits, in braces. */
  ghost predicate Writes(marco: Marco, k: string) {
    match marco
    case Word(n) => k == "{$" + n + "}"
    case Size(n) => exists w, h :: Digits(w) && Digits(h) && k == "{$" + n + "_" + (w + "x" + (h + "}"))
  }

  predicate Digits(d: string) { d != "" && AllDigits(d) }

  lemma {:induction false} SizeIsWritten(l: string, k: string)
    ensures Spells(Sized(l), k, 0, |k|) <==>
            exists w, h :: Digits(w) && Digits(h) && k == l + (w + "x" + (h + "}"))
  {
    if Spells(Sized(l), k, 0, |k|) {
      var m: nat :| SizeAt(k, |l|, m, |k|);
      var w, h := k[|l|..m], k[m + 1..|k| - 1];
      assert Digits(w) && Digits(h) && k == l + (w + "x" + (h + "}"));
    }
    if w, h :| Digits(w) && Digits(h) && k == l + (w + "x" + (h + "}")) {
      SizeStands(l, w, h, k);
    }
  }

  lemma {:induction false} SizeStands(l: string, w: string, h: string, k: string)
    requires Digits(w) && Digits(h) && k == l + (w + "x" + (h + "}"))
    ensures HasAt(k, 0, l) && SizeAt(k, |l|, |l| + |w|, |k|)
  {
    var m := |l| + |w|;
    assert k[m] == 'x' && k[|k| - 1] == '}';
    assert forall i :: |l| <= i < m ==> k[i] == w[i - |l|];
    assert forall i :: m < i < |k| - 1 ==> k[i] == h[i - m - 1];
  }

  lemma {:induction false} WordIsWritten(w: string, k: string)
    ensures Spells(Plain(w), k, 0, |k|) <==> k == w
  {
    assert k[0..|k|] == k;
  }

  /** The macros of a list are the words of its lines. */
  lemma {:induction false} MacrosAreWritten(ms: seq<Marco>, k: string)
    ensures IsMacro(ToGrammar(ms), k) <==> exists i :: 0 <= i < |ms| && Writes(ms[i], k)
  {
    var g := ToGrammar(ms);
    forall i | 0 <= i < |ms| ensures Spells(g[i], k, 0, |k|) <==> Writes(ms[i], k) {
      match ms[i]
      case Word(n) => WordIsWritten("{$" + n + "}", k);
      case Size(n) => SizeIsWritten("{$" + n + "_", k);
    }
  }

  // ---------- What the regexp package does with a pattern ----------

  /** The leftmost match at or after `i`, as (start, end). */
  function NextMatch(g: Grammar, s: string, i: nat): (r: Option<(nat, nat)>)
    requires i <= |s|
    ensures r.Some? ==> i <= r.value.0 < r.value.1 <= |s| && MacroEnd(g, s, r.value.0) == Some(r.value.1)
    ensures r.Some? ==> forall k :: i <= k < r.value.0 ==> MacroEnd(g, s, k).None?
    ensures r.None? ==> forall k :: i <= k <= |s| ==> MacroEnd(g, s, k).None?
    decreases |s| - i
  {
    match MacroEnd(g, s, i)
    case Some(e) => Some((i, e))
    case None => if i == |s| then None else NextMatch(g, s, i + 1)
  }

  /** regexp.FindAllString(s, -1): the successive leftmost matches. */
  function FindAllString(g: Grammar, s: string): (keys: seq<string>)
    decreases |s|
  {
    match NextMatch(g, s, 0)
    case Some((b, e)) => [s[b..e]] + FindAllString(g, s[e..])
    case None => []
  }

  /** regexp.Split(s, -1): what lies before, between and after them. */
  function SplitAtMatches(g: Grammar, s: string): (subs: seq<string>)
    ensures |subs| == |FindAllString(g, s)| + 1
    decreases |s|
  {
    match NextMatch(g, s, 0)
    case Some((b, e)) => [s[..b]] + SplitAtMatches(g, s[e..])
    case None => [s]
  }

  // ---------- Pieces ----------

  datatype Pos = Pos(prefix: string, key: string)

  type PosSlice = seq<Pos>

  /** The pieces of a template; the last one is the text after the last macro, with no key. */
  function Pieces(g: Grammar, s: string): (ps: PosSlice)
    decreases |s|
  {
    match NextMatch(g, s, 0)
    case Some((b, e)) => [Pos(s[..b], s[b..e])] + Pieces(g, s[e..])
    case None => [Pos(s, "")]
  }

  function Render(ps: PosSlice): string {
    if ps == [] then "" else ps[0].prefix + ps[0].key + Render(ps[1..])
  }

  ghost predicate MacroFree(g: Grammar, s: string) {
    forall i, e :: 0 <= i <= e <= |s| ==> !IsMacro(g, s[i..e])
  }

  /** Pieces as a scan leaves them: no macro inside a prefix, a macro in every key but the last. */
  ghost predicate WellCut(g: Grammar, ps: PosSlice) {
    && ps != []
    && (forall k :: 0 <= k < |ps| ==> MacroFree(g, ps[k].prefix))
    && (forall k :: 0 <= k < |ps| - 1 ==> IsMacro(g, ps[k].key))
    && ps[|ps| - 1].key == ""
  }

  function Zip(subs: seq<string>, keys: seq<string>): PosSlice
    requires |subs| == |keys| + 1
  {
    if keys == [] then [Pos(subs[0], "")] else [Pos(subs[0], keys[0])] + Zip(subs[1..], keys[1..])
  }

  lemma {:induction false} ZipIsPieces(g: Grammar, s: string)
    ensures Zip(SplitAtMatches(g, s), FindAllString(g, s)) == Pieces(g, s)
    decreases |s|
  {
    match NextMatch(g, s, 0)
    case Some((b, e)) => ZipIsPieces(g, s[e..]);
    case None =>
  }

  lemma {:induction false} ZipIs(subs: seq<string>, keys: seq<string>, ps: PosSlice)
    requires |subs| == |keys| + 1 && |ps| == |keys|
    requires forall k :: 0 <= k < |keys| ==> ps[k] == Pos(subs[k], keys[k])
    ensures Zip(subs, keys) == ps + [Pos(subs[|subs| - 1], "")]
  {
    if keys != [] {
      ZipIs(subs[1..], keys[1..], ps[1..]);
    }
  }

  /** The loop of `scanTpl` over the sub-matches. */
  method CutTemplate(g: Grammar, tpl: string) returns (posSlice: PosSlice)
    ensures posSlice == Pieces(g, tpl)
  {
    var subs := SplitAtMatches(g, tpl);
    var subKeys := FindAllString(g, tpl);
    posSlice := [];
    for i := 0 to |subKeys|
      invariant |posSlice| == i
      invariant forall k :: 0 <= k < i ==> posSlice[k] == Pos(subs[k], subKeys[k])
    {
      posSlice := posSlice + [Pos(subs[i], subKeys[i])];
    }
    ZipIs(subs, subKeys, posSlice);
    ZipIsPieces(g, tpl);
    posSlice := posSlice + [Pos(subs[|subs| - 1], "")];
  }

  // ---------- Scanning is lossless and has one answer ----------

  lemma {:induction false} NoMatchIsMacroFree(g: Grammar, s: string)
    requires forall k :: 0 <= k <= |s| ==> MacroEnd(g, s, k).None?
    ensures MacroFree(g, s)
  {
    forall i, e | 0 <= i <= e <= |s| ensures !IsMacro(g, s[i..e]) {
      MacroEndExact(g, s, i, e);
    }
  }

  lemma {:induction false} PrefixIsMacroFree(g: Grammar, s: string, b: nat)
    requires b <= |s| && forall k :: 0 <= k < b ==> MacroEnd(g, s, k).None?
    ensures MacroFree(g, s[..b])
  {
    forall i, e | 0 <= i <= e <= b ensures !IsMacro(g, s[..b][i..e]) {
      assert s[..b][i..e] == s[i..e];
      MacroEndExact(g, s, i, e);
      if IsMacro(g, s[i..e]) { MacroIsBracketed(g, s[i..e]); }
    }
  }

  lemma {:induction false} ScanIsWellCut(g: Grammar, s: string)
    ensures WellCut(g, Pieces(g, s))
    decreases |s|
  {
    match NextMatch(g, s, 0)
    case Some((b, e)) =>
      PrefixIsMacroFree(g, s, b);
      MacroEndExact(g, s, b, e);
      ScanIsWellCut(g, s[e..]);
    case None => NoMatchIsMacroFree(g, s);
  }

  /** Nothing of the template is lost: its pieces spell it out again, one more than its macros. */
  lemma {:induction false} ScanIsLossless(g: Grammar, s: string)
    ensures Render(Pieces(g, s)) == s
    ensures |Pieces(g, s)| == |FindAllString(g, s)| + 1
    decreases |s|
  {
    match NextMatch(g, s, 0)
    case Some((b, e)) =>
      ScanIsLossless(g, s[e..]);
      assert s == s[..b] + s[b..e] + s[e..];
    case None =>
  }

  /** A macro cannot straddle the boundary into another macro, for it holds one '{'. */
  lemma {:induction false} NoMacroBefore(g: Grammar, p: string, s: string, i: nat)
    requires MacroFree(g, p) && |p| <= |s| && s[..|p|] == p && i < |p|
    requires |p| < |s| ==> s[|p|] == '{'
    ensures MacroEnd(g, s, i).None?
  {
    if MacroEnd(g, s, i).Some? {
      var e := MacroEnd(g, s, i).value;
      assert if e <= |p| then p[i..e] == s[i..e] else s[i..e][|p| - i] == s[|p|];
      MacroEndExact(g, s, i, e);
      MacroIsBracketed(g, s[i..e]);
      assert false;
    }
  }

  lemma {:induction false} NextMatchIs(g: Grammar, s: string, i: nat, b: nat, e: nat)
    requires i <= b <= |s| && MacroEnd(g, s, b) == Some(e)
    requires forall k :: i <= k < b ==> MacroEnd(g, s, k).None?
    ensures NextMatch(g, s, i) == Some((b, e))
    decreases b - i
  {
    if i < b { NextMatchIs(g, s, i + 1, b, e); }
  }

  lemma {:induction false} FirstPiece(g: Grammar, p: string, k: string, rest: string)
    requires MacroFree(g, p) && IsMacro(g, k)
    ensures NextMatch(g, p + k + rest, 0) == Some((|p|, |p| + |k|))
  {
    var s := p + k + rest;
    MacroIsBracketed(g, k);
    assert s[|p|..|p| + |k|] == k;
    MacroEndExact(g, s, |p|, |p| + |k|);
    assert s[..|p|] == p && s[|p|] == '{';
    forall i | 0 <= i < |p| ensures MacroEnd(g, s, i).None? {
      NoMacroBefore(g, p, s, i);
    }
    NextMatchIs(g, s, 0, |p|, |p| + |k|);
  }

  lemma {:induction false} LastPiece(g: Grammar, p: string)
    requires MacroFree(g, p)
    ensures NextMatch(g, p, 0).None?
  {
    if NextMatch(g, p, 0).Some? {
      var (b, e) := NextMatch(g, p, 0).value;
      MacroEndExact(g, p, b, e);
      assert false;
    }
  }

  lemma {:induction false} RenderLast(p: string)
    ensures Render([Pos(p, "")]) == p
  {
    var ps := [Pos(p, "")];
    assert ps[1..] == [] && Render(ps[1..]) == "";
    assert Render(ps) == p + "" + "";
  }

  lemma {:induction false} RestIsWellCut(g: Grammar, ps: PosSlice)
    requires WellCut(g, ps) && |ps| > 1
    ensures WellCut(g, ps[1..])
  {
    assert forall j :: 0 <= j < |ps[1..]| ==> ps[1..][j] == ps[j + 1];
  }

  /**
   Any cut of a text into macro-free prefixes and macros is the one the scanner finds, so with
   ScanIsWellCut and ScanIsLossless, Pieces and Render are inverse to each other.
   */
  lemma {:induction false} ScanIsUnique(g: Grammar, ps: PosSlice)
    requires WellCut(g, ps)
    ensures Pieces(g, Render(ps)) == ps
  {
    var p, k, s := ps[0].prefix, ps[0].key, Render(ps);
    if |ps| == 1 {
      assert ps == [Pos(p, "")];
      RenderLast(p);
      LastPiece(g, p);
    } else {
      var rest := Render(ps[1..]);
      FirstPiece(g, p, k, rest);
      RestIsWellCut(g, ps);
      assert s[..|p|] == p && s[|p|..|p| + |k|] == k && s[|p| + |k|..] == rest;
      ScanIsUnique(g, ps[1..]);
    }
  }
}
