/**
 The macro language of H5 templates (the pattern list of src/ssp/pos.go, which
 src/raw_ad/replace.go repeats) and the engine that matches it.

 The regular expression is an alternation tried in order at each position. `MacroEnd` is that
 engine for such patterns; `IsMacro` says, without any engine, which words are macros. Text is
 a sequence of characters standing for the bytes of the template.
 */
module Macros {
  import opened Options
  import opened Text

  // ---------- Patterns ----------

  /** A macro opens with its only '{' and closes with its only '}'. */
  predicate Bracketed(w: string) {
    && 2 <= |w| && w[0] == '{' && w[|w| - 1] == '}'
    && (forall k :: 0 < k < |w| ==> w[k] != '{')
    && (forall k :: 0 <= k < |w| - 1 ==> w[k] != '}')
  }

  /** The text before the size of a sized macro: it opens a bracket and does not close it. */
  predicate OpenBracket(w: string) {
    && 1 <= |w| && w[0] == '{'
    && (forall k :: 0 < k < |w| ==> w[k] != '{' && w[k] != '}')
  }

  /** A pattern is a fixed word, or a lead followed by <digits>x<digits>}. */
  datatype Pattern = Plain(word: string) | Sized(lead: string) {
    predicate Valid() {
      match this
      case Plain(w) => Bracketed(w)
      case Sized(l) => OpenBracket(l)
    }
  }

  predicate AllValid(ps: seq<Pattern>) {
    forall k :: 0 <= k < |ps| ==> ps[k].Valid()
  }

  /** s[a..b] is a non-empty run of digits. */
  predicate DigitRun(s: string, a: int, b: int) {
    0 <= a < b <= |s| && forall k :: a <= k < b ==> IsDigit(s[k])
  }

  /** s[j..e] is <digits>x<digits>} with its 'x' at `m`. */
  predicate SizeAt(s: string, j: nat, m: nat, e: nat) {
    && j < m < e <= |s|
    && DigitRun(s, j, m) && s[m] == 'x'
    && DigitRun(s, m + 1, e - 1) && s[e - 1] == '}'
  }

  ghost predicate HasSize(s: string, j: nat, e: nat) {
    exists m :: SizeAt(s, j, m, e)
  }

  /** s[i..e] is a word of the pattern. */
  ghost predicate Spells(p: Pattern, s: string, i: nat, e: nat) {
    match p
    case Plain(w) => HasAt(s, i, w) && e == i + |w|
    case Sized(l) => HasAt(s, i, l) && HasSize(s, i + |l|, e)
  }

  /** The language of the alternation. */
  ghost predicate IsMacro(ps: seq<Pattern>, w: string) {
    exists k :: 0 <= k < |ps| && Spells(ps[k], w, 0, |w|)
  }

  // ---------- The matching engine ----------

  /** The end of the size part <digits>x<digits>} starting at `i`, both runs read greedily. */
  function SizeEnd(s: string, i: nat): (r: Option<nat>)
    requires i <= |s|
    ensures r.Some? ==> SizeAt(s, i, DigitsEnd(s, i), r.value)
  {
    var a := DigitsEnd(s, i);
    if a == i || a == |s| || s[a] != 'x' then None else
    var b := DigitsEnd(s, a + 1);
    if b == a + 1 || b == |s| || s[b] != '}' then None else Some(b + 1)
  }

  function PatternEnd(p: Pattern, s: string, i: nat): (r: Option<nat>)
    requires i <= |s|
    ensures r.Some? ==> i <= r.value <= |s|
    ensures p.Valid() && r.Some? ==> i < r.value
  {
    match p
    case Plain(w) => if HasAt(s, i, w) then Some(i + |w|) else None
    case Sized(l) => if HasAt(s, i, l) then SizeEnd(s, i + |l|) else None
  }

  /** The first alternative that matches at `i`. */
  function MacroEnd(ps: seq<Pattern>, s: string, i: nat): (r: Option<nat>)
    requires i <= |s|
    ensures r.Some? ==> i <= r.value <= |s|
    ensures AllValid(ps) && r.Some? ==> i < r.value
  {
    if ps == [] then None else
    var r := PatternEnd(ps[0], s, i);
    if r.Some? then r else MacroEnd(ps[1..], s, i)
  }
}
