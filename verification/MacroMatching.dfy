/** The engine of Macros.dfy finds exactly the macros. */
module MacroMatching {
  import opened Macros
  import opened Options
  import opened Text

  /** Greedy runs find the one reading there is. */
  lemma {:induction false} SizeEndIs(s: string, j: nat, m: nat, e: nat)
    requires SizeAt(s, j, m, e)
    ensures SizeEnd(s, j) == Some(e)
  {
    DigitsEndIs(s, j, m);
    DigitsEndIs(s, m + 1, e - 1);
  }

  lemma {:induction false} PatternEndExact(p: Pattern, s: string, i: nat, e: nat)
    requires i <= |s|
    ensures PatternEnd(p, s, i) == Some(e) <==> Spells(p, s, i, e)
  {
    if p.Sized? && HasAt(s, i, p.lead) {
      var j := i + |p.lead|;
      if Spells(p, s, i, e) {
        var m :| SizeAt(s, j, m, e);
        SizeEndIs(s, j, m, e);
      }
    }
  }

  lemma {:induction false} SizeAtShift(s: string, i: nat, j: nat, m: nat, e: nat)
    requires i <= j && i <= m && i <= e <= |s|
    ensures SizeAt(s, j, m, e) <==> SizeAt(s[i..e], j - i, m - i, e - i)
  {
    var w := s[i..e];
    if SizeAt(w, j - i, m - i, e - i) {
      assert forall k :: i <= k < e ==> s[k] == w[k - i];
    }
  }

  /** A spelling depends only on the text it covers. */
  lemma {:induction false} SpellsShift(p: Pattern, s: string, i: nat, e: nat)
    requires i <= e <= |s|
    ensures Spells(p, s, i, e) <==> Spells(p, s[i..e], 0, e - i)
  {
    var w := s[i..e];
    if p.Sized? {
      var n := |p.lead|;
      assert i + n <= e ==> w[0..n] == s[i..i + n];
      if Spells(p, s, i, e) {
        var m :| SizeAt(s, i + n, m, e);
        SizeAtShift(s, i, i + n, m, e);
      }
      if Spells(p, w, 0, e - i) {
        var m :| SizeAt(w, n, m, e - i);
        SizeAtShift(s, i, i + n, i + m, e);
        assert HasSize(s, i + n, e);
      }
    } else {
      var n := |p.word|;
      assert i + n <= e ==> w[0..n] == s[i..i + n];
    }
  }

  lemma {:induction false} MacroEndAt(ps: seq<Pattern>, s: string, i: nat)
    requires i <= |s|
    ensures match MacroEnd(ps, s, i)
            case Some(e) => exists k :: 0 <= k < |ps| && PatternEnd(ps[k], s, i) == Some(e)
            case None => forall k :: 0 <= k < |ps| ==> PatternEnd(ps[k], s, i).None?
  {
    if ps != [] && PatternEnd(ps[0], s, i).None? {
      MacroEndAt(ps[1..], s, i);
      if MacroEnd(ps[1..], s, i).Some? {
        var k :| 0 <= k < |ps[1..]| && PatternEnd(ps[1..][k], s, i) == MacroEnd(ps, s, i);
        assert ps[1..][k] == ps[k + 1];
      } else {
        forall k | 0 <= k < |ps| ensures PatternEnd(ps[k], s, i).None? {
          if k > 0 { assert ps[k] == ps[1..][k - 1]; }
        }
      }
    }
  }

  lemma {:induction false} SpelledIsBracketed(p: Pattern, w: string)
    requires p.Valid() && Spells(p, w, 0, |w|)
    ensures Bracketed(w)
  {
    if p.Sized? {
      var l := p.lead;
      var m :| SizeAt(w, |l|, m, |w|);
      assert forall k :: 0 <= k < |l| ==> w[k] == l[k];
    } else {
      assert w == p.word;
    }
  }

  lemma {:induction false} MacroIsBracketed(ps: seq<Pattern>, w: string)
    requires AllValid(ps) && IsMacro(ps, w)
    ensures Bracketed(w)
  {
    var k :| 0 <= k < |ps| && Spells(ps[k], w, 0, |w|);
    SpelledIsBracketed(ps[k], w);
  }

  lemma {:induction false} BracketsUnique(s: string, i: nat, e: nat, f: nat)
    requires i <= e <= f <= |s| && Bracketed(s[i..e]) && Bracketed(s[i..f])
    ensures e == f
  {
    assert s[i..f][e - 1 - i] == s[e - 1] == s[i..e][e - 1 - i];
  }

  lemma {:induction false} MacroEndSound(ps: seq<Pattern>, s: string, i: nat)
    requires i <= |s| && MacroEnd(ps, s, i).Some?
    ensures IsMacro(ps, s[i..MacroEnd(ps, s, i).value])
  {
    var f := MacroEnd(ps, s, i).value;
    MacroEndAt(ps, s, i);
    var k :| 0 <= k < |ps| && PatternEnd(ps[k], s, i) == Some(f);
    PatternEndExact(ps[k], s, i, f);
    SpelledIsMacro(ps, k, s, i, f);
  }

  lemma {:induction false} SpelledIsMacro(ps: seq<Pattern>, k: nat, s: string, i: nat, e: nat)
    requires k < |ps| && i <= e <= |s| && Spells(ps[k], s, i, e)
    ensures IsMacro(ps, s[i..e])
  {
    SpellsShift(ps[k], s, i, e);
    assert |s[i..e]| == e - i;
  }

  lemma {:induction false} MacroEndComplete(ps: seq<Pattern>, s: string, i: nat, e: nat)
    requires i <= e <= |s| && IsMacro(ps, s[i..e])
    ensures MacroEnd(ps, s, i).Some?
  {
    MacroEndAt(ps, s, i);
    var k :| 0 <= k < |ps| && Spells(ps[k], s[i..e], 0, |s[i..e]|);
    SpellsShift(ps[k], s, i, e);
    PatternEndExact(ps[k], s, i, e);
  }

  /** Ordered alternatives and greedy digits find exactly the macro that is there, if one is. */
  lemma {:induction false} MacroEndExact(ps: seq<Pattern>, s: string, i: nat, e: nat)
    requires AllValid(ps) && i <= e <= |s|
    ensures MacroEnd(ps, s, i) == Some(e) <==> IsMacro(ps, s[i..e])
  {
    if MacroEnd(ps, s, i).Some? {
      MacroEndSound(ps, s, i);
    }
    if IsMacro(ps, s[i..e]) {
      MacroEndComplete(ps, s, i, e);
      var f := MacroEnd(ps, s, i).value;
      MacroIsBracketed(ps, s[i..e]);
      MacroIsBracketed(ps, s[i..f]);
      if e <= f { BracketsUnique(s, i, e, f); } else { BracketsUnique(s, i, f, e); }
    }
  }
}
