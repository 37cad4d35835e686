/** Strings as the Go standard library sees them: searching, joining, splitting, decimal numbers. */
module Text {
  import opened GoInt

  // ---------- Searching ----------

  predicate HasAt(s: string, i: nat, w: string) {
    i + |w| <= |s| && s[i..i + |w|] == w
  }

  /** strings.Contains */
  predicate Contains(s: string, w: string) {
    exists i :: 0 <= i <= |s| && HasAt(s, i, w)
  }

  // ---------- Join and Split ----------

  /** strings.Join */
  function Join(parts: seq<string>, sep: string): string {
    if |parts| == 0 then "" else
    if |parts| == 1 then parts[0] else
    parts[0] + sep + Join(parts[1..], sep)
  }

  /** The first occurrence of `c`, or the length. */
  function IndexOf(s: string, c: char): (i: nat)
    ensures i <= |s| && (forall k :: 0 <= k < i ==> s[k] != c) && (i < |s| ==> s[i] == c)
  {
    if s == "" || s[0] == c then 0 else IndexOf(s[1..], c) + 1
  }

  /** strings.Split by a one-character separator. */
  function Split(s: string, c: char): (parts: seq<string>)
    ensures |parts| > 0 && forall k :: 0 <= k < |parts| ==> c !in parts[k]
    decreases |s|
  {
    var i := IndexOf(s, c);
    if i == |s| then [s] else [s[..i]] + Split(s[i + 1..], c)
  }

  lemma {:induction false} IndexOfIs(s: string, c: char, i: nat)
    requires i <= |s| && (forall k :: 0 <= k < i ==> s[k] != c) && (i < |s| ==> s[i] == c)
    ensures IndexOf(s, c) == i
  {
  }

  /** Splitting undoes joining when no part holds the separator. */
  lemma {:induction false} SplitJoin(parts: seq<string>, c: char)
    requires parts != [] && forall k :: 0 <= k < |parts| ==> c !in parts[k]
    ensures Split(Join(parts, [c]), c) == parts
  {
    var s := Join(parts, [c]);
    if |parts| == 1 {
      assert s[..|s|] == s;
      IndexOfIs(s, c, |s|);
    } else {
      var i, rest := |parts[0]|, Join(parts[1..], [c]);
      assert s == parts[0] + [c] + rest;
      assert s[..i] == parts[0] && s[i] == c && s[i + 1..] == rest;
      IndexOfIs(s, c, i);
      SplitJoin(parts[1..], c);
    }
  }

  lemma {:induction false} JoinChars(parts: seq<string>, sep: string, ok: char -> bool)
    requires forall k, c :: 0 <= k < |parts| && c in parts[k] ==> ok(c)
    requires forall c :: c in sep ==> ok(c)
    ensures forall c :: c in Join(parts, sep) ==> ok(c)
  {
    if |parts| > 1 {
      assert forall k :: 0 <= k < |parts| - 1 ==> parts[1..][k] == parts[k + 1];
      JoinChars(parts[1..], sep, ok);
    }
  }

  // ---------- Decimal numbers ----------

  predicate IsDigit(c: char) { '0' <= c <= '9' }

  predicate AllDigits(s: string) {
    forall k :: 0 <= k < |s| ==> IsDigit(s[k])
  }

  function DigitOf(c: char): nat
    requires IsDigit(c)
  {
    (c - '0') as nat
  }

  function DigitChar(d: nat): (c: char)
    requires d < 10
    ensures IsDigit(c) && DigitOf(c) == d
  {
    '0' + d as char
  }

  function Value(s: string): nat
    requires AllDigits(s)
  {
    if s == "" then 0 else 10 * Value(s[..|s| - 1]) + DigitOf(s[|s| - 1])
  }

  /** strconv.Itoa of a non-negative number. */
  function Decimal(n: nat): (s: string)
    ensures s != "" && AllDigits(s)
    decreases n
  {
    if n < 10 then [DigitChar(n)] else Decimal(n / 10) + [DigitChar(n % 10)]
  }

  lemma {:induction false} ValueDecimal(n: nat)
    ensures Value(Decimal(n)) == n
  {
    var s := Decimal(n);
    if n >= 10 {
      ValueDecimal(n / 10);
      assert s[..|s| - 1] == Decimal(n / 10);
    } else {
      assert s[..0] == "";
    }
  }

  lemma {:induction false} DecimalInjective(m: nat, n: nat)
    requires Decimal(m) == Decimal(n)
    ensures m == n
  {
    ValueDecimal(m);
    ValueDecimal(n);
  }

  /** strconv.Atoi without its error: 0 for what is not a number, the nearest int64 for one that is too large. */
  function Atoi(s: string): (n: int)
    ensures MIN_INT <= n <= MAX_INT
  {
    if s == "" then 0 else
    var digits := if s[0] == '-' || s[0] == '+' then s[1..] else s;
    if digits == "" || !AllDigits(digits) then 0
    else if s[0] == '-' then Max(0 - Value(digits), MIN_INT)
    else Min(Value(digits), MAX_INT)
  }

  lemma {:induction false} AtoiDecimal(n: nat)
    requires n <= MAX_INT
    ensures Atoi(Decimal(n)) == n
  {
    ValueDecimal(n);
    assert IsDigit(Decimal(n)[0]);
  }

  function Zeros(k: nat): (s: string)
    ensures |s| == k && AllDigits(s)
  {
    if k == 0 then "" else Zeros(k - 1) + "0"
  }

  lemma {:induction false} ZerosAddNothing(k: nat, s: string)
    requires AllDigits(s)
    ensures AllDigits(Zeros(k) + s) && Value(Zeros(k) + s) == Value(s)
    decreases |s|, k
  {
    var z := Zeros(k);
    if s != "" {
      var n := |s| - 1;
      ZerosAddNothing(k, s[..n]);
      assert (z + s)[..|z + s| - 1] == z + s[..n];
    } else if k > 0 {
      ZerosAddNothing(k - 1, s);
      assert z + s == z && z[..k - 1] == Zeros(k - 1) == Zeros(k - 1) + s;
    } else {
      assert z + s == s;
    }
  }

  /** The end of the maximal run of digits starting at `i`. */
  function DigitsEnd(s: string, i: nat): (e: nat)
    requires i <= |s|
    ensures i <= e <= |s|
    ensures forall k :: i <= k < e ==> IsDigit(s[k])
    ensures e < |s| ==> !IsDigit(s[e])
    decreases |s| - i
  {
    if i < |s| && IsDigit(s[i]) then DigitsEnd(s, i + 1) else i
  }

  lemma {:induction false} DigitsEndIs(s: string, i: nat, e: nat)
    requires i <= e <= |s| && (forall k :: i <= k < e ==> IsDigit(s[k]))
    requires e < |s| ==> !IsDigit(s[e])
    ensures DigitsEnd(s, i) == e
  {
  }

  lemma {:induction false} DigitsEndAfter(p: string, a: string, t: string)
    requires AllDigits(a) && (t != "" ==> !IsDigit(t[0]))
    ensures DigitsEnd(p + a + t, |p|) == |p| + |a|
    ensures (p + a + t)[|p|..|p| + |a|] == a
  {
    var s := p + a + t;
    assert forall k :: |p| <= k < |p| + |a| ==> s[k] == a[k - |p|];
    DigitsEndIs(s, |p|, |p| + |a|);
  }
}
