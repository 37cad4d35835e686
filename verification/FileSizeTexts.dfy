/** Which texts the sizes of src/util/util.go have, and which sizes the texts of any user have. */
module FileSizeTexts {
  import opened FileSize
  import opened GoInt
  import opened Options
  import opened Text

  // ---------- Printing ----------

  lemma {:induction false} Reduced(n: nat)
    ensures Reduce(n, 0) ==
            if n < 0x400 then Some((n, 0))
            else if n < 0x10_0000 then Some((n / 0x400, 1))
            else if n < 0x4000_0000 then Some((n / 0x10_0000, 2))
            else if n < 0x100_0000_0000 then Some((n / 0x4000_0000, 3))
            else if n < 0x4_0000_0000_0000 then Some((n / 0x100_0000_0000, 4))
            else if n < 0x1000_0000_0000_0000 then Some((n / 0x4_0000_0000_0000, 5))
            else None
  {
    assert n / 0x400 / 0x400 == n / 0x10_0000;
    assert n / 0x10_0000 / 0x400 == n / 0x4000_0000;
    assert n / 0x4000_0000 / 0x400 == n / 0x100_0000_0000;
    assert n / 0x100_0000_0000 / 0x400 == n / 0x4_0000_0000_0000;
    assert n / 0x4_0000_0000_0000 / 0x400 == n / 0x1000_0000_0000_0000;
  }

  /** The text of every number: whole units of the largest kind that there is one of, each 1024 of the one before. */
  lemma {:induction false} TextIs(n: int)
    ensures ToText(n) ==
            if n < 0 then "Unknown"
            else if n < 0x400 then Decimal(n) + " B"
            else if n < 0x10_0000 then Decimal(n / 0x400) + " KB"
            else if n < 0x4000_0000 then Decimal(n / 0x10_0000) + " MB"
            else if n < 0x100_0000_0000 then Decimal(n / 0x4000_0000) + " GB"
            else if n < 0x4_0000_0000_0000 then Decimal(n / 0x100_0000_0000) + " TB"
            else if n < 0x1000_0000_0000_0000 then Decimal(n / 0x4_0000_0000_0000) + " PB"
            else "Unknown"
  {
    if n >= 0 {
      Reduced(n);
      match Reduce(n, 0)
      case Some((m, i)) => Spaced(m, i);
      case None =>
    }
  }

  lemma {:induction false} Spaced(m: nat, i: nat)
    requires i < 6
    ensures Print(m, i) == Decimal(m) + [" B", " KB", " MB", " GB", " TB", " PB"][i]
  {
    assert Decimal(m) + " " + Unit(i) == Decimal(m) + (" " + Unit(i));
  }

  // ---------- Reading ----------

  datatype Sign = Unsigned | Plus | Minus {
    function Text(): string {
      match this
      case Unsigned => ""
      case Plus => "+"
      case Minus => "-"
    }
  }

  /** A text with a number and a word: blanks, a sign, digits, blanks, the word, and what is behind it. */
  datatype Form = Form(pre: string, sign: Sign, digits: string, gap: string, word: string, rest: string) {
    ghost predicate Valid() {
      && Blanks(pre) && digits != "" && AllDigits(digits)
      && Blanks(gap) && gap != "" && word != "" && (forall c :: c in word ==> !IsBlank(c))
      && (rest != "" ==> IsBlank(rest[0]))
    }

    function Text(): string { pre + (sign.Text() + (digits + (gap + (word + rest)))) }

    function Number(): int
      requires AllDigits(digits)
    {
      if sign.Minus? then 0 - Value(digits) else Value(digits)
    }
  }

  ghost predicate Blanks(s: string) { forall k :: 0 <= k < |s| ==> s[k] == ' ' || s[k] == '\t' }

  lemma {:induction false} BlanksSkipped(pre: string, t: string)
    requires Blanks(pre) && t != "" && !IsBlank(t[0])
    ensures AfterBlanks(pre + t) == t
  {
    if pre == "" {
      assert pre + t == t;
    } else {
      assert pre[0] in pre && (pre + t)[1..] == pre[1..] + t;
      BlanksSkipped(pre[1..], t);
    }
  }

  lemma {:induction false} WordEnds(w: string, rest: string)
    requires (forall c :: c in w ==> !IsBlank(c)) && (rest != "" ==> IsBlank(rest[0]))
    ensures Word(w + rest) == w
  {
    if w == "" {
      assert w + rest == rest;
    } else {
      assert w[0] in w && (w + rest)[1..] == w[1..] + rest;
      WordEnds(w[1..], rest);
    }
  }

  lemma {:induction false} SignedScanned(c: char, d: string, t: string)
    requires (c == '-' || c == '+') && d != "" && AllDigits(d) && t != "" && !IsDigit(t[0])
    ensures ScanNumber([c] + (d + t)) == Some((if c == '-' then 0 - Value(d) else Value(d), t))
  {
    var s := [c] + d + t;
    assert [c] + (d + t) == s;
    DigitsEndAfter([c], d, t);
    assert s[1 + |d|..] == t && s[0] == c;
  }

  lemma {:induction false} UnsignedScanned(d: string, t: string)
    requires d != "" && AllDigits(d) && t != "" && !IsDigit(t[0])
    ensures ScanNumber("" + (d + t)) == Some((Value(d), t)) && !IsBlank(("" + (d + t))[0])
  {
    assert "" + (d + t) == d + t && IsDigit((d + t)[0]);
    NumberIs(d, t);
  }

  lemma {:induction false} NumberScanned(sign: Sign, d: string, t: string)
    requires d != "" && AllDigits(d) && t != "" && !IsDigit(t[0])
    ensures ScanNumber(sign.Text() + (d + t)) == Some((if sign.Minus? then 0 - Value(d) else Value(d), t))
    ensures !IsBlank((sign.Text() + (d + t))[0])
  {
    match sign
    case Unsigned => UnsignedScanned(d, t);
    case Plus => SignedScanned('+', d, t);
    case Minus => SignedScanned('-', d, t);
  }

  lemma {:induction false} TailScanned(f: Form)
    requires f.Valid()
    ensures var tail := f.gap + (f.word + f.rest);
            tail != "" && IsBlank(tail[0]) && Word(AfterBlanks(tail)) == f.word
  {
    assert f.word[0] in f.word;
    BlanksSkipped(f.gap, f.word + f.rest);
    WordEnds(f.word, f.rest);
  }

  lemma {:induction false} ScanIs(s: string, t: string, n: int, tail: string, word: string)
    requires AfterBlanks(s) == t && ScanNumber(t) == Some((n, tail)) && word != ""
    requires tail != "" && IsBlank(tail[0]) && Word(AfterBlanks(tail)) == word
    ensures Scan(s) == if MIN_INT <= n <= MAX_INT then Some((n, word)) else None
  {
  }

  lemma {:induction false} FormIsScanned(f: Form)
    requires f.Valid()
    ensures Scan(f.Text()) == if MIN_INT <= f.Number() <= MAX_INT then Some((f.Number(), f.word)) else None
  {
    var tail := f.gap + (f.word + f.rest);
    var t := f.sign.Text() + (f.digits + tail);
    TailScanned(f);
    NumberScanned(f.sign, f.digits, tail);
    BlanksSkipped(f.pre, t);
    ScanIs(f.Text(), t, f.Number(), tail, f.word);
  }

  // ---------- The size that is read ----------

  /** The number of that many units, as far as it fits: what is left of it in an int64. */
  ghost predicate IsSize(r: Parsed, n: int, unit: nat) {
    r.Size? && -0x8000_0000_0000_0000 <= r.n <= 0x7fff_ffff_ffff_ffff && (r.n - n * unit) % 0x1_0000_0000_0000_0000 == 0
  }

  lemma {:induction false} WrapLeaves(a: int)
    ensures -0x8000_0000_0000_0000 <= Wrap(a) <= 0x7fff_ffff_ffff_ffff && (Wrap(a) - a) % 0x1_0000_0000_0000_0000 == 0
  {
    var m := 0x1_0000_0000_0000_0000;
    assert a - MIN_INT == (a - MIN_INT) / m * m + (a - MIN_INT) % m;
    assert Wrap(a) - a == (0 - (a - MIN_INT) / m) * m;
  }

  lemma {:induction false} UnitIs(name: string)
    ensures UnitOf(name, 0) ==
            if name == "B" then 0 else if name == "KB" then 1 else if name == "MB" then 2
            else if name == "GB" then 3 else if name == "TB" then 4 else if name == "PB" then 5 else 6
  {
  }

  lemma {:induction false} PowersAre()
    ensures Power(0) == 1 && Power(1) == 0x400 && Power(2) == 0x10_0000 && Power(3) == 0x4000_0000
    ensures Power(4) == 0x100_0000_0000 && Power(5) == 0x4_0000_0000_0000
  {
    assert Power(2) == 1024 * Power(1);
    assert Power(4) == 1024 * Power(3) && Power(3) == 1024 * Power(2);
  }

  /** What is read of a text of that form. */
  lemma {:induction false} SizeIs(f: Form)
    requires f.Valid()
    ensures var n, r := f.Number(), FromText(f.Text());
            if n < -0x8000_0000_0000_0000 || n > 0x7fff_ffff_ffff_ffff then r == FmtError
            else if n < 0 then r == SizeError
            else if f.word == "B" then IsSize(r, n, 1)
            else if f.word == "KB" then IsSize(r, n, 0x400)
            else if f.word == "MB" then IsSize(r, n, 0x10_0000)
            else if f.word == "GB" then IsSize(r, n, 0x4000_0000)
            else if f.word == "TB" then IsSize(r, n, 0x100_0000_0000)
            else if f.word == "PB" then IsSize(r, n, 0x4_0000_0000_0000)
            else r == UnitError
  {
    FormIsScanned(f);
    UnitIs(f.word);
    PowersAre();
    if UnitOf(f.word, 0) < 6 { WrapLeaves(f.Number() * Power(UnitOf(f.word, 0))); }
  }

  lemma {:induction false} BlanksBefore(s: string) returns (pre: string)
    ensures Blanks(pre) && s == pre + AfterBlanks(s)
  {
    pre := "";
    if s != "" && IsBlank(s[0]) {
      pre := BlanksBefore(s[1..]);
      pre := [s[0]] + pre;
    }
  }

  lemma {:induction false} BehindWord(s: string) returns (rest: string)
    ensures s == Word(s) + rest && (forall c :: c in Word(s) ==> !IsBlank(c)) && (rest != "" ==> IsBlank(rest[0]))
  {
    rest := s;
    if s != "" && !IsBlank(s[0]) {
      rest := BehindWord(s[1..]);
      assert s == [s[0]] + s[1..];
    }
  }

  lemma {:induction false} NumberHasForm(t: string) returns (sign: Sign, d: string)
    requires ScanNumber(t).Some?
    ensures d != "" && AllDigits(d) && t == sign.Text() + (d + ScanNumber(t).value.1)
  {
    var start := if t != "" && (t[0] == '-' || t[0] == '+') then 1 else 0;
    var end := DigitsEnd(t, start);
    sign := if start == 0 then Unsigned else if t[0] == '-' then Minus else Plus;
    d := t[start..end];
    assert t == t[..start] + (d + t[end..]);
  }

  /** Every text that is read without a format error has that form. */
  lemma {:induction false} ReadHasForm(s: string) returns (f: Form)
    requires FromText(s) != FmtError
    ensures f.Valid() && f.Text() == s
  {
    var t := AfterBlanks(s);
    var tail := ScanNumber(t).value.1;
    var pre := BlanksBefore(s);
    var sign, d := NumberHasForm(t);
    var gap := BlanksBefore(tail);
    var rest := BehindWord(AfterBlanks(tail));
    f := Form(pre, sign, d, gap, Word(AfterBlanks(tail)), rest);
  }
}
