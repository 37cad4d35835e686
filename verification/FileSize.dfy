/** File sizes as text and back (src/util/util.go). */
module FileSize {
  import opened GoInt
  import opened Options
  import opened Text

  const UNITS := 6

  function Unit(i: nat): (u: string)
    requires i < UNITS
    ensures u != "" && forall c :: c in u ==> !IsBlank(c)
  {
    if i == 0 then "B" else if i == 1 then "KB" else if i == 2 then "MB"
    else if i == 3 then "GB" else if i == 4 then "TB" else "PB"
  }

  /** How many bytes a unit is. */
  function Power(i: nat): (p: nat)
    ensures p > 0
  {
    if i == 0 then 1 else 1024 * Power(i - 1)
  }

  const UNKNOWN := "Unknown"

  // ---------- To text ----------

  /** The number and the unit that are printed for `n` of the i-th unit; None when the units run out. */
  function Reduce(n: nat, i: nat): (r: Option<(nat, nat)>)
    requires i <= UNITS
    ensures r.Some? ==> i <= r.value.1 < UNITS
    decreases UNITS - i
  {
    if i == UNITS then None
    else if n / 1024 == 0 then Some((n, i))
    else Reduce(n / 1024, i + 1)
  }

  function Print(m: nat, i: nat): string
    requires i < UNITS
  {
    Decimal(m) + " " + Unit(i)
  }

  function ToText(n: int): string {
    if n < 0 then UNKNOWN else
    match Reduce(n, 0)
    case Some((m, i)) => Print(m, i)
    case None => UNKNOWN
  }

  method FileSize2Str(size: int) returns (s: string)
    ensures s == ToText(size)
  {
    if size < 0 {
      return UNKNOWN;
    }
    var n := size;
    var i := 0;
    while i < UNITS
      invariant 0 <= n && 0 <= i <= UNITS && Reduce(size, 0) == Reduce(n, i)
    {
      var tmp := n / 1024;
      if tmp == 0 {
        return Decimal(n) + " " + Unit(i);
      }
      n := tmp;
      i := i + 1;
    }
    return UNKNOWN;
  }

  // ---------- From text ----------

  datatype Parsed = Size(n: int) | FmtError | SizeError | UnitError

  predicate IsBlank(c: char) { c == ' ' || c == '\t' }

  function AfterBlanks(s: string): string {
    if s != "" && IsBlank(s[0]) then AfterBlanks(s[1..]) else s
  }

  function Word(s: string): string {
    if s != "" && !IsBlank(s[0]) then [s[0]] + Word(s[1..]) else ""
  }

  /** A number, and what is behind it. */
  function ScanNumber(t: string): Option<(int, string)> {
    var start := if t != "" && (t[0] == '-' || t[0] == '+') then 1 else 0;
    var end := DigitsEnd(t, start);
    if end == start then None else
    var v := Value(t[start..end]);
    Some((if t[0] == '-' then 0 - v else v, t[end..]))
  }

  /** Sscanf with "%d %s": a number within an int64, a blank or more, a word, and anything behind it. */
  function Scan(s: string): Option<(int, string)> {
    match ScanNumber(AfterBlanks(s))
    case None => None
    case Some((n, rest)) =>
      if n < MIN_INT || n > MAX_INT || rest == "" || !IsBlank(rest[0]) then None else
      var word := Word(AfterBlanks(rest));
      if word == "" then None else Some((n, word))
  }

  /** The unit of a name, or UNITS. */
  function UnitOf(name: string, i: nat): (r: nat)
    requires i <= UNITS
    ensures i <= r <= UNITS && (r < UNITS ==> Unit(r) == name)
    decreases UNITS - i
  {
    if i == UNITS || Unit(i) == name then i else UnitOf(name, i + 1)
  }

  function FromText(s: string): Parsed {
    match Scan(s)
    case None => FmtError
    case Some((n, name)) =>
      if n < 0 then SizeError
      else if UnitOf(name, 0) == UNITS then UnitError
      else Size(Wrap(n * Power(UnitOf(name, 0))))
  }

  method FileSizeStr2Int(size: string) returns (r: Parsed)
    ensures r == FromText(size)
  {
    var scanned := Scan(size);
    if scanned == None {
      return FmtError;
    }
    var n, unit := scanned.value.0, scanned.value.1;
    if n < 0 {
      return SizeError;
    }
    var x := 1;
    for i := 0 to UNITS
      invariant x == Power(i) && UnitOf(unit, 0) == UnitOf(unit, i)
    {
      if Unit(i) == unit {
        return Size(Wrap(n * x));
      }
      x := x * 1024;
    }
    return UnitError;
  }

  // ---------- Print and parse ----------

  lemma {:induction false} WordIs(w: string)
    requires forall c :: c in w ==> !IsBlank(c)
    ensures Word(w) == w
  {
    if w != "" {
      assert w[0] in w;
      WordIs(w[1..]);
    }
  }

  lemma {:induction false} Glued(d: string, rest: string)
    requires d != "" && rest != ""
    ensures var t := d + rest; t[0..|d|] == d && t[|d|..] == rest && t[0] == d[0] && t[|d|] == rest[0]
  {
  }

  lemma {:induction false} GluedDigits(d: string, rest: string)
    requires AllDigits(d) && rest != "" && !IsDigit(rest[0])
    ensures DigitsEnd(d + rest, 0) == |d|
  {
    assert forall k :: 0 <= k < |d| ==> (d + rest)[k] == d[k];
    DigitsEndIs(d + rest, 0, |d|);
  }

  lemma {:induction false} NumberIs(d: string, rest: string)
    requires d != "" && AllDigits(d) && rest != "" && !IsDigit(rest[0])
    ensures ScanNumber(d + rest) == Some((Value(d), rest))
  {
    Glued(d, rest);
    GluedDigits(d, rest);
    assert IsDigit(d[0]);
  }

  lemma {:induction false} WordBehind(w: string)
    requires w != "" && forall c :: c in w ==> !IsBlank(c)
    ensures Word(AfterBlanks(" " + w)) == w
  {
    assert (" " + w)[1..] == w && w[0] in w;
    assert AfterBlanks(w) == w;
    WordIs(w);
  }

  lemma {:induction false} ScanPrint(m: nat, w: string)
    requires m <= MAX_INT && w != "" && forall c :: c in w ==> !IsBlank(c)
    ensures Scan(Decimal(m) + " " + w) == Some((m, w))
  {
    assert Decimal(m) + " " + w == Decimal(m) + (" " + w);
    ValueDecimal(m);
    NumberIs(Decimal(m), " " + w);
    assert IsDigit((Decimal(m) + (" " + w))[0]);
    WordBehind(w);
  }

  lemma {:induction false} UnitsDiffer(i: nat, j: nat)
    requires j <= i < UNITS
    ensures UnitOf(Unit(i), j) == i
    decreases i - j
  {
    if j < i {
      UnitsDiffer(i, j + 1);
      assert |Unit(i)| == 2 && (|Unit(j)| == 1 || Unit(i)[0] != Unit(j)[0]);
    }
  }

  /** What is read of a number and a unit; a product that leaves an int64 wraps around. */
  lemma {:induction false} FromPrint(m: nat, i: nat)
    requires m <= MAX_INT && i < UNITS
    ensures FromText(Print(m, i)) == Size(Wrap(m * Power(i)))
  {
    ScanPrint(m, Unit(i));
    UnitsDiffer(i, 0);
  }

  lemma {:induction false} PowersGrow(i: nat, j: nat)
    requires i <= j
    ensures Power(i) <= Power(j)
    decreases j - i
  {
    if i < j {
      PowersGrow(i, j - 1);
    }
  }

  lemma {:induction false} DivideOnce(n: nat, m: nat, p: nat)
    requires p > 0 && m * p <= n / 1024 < (m + 1) * p
    ensures m * (1024 * p) <= n < (m + 1) * (1024 * p)
  {
    assert 1024 * (m * p) == m * (1024 * p) && 1024 * ((m + 1) * p) == (m + 1) * (1024 * p);
  }

  lemma {:induction false} FitsAfterDivision(n: nat, p: nat)
    requires p > 0
    ensures n / 1024 < p <==> n < 1024 * p
  {
  }

  /** Dividing step by step is dividing by the unit, and it stops at the first unit that is large enough. */
  lemma {:induction false} ReduceDivides(n: nat, i: nat)
    requires i <= UNITS && (i == UNITS ==> n > 0)
    ensures Reduce(n, i).Some? <==> n < Power(UNITS - i)
    ensures match Reduce(n, i)
      case Some((m, j)) => m < 1024 && (j > i ==> m > 0) && m * Power(j - i) <= n < (m + 1) * Power(j - i)
      case None => true
    decreases UNITS - i
  {
    if i < UNITS {
      if n / 1024 == 0 {
        PowersGrow(1, UNITS - i);
        assert n < 1024 && Power(0) == 1 && Power(1) == 1024;
      } else {
        ReduceDivides(n / 1024, i + 1);
        FitsAfterDivision(n, Power(UNITS - i - 1));
        match Reduce(n / 1024, i + 1)
        case Some((m, j)) => DivideOnce(n, m, Power(j - i - 1));
        case None =>
      }
    }
  }

  lemma {:induction false} DivideProduct(m: nat, p: nat)
    ensures (m * (1024 * p)) / 1024 == m * p
  {
    assert m * (1024 * p) == 1024 * (m * p);
  }

  lemma {:induction false} ProductPositive(m: nat, p: nat)
    requires m > 0 && p > 0
    ensures m * p > 0
  {
  }

  /** A whole number of a unit is reduced to that number and that unit. */
  lemma {:induction false} ReduceWhole(m: nat, i: nat, j: nat)
    requires i <= j < UNITS && m < 1024 && (j > i ==> m > 0)
    ensures Reduce(m * Power(j - i), i) == Some((m, j))
    decreases j - i
  {
    if i < j {
      DivideProduct(m, Power(j - i - 1));
      ProductPositive(m, Power(j - i - 1));
      ReduceWhole(m, i + 1, j);
    } else {
      assert m * Power(0) == m;
    }
  }

  lemma {:induction false} UnknownIsNotRead()
    ensures FromText(UNKNOWN) == FmtError
  {
    assert AfterBlanks(UNKNOWN) == UNKNOWN && !IsDigit(UNKNOWN[0]);
  }

  lemma {:induction false} Largest()
    ensures Power(UNITS) == 0x1000_0000_0000_0000
  {
    assert Power(2) == 0x10_0000;
    assert Power(4) == 0x100_0000_0000;
  }

  /**
   A text that was never printed may name more than an int64 can hold: it is read as it stands if and only if
   it fits.
   */
  lemma {:induction false} LargeTextWraps(m: nat, i: nat)
    requires m <= MAX_INT && i < UNITS
    ensures FromText(Print(m, i)) == Size(m * Power(i)) <==> m * Power(i) <= MAX_INT
  {
    FromPrint(m, i);
    WrapIs(m * Power(i));
  }

  /**
   Sizes from 0 up to 2^60 bytes can be read back, to within a unit below and to the same text;
   no other size can.
   */
  lemma {:induction false} RoundTrip(n: int)
    ensures var read := FromText(ToText(n));
            if 0 <= n < 0x1000_0000_0000_0000
            then read.Size? && ToText(read.n) == ToText(n) &&
                 exists i :: 0 <= i < UNITS && read.n <= n < read.n + Power(i) && UnitAt(n, i)
            else read == FmtError
  {
    Largest();
    UnknownIsNotRead();
    if n >= 0 {
      ReduceDivides(n, 0);
      if n < Power(UNITS) {
        var (m, i) := Reduce(n, 0).value;
        ReadsWhole(n, m, i);
        assert UnitAt(n, i);
      }
    }
  }

  lemma {:induction false} ReadsWhole(n: nat, m: nat, i: nat)
    requires Reduce(n, 0) == Some((m, i)) && n < 0x1000_0000_0000_0000
    ensures FromText(ToText(n)) == Size(m * Power(i)) && ToText(m * Power(i)) == ToText(n)
    ensures m * Power(i) <= n < m * Power(i) + Power(i)
  {
    BetweenWhole(n, m, i);
    LargeTextWraps(m, i);
    WholeToText(m, i);
  }

  lemma {:induction false} BetweenWhole(n: nat, m: nat, i: nat)
    requires Reduce(n, 0) == Some((m, i))
    ensures m < 1024 && (i > 0 ==> m > 0) && m * Power(i) <= n < m * Power(i) + Power(i)
  {
    ReduceDivides(n, 0);
    OneUnitMore(m, Power(i));
  }

  lemma {:induction false} WholeToText(m: nat, i: nat)
    requires m < 1024 && i < UNITS && (i > 0 ==> m > 0)
    ensures ToText(m * Power(i)) == Print(m, i)
  {
    ReduceWhole(m, 0, i);
    assert m * Power(i) >= 0;
  }

  lemma {:induction false} OneUnitMore(m: nat, p: nat)
    ensures (m + 1) * p == m * p + p
  {
  }

  lemma {:induction false} WrapIs(a: int)
    ensures Wrap(a) == a <==> MIN_INT <= a <= MAX_INT
  {
  }

  /** The text of a size names the i-th unit. */
  predicate UnitAt(n: int, i: nat) {
    n >= 0 && match Reduce(n, 0) case Some((_, j)) => j == i case None => false
  }
}
