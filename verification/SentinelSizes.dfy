/**
 How near a render image can come to a wanted size (src/raw_ad/raw_ad.go, getMatchedCreative). An ad
 without a fitting image starts from the ratio 65535; for sizes whose own ratio is next to it no
 render image is nearer.
 */
module SentinelSizes {
  import opened Creatives
  import opened Floats
  import opened Images
  import opened Text

  /** The ratio of the size is within 1/20000 of the sentinel. */
  predicate AtSentinel(w: nat, h: nat) {
    var e := w + 1 - 65535 * (h + 1);
    20000 * e <= h + 1 && 20000 * -e <= h + 1
  }

  function RatioOf(w: nat, h: nat): (r: real)
    ensures LaplaceSmooth(w, h) == Fin(r)
  {
    (w + 1) as real / (h + 1) as real
  }

  // ---------- Off the sentinel ----------

  /** Render images whose ratios are 1/10000 below and above it. */
  const BELOW: string := Decimal(10000 * 655349998 + 9999)
  const ABOVE: string := Decimal(10000 * 655350000 + 9999)

  lemma {:induction false} BelowIs()
    ensures RenderSize(BELOW) == (655349998, 9999) && LaplaceSmooth(655349998, 9999) == Fin(65534.9999)
  {
    RenderSizeReads(655349998, 9999);
  }

  lemma {:induction false} AboveIs()
    ensures RenderSize(ABOVE) == (655350000, 9999) && LaplaceSmooth(655350000, 9999) == Fin(65535.0001)
  {
    RenderSizeReads(655350000, 9999);
  }

  lemma {:induction false} QuotientBelow(p: int, q: int, c: real)
    requires q > 0
    ensures p as real / q as real < c <==> p as real < c * q as real
    ensures p as real / q as real > c <==> p as real > c * q as real
  {
    var r := p as real / q as real;
    assert r * q as real == p as real;
  }

  lemma {:induction false} AtSentinelIs(w: nat, h: nat)
    ensures AtSentinel(w, h) <==> 65534.99995 <= RatioOf(w, h) <= 65535.00005
  {
    QuotientBelow(w + 1, h + 1, 65534.99995);
    QuotientBelow(w + 1, h + 1, 65535.00005);
  }

  lemma {:induction false} OneIsNearer(r: real)
    requires r < 65534.99995 || r > 65535.00005
    ensures || Less(AbsDiff(Fin(65534.9999), Fin(r)), AbsDiff(Fin(r), SENTINEL))
            || Less(AbsDiff(Fin(65535.0001), Fin(r)), AbsDiff(Fin(r), SENTINEL))
  {
  }

  lemma {:induction false} OffIsNearer(w: nat, h: nat)
    requires !AtSentinel(w, h)
    ensures var ratio := LaplaceSmooth(w, h);
            Nearer(BELOW, ratio, AbsDiff(ratio, SENTINEL)) || Nearer(ABOVE, ratio, AbsDiff(ratio, SENTINEL))
  {
    AtSentinelIs(w, h);
    OneIsNearer(RatioOf(w, h));
    BelowIs();
    AboveIs();
  }

  // ---------- At the sentinel ----------

  lemma {:induction false} RenderHeight(key: string)
    ensures -10000 < RenderSize(key).1 < 10000
  {
  }

  lemma {:induction false} SmallProduct(x: real, y: real)
    requires -0.0001 < x < 0.0001 && 0.0 < y <= 10000.0
    ensures -1.0 < x * y < 1.0
  {
    assert x * y <= 0.0001 * y && x * y >= -0.0001 * y;
    if x > 0.0 { assert x * y < 0.0001 * y; }
    if x < 0.0 { assert x * y > -0.0001 * y; }
  }

  lemma {:induction false} SmallMultiple(x: real, d: int)
    requires -0.0001 < x < 0.0001 && d != 0 && -10000 <= d <= 10000
    ensures -1.0 < x * d as real < 1.0
  {
    if d > 0 {
      SmallProduct(x, d as real);
    } else {
      SmallProduct(x, (-d) as real);
      assert x * d as real == -(x * (-d) as real);
    }
  }

  lemma {:induction false} DifferenceOf(p: int, d: int) returns (y: real)
    requires d != 0
    ensures y == p as real / d as real - 65535.0
    ensures y * d as real == (p - 65535 * d) as real
  {
    var r := p as real / d as real;
    y := r - 65535.0;
    Shifted(r, d as real, p as real);
    CastDifference(p, d);
  }

  lemma {:induction false} Shifted(r: real, y: real, x: real)
    requires r * y == x
    ensures (r - 65535.0) * y == x - 65535.0 * y
  {
  }

  lemma {:induction false} CastDifference(p: int, d: int)
    ensures (p - 65535 * d) as real == p as real - 65535.0 * d as real
  {
  }

  lemma {:induction false} SmallIsZero(e: int, x: real)
    requires x == e as real && -1.0 < x < 1.0
    ensures x == 0.0
  {
  }

  lemma {:induction false} NoFactorIsNothing(x: real, y: real)
    requires x * y == 0.0 && y != 0.0
    ensures x == 0.0
  {
  }

  /** Two fractions of small denominators are not so near each other. */
  lemma {:induction false} NearIsEqual(e: int, d: int, y: real)
    requires d != 0 && -10000 <= d <= 10000 && y * d as real == e as real && -0.0001 < y < 0.0001
    ensures y == 0.0
  {
    SmallMultiple(y, d);
    SmallIsZero(e, y * d as real);
    NoFactorIsNothing(y, d as real);
  }

  ghost predicate NotBetween(ratio: Float) {
    ratio.Fin? ==> ratio.r == 65535.0 || ratio.r <= 65534.9999 || ratio.r >= 65535.0001
  }

  lemma {:induction false} SmallFraction(x: int, y: int)
    requires -10000 < y < 10000
    ensures NotBetween(LaplaceSmooth(x, y))
  {
    if y + 1 != 0 {
      var off := DifferenceOf(x + 1, y + 1);
      if -0.0001 < off < 0.0001 { NearIsEqual(x + 1 - 65535 * (y + 1), y + 1, off); }
    }
  }

  lemma {:induction false} NoneBetween(r: real, s: Float)
    requires 65534.99995 <= r <= 65535.00005
    requires NotBetween(s)
    ensures !Less(AbsDiff(s, Fin(r)), AbsDiff(Fin(r), SENTINEL))
  {
  }

  lemma {:induction false} AtIsNotNearer(w: nat, h: nat, key: string)
    requires AtSentinel(w, h)
    ensures var ratio := LaplaceSmooth(w, h); !Nearer(key, ratio, AbsDiff(ratio, SENTINEL))
  {
    var (x, y) := RenderSize(key);
    AtSentinelIs(w, h);
    RenderHeight(key);
    SmallFraction(x, y);
    NoneBetween(RatioOf(w, h), LaplaceSmooth(x, y));
  }
}
