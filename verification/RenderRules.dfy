/**
 Which render image is nearer to a wanted size, and which is near enough for the filter of
 src/raw_ad/raw_ad.go, in whole numbers. Ratios are taken after adding one to each side.
 */
module RenderRules {
  import opened Creatives
  import opened Floats
  import opened GoInt
  import opened ImageRules
  import opened Images
  import opened Options
  import opened Text

  /** A render image has the sides its key was made of, its own text as url, and no other address. */
  lemma {:induction false} RenderIs(m: Material, w: nat, h: nat)
    requires h < 10000 && 10000 * w + h <= MAX_INT && Decimal(10000 * w + h) in m.renders
    ensures var img := RenderImg(m, Decimal(10000 * w + h));
            && img.width == w && img.height == h
            && img.url == m.renders[Decimal(10000 * w + h)] && img.domesticCDN == "" && img.lang == "ALL"
  {
    RenderSizeReads(w, h);
  }

  /** The difference of the ratios of two sizes, times both heights. */
  function Apart(w: int, h: int, width: int, height: int): nat {
    Gap((w + 1) * (height + 1), (width + 1) * (h + 1))
  }

  // ---------- Near enough ----------

  lemma {:induction false} Tenth(x: real, whole: nat, gap: nat)
    requires whole > 0 && x * whole as real == gap as real
    ensures x < 0.1 <==> 10 * gap < whole
  {
    TimesPositive(0.1, x, whole as real);
    assert (10 * gap) as real == 10.0 * gap as real;
  }

  lemma {:induction false} NoRatio(w: int, h: int, x: Float)
    requires h == -1
    ensures !AbsDiff(LaplaceSmooth(w, h), x).Fin? && !AbsDiff(x, LaplaceSmooth(w, h)).Fin?
  {
  }

  lemma {:induction false} WithinTenth(w: int, h: int, width: int, height: int)
    ensures Less(AbsDiff(LaplaceSmooth(w, h), LaplaceSmooth(width, height)), Fin(0.1)) <==>
            h != -1 && height != -1 && 10 * Apart(w, h, width, height) < Gap((h + 1) * (height + 1), 0)
  {
    if h == -1 {
      NoRatio(w, h, LaplaceSmooth(width, height));
    } else if height == -1 {
      NoRatio(width, height, LaplaceSmooth(w, h));
    } else {
      var diff := AbsDiff(Ratio(w + 1, h + 1), Ratio(width + 1, height + 1));
      DiffIs(w + 1, h + 1, width + 1, height + 1);
      NotNone(h + 1, height + 1);
      Tenth(diff.r, Gap((h + 1) * (height + 1), 0), Apart(w, h, width, height));
    }
  }

  /**
   The filter lets a render image count exactly when the ratios differ by less than a tenth; a size
   of height -1 has no ratio.
   */
  lemma {:induction false} NearIs(key: string, q: Want)
    ensures var (w, h) := RenderSize(key);
            NearKey(key, q) <==>
            h != -1 && q.h != -1 && 10 * Apart(w, h, q.w, q.h) < Gap((h + 1) * (q.h + 1), 0)
  {
    var (w, h) := RenderSize(key);
    WithinTenth(w, h, q.w, q.h);
  }

  // ---------- Nearer ----------

  lemma {:induction false} Scaled(x: real, y: real, a: real, b: real, e: real)
    requires a > 0.0 && b > 0.0 && e > 0.0
    ensures x < y <==> x * (a * e) * b < y * (b * e) * a
  {
    var k := a * e * b;
    ProductSign(a, e);
    Positive(a, e);
    Positive(a * e, b);
    TimesPositive(y, x, k);
    assert x * (a * e) * b == x * k;
    assert y * (b * e) * a == y * k;
  }

  lemma {:induction false} Positive(a: real, b: real)
    requires a > 0.0 && b > 0.0
    ensures a * b > 0.0
  {
  }

  /** A difference of ratios over the heights `a` and `e`. */
  predicate IsDiff(d: Float, a: nat, e: nat, g: nat) {
    d.Fin? && d.r * (a as real * e as real) == g as real
  }

  lemma {:induction false} Compare(d: Float, d': Float, a: nat, b: nat, e: nat, g: nat, g': nat)
    requires a > 0 && b > 0 && e > 0 && IsDiff(d, a, e, g) && IsDiff(d', b, e, g')
    ensures Less(d, d') <==> g * b < g' * a
  {
    Scaled(d.r, d'.r, a as real, b as real, e as real);
    CastProduct(g, b);
    CastProduct(g', a);
  }

  lemma {:induction false} SizeIsGap(b: int)
    ensures Size(b as real) == Gap(b, 0) as real
  {
  }

  lemma {:induction false} SidesDiff(a: int, b: int, c: int, d: int) returns (diff: Float)
    requires b != 0 && d != 0
    ensures diff == AbsDiff(Ratio(a, b), Ratio(c, d)) && IsDiff(diff, Gap(b, 0), Gap(d, 0), Gap(a * d, c * b))
  {
    diff := AbsDiff(Ratio(a, b), Ratio(c, d));
    DiffIs(a, b, c, d);
    SizeOfProduct(b as real, d as real);
    CastProduct(b, d);
    SizeIsGap(b);
    SizeIsGap(d);
    SizeIsGap(b * d);
  }

  /** Of two sizes one is strictly nearer to a third in its ratio; the heights are cleared by multiplying. */
  lemma {:induction false} NearerBySides(w: int, h: int, w': int, h': int, width: int, height: int)
    requires h != -1 && h' != -1 && height != -1
    ensures var to := LaplaceSmooth(width, height);
            Less(AbsDiff(LaplaceSmooth(w, h), to), AbsDiff(LaplaceSmooth(w', h'), to)) <==>
            Apart(w, h, width, height) * Gap(h' + 1, 0) < Apart(w', h', width, height) * Gap(h + 1, 0)
  {
    var d := SidesDiff(w + 1, h + 1, width + 1, height + 1);
    var d' := SidesDiff(w' + 1, h' + 1, width + 1, height + 1);
    Compare(d, d', Gap(h + 1, 0), Gap(h' + 1, 0), Gap(height + 1, 0), Apart(w, h, width, height),
            Apart(w', h', width, height));
  }

  lemma {:induction false} EitherWay(x: Float, y: Float)
    ensures AbsDiff(x, y) == AbsDiff(y, x)
  {
  }

  /** When a render image is preferred to the best image, and to another render image. */
  lemma {:induction false} PreferredIs(key: string, other: string, img: Img, q: Want)
    requires RenderSize(key).1 != -1 && RenderSize(other).1 != -1 && img.height != -1 && q.h != -1
    ensures var (w, h) := RenderSize(key);
            Nearer(key, q.Ratio(), OwnDelta(Some(img), q.Ratio())) <==>
            Apart(w, h, q.w, q.h) * Gap(img.height + 1, 0) < Apart(img.width, img.height, q.w, q.h) * Gap(h + 1, 0)
    ensures var (w, h) := RenderSize(key);
            var (w', h') := RenderSize(other);
            Nearer(key, q.Ratio(), Delta(other, q.Ratio())) <==>
            Apart(w, h, q.w, q.h) * Gap(h' + 1, 0) < Apart(w', h', q.w, q.h) * Gap(h + 1, 0)
  {
    var (w, h) := RenderSize(key);
    var (w', h') := RenderSize(other);
    EitherWay(q.Ratio(), LaplaceSmooth(img.width, img.height));
    NearerBySides(w, h, img.width, img.height, q.w, q.h);
    NearerBySides(w, h, w', h', q.w, q.h);
  }
}
