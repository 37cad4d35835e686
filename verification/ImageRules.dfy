/**
 The image rules of src/raw_ad/raw_ad.go in whole numbers, for every image and every wanted size
 with two sides.
 */
module ImageRules {
  import opened Floats
  import opened Images

  function Gap(a: int, b: int): nat { if a >= b then a - b else b - a }

  /** The ratios of two sizes differ by at most one part in `parts`. */
  predicate RatiosWithin(w: int, h: int, width: int, height: int, parts: nat) {
    height != 0 && parts * Gap(w * height, width * h) <= Gap(h * height, 0)
  }

  /** A side is within twenty per cent of an image's side, each bound cut to a whole number. */
  predicate SideWithin(x: int, side: int) {
    side > 0 && 4 * side < 5 * (x + 1) && 5 * x <= 6 * side
  }

  /**
   What fits under each rule. Rule 2 takes both ratios after adding one to each side. Under every
   other number nothing fits, and without a width or a height everything does.
   */
  lemma {:induction false} RulesAre(img: Img, w: int, h: int, rule: int)
    ensures img.Fits(w, h, rule) <==>
            if w == 0 || h == 0 then true
            else if rule == -2 then RatiosWithin(w, h, img.width, img.height, 5)
            else if rule == -1 then RatiosWithin(w, h, img.width, img.height, 1000)
            else if rule == 1 then w == img.width && h == img.height
            else if rule == 2 then
              && RatiosWithin(w + 1, h + 1, img.width + 1, img.height + 1, 1000)
              && SideWithin(w, img.width) && SideWithin(h, img.height)
            else
              && rule == 3 && RatiosWithin(w, h, img.width, img.height, 5)
              && SideWithin(w, img.width) && SideWithin(h, img.height)
  {
    if w != 0 && h != 0 {
      match rule
      case -2 => RatioRule(img, w, h, 0.2, 5);
      case -1 => RatioRule(img, w, h, 0.001, 1000);
      case 2 => AbsRule(img, w, h);
      case 3 => FuzzyRule(img, w, h);
      case _ =>
    }
  }

  // ---------- Ratios ----------

  lemma {:induction false} ProductSign(x: real, y: real)
    ensures x >= 0.0 && y >= 0.0 ==> x * y >= 0.0
    ensures x < 0.0 && y > 0.0 ==> x * y < 0.0
  {
  }

  lemma {:induction false} TimesPositive(x: real, e: real, y: real)
    requires y > 0.0
    ensures x <= e <==> x * y <= e * y
  {
    ProductSign(e - x, y);
  }

  lemma {:induction false} TimesBack(a: real, b: real, d: real)
    requires b != 0.0
    ensures a / b * (b * d) == a * d
  {
    var q := a / b;
    assert q * b == a;
    assert q * (b * d) == q * b * d;
  }

  lemma {:induction false} Cross(a: real, b: real, c: real, d: real)
    requires b != 0.0 && d != 0.0
    ensures (a / b - c / d) * (b * d) == a * d - c * b
  {
    TimesBack(a, b, d);
    TimesBack(c, d, b);
    assert b * d == d * b;
  }

  function Size(x: real): real { if x >= 0.0 then x else 0.0 - x }

  lemma {:induction false} SizeOfProduct(x: real, y: real)
    ensures Size(x * y) == Size(x) * Size(y)
  {
    ProductSign(x, y);
  }

  lemma {:induction false} RealDiff(a: real, b: real, c: real, d: real)
    requires b != 0.0 && d != 0.0
    ensures Size(a / b - c / d) * Size(b * d) == Size(a * d - c * b)
  {
    Cross(a, b, c, d);
    SizeOfProduct(a / b - c / d, b * d);
  }

  lemma {:induction false} Casts(a: int, b: int, c: int, d: int)
    ensures Size(a as real * d as real - c as real * b as real) == Gap(a * d, c * b) as real
    ensures Size(b as real * d as real) == Gap(b * d, 0) as real
  {
    CastProduct(a, d);
    CastProduct(c, b);
    CastProduct(b, d);
  }

  lemma {:induction false} PartOf(gap: nat, whole: nat, parts: nat, e: real)
    requires parts > 0 && e * parts as real == 1.0
    ensures gap as real <= e * whole as real <==> parts * gap <= whole
  {
    var p := parts as real;
    TimesPositive(gap as real, e * whole as real, p);
    assert e * whole as real * p == e * p * whole as real;
    CastProduct(parts, gap);
    assert gap as real * p == (parts * gap) as real;
  }

  lemma {:induction false} AbsIsSize(x: real, y: real)
    ensures AbsDiff(Fin(x), Fin(y)) == Fin(Size(x - y))
  {
  }

  lemma {:induction false} DiffIs(a: int, b: int, c: int, d: int)
    requires b != 0 && d != 0
    ensures var diff := AbsDiff(Ratio(a, b), Ratio(c, d));
            diff.Fin? && diff.r * Gap(b * d, 0) as real == Gap(a * d, c * b) as real
  {
    RealDiff(a as real, b as real, c as real, d as real);
    Casts(a, b, c, d);
    AbsIsSize(a as real / b as real, c as real / d as real);
  }

  lemma {:induction false} NotNone(a: int, b: int)
    requires a != 0 && b != 0
    ensures a * b != 0 && Gap(a * b, 0) > 0
  {
  }

  lemma {:induction false} PartOfGap(r: real, gap: nat, whole: nat, parts: nat, e: real)
    requires whole > 0 && r * whole as real == gap as real && parts > 0 && e * parts as real == 1.0
    ensures r <= e <==> parts * gap <= whole
  {
    TimesPositive(r, e, whole as real);
    PartOf(gap, whole, parts, e);
  }

  lemma {:induction false} Ratios(a: int, b: int, c: int, d: int, parts: nat, e: real)
    requires b != 0 && parts > 0 && e * parts as real == 1.0
    ensures var diff := AbsDiff(Ratio(a, b), Ratio(c, d));
            (diff.Fin? && diff.r <= e) <==> RatiosWithin(a, b, c, d, parts)
  {
    if d != 0 {
      DiffIs(a, b, c, d);
      NotNone(b, d);
      PartOfGap(AbsDiff(Ratio(a, b), Ratio(c, d)).r, Gap(a * d, c * b), Gap(b * d, 0), parts, e);
    }
  }

  // ---------- Sides ----------

  lemma {:induction false} Bounds(x: int, side: int)
    ensures Truncate(side as real * (1.0 - 0.2)) <= x <= Truncate(side as real * (1.0 + 0.2)) && x != 0 ==>
            SideWithin(x, side)
    ensures SideWithin(x, side) ==>
            Truncate(side as real * (1.0 - 0.2)) <= x <= Truncate(side as real * (1.0 + 0.2))
  {
  }

  // ---------- The rules ----------

  lemma {:induction false} RatioRule(img: Img, w: int, h: int, bias: real, parts: nat)
    requires h != 0 && parts > 0 && bias * parts as real == 1.0
    ensures img.RatioFuzzyMatch(w, h, bias) <==> RatiosWithin(w, h, img.width, img.height, parts)
  {
    Ratios(w, h, img.width, img.height, parts, bias);
  }

  lemma {:induction false} WithinIs(img: Img, w: int, h: int)
    requires w != 0 && h != 0
    ensures img.Within(w, h, 0.2) <==> SideWithin(w, img.width) && SideWithin(h, img.height)
  {
    Bounds(w, img.width);
    Bounds(h, img.height);
  }

  lemma {:induction false} AbsRule(img: Img, w: int, h: int)
    requires w != 0 && h != 0
    ensures img.AbsFuzzyMatch(w, h, 0.2) <==>
            && RatiosWithin(w + 1, h + 1, img.width + 1, img.height + 1, 1000)
            && SideWithin(w, img.width) && SideWithin(h, img.height)
  {
    WithinIs(img, w, h);
    if SideWithin(w, img.width) && SideWithin(h, img.height) {
      Ratios(w + 1, h + 1, img.width + 1, img.height + 1, 1000, 0.001);
    }
  }

  lemma {:induction false} FuzzyRule(img: Img, w: int, h: int)
    requires w != 0 && h != 0
    ensures img.FuzzyMatch(w, h, 0.2, 0.2) <==>
            && RatiosWithin(w, h, img.width, img.height, 5)
            && SideWithin(w, img.width) && SideWithin(h, img.height)
  {
    WithinIs(img, w, h);
    if SideWithin(h, img.height) { Ratios(w, h, img.width, img.height, 5, 0.2); }
  }
}
