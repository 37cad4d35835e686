/** Images and how they match a wanted size (src/raw_ad/raw_ad.go). */
module Images {
  import opened Floats
  import opened Options

  // ---------- The rules ----------

  /** int(x), which cuts towards zero. */
  function Truncate(x: real): int {
    if x >= 0.0 then x.Floor else 0 - (0.0 - x).Floor
  }

  function LaplaceSmooth(w: int, h: int): Float { Ratio(w + 1, h + 1) }

  datatype Img = Img(width: int, height: int, url: string, domesticCDN: string, lang: string) {
    function Area(): int { width * height }

    predicate Match(w: int, h: int) { width == w && height == h }

    predicate RatioFuzzyMatch(w: int, h: int, bias: real) {
      var want := if h == 0 then Ratio(w + 1, h + 1) else Ratio(w, h);
      var d := AbsDiff(want, Ratio(width, height));
      Less(d, Fin(bias)) || d == Fin(bias)
    }

    predicate RatioMatch(w: int, h: int) { RatioFuzzyMatch(w, h, 0.001) }

    predicate Within(w: int, h: int, bias: real) {
      && Truncate(width as real * (1.0 - bias)) <= w <= Truncate(width as real * (1.0 + bias))
      && Truncate(height as real * (1.0 - bias)) <= h <= Truncate(height as real * (1.0 + bias))
    }

    predicate AbsFuzzyMatch(w: int, h: int, bias: real) {
      && !Less(Fin(0.001), AbsDiff(LaplaceSmooth(w, h), LaplaceSmooth(width, height)))
      && Within(w, h, bias)
    }

    predicate FuzzyMatch(w: int, h: int, ratioBias: real, absBias: real) {
      var w', h' := if h == 0 then w + 1 else w, if h == 0 then h + 1 else h;
      && !Less(Fin(ratioBias), AbsDiff(Ratio(w', h'), Ratio(width, height)))
      && Within(w', h', absBias)
    }

    predicate ByRule(w: int, h: int, rule: int) {
      match rule
      case -2 => RatioFuzzyMatch(w, h, 0.2)
      case -1 => RatioMatch(w, h)
      case 1 => Match(w, h)
      case 2 => AbsFuzzyMatch(w, h, 0.2)
      case 3 => FuzzyMatch(w, h, 0.2, 0.2)
      case _ => false
    }

    /** Without a width or a height every image will do. */
    predicate Fits(w: int, h: int, rule: int) { w == 0 || h == 0 || ByRule(w, h, rule) }
  }

  lemma {:induction false} BiasShare(r: real, bias: real)
    requires r >= 0.0 && 0.0 <= bias <= 1.0
    ensures 0.0 <= r * bias <= r
    ensures r * (1.0 - bias) == r - r * bias && r * (1.0 + bias) == r + r * bias
  {
  }

  lemma {:induction false} TruncateAround(x: int, a: real)
    requires x >= 0 && 0.0 <= a <= x as real
    ensures Truncate(x as real - a) <= x <= Truncate(x as real + a)
  {
  }

  lemma {:induction false} BiasAround(x: int, bias: real)
    requires x >= 0 && 0.0 <= bias <= 1.0
    ensures Truncate(x as real * (1.0 - bias)) <= x <= Truncate(x as real * (1.0 + bias))
  {
    BiasShare(x as real, bias);
    TruncateAround(x, x as real * bias);
  }

  /** An image fits its own size under every rule. */
  lemma {:induction false} OwnSizeFits(img: Img, rule: int)
    requires img.width > 0 && img.height > 0 && rule in {-2, -1, 1, 2, 3}
    ensures img.ByRule(img.width, img.height, rule)
  {
    BiasAround(img.width, 0.2);
    BiasAround(img.height, 0.2);
  }

  lemma {:induction false} RatioOfMultiple(w: int, h: int, k: int)
    requires h != 0 && k != 0
    ensures Ratio(w * k, h * k) == Ratio(w, h)
  {
    CastProduct(w, k);
    CastProduct(h, k);
    CancelCommon(w as real, h as real, k as real);
  }

  lemma {:induction false} CastProduct(a: int, b: int)
    ensures (a * b) as real == a as real * b as real
  {
  }

  lemma {:induction false} CancelCommon(a: real, b: real, c: real)
    requires b != 0.0 && c != 0.0
    ensures b * c != 0.0 && (a * c) / (b * c) == a / b
  {
    var q := a / b;
    assert q * b == a;
    assert q * (b * c) == q * b * c;
    QuotientIs(a * c, b * c, q);
  }

  lemma {:induction false} QuotientIs(x: real, y: real, q: real)
    requires y != 0.0 && q * y == x
    ensures x / y == q
  {
  }

  /** The ratio rules look at nothing but the ratio. */
  lemma {:induction false} RatioRulesScale(img: Img, w: int, h: int, k: int, rule: int)
    requires h != 0 && k != 0 && rule in {-2, -1}
    ensures img.ByRule(w * k, h * k, rule) <==> img.ByRule(w, h, rule)
  {
    RatioOfMultiple(w, h, k);
    assert h * k != 0;
  }

  /** The stricter rules of each kind let nothing through that the laxer ones would not. */
  lemma {:induction false} RulesNest(img: Img, w: int, h: int)
    requires img.width > 0 && img.height > 0
    ensures img.ByRule(w, h, 1) ==> img.ByRule(w, h, 2) && img.ByRule(w, h, 3)
    ensures img.ByRule(w, h, -1) || img.ByRule(w, h, 3) ==> img.ByRule(w, h, -2)
  {
    if img.Match(w, h) {
      OwnSizeFits(img, 2);
      OwnSizeFits(img, 3);
    }
  }

  // ---------- The largest match ----------

  /** No image has taken up anything yet. */
  const NOTHING := -1

  /**
   A largest image that fits. Areas below -1 are never taken and one of -1 is as large as nothing, so
   it is taken only by a coin flip; whenever an image of a natural area fits there is a choice.
   */
  ghost predicate IsMax(imgs: seq<Img>, w: int, h: int, rule: int, isRand: bool, o: Option<Img>) {
    match o
    case Some(best) =>
      && best in imgs && best.Fits(w, h, rule) && Largest(imgs, w, h, rule, best.Area())
      && (best.Area() >= 0 || (isRand && best.Area() == NOTHING))
    case None => Largest(imgs, w, h, rule, NOTHING)
  }

  ghost predicate Largest(imgs: seq<Img>, w: int, h: int, rule: int, area: int) {
    forall img :: img in imgs && img.Fits(w, h, rule) ==> img.Area() <= area
  }

  /** The choice so far and its area. */
  datatype Pick = Pick(rc: Option<Img>, maxWH: int)

  /** The closure toUpdate: whether an image is taken, and the largest area then; `heads` is the flip of the coin. */
  function Update(img: Img, curMax: int, isRand: bool, heads: bool): (bool, int) {
    if isRand && img.Area() == curMax then (heads, curMax)
    else (img.Area() > curMax, if img.Area() > curMax then img.Area() else curMax)
  }

  /** One image: where a side is missing it gets a try without the rule, and then one with it. */
  function Look(img: Img, w: int, h: int, rule: int, isRand: bool, first: bool, second: bool, p: Pick): Pick {
    var (free, area) := if w == 0 || h == 0 then Update(img, p.maxWH, isRand, first) else (false, p.maxWH);
    if free then Pick(Some(img), area) else
    var (take, area') := if img.ByRule(w, h, rule) then Update(img, area, isRand, second) else (false, area);
    Pick(if take then Some(img) else p.rc, area')
  }

  type Coin = nat -> bool

  /** The choice among some images under some flips, two for each image. */
  function MaxOf(imgs: seq<Img>, w: int, h: int, rule: int, isRand: bool, coin: Coin): Pick {
    if imgs == [] then Pick(None, NOTHING) else
    var n := |imgs| - 1;
    Look(imgs[n], w, h, rule, isRand, coin(2 * n), coin(2 * n + 1), MaxOf(imgs[..n], w, h, rule, isRand, coin))
  }

  method ToUpdate(img: Img, curMax: int, isRand: bool, heads: bool) returns (take: bool, curMax': int)
    ensures (take, curMax') == Update(img, curMax, isRand, heads)
  {
    var mul := img.width * img.height;
    curMax' := curMax;
    if isRand && mul == curMax {
      return heads, curMax;
    }
    if mul > curMax {
      return true, mul;
    }
    return false, curMax;
  }

  method LookAt(img: Img, w: int, h: int, rule: int, isRand: bool, first: bool, second: bool, p: Pick)
      returns (p': Pick)
    ensures p' == Look(img, w, h, rule, isRand, first, second, p)
  {
    var take, maxWH := false, p.maxWH;
    if w == 0 || h == 0 {
      take, maxWH := ToUpdate(img, maxWH, isRand, first);
      if take {
        return Pick(Some(img), maxWH);
      }
    }
    if img.ByRule(w, h, rule) {
      take, maxWH := ToUpdate(img, maxWH, isRand, second);
    }
    p' := Pick(if take then Some(img) else p.rc, maxWH);
  }

  lemma {:induction false} MaxOfNext(imgs: seq<Img>, w: int, h: int, rule: int, isRand: bool, coin: Coin, i: nat)
    requires i < |imgs|
    ensures MaxOf(imgs[..i + 1], w, h, rule, isRand, coin) ==
            Look(imgs[i], w, h, rule, isRand, coin(2 * i), coin(2 * i + 1), MaxOf(imgs[..i], w, h, rule, isRand, coin))
  {
    assert imgs[..i + 1][..i] == imgs[..i];
  }

  method GetMaxMatchedImg(m: map<string, seq<Img>>, lang: string, w: int, h: int, rule: int, isRand: bool, coin: Coin)
    returns (rc: Option<Img>)
    ensures rc == MaxOf(if lang in m then m[lang] else [], w, h, rule, isRand, coin).rc
    ensures IsMax(if lang in m then m[lang] else [], w, h, rule, isRand, rc)
    ensures forall img :: lang in m && img in m[lang] && img.Fits(w, h, rule) ==>
              img.width * img.height <= match rc case Some(best) => best.width * best.height case None => NOTHING
  {
    if lang !in m {
      return None;
    }
    var imgs := m[lang];
    var p := Pick(None, NOTHING);
    for i := 0 to |imgs|
      invariant p == MaxOf(imgs[..i], w, h, rule, isRand, coin)
    {
      MaxOfNext(imgs, w, h, rule, isRand, coin, i);
      p := LookAt(imgs[i], w, h, rule, isRand, coin(2 * i), coin(2 * i + 1), p);
    }
    assert imgs[..|imgs|] == imgs;
    MaxOfIs(imgs, w, h, rule, isRand, coin);
    rc := p.rc;
  }

  // ---------- What the flips can do ----------

  /** `p` is a choice among the images, and its area. */
  ghost predicate Seen(imgs: seq<Img>, w: int, h: int, rule: int, isRand: bool, p: Pick) {
    IsMax(imgs, w, h, rule, isRand, p.rc) && p.maxWH == if p.rc.Some? then p.rc.value.Area() else NOTHING
  }

  /** An image that does not fit changes nothing, a larger one is taken, and one as large may be. */
  lemma {:induction false} LookIs(img: Img, w: int, h: int, rule: int, isRand: bool, first: bool, second: bool, p: Pick)
    ensures var p' := Look(img, w, h, rule, isRand, first, second, p);
            if !img.Fits(w, h, rule) || img.Area() < p.maxWH then p' == p
            else if img.Area() > p.maxWH then p' == Pick(Some(img), img.Area())
            else p' == p || (isRand && p' == Pick(Some(img), img.Area()))
  {
  }

  /** Heads takes it and tails does not. */
  lemma {:induction false} LookFlips(img: Img, w: int, h: int, rule: int, p: Pick)
    requires img.Fits(w, h, rule) && img.Area() == p.maxWH
    ensures Look(img, w, h, rule, true, true, true, p) == Pick(Some(img), p.maxWH)
    ensures Look(img, w, h, rule, true, false, false, p) == p
  {
  }

  lemma {:induction false} SeenMore(imgs: seq<Img>, w: int, h: int, rule: int, isRand: bool, img: Img, p: Pick,
                                    p': Pick)
    requires Seen(imgs, w, h, rule, isRand, p)
    requires if !img.Fits(w, h, rule) || img.Area() < p.maxWH then p' == p
             else if img.Area() > p.maxWH then p' == Pick(Some(img), img.Area())
             else p' == p || (isRand && p' == Pick(Some(img), img.Area()))
    ensures Seen(imgs + [img], w, h, rule, isRand, p')
  {
    assert forall i :: i in imgs + [img] ==> i in imgs || i == img;
    assert img in imgs + [img];
    assert p.rc.Some? ==> p.rc.value in imgs + [img];
  }

  lemma {:induction false} MaxOfIs(imgs: seq<Img>, w: int, h: int, rule: int, isRand: bool, coin: Coin)
    ensures Seen(imgs, w, h, rule, isRand, MaxOf(imgs, w, h, rule, isRand, coin))
  {
    if imgs != [] {
      var n := |imgs| - 1;
      var p := MaxOf(imgs[..n], w, h, rule, isRand, coin);
      MaxOfIs(imgs[..n], w, h, rule, isRand, coin);
      LookIs(imgs[n], w, h, rule, isRand, coin(2 * n), coin(2 * n + 1), p);
      SeenMore(imgs[..n], w, h, rule, isRand, imgs[n], p, MaxOf(imgs, w, h, rule, isRand, coin));
      assert imgs == imgs[..n] + [imgs[n]];
    }
  }

  lemma {:induction false} FlipsBefore(imgs: seq<Img>, w: int, h: int, rule: int, a: Coin, b: Coin)
    requires forall k :: 0 <= k < 2 * |imgs| ==> a(k) == b(k)
    ensures MaxOf(imgs, w, h, rule, true, a) == MaxOf(imgs, w, h, rule, true, b)
  {
    if imgs != [] {
      FlipsBefore(imgs[..|imgs| - 1], w, h, rule, a, b);
    }
  }

  const HEADS: Coin := (k: nat) => true
  const TAILS: Coin := (k: nat) => false

  lemma {:induction false} TailsTakeNone(imgs: seq<Img>, w: int, h: int, rule: int)
    requires Largest(imgs, w, h, rule, NOTHING)
    ensures MaxOf(imgs, w, h, rule, true, TAILS) == Pick(None, NOTHING)
  {
    if imgs != [] {
      var n := |imgs| - 1;
      TailsTakeNone(imgs[..n], w, h, rule);
      LookIs(imgs[n], w, h, rule, true, false, false, Pick(None, NOTHING));
      if imgs[n].Fits(w, h, rule) && imgs[n].Area() == NOTHING {
        LookFlips(imgs[n], w, h, rule, Pick(None, NOTHING));
      }
    }
  }

  /** The flips up to `n`, and tails from there. */
  function Till(n: nat, coin: Coin): Coin { (k: nat) => k < n && coin(k) }

  lemma {:induction false} HeadsTake(imgs: seq<Img>, w: int, h: int, rule: int, best: Img)
    requires IsMax(imgs, w, h, rule, true, Some(best)) && imgs[|imgs| - 1] == best
    ensures MaxOf(imgs, w, h, rule, true, HEADS) == Pick(Some(best), best.Area())
  {
    var init := imgs[..|imgs| - 1];
    var p := MaxOf(init, w, h, rule, true, HEADS);
    MaxOfIs(init, w, h, rule, true, HEADS);
    assert p.maxWH <= best.Area() by { assert p.rc.Some? ==> p.rc.value in imgs; }
    LookIs(best, w, h, rule, true, true, true, p);
    if p.maxWH == best.Area() { LookFlips(best, w, h, rule, p); }
  }

  /** Every largest image that fits is the choice under some flips. */
  lemma {:induction false} SomeTakes(imgs: seq<Img>, w: int, h: int, rule: int, best: Img) returns (coin: Coin)
    requires IsMax(imgs, w, h, rule, true, Some(best))
    ensures MaxOf(imgs, w, h, rule, true, coin) == Pick(Some(best), best.Area())
  {
    var n := |imgs| - 1;
    if imgs[n] == best {
      coin := HEADS;
      HeadsTake(imgs, w, h, rule, best);
    } else {
      MaxBefore(imgs, w, h, rule, best);
      var before := SomeTakes(imgs[..n], w, h, rule, best);
      coin := Till(2 * n, before);
      FlipsBefore(imgs[..n], w, h, rule, before, coin);
      StaysTaken(imgs, w, h, rule, best, coin);
    }
  }

  lemma {:induction false} MaxBefore(imgs: seq<Img>, w: int, h: int, rule: int, best: Img)
    requires IsMax(imgs, w, h, rule, true, Some(best)) && imgs[|imgs| - 1] != best
    ensures IsMax(imgs[..|imgs| - 1], w, h, rule, true, Some(best))
  {
    var n := |imgs| - 1;
    assert imgs == imgs[..n] + [imgs[n]];
  }

  lemma {:induction false} StaysTaken(imgs: seq<Img>, w: int, h: int, rule: int, best: Img, coin: Coin)
    requires imgs != [] && Largest(imgs, w, h, rule, best.Area())
    requires var n := |imgs| - 1; !coin(2 * n) && !coin(2 * n + 1)
    requires MaxOf(imgs[..|imgs| - 1], w, h, rule, true, coin) == Pick(Some(best), best.Area())
    ensures MaxOf(imgs, w, h, rule, true, coin) == Pick(Some(best), best.Area())
  {
    var last, p := imgs[|imgs| - 1], Pick(Some(best), best.Area());
    LookIs(last, w, h, rule, true, false, false, p);
    if last.Fits(w, h, rule) && last.Area() == p.maxWH { LookFlips(last, w, h, rule, p); }
  }

  /** The choices that some flips lead to are exactly those IsMax allows. */
  lemma {:induction false} FlipsReach(imgs: seq<Img>, w: int, h: int, rule: int, o: Option<Img>)
    ensures (exists coin :: MaxOf(imgs, w, h, rule, true, coin).rc == o) <==> IsMax(imgs, w, h, rule, true, o)
  {
    if IsMax(imgs, w, h, rule, true, o) {
      match o
      case Some(best) => var coin := SomeTakes(imgs, w, h, rule, best);
      case None => TailsTakeNone(imgs, w, h, rule);
    }
    forall coin | MaxOf(imgs, w, h, rule, true, coin).rc == o ensures IsMax(imgs, w, h, rule, true, o) {
      MaxOfIs(imgs, w, h, rule, true, coin);
    }
  }

  // ---------- Images that only a flip takes ----------

  /** The two sizes of area -1. */
  const FLIPPED: Img := Img(1, -1, "", "", "")
  const TIPPED: Img := Img(-1, 1, "", "", "")

  /** One of them fits this size. */
  predicate FlipSize(w: int, h: int, rule: int) { FLIPPED.Fits(w, h, rule) || TIPPED.Fits(w, h, rule) }

  lemma {:induction false} FlippedSides(img: Img)
    requires img.Area() == NOTHING
    ensures (img.width == 1 && img.height == -1) || (img.width == -1 && img.height == 1)
  {
    var w, h := img.width, img.height;
    assert -1 <= w <= 1;
  }

  lemma {:induction false} SidesFit(img: Img, other: Img, w: int, h: int, rule: int)
    requires img.width == other.width && img.height == other.height
    ensures img.Fits(w, h, rule) <==> other.Fits(w, h, rule)
  {
  }

  lemma {:induction false} FlippedFits(img: Img, w: int, h: int, rule: int)
    requires img.Area() == NOTHING && img.Fits(w, h, rule)
    ensures FlipSize(w, h, rule)
  {
    FlippedSides(img);
    if img.width == 1 { SidesFit(img, FLIPPED, w, h, rule); } else { SidesFit(img, TIPPED, w, h, rule); }
  }

  /** A size with two sides is never one of those, and one without a side always is. */
  lemma {:induction false} FlipSizes(w: int, h: int, rule: int)
    requires w >= 0 && h >= 0
    ensures FlipSize(w, h, rule) <==> w == 0 || h == 0
  {
    if w > 0 && h > 0 {
      assert Ratio(w, h) == Fin(w as real / h as real) && w as real / h as real > 0.0;
      assert Ratio(1, -1) == Fin(-1.0) && Ratio(-1, 1) == Fin(-1.0);
    }
  }
}
