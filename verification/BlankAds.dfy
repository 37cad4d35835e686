/**
 Which indexed ads can make the two askings of ReplaceAsking.dfy differ. Their images have urls, so
 only a render image can be chosen that leaves no text.
 */
module BlankAds {
  import opened AdRequests
  import opened Creatives
  import opened Floats
  import opened Images
  import opened Macros
  import opened Options
  import opened Replace
  import opened ReplaceAgreement
  import opened ReplaceAsking
  import opened ReplaceMeaning
  import opened Scanner
  import opened SentinelSizes
  import opened Text

  // ---------- Ads whose render images have urls too ----------

  ghost predicate AllUrls(a: AdRequest) {
    a.Valid() && forall k :: k in a.m.renders ==> a.m.renders[k] != ""
  }

  /** What is chosen is an image of the ad or one of its render images. */
  lemma {:induction false} ChosenFrom(a: AdRequest, q: Want, best: Option<Img>, img: Img)
    requires a.Valid() && q.lang == a.lang && BestImage(a.m, q, best) && Choice(a.m, q, best, Some(img))
    ensures img.url == "" ==>
            exists k :: Nearest(a.m, q.Ratio(), OwnDelta(best, q.Ratio()), k) && img == RenderImg(a.m, k)
  {
    if best == Some(img) {
      ImagesHaveText(a, if img in a.m.Of(q.lang) then q.lang else "ALL", img);
    }
  }

  lemma {:induction false} UrlIsText(country: string, img: Img)
    requires CdnConv(country, img) == ""
    ensures img.url == ""
  {
  }

  /** A creative without a text is a render image without a url. */
  lemma {:induction false} BlankIsRender(a: AdRequest, key: string) returns (best: Option<Img>, k: string)
    requires a.Valid() && MayBlank(a, key) && key != ""
    ensures SizeOf(key).Some?
    ensures var (w, h) := SizeOf(key).value;
            var q := a.Wanted(w, h);
            && BestImage(a.m, q, best) && Nearest(a.m, q.Ratio(), OwnDelta(best, q.Ratio()), k)
            && a.m.renders[k] == ""
  {
    var o :| Gives(a, key, o) && TextFor(a.country, key, o) == "";
    var (w, h) := SizeOf(key).value;
    var q := a.Wanted(w, h);
    UrlIsText(a.country, o.value);
    best :| BestImage(a.m, q, best) && Choice(a.m, q, best, o);
    ChosenFrom(a, q, best, o.value);
    k :| Nearest(a.m, q.Ratio(), OwnDelta(best, q.Ratio()), k) && o.value == RenderImg(a.m, k);
  }

  /** And each such render image that is nearest may be the creative. */
  lemma {:induction false} RenderIsGiven(a: AdRequest, key: string, best: Option<Img>, k: string)
    requires SizeOf(key).Some?
    requires var (w, h) := SizeOf(key).value;
             var q := a.Wanted(w, h);
             BestImage(a.m, q, best) && Nearest(a.m, q.Ratio(), OwnDelta(best, q.Ratio()), k)
    ensures Gives(a, key, Some(RenderImg(a.m, k)))
    ensures TextFor(a.country, key, Some(RenderImg(a.m, k))) == a.m.renders[k]
  {
    var (w, h) := SizeOf(key).value;
    assert Choice(a.m, a.Wanted(w, h), best, Some(RenderImg(a.m, k)));
  }

  /** With urls everywhere ReplaceTpl is the slow path for every template. */
  lemma {:induction false} UrlsAgree(g: Grammar, s: string, m: map<string, string>, a: AdRequest)
    requires MapOk(g, m) && AllUrls(a)
    ensures AlwaysAgree(g, s, m, a)
  {
    var keys := FindAllString(g, s);
    if NothingLeft(g, s, m) && AllBlank(m, a, keys) {
      var i := SomeUnmapped(m, keys);
      MacrosAreBracketed(g, s);
      assert Bracketed(keys[i]);
      var best, k := BlankIsRender(a, keys[i]);
      assert false;
    }
    AgreeExactly(g, s, m, a);
  }

  // ---------- Under one rule ----------

  ghost predicate AgreeUnder(g: Grammar, s: string, m: map<string, string>, rule: int) {
    forall a: AdRequest :: a.Valid() && a.rule == rule ==> AlwaysAgree(g, s, m, a)
  }

  /** Some indexed ad may give every macro left to the creatives one without a text. */
  ghost predicate SomeBlankAd(m: map<string, string>, keys: seq<string>, rule: int) {
    exists a: AdRequest :: IsBlankAd(m, a, keys, rule)
  }

  ghost predicate IsBlankAd(m: map<string, string>, a: AdRequest, keys: seq<string>, rule: int) {
    a.Valid() && a.rule == rule && AllBlank(m, a, keys)
  }

  /** One more render image, of the same size as another and with a url. */
  function WithTwin(a: AdRequest, twin: string): AdRequest {
    a.(m := a.m.(renders := a.m.renders[twin := "https://twin"]))
  }

  lemma {:induction false} SameBest(a: AdRequest, twin: string, q: Want, best: Option<Img>)
    ensures BestImage(WithTwin(a, twin).m, q, best) <==> BestImage(a.m, q, best)
  {
    assert WithTwin(a, twin).m.Of(q.lang) == a.m.Of(q.lang) && WithTwin(a, twin).m.Of("ALL") == a.m.Of("ALL");
  }

  lemma {:induction false} NearestStays(a: AdRequest, k: string, twin: string, ratio: Float, limit: Float, near: string)
    requires k in a.m.renders && twin !in a.m.renders && RenderSize(twin) == RenderSize(k)
    requires Nearest(a.m, ratio, limit, near)
    ensures Nearest(WithTwin(a, twin).m, ratio, limit, near)
    ensures near == k ==> Nearest(WithTwin(a, twin).m, ratio, limit, twin)
  {
    assert Delta(twin, ratio) == Delta(k, ratio);
  }

  lemma {:induction false} BlankStays(a: AdRequest, k: string, twin: string, key: string)
    requires a.Valid() && MayBlank(a, key) && key != ""
    requires k in a.m.renders && twin !in a.m.renders && RenderSize(twin) == RenderSize(k)
    ensures MayBlank(WithTwin(a, twin), key)
  {
    var best, near := BlankIsRender(a, key);
    var (w, h) := SizeOf(key).value;
    var q := a.Wanted(w, h);
    SameBest(a, twin, q, best);
    NearestStays(a, k, twin, q.Ratio(), OwnDelta(best, q.Ratio()), near);
    RenderIsGiven(WithTwin(a, twin), key, best, near);
  }

  lemma {:induction false} TwinShows(a: AdRequest, key: string) returns (k: string, twin: string)
    requires a.Valid() && MayBlank(a, key) && key != ""
    ensures k in a.m.renders && twin !in a.m.renders && RenderSize(twin) == RenderSize(k)
    ensures MayShow(WithTwin(a, twin), key)
  {
    var best, near := BlankIsRender(a, key);
    var (w, h) := SizeOf(key).value;
    var q := a.Wanted(w, h);
    var length := Longest(a.m.renders.Keys);
    k, twin := near, Twin(near, length);
    TwinIs(near, length);
    SameBest(a, twin, q, best);
    NearestStays(a, k, twin, q.Ratio(), OwnDelta(best, q.Ratio()), near);
    RenderIsGiven(WithTwin(a, twin), key, best, twin);
  }

  /** An ad that can leave nothing can be made to differ from one asking to the next. */
  lemma {:induction false} BlankAdDiffers(g: Grammar, s: string, m: map<string, string>, a: AdRequest, rule: int)
    requires MapOk(g, m) && NothingLeft(g, s, m) && IsBlankAd(m, a, FindAllString(g, s), rule)
    ensures !AgreeUnder(g, s, m, rule)
  {
    var keys := FindAllString(g, s);
    var i := SomeUnmapped(m, keys);
    MacrosAreBracketed(g, s);
    assert Bracketed(keys[i]);
    var k, twin := TwinShows(a, keys[i]);
    var b := WithTwin(a, twin);
    forall key | key in keys && key !in m ensures MayBlank(b, key) {
      var j :| 0 <= j < |keys| && keys[j] == key;
      assert Bracketed(keys[j]);
      BlankStays(a, k, twin, key);
    }
    AgreeExactly(g, s, m, b);
    assert b.Valid() && b.rule == rule;
  }

  /** Under a rule ReplaceTpl is the slow path for all indexed ads if and only if none of them can leave nothing. */
  lemma {:induction false} AgreeUnderExactly(g: Grammar, s: string, m: map<string, string>, rule: int)
    requires MapOk(g, m)
    ensures AgreeUnder(g, s, m, rule) <==> !NothingLeft(g, s, m) || !SomeBlankAd(m, FindAllString(g, s), rule)
  {
    if NothingLeft(g, s, m) && SomeBlankAd(m, FindAllString(g, s), rule) {
      var a: AdRequest :| IsBlankAd(m, a, FindAllString(g, s), rule);
      BlankAdDiffers(g, s, m, a, rule);
    } else {
      forall a: AdRequest | a.Valid() && a.rule == rule ensures AlwaysAgree(g, s, m, a) {
        assert !IsBlankAd(m, a, FindAllString(g, s), rule) || !NothingLeft(g, s, m);
        AgreeExactly(g, s, m, a);
      }
    }
  }

  // ---------- Which rules and sizes have such an ad ----------

  /** The rules under which an image may fit a size with two sides that is not its own. */
  const FUZZY := {-2, -1, 2, 3}

  predicate TwoSided(key: string) {
    SizeOf(key).Some? && SizeOf(key).value.0 > 0 && SizeOf(key).value.1 > 0
  }

  predicate SentinelSize(key: string) {
    TwoSided(key) && AtSentinel(SizeOf(key).value.0, SizeOf(key).value.1)
  }

  /** Some macro left to the creatives has such a size. */
  ghost predicate SomeSentinel(m: map<string, string>, keys: seq<string>) {
    exists k :: 0 <= k < |keys| && keys[k] !in m && SentinelSize(keys[k])
  }

  /** A render image of ratio 1. */
  const SQUARE: string := Decimal(0)

  /** An ad with one image, wider than any size wanted, and three render images without urls. */
  function WideAd(width: nat, rule: int): AdRequest {
    AdRequest(Material(map["" := [Wide(width)]], map[SQUARE := "", BELOW := "", ABOVE := ""], map[]), "", rule, "")
  }

  lemma {:induction false} WideIsValid(width: nat, rule: int)
    ensures WideAd(width, rule).Valid()
  {
    var url := "https://wide";
    assert url[0..8] == "https://";
  }

  /** The image fits no size with two sides. */
  lemma {:induction false} WideFitsNone(img: Img, w: nat, h: nat, rule: int)
    requires w > 0 && h > 0 && img.height == 1 && img.width >= 4 * w + 10
    ensures !img.Fits(w, h, rule)
  {
    WideRatio(w, h, img.width);
    WideTruncates(w, img.width);
  }

  lemma {:induction false} WideRatio(w: nat, h: nat, width: nat)
    requires w > 0 && h > 0 && width >= 4 * w + 10
    ensures Ratio(w, h).Fin? && Ratio(w, h).r <= w as real && Ratio(width, 1) == Fin(width as real)
  {
    QuotientBelow(w, h, w as real);
    LessThanTimes(w as real, h as real);
  }

  lemma {:induction false} LessThanTimes(x: real, y: real)
    requires x >= 0.0 && y >= 1.0
    ensures x <= x * y
  {
  }

  lemma {:induction false} WideTruncates(w: nat, width: nat)
    requires width >= 4 * w + 10
    ensures Truncate(width as real * (1.0 - 0.2)) > w
  {
    assert width as real * (1.0 - 0.2) >= (w + 1) as real;
  }

  /** A nearest render image is given once one is nearer than the image. */
  lemma {:induction false} SomeRenderGiven(a: AdRequest, key: string, best: Option<Img>, near: string)
    requires SizeOf(key).Some? && NoUrls(a)
    requires var (w, h) := SizeOf(key).value;
             var q := a.Wanted(w, h);
             && BestImage(a.m, q, best) && near in a.m.renders
             && Nearer(near, q.Ratio(), OwnDelta(best, q.Ratio()))
    ensures MayBlank(a, key)
  {
    var (w, h) := SizeOf(key).value;
    var q := a.Wanted(w, h);
    var o := NearestAmong(a.m, q.Ratio(), OwnDelta(best, q.Ratio()), a.m.renders.Keys);
    RenderIsGiven(a, key, best, o.value);
  }

  lemma {:induction false} SquareIs()
    ensures RenderSize(SQUARE) == (0, 0) && LaplaceSmooth(0, 0) == Fin(1.0)
  {
    RenderSizeReads(0, 0);
  }

  /** Where a side is missing the image is taken, and the square is nearer than that. */
  lemma {:induction false} SquareIsNearer(w: nat, h: nat, img: Img)
    requires (w == 0 || h == 0) && img.height == 1 && img.width >= 4 * w + 10
    ensures var ratio := LaplaceSmooth(w, h); Nearer(SQUARE, ratio, OwnDelta(Some(img), ratio))
  {
    SquareIs();
    OneSidedRatio(w, h);
    WideIsFar(RatioOf(w, h), w as real, img.width as real);
    assert LaplaceSmooth(img.width, 1) == Fin((img.width + 1) as real / 2.0);
  }

  lemma {:induction false} OneSidedRatio(w: nat, h: nat)
    requires w == 0 || h == 0
    ensures 0.0 < RatioOf(w, h) <= w as real + 1.0
    ensures h == 0 ==> RatioOf(w, h) == w as real + 1.0
  {
    QuotientBelow(w + 1, h + 1, w as real + 1.0);
    QuotientBelow(w + 1, h + 1, 0.0);
    LessThanTimes(w as real + 1.0, (h + 1) as real);
  }

  lemma {:induction false} WideIsFar(r: real, w: real, width: real)
    requires 0.0 < r <= w + 1.0 && width >= 4.0 * w + 10.0 && w >= 0.0
    ensures Less(AbsDiff(Fin(1.0), Fin(r)), AbsDiff(Fin(r), Fin((width + 1.0) / 2.0)))
  {
  }

  function Wide(width: nat): Img { Img(width, 1, "https://wide", "", "") }

  /** What of that ad counts. */
  ghost predicate OnlyWide(a: AdRequest, width: nat) { a.m.Of(a.lang) == [Wide(width)] && a.m.Of("ALL") == [] }

  ghost predicate NoUrls(a: AdRequest) { forall k :: k in a.m.renders ==> a.m.renders[k] == "" }

  ghost predicate IsWide(a: AdRequest, width: nat) {
    OnlyWide(a, width) && NoUrls(a) && SQUARE in a.m.renders && BELOW in a.m.renders && ABOVE in a.m.renders
  }

  lemma {:induction false} WideAdHasOne(width: nat, rule: int)
    ensures OnlyWide(WideAd(width, rule), width)
  {
    var a := WideAd(width, rule);
    assert "" in a.m.creatives && "ALL" !in a.m.creatives by { assert "" != "ALL"; }
  }

  lemma {:induction false} WideAdIsWide(width: nat, rule: int)
    ensures IsWide(WideAd(width, rule), width)
  {
    WideAdHasOne(width, rule);
  }

  lemma {:induction false} WideIsNone(a: AdRequest, width: nat, w: nat, h: nat)
    requires OnlyWide(a, width) && w > 0 && h > 0 && width >= 4 * w + 10
    ensures BestImage(a.m, a.Wanted(w, h), None)
  {
    WideFitsNone(Wide(width), w, h, a.rule);
    assert Best([Wide(width)], a.Wanted(w, h), None) && Best([], a.Wanted(w, h), None);
  }

  lemma {:induction false} WideIsBest(a: AdRequest, width: nat, w: nat, h: nat)
    requires OnlyWide(a, width) && (w == 0 || h == 0)
    ensures BestImage(a.m, a.Wanted(w, h), Some(Wide(width)))
  {
    assert Wide(width) in [Wide(width)] && Wide(width).Fits(w, h, a.rule) && Wide(width).Area() == width;
    assert Best([Wide(width)], a.Wanted(w, h), Some(Wide(width)));
  }

  lemma {:induction false} WideBlanksTwo(a: AdRequest, width: nat, key: string)
    requires IsWide(a, width) && TwoSided(key) && !SentinelSize(key) && width >= 4 * SizeOf(key).value.0 + 10
    ensures MayBlank(a, key)
  {
    var (w, h) := SizeOf(key).value;
    var ratio := LaplaceSmooth(w, h);
    WideIsNone(a, width, w, h);
    OffIsNearer(w, h);
    assert OwnDelta(None, ratio) == AbsDiff(ratio, SENTINEL);
    SomeRenderGiven(a, key, None, if Nearer(BELOW, ratio, AbsDiff(ratio, SENTINEL)) then BELOW else ABOVE);
  }

  lemma {:induction false} WideBlanks(a: AdRequest, width: nat, key: string)
    requires IsWide(a, width) && SizeOf(key).Some? && !SentinelSize(key) && width >= 4 * SizeOf(key).value.0 + 10
    ensures MayBlank(a, key)
  {
    if TwoSided(key) {
      WideBlanksTwo(a, width, key);
    } else {
      var (w, h) := SizeOf(key).value;
      WideIsBest(a, width, w, h);
      SquareIsNearer(w, h, Wide(width));
      SomeRenderGiven(a, key, Some(Wide(width)), SQUARE);
    }
  }

  lemma {:induction false} Widest(keys: seq<string>) returns (width: nat)
    ensures forall key :: key in keys && SizeOf(key).Some? ==> width >= 4 * SizeOf(key).value.0 + 10
  {
    width := 10;
    if keys != [] {
      var n := |keys| - 1;
      width := Widest(keys[..n]);
      if SizeOf(keys[n]).Some? && width < 4 * SizeOf(keys[n]).value.0 + 10 {
        width := 4 * SizeOf(keys[n]).value.0 + 10;
      }
      assert keys == keys[..n] + [keys[n]];
    }
  }

  lemma {:induction false} WideAdIsBlank(m: map<string, string>, keys: seq<string>, rule: int)
    requires AllSized(m, keys) && !SomeSentinel(m, keys)
    ensures SomeBlankAd(m, keys, rule)
  {
    var width := Widest(keys);
    var a := WideAd(width, rule);
    WideAdIsWide(width, rule);
    WideIsValid(width, rule);
    forall key | key in keys && key !in m ensures MayBlank(a, key) {
      var k :| 0 <= k < |keys| && keys[k] == key;
      WideBlanks(a, width, key);
    }
    assert IsBlankAd(m, a, keys, rule);
  }

  /**
   Next to the sentinel only an image of another ratio leaves room for a render image, and without a
   fuzzy rule none fits.
   */
  lemma {:induction false} SentinelIsNotBlank(a: AdRequest, key: string)
    requires a.Valid() && SentinelSize(key) && a.rule !in FUZZY && key != ""
    ensures !MayBlank(a, key)
  {
    if MayBlank(a, key) {
      var best, k := BlankIsRender(a, key);
      var (w, h) := SizeOf(key).value;
      NothingIsNearer(a, w, h, best, k);
      assert false;
    }
  }

  lemma {:induction false} NothingIsNearer(a: AdRequest, w: nat, h: nat, best: Option<Img>, k: string)
    requires w > 0 && h > 0 && AtSentinel(w, h) && a.rule !in FUZZY && BestImage(a.m, a.Wanted(w, h), best)
    ensures var ratio := LaplaceSmooth(w, h); !Nearer(k, ratio, OwnDelta(best, ratio))
  {
    AtIsNotNearer(w, h, k);
    match best
    case Some(img) => assert img.Fits(w, h, a.rule) && img.width == w && img.height == h;
    case None =>
  }

  /**
   Away from the ratio 65535, such an ad exists for all sizes under every rule; and under a rule that is not
   fuzzy only then.
   */
  lemma {:induction false} BlankAdExactly(m: map<string, string>, keys: seq<string>, rule: int)
    requires AllSized(m, keys) && AllBracketed(keys)
    ensures !SomeSentinel(m, keys) ==> SomeBlankAd(m, keys, rule)
    ensures rule !in FUZZY ==> (SomeBlankAd(m, keys, rule) <==> !SomeSentinel(m, keys))
  {
    if SomeSentinel(m, keys) {
      if rule !in FUZZY && SomeBlankAd(m, keys, rule) {
        var k :| 0 <= k < |keys| && keys[k] !in m && SentinelSize(keys[k]);
        var a: AdRequest :| IsBlankAd(m, a, keys, rule);
        assert Bracketed(keys[k]) && MayBlank(a, keys[k]);
        SentinelIsNotBlank(a, keys[k]);
        assert false;
      }
    } else {
      WideAdIsBlank(m, keys, rule);
    }
  }

  /** So for rule 1, and for numbers that are no rule, the condition is one on the template and the map alone. */
  lemma {:induction false} AgreeUnderRule(g: Grammar, s: string, m: map<string, string>, rule: int)
    requires MapOk(g, m)
    ensures !NothingLeft(g, s, m) ==> AgreeUnder(g, s, m, rule)
    ensures AgreeUnder(g, s, m, rule) ==> !NothingLeft(g, s, m) || SomeSentinel(m, FindAllString(g, s))
    ensures rule !in FUZZY ==>
            (AgreeUnder(g, s, m, rule) <==> !NothingLeft(g, s, m) || SomeSentinel(m, FindAllString(g, s)))
  {
    AgreeUnderExactly(g, s, m, rule);
    if NothingLeft(g, s, m) {
      MacrosAreBracketed(g, s);
      VanishingAreSized(m, FindAllString(g, s));
      BlankAdExactly(m, FindAllString(g, s), rule);
    }
  }

  // ---------- One asking under one rule ----------

  ghost predicate OneAskingUnder(g: Grammar, s: string, m: map<string, string>, rule: int) {
    forall a: AdRequest :: a.Valid() && a.rule == rule ==> AlwaysOneAsking(g, s, m, a)
  }

  /** A macro left to the creatives has a size with two sides. */
  ghost predicate SomeTwoSided(m: map<string, string>, keys: seq<string>) {
    exists k :: 0 <= k < |keys| && keys[k] !in m && TwoSided(keys[k])
  }

  /** What an ad may give a creative for such a size it always does. */
  lemma {:induction false} GivenForSure(a: AdRequest, key: string)
    requires TwoSided(key) && MayBlank(a, key) && key != ""
    ensures !Gives(a, key, None)
  {
    var o :| Gives(a, key, o) && TextFor(a.country, key, o) == "";
    var (w, h) := SizeOf(key).value;
    var q := a.Wanted(w, h);
    FlipSizes(w, h, a.rule);
    SelectedMeansCanChoose(a.m, q, o);
    ChosenForSure(a.m, q);
    if Gives(a, key, None) {
      SelectedMeansCanChoose(a.m, q, None);
      assert false;
    }
  }

  /** A render image of the sentinel's ratio, which is never nearer than the sentinel. */
  const FAR: string := Decimal(655340000)

  /** An ad with an image of area -1, and that render image without a url. */
  function FlipAd(rule: int): AdRequest {
    AdRequest(Material(map["" := [Img(1, -1, "https://flip", "", "")]], map[FAR := ""], map[]), "", rule, "")
  }

  lemma {:induction false} FlipAdIsValid(rule: int)
    ensures FlipAd(rule).Valid()
  {
    var url := "https://flip";
    assert url[0..8] == "https://";
  }

  lemma {:induction false} FlipIsBestOrNot(rule: int, w: nat, h: nat)
    requires w == 0 || h == 0
    ensures var a, img := FlipAd(rule), Img(1, -1, "https://flip", "", "");
            BestImage(a.m, a.Wanted(w, h), None) && BestImage(a.m, a.Wanted(w, h), Some(img))
  {
    var a, img := FlipAd(rule), Img(1, -1, "https://flip", "", "");
    var q := a.Wanted(w, h);
    assert "" in a.m.creatives && "ALL" !in a.m.creatives by { assert "" != "ALL"; }
    assert a.m.Of("") == [img] && a.m.Of("ALL") == [];
    assert img in [img] && img.Fits(w, h, rule) && img.Area() == NOTHING;
    assert Best(a.m.Of(""), q, None) && Best(a.m.Of("ALL"), q, None) && Best(a.m.Of(""), q, Some(img));
  }

  /** Where a side is missing it may leave nothing, by a flip, and may give nothing. */
  lemma {:induction false} FlipAdGives(rule: int, key: string)
    requires SizeOf(key).Some? && !TwoSided(key)
    ensures MayBlank(FlipAd(rule), key) && Gives(FlipAd(rule), key, None)
  {
    var a, img := FlipAd(rule), Img(1, -1, "https://flip", "", "");
    var (w, h) := SizeOf(key).value;
    var q := a.Wanted(w, h);
    SentinelKey();
    FlipIsBestOrNot(rule, w, h);
    assert q.Ratio() == Fin(RatioOf(w, h));
    assert NoneNearer(a.m, q.Ratio(), OwnDelta(None, q.Ratio()));
    assert Choice(a.m, q, None, None);
    assert OwnDelta(Some(img), q.Ratio()) == Inf(false);
    SomeRenderGiven(a, key, Some(img), FAR);
  }

  /**
   Under any rule, for all indexed ads, the outcome is always that of one asking if and only if something is left
   of the template, or nothing of it to the creatives, or some size left to them has two sides. Otherwise
   an image of area -1 can decide which creative there is, or whether there is one.
   */
  lemma {:induction false} OneAskingUnderExactly(g: Grammar, s: string, m: map<string, string>, rule: int)
    requires MapOk(g, m)
    ensures OneAskingUnder(g, s, m, rule) <==> (NothingLeft(g, s, m) ==> SomeTwoSided(m, FindAllString(g, s)))
  {
    if NothingLeft(g, s, m) && !SomeTwoSided(m, FindAllString(g, s)) {
      FlipAdMixes(g, s, m, rule);
    } else {
      forall a: AdRequest | a.Valid() && a.rule == rule ensures AlwaysOneAsking(g, s, m, a) {
        OneAskingOf(g, s, m, a);
      }
    }
  }

  lemma {:induction false} OneAskingOf(g: Grammar, s: string, m: map<string, string>, a: AdRequest)
    requires MapOk(g, m) && (NothingLeft(g, s, m) ==> SomeTwoSided(m, FindAllString(g, s)))
    ensures AlwaysOneAsking(g, s, m, a)
  {
    var keys := FindAllString(g, s);
    if NothingLeft(g, s, m) && AllBlank(m, a, keys) {
      var k :| 0 <= k < |keys| && keys[k] !in m && TwoSided(keys[k]);
      MacrosAreBracketed(g, s);
      assert Bracketed(keys[k]) && MayBlank(a, keys[k]);
      GivenForSure(a, keys[k]);
    }
    OneAskingExactly(g, s, m, a);
  }

  lemma {:induction false} FlipAdMixes(g: Grammar, s: string, m: map<string, string>, rule: int)
    requires MapOk(g, m) && NothingLeft(g, s, m) && !SomeTwoSided(m, FindAllString(g, s))
    ensures !OneAskingUnder(g, s, m, rule)
  {
    var a, keys := FlipAd(rule), FindAllString(g, s);
    VanishingAreSized(m, keys);
    forall key | key in keys && key !in m ensures MayBlank(a, key) && Gives(a, key, None) {
      var k :| 0 <= k < |keys| && keys[k] == key;
      FlipAdGives(rule, key);
    }
    OneAskingExactly(g, s, m, a);
    FlipAdIsValid(rule);
    assert a.Valid() && a.rule == rule;
  }
}
