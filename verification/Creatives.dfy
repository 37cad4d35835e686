/**
 Choosing the images and videos of an ad, and the predicates that filter ads by whether they
 have any (src/raw_ad/raw_ad.go, src/raw_ad/pagead.go).
 */
module Creatives {
  import opened Floats
  import opened GoInt
  import opened Images
  import opened Options
  import opened Text

  datatype Video = Video(w: int, h: int, url: string)

  /** What of an ad the choices depend on. */
  datatype Material = Material(creatives: map<string, seq<Img>>, renders: map<string, string>,
                               videos: map<string, seq<Video>>) {
    function Of(lang: string): seq<Img> { if lang in creatives then creatives[lang] else [] }
  }

  /** What a request wants. */
  datatype Want = Want(lang: string, w: int, h: int, rule: int) {
    function Ratio(): Float { LaplaceSmooth(w, h) }
  }

  /**
   The chance in one choice: the flips for each language, and the order in which the render images are ranged
   over.
   */
  datatype Luck = Luck(coin: nat -> Coin, order: seq<string>) {
    ghost predicate For(m: Material) { Distinct(order) && forall k :: k in order <==> k in m.renders }
  }

  ghost predicate Distinct(keys: seq<string>) {
    forall i, j :: 0 <= i < j < |keys| ==> keys[i] != keys[j]
  }

  // ---------- Render images ----------

  /** The size in a key: ten thousand times the width plus the height. */
  function RenderSize(key: string): (int, int) {
    (Div(Atoi(key), 10000), Mod(Atoi(key), 10000))
  }

  /** A key made of a width and a height is read as they are. */
  lemma {:induction false} RenderSizeReads(w: nat, h: nat)
    requires h < 10000 && 10000 * w + h <= MAX_INT
    ensures RenderSize(Decimal(10000 * w + h)) == (w, h)
  {
    AtoiDecimal(10000 * w + h);
    SizeDivides(w, h);
  }

  lemma {:induction false} SizeDivides(w: nat, h: nat)
    requires h < 10000
    ensures Div(10000 * w + h, 10000) == w && Mod(10000 * w + h, 10000) == h
  {
  }

  /** How far a render image is from a ratio. */
  function Delta(key: string, ratio: Float): Float {
    var (w, h) := RenderSize(key);
    AbsDiff(LaplaceSmooth(w, h), ratio)
  }

  predicate Nearer(key: string, ratio: Float, limit: Float) { Less(Delta(key, ratio), limit) }

  function RenderImg(m: Material, key: string): Img {
    var (w, h) := RenderSize(key);
    Img(w, h, if key in m.renders then m.renders[key] else "", "", "ALL")
  }

  /** Stands for the ratio of an ad without a matching image. */
  const SENTINEL := Fin(65535.0)

  // ---------- The filter ----------

  /** An image fits whose area is at least so large. */
  ghost predicate SomeFits(imgs: seq<Img>, q: Want, least: int) {
    exists img :: img in imgs && img.Fits(q.w, q.h, q.rule) && img.Area() >= least
  }

  /** With a natural area it is taken for sure, with an area of -1 or more it may be. */
  ghost predicate HasImage(m: Material, q: Want, least: int) {
    SomeFits(m.Of(q.lang), q, least) || SomeFits(m.Of("ALL"), q, least)
  }

  predicate NearKey(key: string, q: Want) { Nearer(key, q.Ratio(), Fin(0.1)) }

  ghost predicate HasRender(m: Material, q: Want) {
    exists k :: k in m.renders && NearKey(k, q)
  }

  ghost predicate Has(m: Material, q: Want, least: int) {
    m.creatives != map[] && (HasImage(m, q, least) || HasRender(m, q))
  }

  lemma {:induction false} MaxMeansFits(imgs: seq<Img>, q: Want, o: Option<Img>)
    requires IsMax(imgs, q.w, q.h, q.rule, true, o)
    ensures SomeFits(imgs, q, 0) ==> o.Some?
    ensures o.Some? ==> SomeFits(imgs, q, NOTHING)
  {
  }

  /** The image under some luck: the best in the wanted language, or if there is none, in any. */
  function ImageBy(m: Material, q: Want, luck: Luck): Option<Img> {
    var own := MaxOf(m.Of(q.lang), q.w, q.h, q.rule, true, luck.coin(0)).rc;
    if own == None && q.lang != "ALL" then MaxOf(m.Of("ALL"), q.w, q.h, q.rule, true, luck.coin(1)).rc else own
  }

  /** The answer of the filter under some luck. */
  ghost predicate HasBy(m: Material, q: Want, luck: Luck) {
    m.creatives != map[] && (ImageBy(m, q, luck).Some? || HasRender(m, q))
  }

  method HasMatchedCreative(m: Material, q: Want, luck: Luck) returns (has: bool)
    requires luck.For(m)
    ensures has <==> HasBy(m, q, luck)
    ensures Has(m, q, 0) ==> has
    ensures has ==> Has(m, q, NOTHING)
  {
    HasByBounds(m, q, luck);
    if m.creatives == map[] {
      return false;
    }
    var img := GetMaxMatchedImg(m.creatives, q.lang, q.w, q.h, q.rule, true, luck.coin(0));
    if img != None {
      return true;
    }
    if q.lang != "ALL" {
      img := GetMaxMatchedImg(m.creatives, "ALL", q.w, q.h, q.rule, true, luck.coin(1));
      if img != None {
        return true;
      }
    }
    has := NearRender(m, q, luck);
  }

  method NearRender(m: Material, q: Want, luck: Luck) returns (near: bool)
    requires luck.For(m)
    ensures near <==> HasRender(m, q)
  {
    for i := 0 to |luck.order|
      invariant NoneNear(luck.order[..i], q)
    {
      var key := luck.order[i];
      assert luck.order[..i + 1] == luck.order[..i] + [key];
      if NearKey(key, q) {
        assert key in m.renders;
        return true;
      }
    }
    assert luck.order[..|luck.order|] == luck.order;
    return false;
  }

  predicate NoneNear(keys: seq<string>, q: Want) { forall k :: k in keys ==> !NearKey(k, q) }

  // ---------- The selector ----------

  ghost predicate Best(imgs: seq<Img>, q: Want, o: Option<Img>) { IsMax(imgs, q.w, q.h, q.rule, true, o) }

  /** A largest image that fits in the wanted language, or if none was taken there, in any. */
  ghost predicate BestImage(m: Material, q: Want, o: Option<Img>) {
    || (o.Some? && Best(m.Of(q.lang), q, o))
    || (Best(m.Of(q.lang), q, None) && Best(m.Of("ALL"), q, o))
  }

  function OwnDelta(best: Option<Img>, ratio: Float): Float {
    AbsDiff(ratio, match best case Some(img) => LaplaceSmooth(img.width, img.height) case None => SENTINEL)
  }

  /** A render image strictly nearer to the ratio than the image, and no render image is nearer still. */
  ghost predicate Nearest(m: Material, ratio: Float, limit: Float, k: string) {
    && k in m.renders && Nearer(k, ratio, limit) && NoneNearer(m, ratio, Delta(k, ratio))
  }

  ghost predicate NoneNearer(m: Material, ratio: Float, limit: Float) {
    forall k :: k in m.renders ==> !Nearer(k, ratio, limit)
  }

  /** What getMatchedCreative may return, whatever the coins and the order. */
  ghost predicate Choice(m: Material, q: Want, best: Option<Img>, r: Option<Img>) {
    var limit := OwnDelta(best, q.Ratio());
    || (NoneNearer(m, q.Ratio(), limit) && r == best)
    || (exists k :: Nearest(m, q.Ratio(), limit, k) && r == Some(RenderImg(m, k)))
  }

  lemma {:induction false} ImageByIsBest(m: Material, q: Want, luck: Luck)
    ensures BestImage(m, q, ImageBy(m, q, luck))
  {
    MaxOfIs(m.Of(q.lang), q.w, q.h, q.rule, true, luck.coin(0));
    MaxOfIs(m.Of("ALL"), q.w, q.h, q.rule, true, luck.coin(1));
  }

  lemma {:induction false} HasByBounds(m: Material, q: Want, luck: Luck)
    ensures Has(m, q, 0) ==> HasBy(m, q, luck)
    ensures HasBy(m, q, luck) ==> Has(m, q, NOTHING)
  {
    ImageByIsBest(m, q, luck);
    BestMeansFits(m, q, ImageBy(m, q, luck));
  }

  method BestMatchedImg(m: Material, q: Want, luck: Luck) returns (best: Option<Img>)
    ensures best == ImageBy(m, q, luck)
  {
    best := GetMaxMatchedImg(m.creatives, q.lang, q.w, q.h, q.rule, true, luck.coin(0));
    if best == None && q.lang != "ALL" {
      best := GetMaxMatchedImg(m.creatives, "ALL", q.w, q.h, q.rule, true, luck.coin(1));
    }
  }

  /** The render image taken by ranging over the keys: each that is nearer than the one before. */
  function NearestIn(ratio: Float, limit: Float, keys: seq<string>): (r: Option<string>)
    ensures r.Some? ==> r.value in keys
  {
    if keys == [] then None else
    var n := |keys| - 1;
    var r := NearestIn(ratio, limit, keys[..n]);
    if Nearer(keys[n], ratio, Bound(r, ratio, limit)) then Some(keys[n]) else r
  }

  function Bound(r: Option<string>, ratio: Float, limit: Float): Float {
    if r.Some? then Delta(r.value, ratio) else limit
  }

  /** Of the keys looked at so far. */
  ghost predicate NearestOf(m: Material, ratio: Float, limit: Float, keys: seq<string>, r: Option<string>,
                            delta: Float) {
    && (match r
        case Some(k) => k in m.renders && delta == Delta(k, ratio) && Less(delta, limit)
        case None => delta == limit)
    && forall k :: k in keys ==> !Nearer(k, ratio, delta)
  }

  lemma {:induction false} NearestMore(m: Material, ratio: Float, limit: Float, keys: seq<string>, r: Option<string>,
                                       delta: Float, key: string)
    requires NearestOf(m, ratio, limit, keys, r, delta) && key in m.renders
    ensures if Nearer(key, ratio, delta) then NearestOf(m, ratio, limit, keys + [key], Some(key), Delta(key, ratio))
            else NearestOf(m, ratio, limit, keys + [key], r, delta)
  {
    assert forall k :: k in keys + [key] ==> k == key || !Nearer(k, ratio, delta);
  }

  lemma {:induction false} NearestInIs(m: Material, ratio: Float, limit: Float, keys: seq<string>)
    requires forall k :: k in keys ==> k in m.renders
    ensures var r := NearestIn(ratio, limit, keys); NearestOf(m, ratio, limit, keys, r, Bound(r, ratio, limit))
  {
    if keys != [] {
      var n := |keys| - 1;
      assert keys[n] in keys && keys[..n] + [keys[n]] == keys;
      NearestInIs(m, ratio, limit, keys[..n]);
      NearestInNext(m, ratio, limit, keys[..n], keys[n]);
    }
  }

  lemma {:induction false} NearestInNext(m: Material, ratio: Float, limit: Float, keys: seq<string>, key: string)
    requires key in m.renders
    requires var r := NearestIn(ratio, limit, keys); NearestOf(m, ratio, limit, keys, r, Bound(r, ratio, limit))
    ensures var r := NearestIn(ratio, limit, keys + [key]);
            NearestOf(m, ratio, limit, keys + [key], r, Bound(r, ratio, limit))
  {
    var r := NearestIn(ratio, limit, keys);
    NearestMore(m, ratio, limit, keys, r, Bound(r, ratio, limit), key);
    assert (keys + [key])[..|keys|] == keys;
  }

  /** The render image to take instead, if one is nearer than `limit`. */
  method NearestRender(m: Material, ratio: Float, limit: Float, luck: Luck) returns (r: Option<string>)
    requires luck.For(m)
    ensures r == NearestIn(ratio, limit, luck.order)
  {
    var delta := limit;
    r := None;
    for i := 0 to |luck.order|
      invariant r == NearestIn(ratio, limit, luck.order[..i]) && delta == Bound(r, ratio, limit)
    {
      assert luck.order[..i + 1][..i] == luck.order[..i];
      var newDelta := Delta(luck.order[i], ratio);
      if Less(newDelta, delta) {
        delta := newDelta;
        r := Some(luck.order[i]);
      }
    }
    assert luck.order[..|luck.order|] == luck.order;
  }

  /** In any order that is a nearest one below the limit, or none if none is below it. */
  lemma {:induction false} NearestTaken(m: Material, ratio: Float, limit: Float, luck: Luck)
    requires luck.For(m)
    ensures match NearestIn(ratio, limit, luck.order)
      case Some(k) => Nearest(m, ratio, limit, k)
      case None => NoneNearer(m, ratio, limit)
  {
    NearestInIs(m, ratio, limit, luck.order);
  }

  /** What the selector returns under some luck. */
  function Chosen(m: Material, q: Want, luck: Luck): Option<Img> {
    var best := ImageBy(m, q, luck);
    match NearestIn(q.Ratio(), OwnDelta(best, q.Ratio()), luck.order)
    case Some(k) => Some(RenderImg(m, k))
    case None => best
  }

  /** Of some best image. */
  ghost predicate Selected(m: Material, q: Want, r: Option<Img>) {
    exists best :: BestImage(m, q, best) && Choice(m, q, best, r)
  }

  method GetMatchedCreative(m: Material, q: Want, luck: Luck) returns (r: Option<Img>)
    requires luck.For(m)
    ensures r == Chosen(m, q, luck)
  {
    var creative := BestMatchedImg(m, q, luck);
    var render := NearestRender(m, q.Ratio(), OwnDelta(creative, q.Ratio()), luck);
    match render
    case Some(k) =>
      r := Some(RenderImg(m, k));
    case None =>
      r := creative;
  }

  lemma {:induction false} ChosenBounds(m: Material, q: Want, luck: Luck)
    requires luck.For(m)
    ensures CanChoose(m, q, 0) ==> Chosen(m, q, luck).Some?
    ensures Chosen(m, q, luck).Some? ==> CanChoose(m, q, NOTHING)
  {
    ChosenIsSelected(m, q, luck);
    SelectedMeansCanChoose(m, q, Chosen(m, q, luck));
  }

  lemma {:induction false} ChosenIsSelected(m: Material, q: Want, luck: Luck)
    requires luck.For(m)
    ensures Selected(m, q, Chosen(m, q, luck))
  {
    var best := ImageBy(m, q, luck);
    var limit := OwnDelta(best, q.Ratio());
    ImageByIsBest(m, q, luck);
    NearestTaken(m, q.Ratio(), limit, luck);
    assert Choice(m, q, best, Chosen(m, q, luck));
  }

  // ---------- What luck can do ----------

  /** Every best image is the one under some flips. */
  lemma {:induction false} FlipsFor(m: Material, q: Want, o: Option<Img>) returns (coin: nat -> Coin)
    requires BestImage(m, q, o)
    ensures forall order :: ImageBy(m, q, Luck(coin, order)) == o
  {
    var own, all := m.Of(q.lang), m.Of("ALL");
    if o.Some? && Best(own, q, o) {
      FlipsReach(own, q.w, q.h, q.rule, o);
      var c: Coin :| MaxOf(own, q.w, q.h, q.rule, true, c).rc == o;
      coin := (n: nat) => c;
    } else {
      FlipsReach(own, q.w, q.h, q.rule, None);
      FlipsReach(all, q.w, q.h, q.rule, o);
      var c: Coin :| MaxOf(own, q.w, q.h, q.rule, true, c).rc == None;
      var d: Coin :| MaxOf(all, q.w, q.h, q.rule, true, d).rc == o;
      coin := (n: nat) => if n == 0 then c else d;
    }
  }

  lemma {:induction false} SomeOrder(keys: set<string>) returns (order: seq<string>)
    ensures Distinct(order) && forall k :: k in order <==> k in keys
  {
    order := [];
    if keys != {} {
      var k :| k in keys;
      order := SomeOrder(keys - {k});
      order := [k] + order;
    }
  }

  /** A nearest render image is taken if it comes first. */
  lemma {:induction false} FirstIsNearest(ratio: Float, limit: Float, keys: seq<string>, k: string)
    requires keys != [] && keys[0] == k && Nearer(k, ratio, limit)
    requires forall j :: j in keys ==> !Nearer(j, ratio, Delta(k, ratio))
    ensures NearestIn(ratio, limit, keys) == Some(k)
  {
    var n := |keys| - 1;
    assert keys[n] in keys;
    if n > 0 {
      FirstIsNearest(ratio, limit, keys[..n], k);
    }
  }

  lemma {:induction false} OrderFor(m: Material, ratio: Float, limit: Float, o: Option<string>)
      returns (order: seq<string>)
    requires match o case Some(k) => Nearest(m, ratio, limit, k) case None => NoneNearer(m, ratio, limit)
    ensures Distinct(order) && (forall k :: k in order <==> k in m.renders) && NearestIn(ratio, limit, order) == o
  {
    match o
    case Some(k) =>
      var rest := SomeOrder(m.renders.Keys - {k});
      order := [k] + rest;
      FirstIsNearest(ratio, limit, order, k);
    case None =>
      order := SomeOrder(m.renders.Keys);
      NearestInIs(m, ratio, limit, order);
  }

  lemma {:induction false} LuckFor(m: Material, q: Want, best: Option<Img>, r: Option<Img>) returns (luck: Luck)
    requires BestImage(m, q, best) && Choice(m, q, best, r)
    ensures luck.For(m) && Chosen(m, q, luck) == r
  {
    var coin := FlipsFor(m, q, best);
    var limit := OwnDelta(best, q.Ratio());
    var o: Option<string> := None;
    if !(NoneNearer(m, q.Ratio(), limit) && r == best) {
      var k :| Nearest(m, q.Ratio(), limit, k) && r == Some(RenderImg(m, k));
      o := Some(k);
    }
    var order := OrderFor(m, q.Ratio(), limit, o);
    luck := Luck(coin, order);
  }

  /** The creatives chosen under some luck are exactly those Selected allows. */
  lemma {:induction false} LuckReaches(m: Material, q: Want, r: Option<Img>)
    ensures (exists luck: Luck :: luck.For(m) && Chosen(m, q, luck) == r) <==> Selected(m, q, r)
  {
    if Selected(m, q, r) {
      var best :| BestImage(m, q, best) && Choice(m, q, best, r);
      var luck := LuckFor(m, q, best, r);
    }
    forall luck: Luck | luck.For(m) && Chosen(m, q, luck) == r ensures Selected(m, q, r) {
      ChosenIsSelected(m, q, luck);
    }
  }

  // ---------- Whether there is anything to choose ----------

  ghost predicate NearerThanNone(m: Material, q: Want) {
    exists k :: k in m.renders && Nearer(k, q.Ratio(), AbsDiff(q.Ratio(), SENTINEL))
  }

  ghost predicate CanChoose(m: Material, q: Want, least: int) {
    HasImage(m, q, least) || NearerThanNone(m, q)
  }

  lemma {:induction false} BestMeansFits(m: Material, q: Want, best: Option<Img>)
    requires BestImage(m, q, best)
    ensures HasImage(m, q, 0) ==> best.Some?
    ensures best.Some? ==> HasImage(m, q, NOTHING)
  {
    var own, all := m.Of(q.lang), m.Of("ALL");
    if best.Some? && Best(own, q, best) {
      MaxMeansFits(own, q, best);
    } else {
      MaxMeansFits(own, q, None);
      MaxMeansFits(all, q, best);
    }
  }

  /** There is a choice if one can be made for sure, and none unless one can be made at all. */
  lemma {:induction false} SelectedMeansCanChoose(m: Material, q: Want, r: Option<Img>)
    requires Selected(m, q, r)
    ensures CanChoose(m, q, 0) ==> r.Some?
    ensures r.Some? ==> CanChoose(m, q, NOTHING)
  {
    var best :| BestImage(m, q, best) && Choice(m, q, best, r);
    BestMeansFits(m, q, best);
  }

  /** Some luck chooses nothing, and some does. */
  ghost predicate Chancy(m: Material, q: Want) {
    && (exists luck: Luck :: luck.For(m) && Chosen(m, q, luck) == None)
    && (exists luck: Luck :: luck.For(m) && Chosen(m, q, luck).Some?)
  }

  lemma {:induction false} NearestAmong(m: Material, ratio: Float, limit: Float, keys: set<string>)
      returns (o: Option<string>)
    requires keys <= m.renders.Keys
    ensures match o
      case Some(k) => k in keys && Nearer(k, ratio, limit) && forall j :: j in keys ==>
        !Nearer(j, ratio, Delta(k, ratio))
      case None => forall j :: j in keys ==> !Nearer(j, ratio, limit)
  {
    o := None;
    if keys != {} {
      var k :| k in keys;
      o := NearestAmong(m, ratio, limit, keys - {k});
      var bound := if o.Some? then Delta(o.value, ratio) else limit;
      if Nearer(k, ratio, bound) {
        o := Some(k);
        forall j | j in keys ensures !Nearer(j, ratio, Delta(k, ratio)) {
          assert j == k || !Nearer(j, ratio, bound);
        }
      }
    }
  }

  /** Whatever the best image is, something comes of it. */
  lemma {:induction false} SomeChoice(m: Material, q: Want, best: Option<Img>) returns (r: Option<Img>)
    requires BestImage(m, q, best)
    ensures Selected(m, q, r) && (best.Some? ==> r.Some?)
  {
    var limit := OwnDelta(best, q.Ratio());
    var o := NearestAmong(m, q.Ratio(), limit, m.renders.Keys);
    match o
    case Some(k) =>
      assert Nearest(m, q.Ratio(), limit, k);
      r := Some(RenderImg(m, k));
    case None =>
      r := best;
    assert Choice(m, q, best, r);
  }

  lemma {:induction false} NoneIsBest(m: Material, q: Want)
    requires !HasImage(m, q, 0)
    ensures Best(m.Of(q.lang), q, None) && Best(m.Of("ALL"), q, None)
  {
  }

  lemma {:induction false} NoneSelected(m: Material, q: Want)
    requires !CanChoose(m, q, 0)
    ensures Selected(m, q, None)
  {
    NoneIsBest(m, q);
    assert BestImage(m, q, None);
    assert OwnDelta(None, q.Ratio()) == AbsDiff(q.Ratio(), SENTINEL);
    assert Choice(m, q, None, None);
  }

  lemma {:induction false} FlipIsBest(m: Material, q: Want) returns (best: Option<Img>)
    requires HasImage(m, q, NOTHING) && !HasImage(m, q, 0)
    ensures best.Some? && BestImage(m, q, best)
  {
    NoneIsBest(m, q);
    var own, all := m.Of(q.lang), m.Of("ALL");
    var imgs := if SomeFits(own, q, NOTHING) then own else all;
    var img: Img :| img in imgs && img.Fits(q.w, q.h, q.rule) && img.Area() >= NOTHING;
    assert img.Area() == NOTHING;
    best := Some(img);
    assert Best(imgs, q, best);
  }

  lemma {:induction false} SomeLuck(m: Material) returns (luck: Luck)
    ensures luck.For(m)
  {
    var order := SomeOrder(m.renders.Keys);
    luck := Luck((n: nat) => TAILS, order);
  }

  /** What cannot be chosen for sure is not chosen under some luck. */
  lemma {:induction false} NoLuck(m: Material, q: Want) returns (luck: Luck)
    requires !CanChoose(m, q, 0)
    ensures luck.For(m) && Chosen(m, q, luck) == None
  {
    NoneSelected(m, q);
    LuckReaches(m, q, None);
    luck :| luck.For(m) && Chosen(m, q, luck) == None;
  }

  /** Whether the choice is nil depends on luck exactly when an image of area -1 fits and nothing else can be chosen. */
  lemma {:induction false} ChancyExactly(m: Material, q: Want)
    ensures Chancy(m, q) <==> CanChoose(m, q, NOTHING) && !CanChoose(m, q, 0)
  {
    if CanChoose(m, q, NOTHING) && !CanChoose(m, q, 0) {
      var luck := NoLuck(m, q);
      var best := FlipIsBest(m, q);
      var r := SomeChoice(m, q, best);
      LuckReaches(m, q, r);
    }
    forall luck: Luck | luck.For(m)
      ensures CanChoose(m, q, 0) ==> Chosen(m, q, luck).Some?
      ensures Chosen(m, q, luck).Some? ==> CanChoose(m, q, NOTHING)
    {
      ChosenBounds(m, q, luck);
    }
  }

  /** The filter lets an ad through under some luck, or under any, exactly when it may, or must. */
  lemma {:induction false} HasExactly(m: Material, q: Want)
    ensures (exists luck: Luck :: luck.For(m) && HasBy(m, q, luck)) <==> Has(m, q, NOTHING)
    ensures (forall luck: Luck :: luck.For(m) ==> HasBy(m, q, luck)) <==> Has(m, q, 0)
  {
    forall luck: Luck ensures Has(m, q, 0) ==> HasBy(m, q, luck)
      ensures HasBy(m, q, luck) ==> Has(m, q, NOTHING)
    {
      HasByBounds(m, q, luck);
    }
    if Has(m, q, NOTHING) {
      var luck := LuckyHas(m, q);
    }
    if !Has(m, q, 0) {
      var luck := UnluckyHas(m, q);
    }
  }

  lemma {:induction false} LuckyHas(m: Material, q: Want) returns (luck: Luck)
    requires Has(m, q, NOTHING)
    ensures luck.For(m) && HasBy(m, q, luck)
  {
    var order := SomeOrder(m.renders.Keys);
    luck := Luck((n: nat) => TAILS, order);
    if HasImage(m, q, 0) {
      HasByBounds(m, q, luck);
    } else if HasImage(m, q, NOTHING) {
      var best := FlipIsBest(m, q);
      var coin := FlipsFor(m, q, best);
      luck := Luck(coin, order);
    }
  }

  lemma {:induction false} UnluckyHas(m: Material, q: Want) returns (luck: Luck)
    requires !Has(m, q, 0)
    ensures luck.For(m) && !HasBy(m, q, luck)
  {
    var order := SomeOrder(m.renders.Keys);
    luck := Luck((n: nat) => TAILS, order);
    if m.creatives != map[] {
      NoneIsBest(m, q);
      var coin := FlipsFor(m, q, None);
      luck := Luck(coin, order);
    }
  }

  // ---------- The filter against the selector ----------

  /** Whether a ratio is so near the sentinel that a render image may not count as nearer. */
  predicate NearSentinel(q: Want) {
    Less(AbsDiff(q.Ratio(), SENTINEL), Fin(0.1))
  }

  lemma {:induction false} OnlyFlips(imgs: seq<Img>, q: Want)
    requires SomeFits(imgs, q, NOTHING) && !FlipSize(q.w, q.h, q.rule)
    ensures SomeFits(imgs, q, 0)
  {
    var img :| img in imgs && img.Fits(q.w, q.h, q.rule) && img.Area() >= NOTHING;
    if img.Area() == NOTHING { FlippedFits(img, q.w, q.h, q.rule); }
  }

  lemma {:induction false} ChosenForSure(m: Material, q: Want)
    requires CanChoose(m, q, NOTHING) && !FlipSize(q.w, q.h, q.rule)
    ensures CanChoose(m, q, 0)
  {
    if SomeFits(m.Of(q.lang), q, NOTHING) { OnlyFlips(m.Of(q.lang), q); }
    if SomeFits(m.Of("ALL"), q, NOTHING) { OnlyFlips(m.Of("ALL"), q); }
  }

  /** An ad that may pass the filter gets a creative, for all requests but those. */
  lemma {:induction false} FilteredCanChoose(m: Material, q: Want)
    requires Has(m, q, NOTHING) && !NearSentinel(q) && !FlipSize(q.w, q.h, q.rule)
    ensures CanChoose(m, q, 0)
  {
    if HasImage(m, q, NOTHING) {
      ChosenForSure(m, q);
    } else {
      var k :| k in m.renders && NearKey(k, q);
      assert q.Ratio().Fin?;
      assert Nearer(k, q.Ratio(), AbsDiff(q.Ratio(), SENTINEL));
    }
  }

  /** And for each of those there is an ad that passes the filter and gets none. */
  lemma {:induction false} SentinelIsNotFiltered(q: Want) returns (m: Material)
    requires NearSentinel(q)
    ensures Has(m, q, 0) && !CanChoose(m, q, NOTHING)
  {
    var key := Decimal(655340000);
    m := Bare(q.lang + "x", key);
    SentinelIsNear(q, key);
    BareIsNotChosen(q, key);
  }

  lemma {:induction false} BareIsNotChosen(q: Want, key: string)
    requires NearKey(key, q) && !Nearer(key, q.Ratio(), AbsDiff(q.Ratio(), SENTINEL))
    ensures Has(Bare(q.lang + "x", key), q, 0) && !CanChoose(Bare(q.lang + "x", key), q, NOTHING)
  {
    BareHasNoImage(q.lang, key);
    assert key in Bare(q.lang + "x", key).renders;
  }

  /** A render image of the sentinel's own ratio is near, and not nearer than the sentinel. */
  lemma {:induction false} SentinelIsNear(q: Want, key: string)
    requires NearSentinel(q) && key == Decimal(655340000)
    ensures NearKey(key, q) && !Nearer(key, q.Ratio(), AbsDiff(q.Ratio(), SENTINEL))
  {
    SentinelKey();
  }

  /** An ad with no image in any language and one render image. */
  function Bare(lang: string, key: string): Material {
    Material(map[lang := []], map[key := ""], map[])
  }

  lemma {:induction false} BareHasNoImage(lang: string, key: string)
    ensures var m := Bare(lang + "x", key); m.Of(lang) == [] && m.Of("ALL") == [] && m.creatives != map[]
  {
    var other := lang + "x";
    assert other in Bare(other, key).creatives;
    assert other[|lang|] == 'x';
    assert other != "ALL" by { assert "ALL"[2] != 'x'; }
  }

  /** An ad whose only image is of area -1. */
  lemma {:induction false} FlipIsNotFiltered(q: Want) returns (m: Material)
    requires FlipSize(q.w, q.h, q.rule)
    ensures Has(m, q, NOTHING) && !CanChoose(m, q, 0)
  {
    var img := if FLIPPED.Fits(q.w, q.h, q.rule) then FLIPPED else TIPPED;
    m := Material(map[q.lang := [img]], map[], map[]);
    assert q.lang in m.creatives && m.Of(q.lang) == [img];
    assert img in m.Of(q.lang);
    assert forall i :: i in m.Of("ALL") ==> i == img;
  }

  /** The filter lets an ad through under some luck, and the selector finds nothing under some. */
  ghost predicate LetDown(m: Material, q: Want) {
    && (exists luck: Luck :: luck.For(m) && HasBy(m, q, luck))
    && (exists luck: Luck :: luck.For(m) && Chosen(m, q, luck) == None)
  }

  lemma {:induction false} LetDownExactly(m: Material, q: Want)
    ensures LetDown(m, q) <==> Has(m, q, NOTHING) && !CanChoose(m, q, 0)
  {
    HasExactly(m, q);
    if !CanChoose(m, q, 0) {
      var luck := NoLuck(m, q);
    }
    forall luck: Luck | luck.For(m) && Chosen(m, q, luck) == None ensures !CanChoose(m, q, 0) {
      ChosenBounds(m, q, luck);
    }
  }

  /**
   Every ad that passes the filter under some luck gets a creative under any, if and only if the ratio is
   not near the sentinel and no image of area -1 fits the size, as it does where a side is missing.
   */
  lemma {:induction false} FilterAgrees(q: Want)
    ensures (forall m: Material :: !LetDown(m, q)) <==> !NearSentinel(q) && !FlipSize(q.w, q.h, q.rule)
  {
    if NearSentinel(q) {
      var m := SentinelIsNotFiltered(q);
      HasMore(m, q);
      LetDownExactly(m, q);
    } else if FlipSize(q.w, q.h, q.rule) {
      var m := FlipIsNotFiltered(q);
      LetDownExactly(m, q);
    } else {
      forall m: Material ensures !LetDown(m, q) {
        LetDownExactly(m, q);
        if Has(m, q, NOTHING) { FilteredCanChoose(m, q); }
      }
    }
  }

  lemma {:induction false} HasMore(m: Material, q: Want)
    ensures Has(m, q, 0) ==> Has(m, q, NOTHING)
    ensures CanChoose(m, q, 0) ==> CanChoose(m, q, NOTHING)
  {
  }

  lemma {:induction false} SentinelKey()
    ensures RenderSize(Decimal(655340000)) == (65534, 0) && LaplaceSmooth(65534, 0) == SENTINEL
  {
    RenderSizeReads(65534, 0);
  }
}
