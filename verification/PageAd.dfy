/** The page ads: adapters that an ad can fill, and what fills them (src/raw_ad/pagead.go). */
module PageAd {
  import opened Creatives
  import opened Images
  import opened Options
  import opened Text

  // ---------- Videos ----------

  /** Videos in the wanted language, or else in any. */
  function Candidates(m: Material, lang: string): seq<Video> {
    if lang in m.videos && m.videos[lang] != [] then m.videos[lang]
    else if "ALL" in m.videos then m.videos["ALL"]
    else []
  }

  /** A video in the wanted language, or in any if there is none of those. */
  ghost predicate Offered(m: Material, lang: string, v: Video) {
    || (lang in m.videos && v in m.videos[lang])
    || ((lang in m.videos ==> m.videos[lang] == []) && "ALL" in m.videos && v in m.videos["ALL"])
  }

  lemma {:induction false} OfferedAre(m: Material, lang: string)
    ensures forall v :: v in Candidates(m, lang) <==> Offered(m, lang, v)
  {
  }

  /** A video with a url that is upright exactly if what is wanted is. */
  lemma {:induction false} CanPlayIs(m: Material, lang: string, w: int, h: int)
    ensures CanPlay(m, lang, w, h) <==> exists v :: Offered(m, lang, v) && v.url != "" && (v.w < v.h <==> w < h)
  {
    OfferedAre(m, lang);
    if v :| Offered(m, lang, v) && v.url != "" && (v.w < v.h <==> w < h) {
      assert v in Candidates(m, lang) && Plays(v, w, h);
    }
    if CanPlay(m, lang, w, h) {
      var v :| v in Candidates(m, lang) && Plays(v, w, h);
      assert Offered(m, lang, v);
    }
  }

  predicate Plays(v: Video, w: int, h: int) {
    v.url != "" && if w < h then v.w < v.h else v.w >= v.h
  }

  ghost predicate CanPlay(m: Material, lang: string, w: int, h: int) {
    exists v :: v in Candidates(m, lang) && Plays(v, w, h)
  }

  method GetMatchedVideo(m: Material, lang: string, w: int, h: int) returns (r: Option<Video>)
    ensures r.Some? <==> CanPlay(m, lang, w, h)
    ensures IsVideo(m, lang, w, h, r)
    ensures match r
      case Some(v) => Offered(m, lang, v) && v.url != "" && (v.w < v.h <==> w < h)
      case None => forall v :: Offered(m, lang, v) && v.url != "" ==> (v.w < v.h <==> w >= h)
  {
    OfferedAre(m, lang);
    var rule := 1;
    if w < h {
      rule := 2;
    }
    var videos := Candidates(m, lang);
    for i := 0 to |videos|
      invariant forall j :: 0 <= j < i ==> !Plays(videos[j], w, h)
    {
      var video := videos[i];
      assert video in videos;
      if video.url == "" {
        continue;
      }
      if rule == 1 && video.w >= video.h {
        return Some(video);
      } else if rule == 2 && video.w < video.h {
        return Some(video);
      }
    }
    return None;
  }

  /** The first video that plays, if one does. */
  ghost predicate IsVideo(m: Material, lang: string, w: int, h: int, r: Option<Video>) {
    match r
    case Some(v) => exists i :: FirstPlays(Candidates(m, lang), w, h, i) && Candidates(m, lang)[i] == v
    case None => !CanPlay(m, lang, w, h)
  }

  ghost predicate FirstPlays(vs: seq<Video>, w: int, h: int, i: int) {
    0 <= i < |vs| && Plays(vs[i], w, h) && forall j :: 0 <= j < i ==> !Plays(vs[j], w, h)
  }

  // ---------- Adapters ----------

  /** A part of an adapter, as Sscanf reads "%c_%dx%d". */
  datatype Part = Part(cat: char, w: int, h: int) {
    predicate Empty() { w == 0 && h == 0 }
  }

  type Scan = string -> Option<Part>

  /** What an adapter is matched against; `scan` is Sscanf. */
  datatype Setting = Setting(m: Material, lang: string, rule: int, scan: Scan) {
    /** A part that can be filled for sure (`least` 0), or with luck (`least` -1); videos need none. */
    ghost predicate Fills(part: string, least: int) {
      match scan(part)
      case None => false
      case Some(p) =>
        || p.Empty()
        || ((p.cat == 'i' ==> CanChoose(m, Want(lang, p.w, p.h, rule), least))
            && (p.cat == 'v' ==> CanPlay(m, lang, p.w, p.h)))
    }

    ghost predicate Matches(adapter: string, least: int) {
      forall k :: 0 <= k < |Split(adapter, '+')| ==> Fills(Split(adapter, '+')[k], least)
    }

    /** The same under some luck. */
    ghost predicate FillsBy(part: string, luck: Luck) {
      match scan(part)
      case None => false
      case Some(p) =>
        || p.Empty()
        || ((p.cat == 'i' ==> Chosen(m, Want(lang, p.w, p.h, rule), luck).Some?)
            && (p.cat == 'v' ==> CanPlay(m, lang, p.w, p.h)))
    }

    ghost predicate MatchesBy(adapter: string, chance: Chance) {
      forall k :: 0 <= k < |Split(adapter, '+')| ==> FillsBy(Split(adapter, '+')[k], chance(k))
    }
  }

  /** The chance in the choice for each part. */
  type Chance = nat -> Luck

  ghost predicate ChanceFor(chance: Chance, m: Material) {
    forall k :: chance(k).For(m)
  }

  method FillsPart(s: Setting, part: string, luck: Luck) returns (ok: bool)
    requires luck.For(s.m)
    ensures ok <==> s.FillsBy(part, luck)
  {
    match s.scan(part)
    case None =>
      return false;
    case Some(p) =>
      if p.w == 0 && p.h == 0 {
        return true;
      }
      if p.cat == 'i' {
        var img := GetMatchedCreative(s.m, Want(s.lang, p.w, p.h, s.rule), luck);
        if img == None {
          return false;
        }
      } else if p.cat == 'v' {
        var video := GetMatchedVideo(s.m, s.lang, p.w, p.h);
        if video == None {
          return false;
        }
      }
      return true;
  }

  method MatchedAdapter(s: Setting, adapter: string, chance: Chance) returns (ok: bool)
    requires ChanceFor(chance, s.m)
    ensures ok <==> s.MatchesBy(adapter, chance)
  {
    var parts := Split(adapter, '+');
    for k := 0 to |parts|
      invariant forall j :: 0 <= j < k ==> s.FillsBy(parts[j], chance(j))
    {
      var fills := FillsPart(s, parts[k], chance(k));
      if !fills {
        return false;
      }
    }
    return true;
  }

  /** The adapters of a list that match, in order. */
  ghost function Matching(s: Setting, adapters: seq<string>, chance: nat -> Chance): seq<string> {
    if adapters == [] then [] else
    var n := |adapters| - 1;
    Matching(s, adapters[..n], chance) + if s.MatchesBy(adapters[n], chance(n)) then [adapters[n]] else []
  }

  /** `complete` says whether title, description and icon are there. */
  method MatchedAdapters(s: Setting, adapters: seq<string>, complete: bool, chance: nat -> Chance)
      returns (apts: seq<string>)
    requires forall i :: ChanceFor(chance(i), s.m)
    ensures apts == if complete then Matching(s, adapters, chance) else []
  {
    apts := [];
    if !complete {
      return;
    }
    for i := 0 to |adapters|
      invariant apts == Matching(s, adapters[..i], chance)
    {
      assert adapters[..i + 1][..i] == adapters[..i];
      var matched := MatchedAdapter(s, adapters[i], chance(i));
      if matched {
        apts := apts + [adapters[i]];
      }
    }
    assert adapters[..|adapters|] == adapters;
  }

  // ---------- What luck can match ----------

  lemma {:induction false} FillsByBounds(s: Setting, part: string, luck: Luck)
    requires luck.For(s.m)
    ensures s.Fills(part, 0) ==> s.FillsBy(part, luck)
    ensures s.FillsBy(part, luck) ==> s.Fills(part, NOTHING)
  {
    match s.scan(part)
    case Some(p) => ChosenBounds(s.m, Want(s.lang, p.w, p.h, s.rule), luck);
    case None =>
  }

  lemma {:induction false} LuckyFill(s: Setting, part: string) returns (luck: Luck)
    requires s.Fills(part, NOTHING)
    ensures luck.For(s.m) && s.FillsBy(part, luck)
  {
    var p := s.scan(part).value;
    var q := Want(s.lang, p.w, p.h, s.rule);
    luck := SomeLuck(s.m);
    if CanChoose(s.m, q, 0) {
      ChosenBounds(s.m, q, luck);
    } else if CanChoose(s.m, q, NOTHING) {
      ChancyExactly(s.m, q);
      luck :| luck.For(s.m) && Chosen(s.m, q, luck).Some?;
    }
  }

  lemma {:induction false} UnluckyFill(s: Setting, part: string) returns (luck: Luck)
    requires !s.Fills(part, 0)
    ensures luck.For(s.m) && !s.FillsBy(part, luck)
  {
    luck := SomeLuck(s.m);
    if s.scan(part).Some? {
      var p := s.scan(part).value;
      var q := Want(s.lang, p.w, p.h, s.rule);
      if !CanChoose(s.m, q, 0) {
        luck := NoLuck(s.m, q);
      }
    }
  }

  lemma {:induction false} LuckyChance(s: Setting, parts: seq<string>) returns (chance: Chance)
    requires forall k :: 0 <= k < |parts| ==> s.Fills(parts[k], NOTHING)
    ensures ChanceFor(chance, s.m) && forall k :: 0 <= k < |parts| ==> s.FillsBy(parts[k], chance(k))
  {
    var n := |parts| - 1;
    if parts == [] {
      var luck := SomeLuck(s.m);
      chance := (k: nat) => luck;
    } else {
      var before := LuckyChance(s, parts[..n]);
      var luck := LuckyFill(s, parts[n]);
      chance := (k: nat) => if k == n then luck else before(k);
    }
  }

  /** An adapter matches under some luck, or under any, exactly when it may, or must. */
  lemma {:induction false} MatchesExactly(s: Setting, adapter: string)
    ensures (exists chance :: ChanceFor(chance, s.m) && s.MatchesBy(adapter, chance)) <==> s.Matches(adapter, NOTHING)
    ensures (forall chance :: ChanceFor(chance, s.m) ==> s.MatchesBy(adapter, chance)) <==> s.Matches(adapter, 0)
  {
    forall chance | ChanceFor(chance, s.m)
      ensures s.Matches(adapter, 0) ==> s.MatchesBy(adapter, chance)
      ensures s.MatchesBy(adapter, chance) ==> s.Matches(adapter, NOTHING)
    {
      MatchesByBounds(s, adapter, chance);
    }
    if s.Matches(adapter, NOTHING) {
      var chance := LuckyChance(s, Split(adapter, '+'));
      assert s.MatchesBy(adapter, chance);
    }
    if !s.Matches(adapter, 0) {
      var chance := UnluckyChance(s, adapter);
    }
  }

  lemma {:induction false} UnluckyChance(s: Setting, adapter: string) returns (chance: Chance)
    requires !s.Matches(adapter, 0)
    ensures ChanceFor(chance, s.m) && !s.MatchesBy(adapter, chance)
  {
    var parts := Split(adapter, '+');
    var k :| 0 <= k < |parts| && !s.Fills(parts[k], 0);
    var luck := UnluckyFill(s, parts[k]);
    chance := (j: nat) => luck;
    assert !s.FillsBy(parts[k], chance(k));
  }

  lemma {:induction false} MatchesByBounds(s: Setting, adapter: string, chance: Chance)
    requires ChanceFor(chance, s.m)
    ensures s.Matches(adapter, 0) ==> s.MatchesBy(adapter, chance)
    ensures s.MatchesBy(adapter, chance) ==> s.Matches(adapter, NOTHING)
  {
    var parts := Split(adapter, '+');
    forall k | 0 <= k < |parts|
      ensures s.Fills(parts[k], 0) ==> s.FillsBy(parts[k], chance(k))
      ensures s.FillsBy(parts[k], chance(k)) ==> s.Fills(parts[k], NOTHING)
    {
      FillsByBounds(s, parts[k], chance(k));
    }
  }

  // ---------- Filling an adapter ----------

  /** The last part of a kind that wants something. */
  function Last(scan: Scan, parts: seq<string>, cat: char): Option<Part> {
    if parts == [] then None else
    var n := |parts| - 1;
    match scan(parts[n])
    case Some(p) => if p.cat == cat && !p.Empty() then Some(p) else Last(scan, parts[..n], cat)
    case None => Last(scan, parts[..n], cat)
  }

  /** The image that choseAdapterCreative leaves behind, given what was there before. */
  function ImageLeft(s: Setting, parts: seq<string>, was: Option<Img>, chance: Chance): Option<Img> {
    if parts == [] then was else
    var n := |parts| - 1;
    match s.scan(parts[n])
    case Some(p) =>
      if p.cat == 'i' && !p.Empty() then Chosen(s.m, Want(s.lang, p.w, p.h, s.rule), chance(n))
      else ImageLeft(s, parts[..n], was, chance)
    case None => ImageLeft(s, parts[..n], was, chance)
  }

  /** And the video. */
  ghost predicate VideoAfter(s: Setting, parts: seq<string>, was: Option<Video>, r: Option<Video>) {
    match Last(s.scan, parts, 'v')
    case Some(p) => IsVideo(s.m, s.lang, p.w, p.h, r)
    case None => r == was
  }

  class RawAdObj {
    var imageChosen: Option<Img>
    var videoChosen: Option<Video>

    constructor ()
      ensures imageChosen == None && videoChosen == None
    {
      imageChosen, videoChosen := None, None;
    }

    method ChoosePart(s: Setting, part: string, luck: Luck)
      requires luck.For(s.m)
      modifies this
      ensures imageChosen == ImageLeft(s, [part], old(imageChosen), (k: nat) => luck)
      ensures VideoAfter(s, [part], old(videoChosen), videoChosen)
    {
      assert [part][..0] == [];
      match s.scan(part)
      case None =>
      case Some(p) =>
        if p.w == 0 && p.h == 0 {
          return;
        }
        if p.cat == 'i' {
          imageChosen := GetMatchedCreative(s.m, Want(s.lang, p.w, p.h, s.rule), luck);
        } else if p.cat == 'v' {
          videoChosen := GetMatchedVideo(s.m, s.lang, p.w, p.h);
        }
    }

    method ChoseAdapterCreative(s: Setting, adapter: string, chance: Chance)
      requires ChanceFor(chance, s.m)
      modifies this
      ensures imageChosen == ImageLeft(s, Split(adapter, '+'), old(imageChosen), chance)
      ensures VideoAfter(s, Split(adapter, '+'), old(videoChosen), videoChosen)
    {
      var apts := Split(adapter, '+');
      for k := 0 to |apts|
        invariant imageChosen == ImageLeft(s, apts[..k], old(imageChosen), chance)
        invariant VideoAfter(s, apts[..k], old(videoChosen), videoChosen)
      {
        ghost var image, video := imageChosen, videoChosen;
        ChoosePart(s, apts[k], chance(k));
        ImageNext(s, apts[..k], apts[k], old(imageChosen), image, chance);
        VideoNext(s, apts[..k], apts[k], old(videoChosen), video, videoChosen);
        assert apts[..k + 1] == apts[..k] + [apts[k]];
      }
      assert apts[..|apts|] == apts;
    }
  }

  function Or<T>(o: Option<T>, other: Option<T>): Option<T> { if o.Some? then o else other }

  lemma {:induction false} LastMore(scan: Scan, parts: seq<string>, part: string)
    ensures forall cat :: Last(scan, parts + [part], cat) == Or(Last(scan, [part], cat), Last(scan, parts, cat))
  {
    assert (parts + [part])[..|parts|] == parts;
  }

  lemma {:induction false} VideoNext(s: Setting, parts: seq<string>, part: string,
                                     video0: Option<Video>, video1: Option<Video>, video2: Option<Video>)
    requires VideoAfter(s, parts, video0, video1) && VideoAfter(s, [part], video1, video2)
    ensures VideoAfter(s, parts + [part], video0, video2)
  {
    LastMore(s.scan, parts, part);
  }

  lemma {:induction false} ImageNext(s: Setting, parts: seq<string>, part: string, was: Option<Img>,
                                     image: Option<Img>, chance: Chance)
    requires image == ImageLeft(s, parts, was, chance)
    ensures ImageLeft(s, parts + [part], was, chance) == ImageLeft(s, [part], image, (k: nat) => chance(|parts|))
  {
    assert (parts + [part])[..|parts|] == parts && [part][..0] == [];
  }

  // ---------- What matches gets filled ----------

  predicate AsksFor(scan: Scan, part: string, cat: char) {
    match scan(part)
    case Some(p) => p.cat == cat && (p.w != 0 || p.h != 0)
    case None => false
  }

  /** Position `k` is the last one that asks for that kind. */
  ghost predicate IsLast(scan: Scan, parts: seq<string>, cat: char, k: int) {
    0 <= k < |parts| && AsksFor(scan, parts[k], cat) && forall j :: k < j < |parts| ==> !AsksFor(scan, parts[j], cat)
  }

  lemma {:induction false} LastIsPart(scan: Scan, parts: seq<string>, cat: char)
    ensures match Last(scan, parts, cat)
      case Some(p) => exists k :: IsLast(scan, parts, cat, k) && scan(parts[k]) == Some(p)
      case None => forall k :: 0 <= k < |parts| ==> !AsksFor(scan, parts[k], cat)
  {
    if parts != [] {
      var n := |parts| - 1;
      LastIsPart(scan, parts[..n], cat);
      if AsksFor(scan, parts[n], cat) {
        assert IsLast(scan, parts, cat, n);
      } else if Last(scan, parts[..n], cat).Some? {
        var k :| IsLast(scan, parts[..n], cat, k) && scan(parts[..n][k]) == Last(scan, parts[..n], cat);
        LastStays(scan, parts, cat, k);
      }
    }
  }

  lemma {:induction false} LastStays(scan: Scan, parts: seq<string>, cat: char, k: int)
    requires parts != [] && !AsksFor(scan, parts[|parts| - 1], cat)
    requires IsLast(scan, parts[..|parts| - 1], cat, k)
    ensures IsLast(scan, parts, cat, k)
  {
  }

  /** Everything an adapter asks for is there. */
  ghost predicate Filled(s: Setting, adapter: string, image: Option<Img>, video: Option<Video>) {
    HasAll(s, Split(adapter, '+'), 'i', image.Some?) && HasAll(s, Split(adapter, '+'), 'v', video.Some?)
  }

  ghost predicate HasAll(s: Setting, parts: seq<string>, cat: char, there: bool) {
    forall k, p :: 0 <= k < |parts| && s.scan(parts[k]) == Some(p) && !p.Empty() && p.cat == cat ==> there
  }

  /** The image left is the choice for the last image part, under the luck of that part. */
  lemma {:induction false} ImageIsLast(s: Setting, parts: seq<string>, was: Option<Img>, chance: Chance)
      returns (k: nat)
    ensures match Last(s.scan, parts, 'i')
      case Some(p) =>
        && ImageLeft(s, parts, was, chance) == Chosen(s.m, Want(s.lang, p.w, p.h, s.rule), chance(k))
        && IsLast(s.scan, parts, 'i', k) && s.scan(parts[k]) == Some(p)
      case None => ImageLeft(s, parts, was, chance) == was
  {
    k := 0;
    if parts != [] {
      var n := |parts| - 1;
      if AsksFor(s.scan, parts[n], 'i') {
        k := n;
      } else {
        k := ImageIsLast(s, parts[..n], was, chance);
        if Last(s.scan, parts[..n], 'i').Some? { LastStays(s.scan, parts, 'i', k); }
      }
    }
  }

  lemma {:induction false} VideoIsFilled(s: Setting, parts: seq<string>, video: Option<Video>, was: Option<Video>)
    requires (forall k :: 0 <= k < |parts| ==> s.Fills(parts[k], NOTHING)) && VideoAfter(s, parts, was, video)
    ensures HasAll(s, parts, 'v', video.Some?)
  {
    LastIsPart(s.scan, parts, 'v');
    if Last(s.scan, parts, 'v').Some? {
      var p := Last(s.scan, parts, 'v').value;
      assert CanPlay(s.m, s.lang, p.w, p.h);
    }
  }

  /** The last image part, if there is one, can be filled for sure. */
  ghost predicate LastIsSure(s: Setting, parts: seq<string>) {
    match Last(s.scan, parts, 'i')
    case Some(p) => CanChoose(s.m, Want(s.lang, p.w, p.h, s.rule), 0)
    case None => true
  }

  lemma {:induction false} ImageIsFilled(s: Setting, parts: seq<string>, was: Option<Img>, chance: Chance)
    requires LastIsSure(s, parts) && ChanceFor(chance, s.m)
    ensures HasAll(s, parts, 'i', ImageLeft(s, parts, was, chance).Some?)
  {
    LastIsPart(s.scan, parts, 'i');
    var k := ImageIsLast(s, parts, was, chance);
    if Last(s.scan, parts, 'i').Some? {
      var p := Last(s.scan, parts, 'i').value;
      var q := Want(s.lang, p.w, p.h, s.rule);
      ChosenBounds(s.m, q, chance(k));
    }
  }

  lemma {:induction false} ImageIsMissing(s: Setting, parts: seq<string>, was: Option<Img>) returns (chance: Chance)
    requires !LastIsSure(s, parts)
    ensures ChanceFor(chance, s.m) && !HasAll(s, parts, 'i', ImageLeft(s, parts, was, chance).Some?)
  {
    var p := Last(s.scan, parts, 'i').value;
    var luck := NoLuck(s.m, Want(s.lang, p.w, p.h, s.rule));
    chance := (k: nat) => luck;
    LastIsPart(s.scan, parts, 'i');
    var k := ImageIsLast(s, parts, was, chance);
  }

  /** An adapter that matched has all it asks for, under other luck than it was matched with. */
  ghost predicate AlwaysFilled(s: Setting, adapter: string, was: Option<Img>) {
    forall chance, chance', wasVideo, video ::
      ChanceFor(chance, s.m) && ChanceFor(chance', s.m) && s.MatchesBy(adapter, chance)
      && VideoAfter(s, Split(adapter, '+'), wasVideo, video)
      ==> Filled(s, adapter, ImageLeft(s, Split(adapter, '+'), was, chance'), video)
  }

  /** It has if and only if it never matches or the last image part can be filled for sure. */
  lemma {:induction false} MatchedIsFilled(s: Setting, adapter: string, was: Option<Img>)
    ensures AlwaysFilled(s, adapter, was) <==> !s.Matches(adapter, NOTHING) || LastIsSure(s, Split(adapter, '+'))
  {
    if s.Matches(adapter, NOTHING) && !LastIsSure(s, Split(adapter, '+')) {
      NotAlwaysFilled(s, adapter, was);
    } else {
      forall chance, chance', wasVideo, video |
        ChanceFor(chance, s.m) && ChanceFor(chance', s.m) && s.MatchesBy(adapter, chance)
        && VideoAfter(s, Split(adapter, '+'), wasVideo, video)
        ensures Filled(s, adapter, ImageLeft(s, Split(adapter, '+'), was, chance'), video)
      {
        MatchesByBounds(s, adapter, chance);
        ImageIsFilled(s, Split(adapter, '+'), was, chance');
        VideoIsFilled(s, Split(adapter, '+'), video, wasVideo);
      }
    }
  }

  lemma {:induction false} NotAlwaysFilled(s: Setting, adapter: string, was: Option<Img>)
    requires s.Matches(adapter, NOTHING) && !LastIsSure(s, Split(adapter, '+'))
    ensures !AlwaysFilled(s, adapter, was)
  {
    var parts := Split(adapter, '+');
    var chance := LuckyChance(s, parts);
    var chance' := ImageIsMissing(s, parts, was);
    var video := SomeVideo(s, parts);
    assert s.MatchesBy(adapter, chance);
    assert !Filled(s, adapter, ImageLeft(s, parts, was, chance'), video);
  }

  lemma {:induction false} SomeVideo(s: Setting, parts: seq<string>) returns (video: Option<Video>)
    ensures VideoAfter(s, parts, None, video)
  {
    video := None;
    if Last(s.scan, parts, 'v').Some? {
      var p := Last(s.scan, parts, 'v').value;
      video := FirstVideo(s.m, s.lang, p.w, p.h);
    }
  }

  lemma {:induction false} FirstVideo(m: Material, lang: string, w: int, h: int) returns (r: Option<Video>)
    ensures IsVideo(m, lang, w, h, r)
  {
    var vs := Candidates(m, lang);
    var i := 0;
    while i < |vs| && !Plays(vs[i], w, h)
      invariant 0 <= i <= |vs| && forall j :: 0 <= j < i ==> !Plays(vs[j], w, h)
    {
      i := i + 1;
    }
    r := None;
    if i < |vs| {
      r := Some(vs[i]);
      assert FirstPlays(vs, w, h, i) && vs[i] in vs;
    }
  }

  /** A part for whose size a flip may decide. */
  ghost predicate FlipPart(s: Setting, part: string) {
    match s.scan(part)
    case Some(p) => p.cat == 'i' && !p.Empty() && FlipSize(p.w, p.h, s.rule)
    case None => false
  }

  /** Without such a part nothing depends on luck: an adapter matches always or never, and is filled. */
  lemma {:induction false} FlipFreeIsSure(s: Setting, adapter: string, was: Option<Img>)
    requires forall k :: 0 <= k < |Split(adapter, '+')| ==> !FlipPart(s, Split(adapter, '+')[k])
    ensures s.Matches(adapter, NOTHING) <==> s.Matches(adapter, 0)
    ensures AlwaysFilled(s, adapter, was)
  {
    var parts := Split(adapter, '+');
    forall k | 0 <= k < |parts| ensures s.Fills(parts[k], NOTHING) <==> s.Fills(parts[k], 0) {
      FillsForSure(s, parts[k]);
    }
    MatchedIsFilled(s, adapter, was);
    if s.Matches(adapter, 0) { SureIsLastSure(s, parts); }
  }

  lemma {:induction false} SureIsLastSure(s: Setting, parts: seq<string>)
    requires forall k :: 0 <= k < |parts| ==> s.Fills(parts[k], 0)
    ensures LastIsSure(s, parts)
  {
    LastIsPart(s.scan, parts, 'i');
  }

  lemma {:induction false} FillsForSure(s: Setting, part: string)
    requires !FlipPart(s, part)
    ensures s.Fills(part, NOTHING) <==> s.Fills(part, 0)
  {
    match s.scan(part)
    case Some(p) =>
      var q := Want(s.lang, p.w, p.h, s.rule);
      HasMore(s.m, q);
      if p.cat == 'i' && !p.Empty() && CanChoose(s.m, q, NOTHING) { ChosenForSure(s.m, q); }
    case None =>
  }
}
