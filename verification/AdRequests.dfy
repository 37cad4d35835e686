/**
 What stands behind the answers that a replacement gets (`Context.pick` of Replace.dfy): an indexed ad
 (src/raw_ad/raw_ad.go), the request that asks it for creatives, and the luck of every call.
 */
module AdRequests {
  import opened Creatives
  import opened GoInt
  import opened Images
  import opened Options
  import opened Replace
  import opened Text

  // ---------- Indexed ads ----------

  predicate HasScheme(url: string) { HasAt(url, 0, "http://") || HasAt(url, 0, "https://") }

  /** What checkAndFixPrefix makes of the url of an image or icon before the ad is indexed. */
  function FixPrefix(url: string): string {
    if HasAt(url, 0, "//") then "https:" + url
    else if HasScheme(url) then url
    else "https://" + url
  }

  /**
   It leaves a url with a scheme alone, and gives every other one the scheme https; the slashes
   are not doubled.
   */
  lemma {:induction false} FixPrefixIs(url: string)
    ensures "http://" <= FixPrefix(url) || "https://" <= FixPrefix(url)
    ensures "http://" <= url || "https://" <= url <==> FixPrefix(url) == url
    ensures FixPrefix(url) != url ==> FixPrefix(url) == "https://" + if "//" <= url then url[2..] else url
    ensures HasScheme(url) <==> FixPrefix(url) == url
  {
    var fixed := FixPrefix(url);
    if HasAt(url, 0, "//") {
      assert fixed[0..8] == "https:" + url[0..2];
      assert fixed == "https://" + url[2..];
    } else if !HasScheme(url) {
      assert fixed[0..8] == "https://";
    }
    if HasScheme(url) {
      assert url[0] == 'h' by { assert url[0] == if HasAt(url, 0, "http://") then url[0..7][0] else url[0..8][0]; }
    }
  }

  type Lucks = nat -> Luck

  /** The render images are read from JSON as they are; only the images are fixed up. */
  datatype AdRequest = AdRequest(m: Material, lang: string, rule: int, country: string) {
    ghost predicate Valid() {
      forall l, img :: l in m.creatives && img in m.creatives[l] ==> HasScheme(img.url)
    }

    ghost predicate Lucky(lucks: Lucks) { forall n :: lucks(n).For(m) }

    function Wanted(w: nat, h: nat): Want { Want(lang, w, h, rule) }

    /** The answers of the n-th call for a size, under the luck of that call. */
    function ToContext(lucks: Lucks): Context {
      Context(country, (n: nat, w: nat, h: nat) => Chosen(m, Wanted(w, h), lucks(n)))
    }
  }

  /** The images of an indexed ad have a text. */
  lemma {:induction false} ImagesHaveText(a: AdRequest, l: string, img: Img)
    requires a.Valid() && img in a.m.Of(l)
    ensures img.url != "" && CdnConv(a.country, img) != ""
  {
    assert HasScheme(img.url);
  }

  // ---------- An ad of one image ----------

  /** An ad that has images and nothing else. */
  function Gallery(imgs: seq<Img>): AdRequest {
    AdRequest(Material(map["" := imgs], map[], map[]), "", 1, "")
  }

  const PLAIN: Luck := Luck((i: nat) => TAILS, [])

  /** Asked for the size of its one image, it answers with it. */
  lemma {:induction false} OnlyImage(img: Img)
    requires img.width >= 0 && img.height >= 0
    ensures var a := Gallery([img]); a.ToContext((n: nat) => PLAIN).pick(0, img.width, img.height) == Some(img)
  {
    var a := Gallery([img]);
    assert "" in a.m.creatives && a.m.Of("") == [img];
    MaxOfIs([img], img.width, img.height, 1, true, TAILS);
    assert img in [img] && img.Fits(img.width, img.height, 1) && img.Area() >= 0;
    var q := a.Wanted(img.width, img.height);
    assert ImageBy(a.m, q, PLAIN) == Some(img);
    assert Chosen(a.m, q, PLAIN) == Some(img);
  }

  lemma {:induction false} GalleryIsValid(imgs: seq<Img>)
    requires forall img :: img in imgs ==> HasScheme(img.url)
    ensures Gallery(imgs).Valid() && Gallery(imgs).Lucky((n: nat) => PLAIN)
  {
  }

  // ---------- A render image of the same size ----------

  function Padded(length: nat, n: nat): string { Zeros(length) + Decimal(n) }

  /** Another key that is read as the same number, longer than any of so many characters. */
  function Twin(key: string, length: nat): string {
    var n := Atoi(key);
    if n < 0 then ['-'] + Padded(length, -n) else ['+'] + Padded(length, n)
  }

  lemma {:induction false} PaddedReads(length: nat, n: nat)
    ensures var digits := Padded(length, n);
            |digits| > length && AllDigits(digits) && Value(digits) == n
  {
    ValueDecimal(n);
    ZerosAddNothing(length, Decimal(n));
  }

  lemma {:induction false} SignedReads(sign: char, digits: string)
    requires digits != "" && AllDigits(digits) && sign in {'-', '+'}
    ensures Atoi([sign] + digits) ==
            if sign == '-' then Max(0 - Value(digits), MIN_INT) else Min(Value(digits), MAX_INT)
  {
    var s := [sign] + digits;
    assert s[1..] == digits && s[0] == sign;
  }

  lemma {:induction false} PlusReads(length: nat, n: nat)
    requires n <= MAX_INT
    ensures Atoi(['+'] + Padded(length, n)) == n && |['+'] + Padded(length, n)| > length
  {
    PaddedReads(length, n);
    SignedReads('+', Padded(length, n));
  }

  lemma {:induction false} MinusReads(length: nat, n: nat)
    requires 0 - n >= MIN_INT
    ensures Atoi(['-'] + Padded(length, n)) == 0 - n && |['-'] + Padded(length, n)| > length
  {
    PaddedReads(length, n);
    SignedReads('-', Padded(length, n));
  }

  lemma {:induction false} TwinReads(key: string, length: nat)
    ensures Atoi(Twin(key, length)) == Atoi(key) && |Twin(key, length)| > length
  {
    var n := Atoi(key);
    if n < 0 { MinusReads(length, -n); } else { PlusReads(length, n); }
  }

  lemma {:induction false} TwinIs(key: string, length: nat)
    ensures |Twin(key, length)| > length && RenderSize(Twin(key, length)) == RenderSize(key)
  {
    TwinReads(key, length);
  }

  lemma {:induction false} Longest(keys: set<string>) returns (length: nat)
    ensures forall k :: k in keys ==> |k| <= length
  {
    length := 0;
    if keys != {} {
      var k :| k in keys;
      length := Longest(keys - {k});
      if |k| > length { length := |k|; }
    }
  }
}
