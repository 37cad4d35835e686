/**
 What a container of src/aes/aes.go is made of, byte by byte, and what is read from a text that no
 encryption made.
 */
module AesLayout {
  import opened AesContainer
  import opened Options
  import opened Results
  import opened Text

  // ---------- Blocks ----------

  function BlockAt(b: Bytes, i: nat): Block
    requires 16 * i + 16 <= |b|
  {
    b[16 * i..16 * i + 16]
  }

  lemma {:induction false} BlockBehind(b: Bytes, i: nat)
    requires i > 0 && 16 * i + 16 <= |b|
    ensures BlockAt(b[16..], i - 1) == BlockAt(b, i)
  {
  }

  lemma {:induction false} MapBlocksAt(f: Block -> Block, b: Bytes, i: nat)
    requires |b| % 16 == 0 && 16 * i + 16 <= |b|
    ensures BlockAt(MapBlocks(f, b), i) == f(BlockAt(b, i))
  {
    var r: Bytes := MapBlocks(f, b);
    var first: Bytes := f(b[..16]);
    var rest: Bytes := MapBlocks(f, b[16..]);
    assert r == first + rest;
    if i == 0 {
      assert BlockAt(b, 0) == b[..16];
    } else {
      MapBlocksAt(f, b[16..], i - 1);
      BlockBehind(b, i);
      BlockBehind(r, i);
      assert r[16..] == rest;
    }
  }

  // ---------- Hexadecimal digits ----------

  const LOWER := "0123456789abcdef"
  const UPPER := "0123456789ABCDEF"

  lemma {:induction false} HexDigitIs(v: nat)
    requires v < 16
    ensures HexDigit(v) == LOWER[v]
  {
  }

  /** A character stands for a number. */
  predicate Means(c: char, v: nat) { v < 16 && (c == LOWER[v] || c == UPPER[v]) }

  lemma {:induction false} HexValueIs(c: char, v: nat)
    ensures (IsHexDigit(c) && HexValue(c) == v) <==> Means(c, v)
  {
  }

  lemma {:induction false} HexEncodeAt(b: Bytes, p: nat)
    requires p < |b|
    ensures var s := HexEncode(b); s[2 * p] == LOWER[b[p] / 16] && s[2 * p + 1] == LOWER[b[p] % 16]
  {
    if p == 0 {
      HexDigitIs(b[0] / 16);
      HexDigitIs(b[0] % 16);
    } else {
      HexEncodeAt(b[1..], p - 1);
      EncodeBehind(b, p);
    }
  }

  lemma {:induction false} EncodeBehind(b: Bytes, p: nat)
    requires 0 < p < |b|
    ensures var s, t := HexEncode(b), HexEncode(b[1..]);
            |t| == |s| - 2 && s[2 * p] == t[2 * (p - 1)] && s[2 * p + 1] == t[2 * (p - 1) + 1]
  {
    assert HexEncode(b) == [HexDigit(b[0] / 16), HexDigit(b[0] % 16)] + HexEncode(b[1..]);
  }

  // ---------- The size trailer ----------

  /** The digit of a number at a power of ten. */
  function Digit(n: nat, power: nat): nat { n / Pow10(power) % 10 }

  lemma {:induction false} DivideTwice(n: nat, p: nat)
    requires p > 0
    ensures n / 10 / p == n / (10 * p)
  {
    var q, r := n / 10 / p, n / 10 % p;
    assert n == 10 * (n / 10) + n % 10;
    assert n / 10 == q * p + r;
    assert n == q * (10 * p) + (10 * r + n % 10);
    QuotientIs(n, 10 * p, q, 10 * r + n % 10);
  }

  lemma {:induction false} QuotientIs(n: nat, d: nat, q: nat, r: nat)
    requires d > 0 && r < d && n == q * d + r
    ensures n / d == q
  {
    var e := n / d - q;
    assert n == n / d * d + n % d;
    assert e * d == r - n % d;
    AtLeastOne(e, d);
  }

  lemma {:induction false} AtLeastOne(e: int, d: nat)
    ensures e >= 1 ==> e * d >= d
    ensures e <= -1 ==> e * d <= 0 - d
  {
  }

  lemma {:induction false} DecimalAt(n: nat, k: nat)
    ensures k < |Decimal(n)| ==> Decimal(n)[|Decimal(n)| - 1 - k] == DigitChar(Digit(n, k))
    ensures k >= |Decimal(n)| ==> Digit(n, k) == 0
    decreases k
  {
    if k == 0 {
      assert Pow10(0) == 1;
    } else if n < 10 {
      Small(n, k);
    } else {
      DecimalAt(n / 10, k - 1);
      DivideTwice(n, Pow10(k - 1));
    }
  }

  lemma {:induction false} Small(n: nat, k: nat)
    requires n < 10 && k > 0
    ensures Digit(n, k) == 0
  {
    QuotientIs(n, Pow10(k), 0, n);
  }

  lemma {:induction false} SizeAt(n: nat, j: nat)
    requires n < 10_000_000_000_000_000 && j < 16
    ensures |Size(n)| == 16 && Size(n)[j] as int == 48 + Digit(n, 15 - j)
  {
    SizeLength(n);
    DecimalAt(n, 15 - j);
    var d := Decimal(n);
    if j >= 16 - |d| {
      assert Size(n)[j] == d[j - (16 - |d|)];
    } else {
      ZerosAt(16 - |d|, j);
    }
  }

  lemma {:induction false} ZerosAt(k: nat, j: nat)
    requires j < k
    ensures Zeros(k)[j] == '0'
  {
    if j < k - 1 { ZerosAt(k - 1, j); }
  }

  // ---------- A container ----------

  /** The byte at a position of what is enciphered: text, random padding, the length in sixteen digits. */
  function PlainByte(text: Bytes, rand: nat -> Byte, total: nat, p: nat): int {
    if p < |text| then text[p]
    else if p < total - 16 then rand(p - |text|)
    else if p < total then 48 + Digit(|text|, total - 1 - p)
    else 0
  }

  /** `plain` is the text padded to whole blocks, and one block that tells its length. */
  ghost predicate IsPlain(text: Bytes, rand: nat -> Byte, plain: Bytes) {
    && |plain| % 16 == 0 && |text| + 16 <= |plain| < |text| + 32
    && forall p :: 0 <= p < |plain| ==> plain[p] as int == PlainByte(text, rand, |plain|, p)
  }

  lemma {:induction false} PaddingAt(n: nat, rand: nat -> Byte, i: nat)
    requires i < n
    ensures Padding(n, rand)[i] == rand(i)
  {
    if i < n - 1 { PaddingAt(n - 1, rand, i); }
  }

  lemma {:induction false} ContainerAt(text: Bytes, rand: nat -> Byte, p: nat)
    requires |text| < 10_000_000_000_000_000 && p < |Container(text, rand)|
    ensures Container(text, rand)[p] as int == PlainByte(text, rand, |Container(text, rand)|, p)
  {
    ContainerLength(text, rand);
    var pad, size := Padding(PadLength(|text|), rand), Latin(Size(|text|));
    var n := |text| + |pad|;
    if p < |text| {
      assert (text + pad + size)[p] == text[p];
    } else if p < n {
      PaddingAt(|pad|, rand, p - |text|);
      assert (text + pad + size)[p] == pad[p - |text|];
    } else {
      SizeAt(|text|, p - n);
      assert (text + pad + size)[p] == size[p - n];
    }
  }

  lemma {:induction false} ContainerIsPlain(text: Bytes, rand: nat -> Byte)
    requires |text| < 10_000_000_000_000_000
    ensures IsPlain(text, rand, Container(text, rand))
  {
    ContainerLength(text, rand);
    forall p | 0 <= p < |Container(text, rand)|
      ensures Container(text, rand)[p] as int == PlainByte(text, rand, |Container(text, rand)|, p)
    {
      ContainerAt(text, rand, p);
    }
  }

  /** Every byte as two lower-case digits. */
  ghost predicate IsHex(b: Bytes, s: string) {
    |s| == 2 * |b| &&
    forall p :: 0 <= p < |b| ==> s[2 * p] == LOWER[b[p] / 16] && s[2 * p + 1] == LOWER[b[p] % 16]
  }

  /** Each block on its own goes through the cipher. */
  ghost predicate InBlocks(f: Block -> Block, b: Bytes, r: Bytes) {
    |b| == |r| && forall i :: 0 <= i && 16 * i + 16 <= |b| ==> BlockAt(r, i) == f(BlockAt(b, i))
  }

  lemma {:induction false} HexEncodes(b: Bytes)
    ensures IsHex(b, HexEncode(b))
  {
    forall p | 0 <= p < |b|
      ensures HexEncode(b)[2 * p] == LOWER[b[p] / 16] && HexEncode(b)[2 * p + 1] == LOWER[b[p] % 16]
    {
      HexEncodeAt(b, p);
    }
  }

  lemma {:induction false} BlocksAre(f: Block -> Block, b: Bytes)
    requires |b| % 16 == 0
    ensures InBlocks(f, b, MapBlocks(f, b))
  {
    forall i | 0 <= i && 16 * i + 16 <= |b| ensures BlockAt(MapBlocks(f, b), i) == f(BlockAt(b, i)) {
      MapBlocksAt(f, b, i);
    }
  }

  /**
   An encryption pads the text, tells its length in a last block, enciphers block by block and
   prints lower-case digits.
   */
  lemma {:induction false} EncryptedIs(k: KeyBlock, text: Bytes, rand: nat -> Byte)
    requires |text| < 10_000_000_000_000_000
    ensures exists plain: Bytes, cipher: Bytes ::
              && IsPlain(text, rand, plain) && InBlocks(k.enc, plain, cipher)
              && Encrypted(k, text, rand).Ok? && IsHex(cipher, Encrypted(k, text, rand).value)
  {
    var plain := Container(text, rand);
    ContainerIsPlain(text, rand);
    BlocksAre(k.enc, plain);
    HexEncodes(MapBlocks(k.enc, plain));
  }

  // ---------- Decrypting any text ----------

  predicate IsHexChar(c: char) { '0' <= c <= '9' || 'a' <= c <= 'f' || 'A' <= c <= 'F' }

  ghost predicate AllHex(s: string) { forall p :: 0 <= p < |s| ==> IsHexChar(s[p]) }

  /** Two digits of either case for every byte. */
  ghost predicate ReadsAs(s: string, b: Bytes) {
    |s| == 2 * |b| && forall p :: 0 <= p < |b| ==> Means(s[2 * p], b[p] / 16) && Means(s[2 * p + 1], b[p] % 16)
  }

  lemma {:induction false} DigitIsHex(c: char)
    ensures IsHexDigit(c) <==> IsHexChar(c)
  {
  }

  lemma {:induction false} DecodesHex(s: string)
    ensures HexDecode(s).Some? <==> |s| % 2 == 0 && AllHex(s)
    decreases |s|
  {
    if |s| >= 2 {
      DigitIsHex(s[0]);
      DigitIsHex(s[1]);
      DecodesHex(s[2..]);
      if IsHexChar(s[0]) && IsHexChar(s[1]) { AllHexBehind(s); }
    } else if |s| == 1 {
      assert HexDecode(s).None?;
    }
  }

  lemma {:induction false} DecodesTo(s: string)
    requires HexDecode(s).Some?
    ensures ReadsAs(s, HexDecode(s).value)
    decreases |s|
  {
    if s != "" {
      DecodesTo(s[2..]);
      ReadsMore(s, 16 * HexValue(s[0]) + HexValue(s[1]), HexDecode(s[2..]).value);
    }
  }

  lemma {:induction false} ReadsMore(s: string, x: Byte, b: Bytes)
    requires |s| >= 2 && IsHexDigit(s[0]) && IsHexDigit(s[1]) && x == 16 * HexValue(s[0]) + HexValue(s[1])
    requires ReadsAs(s[2..], b)
    ensures ReadsAs(s, [x] + b)
  {
    HexValueIs(s[0], x / 16);
    HexValueIs(s[1], x % 16);
    forall p | 0 <= p < |b| + 1
      ensures Means(s[2 * p], ([x] + b)[p] / 16) && Means(s[2 * p + 1], ([x] + b)[p] % 16)
    {
      if p > 0 {
        assert s[2..][2 * (p - 1)] == s[2 * p] && s[2..][2 * (p - 1) + 1] == s[2 * p + 1];
      }
    }
  }

  lemma {:induction false} AllHexBehind(s: string)
    requires |s| >= 2 && IsHexChar(s[0]) && IsHexChar(s[1])
    ensures AllHex(s) <==> AllHex(s[2..])
  {
    assert forall p :: 0 <= p < |s| - 2 ==> s[2..][p] == s[p + 2];
    assert forall p :: 2 <= p < |s| ==> s[p] == s[2..][p - 2];
  }

  /** What is cut out of the deciphered text, given the size its last block tells. */
  ghost predicate IsCut(text: Bytes, capacity: nat, r: Result<Bytes>)
    requires |text| % 16 == 0
  {
    var n := if text == [] then 0 else Atoi(Chars(text[|text| - 16..]));
    if n < 0 || n > capacity then r == Panic
    else r.Ok? && |r.value| == n && forall p :: 0 <= p < n ==> r.value[p] == if p < |text| then text[p] else 0
  }

  lemma {:induction false} SliceIsCut(text: Bytes, capacity: nat)
    requires |text| % 16 == 0
    ensures text == [] || |text| >= 16
    ensures IsCut(text, capacity, Slice(text, Atoi(Chars(LastBlock(text))), capacity))
  {
    if text == [] { assert Chars(LastBlock(text)) == ""; }
  }

  /** The bytes written, and what they are deciphered to and cut to. */
  ghost predicate OpensBy(k: KeyBlock, s: string, b: Bytes, text: Bytes, r: Result<Bytes>) {
    ReadsAs(s, b) && InBlocks(k.dec, b, text) && |text| % 16 == 0 && IsCut(text, |s|, r)
  }

  lemma {:induction false} OpensWhole(k: KeyBlock, s: string, b: Bytes)
    requires HexDecode(s) == Some(b) && ReadsAs(s, b) && |b| % 16 == 0
    ensures OpensBy(k, s, b, MapBlocks(k.dec, b), Decrypted(k, s))
  {
    BlocksAre(k.dec, b);
    SliceIsCut(MapBlocks(k.dec, b), |s|);
  }

  lemma {:induction false} TwiceWhole(n: nat, m: nat)
    requires n == 2 * m
    ensures n % 32 == 0 <==> m % 16 == 0
  {
  }

  lemma {:induction false} NotWhole(k: KeyBlock, s: string)
    requires !AllHex(s) || |s| % 32 != 0
    ensures Decrypted(k, s) == Ok([])
  {
    DecodesHex(s);
    if HexDecode(s).Some? { TwiceWhole(|s|, |HexDecode(s).value|); }
  }

  lemma {:induction false} WholeDecodes(s: string) returns (b: Bytes)
    requires AllHex(s) && |s| % 32 == 0
    ensures HexDecode(s) == Some(b) && ReadsAs(s, b) && |b| % 16 == 0
  {
    DecodesHex(s);
    DecodesTo(s);
    b := HexDecode(s).value;
    TwiceWhole(|s|, |b|);
  }

  /**
   A text of other characters, or of digits that are not whole blocks, gives nothing. From any other
   the bytes are deciphered block by block. As many are returned as the last block says, zeros where
   there are no more, and it panics if that is negative or more than the characters of the text.
   */
  lemma {:induction false} DecryptedIs(k: KeyBlock, s: string) returns (b: Bytes, text: Bytes)
    ensures !AllHex(s) || |s| % 32 != 0 ==> Decrypted(k, s) == Ok([])
    ensures AllHex(s) && |s| % 32 == 0 ==> OpensBy(k, s, b, text, Decrypted(k, s))
  {
    if AllHex(s) && |s| % 32 == 0 {
      b := WholeDecodes(s);
      text := MapBlocks(k.dec, b);
      OpensWhole(k, s, b);
    } else {
      b, text := [], [];
      NotWhole(k, s);
    }
  }
}
