/**
 The text container of src/aes/aes.go: padded text, a size trailer, blocks, hexadecimal digits.
 The block cipher itself is any pair of functions of which one undoes the other.
 */
module AesContainer {
  import opened GoInt
  import opened Options
  import opened Results
  import opened Text

  type Byte = n: nat | n < 256
  type Bytes = seq<Byte>
  type Block = b: Bytes | |b| == 16 witness seq(16, _ => 0)

  class KeyBlock {
    const enc: Block -> Block
    const dec: Block -> Block

    ghost predicate Inverse() { forall b :: dec(enc(b)) == b }

    constructor (enc: Block -> Block, dec: Block -> Block)
      ensures this.enc == enc && this.dec == dec
    {
      this.enc, this.dec := enc, dec;
    }

    method Encrypt(dst: array<Byte>, src: Block)
      requires dst.Length == 16
      modifies dst
      ensures dst[..] == enc(src)
    {
      Fill(dst, enc(src));
    }

    method Decrypt(dst: array<Byte>, src: Block)
      requires dst.Length == 16
      modifies dst
      ensures dst[..] == dec(src)
    {
      Fill(dst, dec(src));
    }
  }

  method Fill(dst: array<Byte>, src: Block)
    requires dst.Length == 16
    modifies dst
    ensures dst[..] == src
  {
    forall i | 0 <= i < 16 {
      dst[i] := src[i];
    }
  }

  // ---------- Hexadecimal digits (RFC 4648 section 8) ----------

  predicate IsHexDigit(c: char) { IsDigit(c) || 'a' <= c <= 'f' || 'A' <= c <= 'F' }

  function HexValue(c: char): (v: nat)
    requires IsHexDigit(c)
    ensures v < 16
  {
    if IsDigit(c) then DigitOf(c) else if 'a' <= c then (c - 'a') as nat + 10 else (c - 'A') as nat + 10
  }

  function HexDigit(v: nat): (c: char)
    requires v < 16
    ensures IsHexDigit(c) && HexValue(c) == v
  {
    if v < 10 then DigitChar(v) else 'a' + (v - 10) as char
  }

  function HexEncode(b: Bytes): (s: string)
    ensures |s| == 2 * |b|
  {
    if b == [] then "" else [HexDigit(b[0] / 16), HexDigit(b[0] % 16)] + HexEncode(b[1..])
  }

  /** Digits of either case; an odd length or another character is an error. */
  function HexDecode(s: string): (o: Option<Bytes>)
    ensures o.Some? ==> |s| == 2 * |o.value|
  {
    if s == "" then Some([])
    else if |s| == 1 || !IsHexDigit(s[0]) || !IsHexDigit(s[1]) then None
    else match HexDecode(s[2..])
      case Some(b) => Some([16 * HexValue(s[0]) + HexValue(s[1])] + b)
      case None => None
  }

  lemma {:induction false} HexRoundTrip(b: Bytes)
    ensures HexDecode(HexEncode(b)) == Some(b)
  {
    if b != [] {
      HexRoundTrip(b[1..]);
      var s := HexEncode(b);
      assert s[2..] == HexEncode(b[1..]);
      assert [b[0]] + b[1..] == b;
    }
  }

  // ---------- The size trailer ----------

  function Pow10(k: nat): (p: nat)
    ensures p > 0
  {
    if k == 0 then 1 else 10 * Pow10(k - 1)
  }

  const LIMIT := 10_000_000_000_000_000

  /** "%016d" */
  function Size(n: nat): (s: string)
    ensures |s| >= 16 && AllDigits(s)
  {
    var d := Decimal(n);
    if |d| < 16 then Zeros(16 - |d|) + d else d
  }

  lemma {:induction false} DecimalLength(n: nat, k: nat)
    requires k > 0
    ensures |Decimal(n)| <= k <==> n < Pow10(k)
    decreases k
  {
    if k == 1 {
      assert Pow10(1) == 10 * Pow10(0);
    } else {
      DecimalLength(n / 10, k - 1);
    }
  }

  lemma {:induction false} LimitIsPow()
    ensures Pow10(16) == LIMIT
  {
    assert Pow10(4) == 10_000;
    assert Pow10(8) == 100_000_000;
    assert Pow10(12) == 1_000_000_000_000;
  }

  lemma {:induction false} SizeLength(n: nat)
    ensures |Size(n)| == 16 <==> n < LIMIT
  {
    LimitIsPow();
    DecimalLength(n, 16);
  }

  lemma {:induction false} SizeIsRead(n: nat)
    requires n <= MAX_INT
    ensures Atoi(Size(n)) == n
  {
    var d := Decimal(n);
    ValueDecimal(n);
    if |d| < 16 { ZerosAddNothing(16 - |d|, d); }
    AtoiDigits(Size(n));
  }

  lemma {:induction false} AtoiDigits(s: string)
    requires s != "" && AllDigits(s) && Value(s) <= MAX_INT
    ensures Atoi(s) == Value(s)
  {
    assert IsDigit(s[0]);
  }

  function Latin(s: string): Bytes
    requires AllDigits(s)
  {
    seq(|s|, i requires 0 <= i < |s| => s[i] as int)
  }

  function Chars(b: Bytes): string {
    seq(|b|, i requires 0 <= i < |b| => b[i] as char)
  }

  // ---------- Blocks ----------

  function MapBlocks(f: Block -> Block, b: Bytes): (r: Bytes)
    requires |b| % 16 == 0
    ensures |r| == |b|
  {
    if b == [] then [] else f(b[..16]) + MapBlocks(f, b[16..])
  }

  /** Some blocks are done and the rest is still to do; a remainder never changes its length below a block. */
  ghost predicate Mapping(f: Block -> Block, all: Bytes, done: Bytes, rest: Bytes) {
    && |rest| % 16 == |all| % 16
    && (|all| % 16 == 0 ==> MapBlocks(f, all) == done + MapBlocks(f, rest))
  }

  lemma {:induction false} MappingNext(f: Block -> Block, all: Bytes, done: Bytes, rest: Bytes)
    requires Mapping(f, all, done, rest) && |rest| >= 16
    ensures Mapping(f, all, done + f(rest[..16]), rest[16..])
  {
    if |all| % 16 == 0 {
      var b: Bytes := f(rest[..16]);
      assert done + (b + MapBlocks(f, rest[16..])) == done + b + MapBlocks(f, rest[16..]);
    }
  }

  lemma {:induction false} MappingDone(f: Block -> Block, all: Bytes, done: Bytes, rest: Bytes)
    requires Mapping(f, all, done, rest) && rest == []
    ensures |all| % 16 == 0 && MapBlocks(f, all) == done
  {
  }

  lemma {:induction false} BlocksRoundTrip(k: KeyBlock, b: Bytes)
    requires k.Inverse() && |b| % 16 == 0
    ensures MapBlocks(k.dec, MapBlocks(k.enc, b)) == b
  {
    if b != [] {
      var e: Bytes := k.enc(b[..16]);
      var rest: Bytes := MapBlocks(k.enc, b[16..]);
      assert (e + rest)[..16] == e && (e + rest)[16..] == rest;
      BlocksRoundTrip(k, b[16..]);
      assert b == b[..16] + b[16..];
    }
  }

  // ---------- Encrypt ----------

  function PadLength(n: nat): (p: nat)
    ensures p < 16 && (n + p) % 16 == 0
  {
    (16 - n % 16) % 16
  }

  function Padding(n: nat, rand: nat -> Byte): (p: Bytes)
    ensures |p| == n
  {
    if n == 0 then [] else Padding(n - 1, rand) + [rand(n - 1)]
  }

  function Container(text: Bytes, rand: nat -> Byte): Bytes {
    text + Padding(PadLength(|text|), rand) + Latin(Size(|text|))
  }

  /** A trailer of more than sixteen digits leaves a block too short to slice. */
  function Encrypted(k: KeyBlock, text: Bytes, rand: nat -> Byte): Result<string> {
    var all := Container(text, rand);
    if |all| % 16 == 0 then Ok(HexEncode(MapBlocks(k.enc, all))) else Panic
  }

  /** `rand` gives the random padding bytes. */
  method EncryptBytes(k: KeyBlock, text: Bytes, rand: nat -> Byte) returns (r: Result<string>)
    ensures r == Encrypted(k, text, rand)
  {
    var size := Size(|text|);
    var textBytes := text;
    var randPadding := (16 - |textBytes| % 16) % 16;
    for i := 0 to randPadding
      invariant textBytes == text + Padding(i, rand)
    {
      textBytes := textBytes + [rand(i)];
    }
    textBytes := textBytes + Latin(size);
    r := EncryptBlocks(k, textBytes);
  }

  method EncryptBlocks(k: KeyBlock, all: Bytes) returns (r: Result<string>)
    ensures r == if |all| % 16 == 0 then Ok(HexEncode(MapBlocks(k.enc, all))) else Panic
  {
    var textBytes := all;
    var cipherBytes: Bytes := [];
    var enc := new Byte[16];
    while |textBytes| > 0
      invariant Mapping(k.enc, all, cipherBytes, textBytes)
    {
      if |textBytes| < 16 {
        return Panic;
      }
      MappingNext(k.enc, all, cipherBytes, textBytes);
      var toEnc := textBytes[..16];
      textBytes := textBytes[16..];
      k.Encrypt(enc, toEnc);
      cipherBytes := cipherBytes + enc[..];
    }
    MappingDone(k.enc, all, cipherBytes, textBytes);
    r := Ok(HexEncode(cipherBytes));
  }

  // ---------- Decrypt ----------

  /** b[:n] of a slice with the given capacity: up to it, the bytes behind the end are zeros. */
  function Slice(b: Bytes, n: int, capacity: nat): Result<Bytes> {
    if n < 0 || n > capacity then Panic
    else if n <= |b| then Ok(b[..n])
    else Ok(b + seq(n - |b|, _ => 0))
  }

  function LastBlock(b: Bytes): Bytes { if |b| < 16 then [] else b[|b| - 16..] }

  function Decrypted(k: KeyBlock, cipher: string): Result<Bytes> {
    match HexDecode(cipher)
    case None => Ok([])
    case Some(b) =>
      if |b| % 16 != 0 then Ok([]) else
      var text := MapBlocks(k.dec, b);
      Slice(text, Atoi(Chars(LastBlock(text))), |cipher|)
  }

  method DecryptBytes(k: KeyBlock, cipher: string) returns (r: Result<Bytes>)
    ensures r == Decrypted(k, cipher)
  {
    var decoded := HexDecode(cipher);
    if decoded == None {
      return Ok([]);
    }
    var text, lastBlock := DecryptBlocks(k, decoded.value);
    if text == None {
      return Ok([]);
    }
    var size := Atoi(Chars(lastBlock));
    r := Slice(text.value, size, |cipher|);
  }

  /** The buffer of the last block is the one all blocks go through. */
  method DecryptBlocks(k: KeyBlock, all: Bytes) returns (text: Option<Bytes>, last: Bytes)
    ensures text == if |all| % 16 == 0 then Some(MapBlocks(k.dec, all)) else None
    ensures |all| % 16 == 0 ==> last == LastBlock(MapBlocks(k.dec, all))
  {
    var cipherBytes, textBytes: Bytes := all, [];
    var lastBlock: array?<Byte> := null;
    var dec := new Byte[16];
    while |cipherBytes| > 0
      invariant Mapping(k.dec, all, textBytes, cipherBytes)
      invariant if lastBlock == null then textBytes == [] else lastBlock == dec && |textBytes| >= 16
      invariant lastBlock != null ==> dec[..] == LastBlock(textBytes)
    {
      if |cipherBytes| < 16 {
        return None, [];
      }
      MappingNext(k.dec, all, textBytes, cipherBytes);
      var toDec := cipherBytes[..16];
      cipherBytes := cipherBytes[16..];
      k.Decrypt(dec, toDec);
      textBytes := textBytes + dec[..];
      lastBlock := dec;
    }
    MappingDone(k.dec, all, textBytes, cipherBytes);
    text := Some(textBytes);
    last := if lastBlock == null then [] else lastBlock[..];
  }

  // ---------- The round trip ----------

  lemma {:induction false} TrailerIsRead(text: Bytes, rand: nat -> Byte)
    requires |text| < LIMIT
    ensures var all := Container(text, rand);
            && |all| >= |text|
            && Atoi(Chars(LastBlock(all))) == |text| && all[..|text|] == text
  {
    SizeLength(|text|);
    SizeIsRead(|text|);
    FrontOf(text, Padding(PadLength(|text|), rand), Latin(Size(|text|)));
    LatinChars(Size(|text|));
  }

  lemma {:induction false} FrontOf(text: Bytes, pad: Bytes, block: Bytes)
    requires |block| == 16
    ensures LastBlock(text + pad + block) == block && (text + pad + block)[..|text|] == text
  {
  }

  lemma {:induction false} LatinChars(s: string)
    requires AllDigits(s)
    ensures Chars(Latin(s)) == s
  {
  }

  lemma {:induction false} TooLong(text: Bytes, rand: nat -> Byte)
    requires LIMIT <= |text| <= MAX_INT
    ensures |Container(text, rand)| % 16 != 0
  {
    LongSize(|text|);
    ThreeLengths(text, rand);
    NotWhole(|Container(text, rand)|, |text| + PadLength(|text|), |Size(|text|)|);
  }

  lemma {:induction false} ThreeLengths(text: Bytes, rand: nat -> Byte)
    ensures |Container(text, rand)| == |text| + PadLength(|text|) + |Size(|text|)|
    ensures (|text| + PadLength(|text|)) % 16 == 0
  {
  }

  lemma {:induction false} NotWhole(n: nat, a: nat, b: nat)
    requires n == a + b && a % 16 == 0 && 16 < b <= 19
    ensures n % 16 != 0
  {
  }

  lemma {:induction false} LongSize(n: nat)
    requires LIMIT <= n <= MAX_INT
    ensures 16 < |Size(n)| <= 19
  {
    LimitIsPow();
    assert Pow10(19) == 1000 * Pow10(16);
    DecimalLength(n, 16);
    DecimalLength(n, 19);
  }

  /**
   Whatever the key, the padding and the text: decrypting gives the text back, unless the text has
   10^16 bytes or more, and then it cannot be encrypted.
   */
  lemma {:induction false} RoundTrip(k: KeyBlock, text: Bytes, rand: nat -> Byte)
    requires k.Inverse() && |text| <= MAX_INT
    ensures var c := Encrypted(k, text, rand);
            && (c.Ok? <==> |text| < LIMIT)
            && (c.Ok? ==> Decrypted(k, c.value) == Ok(text) && |c.value| == 2 * (|text| + PadLength(|text|) + 16))
  {
    SizeLength(|text|);
    if |text| < LIMIT {
      ContainerLength(text, rand);
      TrailerIsRead(text, rand);
      OpensTo(k, Container(text, rand), text);
    } else {
      TooLong(text, rand);
    }
  }

  lemma {:induction false} ContainerLength(text: Bytes, rand: nat -> Byte)
    requires |text| < LIMIT
    ensures |Container(text, rand)| == |text| + PadLength(|text|) + 16 && |Container(text, rand)| % 16 == 0
  {
    SizeLength(|text|);
    ThreeLengths(text, rand);
    OneBlockMore(|text| + PadLength(|text|));
  }

  lemma {:induction false} OneBlockMore(n: nat)
    requires n % 16 == 0
    ensures (n + 16) % 16 == 0
  {
  }

  lemma {:induction false} OpensTo(k: KeyBlock, all: Bytes, text: Bytes)
    requires k.Inverse() && |all| % 16 == 0 && |text| <= |all|
    requires Atoi(Chars(LastBlock(all))) == |text| && all[..|text|] == text
    ensures Decrypted(k, HexEncode(MapBlocks(k.enc, all))) == Ok(text)
  {
    HexRoundTrip(MapBlocks(k.enc, all));
    BlocksRoundTrip(k, all);
  }
}
