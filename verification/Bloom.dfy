/** The filter of installed packages (src/ct_bloom/ct_bloom.go); the checksum is any function. */
module Bloom {
  import opened Results
  import opened Text

  const BYTES := 64
  const BITS := 512
  const HASHES := 7

  // ---------- Bits ----------

  function Bit(j: nat): bv8
    requires j < 8
  {
    if j == 0 then 128 else if j == 1 then 64 else if j == 2 then 32 else if j == 3 then 16
    else if j == 4 then 8 else if j == 5 then 4 else if j == 6 then 2 else 1
  }

  predicate HasBit(b: bv8, j: nat)
    requires j < 8
  {
    Bit(j) & b != 0
  }

  lemma {:induction false} AndCommutes(a: bv8, b: bv8)
    ensures a & b == b & a
  {
  }

  lemma {:induction false} OrSetsOne(b: bv8, i: nat, j: nat)
    requires i < 8 && j < 8
    ensures HasBit(b | Bit(i), j) <==> i == j || HasBit(b, j)
  {
  }

  /** The bits of a byte are numbered from the highest. */
  lemma {:induction false} BitFromTheTop(b: bv8, j: nat)
    requires j < 8
    ensures HasBit(b, j) <==> (b >> (7 - j)) & 1 == 1
  {
  }

  /** Whether bit `n` of the bytes is set. */
  predicate IsSet(bytes: seq<bv8>, n: nat)
    requires |bytes| == BYTES && n < BITS
  {
    HasBit(bytes[n / 8], n % 8)
  }

  ghost function BitsOf(bytes: seq<bv8>): set<nat>
    requires |bytes| == BYTES
  {
    set n: nat | n < BITS && IsSet(bytes, n)
  }

  lemma {:induction false} BitAt(bytes: seq<bv8>, i: nat, j: nat)
    requires |bytes| == BYTES && i < BYTES && j < 8
    ensures 8 * i + j in BitsOf(bytes) <==> HasBit(bytes[i], j)
  {
    assert (8 * i + j) / 8 == i && (8 * i + j) % 8 == j;
  }

  // ---------- Hashes ----------

  type Checksum = string -> nat

  /** The i-th hash: the checksum of the number i + 1 followed by the text. */
  function Hash(crc: Checksum, i: nat, s: string): (n: nat)
    ensures n < BITS
  {
    crc(Decimal(i + 1) + s) % BITS
  }

  /** The first hashes of a text. */
  function Hashes(crc: Checksum, s: string, k: nat): set<nat> {
    if k == 0 then {} else Hashes(crc, s, k - 1) + {Hash(crc, k - 1, s)}
  }

  lemma {:induction false} HashesAre(crc: Checksum, s: string, k: nat)
    ensures forall n :: n in Hashes(crc, s, k) <==> exists i: nat :: i < k && Hash(crc, i, s) == n
  {
    if k > 0 {
      HashesAre(crc, s, k - 1);
      assert Hash(crc, k - 1, s) in Hashes(crc, s, k);
    }
  }

  /** Seven hashes: of the text behind each of the digits 1 to 7, modulo 512. */
  function HashOf(crc: Checksum, digit: nat, s: string): nat { crc(Decimal(digit) + s) % 512 }

  lemma {:induction false} SevenHashes(crc: Checksum, s: string)
    ensures forall n :: n in Hashes(crc, s, HASHES) <==> exists d: nat :: 1 <= d <= 7 && HashOf(crc, d, s) == n
  {
    HashesAre(crc, s, HASHES);
    forall n | n in Hashes(crc, s, HASHES) ensures exists d: nat :: 1 <= d <= 7 && HashOf(crc, d, s) == n {
      var i: nat :| i < HASHES && Hash(crc, i, s) == n;
      assert HashOf(crc, i + 1, s) == n;
    }
    forall d: nat | 1 <= d <= 7 ensures HashOf(crc, d, s) in Hashes(crc, s, HASHES) {
      assert Hash(crc, d - 1, s) == HashOf(crc, d, s);
    }
  }

  // ---------- Lists of indexes ----------

  ghost predicate Increasing(s: seq<nat>) {
    forall i, j :: 0 <= i < j < |s| ==> s[i] < s[j]
  }

  ghost predicate NotFalling(s: seq<nat>) {
    forall i, j :: 0 <= i < j < |s| ==> s[i] <= s[j]
  }

  /** The numbers of a set below `n`, in order. */
  function Listing(bits: set<nat>, n: nat): seq<nat> {
    if n == 0 then [] else if n - 1 in bits then Listing(bits, n - 1) + [n - 1] else Listing(bits, n - 1)
  }

  /** That list is strictly increasing and holds exactly those numbers. */
  lemma {:induction false} ListingIs(bits: set<nat>, n: nat)
    ensures Increasing(Listing(bits, n)) && forall m :: m in Listing(bits, n) <==> m in bits && m < n
  {
    if n > 0 {
      ListingIs(bits, n - 1);
      var r := Listing(bits, n - 1);
      assert forall k :: 0 <= k < |r| ==> r[k] in r;
    }
  }

  lemma {:induction false} ListingNext(bytes: seq<bv8>, i: nat, j: nat)
    requires |bytes| == BYTES && i < BYTES && j < 8
    ensures var listed := Listing(BitsOf(bytes), 8 * i + j);
            Listing(BitsOf(bytes), 8 * i + j + 1) == if HasBit(bytes[i], j) then listed + [8 * i + j] else listed
  {
    BitAt(bytes, i, j);
  }

  /** The inner loop of GetIndex, over the bits of one byte. */
  method ListByte(b: bv8, i: nat, ghost bytes: seq<bv8>, before: seq<nat>) returns (rc: seq<nat>)
    requires |bytes| == BYTES && i < BYTES && b == bytes[i] && before == Listing(BitsOf(bytes), 8 * i)
    ensures rc == Listing(BitsOf(bytes), 8 * (i + 1))
  {
    rc := before;
    for j := 0 to 8
      invariant rc == Listing(BitsOf(bytes), 8 * i + j)
    {
      ListingNext(bytes, i, j);
      if HasBit(b, j) {
        rc := rc + [8 * i + j];
      }
    }
  }

  // ---------- The filter ----------

  class BloomFilter {
    const bucket: array<bv8>

    ghost predicate Valid() { bucket.Length == BYTES }

    ghost function Bits(): (bits: set<nat>)
      requires Valid()
      reads bucket
      ensures forall n: nat :: n in bits <==> n < BITS && IsSet(bucket[..], n)
    {
      BitsOf(bucket[..])
    }

    /** From the bytes of a stored filter, as many as there are. */
    constructor (bytes: seq<bv8>)
      ensures Valid() && fresh(bucket)
      ensures forall k :: 0 <= k < BYTES ==> bucket[k] == if k < |bytes| then bytes[k] else 0
    {
      bucket := new bv8[BYTES](i requires 0 <= i => if i < |bytes| then bytes[i] else 0);
    }

    method AddNum(n: nat)
      requires Valid() && n < BITS
      modifies bucket
      ensures Bits() == old(Bits()) + {n}
    {
      ghost var was := bucket[..];
      bucket[n / 8] := bucket[n / 8] | Bit(n % 8);
      forall m: nat | m < BITS ensures IsSet(bucket[..], m) <==> m == n || IsSet(was, m) {
        OrSetsOne(was[n / 8], n % 8, m % 8);
      }
    }

    method Add(crc: Checksum, s: string)
      requires Valid()
      modifies bucket
      ensures Bits() == old(Bits()) + Hashes(crc, s, HASHES)
    {
      for i := 0 to HASHES
        invariant Bits() == old(Bits()) + Hashes(crc, s, i)
      {
        AddNum(Hash(crc, i, s));
      }
    }

    method TestNum(n: nat) returns (isSet: bool)
      requires Valid() && n < BITS
      ensures isSet <==> n in Bits()
    {
      AndCommutes(bucket[n / 8], Bit(n % 8));
      isSet := bucket[n / 8] & Bit(n % 8) != 0;
    }

    method Test(crc: Checksum, s: string) returns (all: bool)
      requires Valid()
      ensures all <==> Hashes(crc, s, HASHES) <= Bits()
    {
      for i := 0 to HASHES
        invariant Hashes(crc, s, i) <= Bits()
      {
        var one := TestNum(Hash(crc, i, s));
        if !one {
          HashesAre(crc, s, HASHES);
          assert Hash(crc, i, s) in Hashes(crc, s, HASHES);
          return false;
        }
      }
      return true;
    }

    method TestAdd(crc: Checksum, s: string) returns (rc: bool)
      requires Valid()
      modifies bucket
      ensures rc <==> Hashes(crc, s, HASHES) <= old(Bits())
      ensures Bits() == old(Bits()) + Hashes(crc, s, HASHES)
    {
      rc := Test(crc, s);
      if !rc {
        Add(crc, s);
      }
    }

    method GetIndex() returns (rc: seq<nat>)
      requires Valid()
      ensures rc == Listing(Bits(), BITS)
    {
      rc := [];
      for i := 0 to BYTES
        invariant rc == Listing(BitsOf(bucket[..]), 8 * i)
      {
        rc := ListByte(bucket[i], i, bucket[..], rc);
      }
    }

    /** The indexes are tested in turn, and one that is out of range panics if it is reached. */
    method TestIndex(index: seq<nat>) returns (all: Result<bool>)
      requires Valid()
      ensures all == Panic <==> exists k :: 0 <= k < |index| && StopsBeyond(index, k, Bits())
      ensures all == Ok(true) <==> forall n :: n in index ==> n in Bits()
    {
      for k := 0 to |index|
        invariant forall m :: 0 <= m < k ==> index[m] in Bits()
      {
        if index[k] >= BITS {
          assert StopsBeyond(index, k, Bits());
          assert index[k] in index;
          return Panic;
        }
        var one := TestNum(index[k]);
        if !one {
          assert index[k] in index;
          return Ok(false);
        }
      }
      return Ok(true);
    }
  }

  /** The index at `k` is out of range, and all before it are set. */
  ghost predicate StopsBeyond(index: seq<nat>, k: nat, bits: set<nat>)
    requires k < |index|
  {
    index[k] >= BITS && forall m :: 0 <= m < k ==> index[m] in bits
  }

  // ---------- Sorting ----------

  function Insert(s: seq<nat>, x: nat): seq<nat> {
    if s == [] then [x]
    else if s[|s| - 1] <= x then s + [x]
    else Insert(s[..|s| - 1], x) + [s[|s| - 1]]
  }

  /** sort.Sort */
  function Sorted(s: seq<nat>): seq<nat> {
    if s == [] then [] else Insert(Sorted(s[..|s| - 1]), s[|s| - 1])
  }

  lemma {:induction false} InsertAdds(s: seq<nat>, x: nat)
    ensures multiset(Insert(s, x)) == multiset(s) + multiset{x}
  {
    if s != [] && s[|s| - 1] > x {
      InsertAdds(s[..|s| - 1], x);
      assert s == s[..|s| - 1] + [s[|s| - 1]];
    }
  }

  lemma {:induction false} InsertBelow(s: seq<nat>, x: nat, m: nat)
    requires x <= m && forall k :: 0 <= k < |s| ==> s[k] <= m
    ensures forall k :: 0 <= k < |Insert(s, x)| ==> Insert(s, x)[k] <= m
  {
    if s != [] && s[|s| - 1] > x {
      InsertBelow(s[..|s| - 1], x, m);
    }
  }

  lemma {:induction false} InsertOrders(s: seq<nat>, x: nat)
    requires NotFalling(s)
    ensures NotFalling(Insert(s, x))
  {
    if s != [] && s[|s| - 1] > x {
      InsertOrders(s[..|s| - 1], x);
      InsertBelow(s[..|s| - 1], x, s[|s| - 1]);
    }
  }

  lemma {:induction false} SortedIs(s: seq<nat>)
    ensures NotFalling(Sorted(s)) && multiset(Sorted(s)) == multiset(s)
  {
    if s != [] {
      var n := |s| - 1;
      SortedIs(s[..n]);
      InsertAdds(Sorted(s[..n]), s[n]);
      InsertOrders(Sorted(s[..n]), s[n]);
      assert s == s[..n] + [s[n]];
    }
  }

  function HashList(crc: Checksum, s: string, k: nat): (r: seq<nat>)
    ensures |r| == k && forall i :: 0 <= i < k ==> r[i] == Hash(crc, i, s)
  {
    if k == 0 then [] else HashList(crc, s, k - 1) + [Hash(crc, k - 1, s)]
  }

  /** The hashes of a text in order; equal hashes are listed as often as they come. */
  function Indexes(crc: Checksum, s: string): seq<nat> {
    Sorted(HashList(crc, s, HASHES))
  }

  /** The seven hashes, each as often as it comes, none before a smaller one. */
  lemma {:induction false} IndexesAre(crc: Checksum, s: string)
    ensures NotFalling(Indexes(crc, s))
    ensures multiset(Indexes(crc, s)) == multiset(seq(7, i requires 0 <= i < 7 => HashOf(crc, i + 1, s)))
  {
    SortedIs(HashList(crc, s, HASHES));
    assert HashList(crc, s, HASHES) == seq(7, i requires 0 <= i < 7 => HashOf(crc, i + 1, s));
  }

  method CalcIndexes(crc: Checksum, s: string) returns (rc: seq<nat>)
    ensures rc == Indexes(crc, s)
    ensures forall n :: n in rc <==> n in Hashes(crc, s, HASHES)
  {
    rc := [];
    for i := 0 to HASHES
      invariant rc == HashList(crc, s, i)
    {
      rc := rc + [Hash(crc, i, s)];
    }
    rc := Sorted(rc);
    IndexesAreHashes(crc, s);
  }

  // ---------- Runs ----------

  /** The bits after some texts were added, each by Add or by TestAdd. */
  function Grown(crc: Checksum, bits: set<nat>, texts: seq<string>): set<nat> {
    if texts == [] then bits
    else Grown(crc, bits, texts[..|texts| - 1]) + Hashes(crc, texts[|texts| - 1], HASHES)
  }

  /** Some text put bit `n` in. */
  ghost predicate PutIn(crc: Checksum, texts: seq<string>, n: nat) {
    exists t: nat, d: nat :: t < |texts| && 1 <= d <= 7 && HashOf(crc, d, texts[t]) == n
  }

  lemma {:induction false} PutInMore(crc: Checksum, texts: seq<string>, n: nat)
    requires texts != []
    ensures PutIn(crc, texts, n) <==>
            PutIn(crc, texts[..|texts| - 1], n) || n in Hashes(crc, texts[|texts| - 1], HASHES)
  {
    var k := |texts| - 1;
    SevenHashes(crc, texts[k]);
    if PutIn(crc, texts, n) {
      var t: nat, d: nat :| t < |texts| && 1 <= d <= 7 && HashOf(crc, d, texts[t]) == n;
      assert t < k ==> texts[..k][t] == texts[t];
    }
    if PutIn(crc, texts[..k], n) {
      var t: nat, d: nat :| t < k && 1 <= d <= 7 && HashOf(crc, d, texts[..k][t]) == n;
      assert HashOf(crc, d, texts[t]) == n;
    }
    if n in Hashes(crc, texts[k], HASHES) {
      var d: nat :| 1 <= d <= 7 && HashOf(crc, d, texts[k]) == n;
    }
  }

  /** Exactly the bits of the texts are added, seven for each, and so every one of them tests true ever after. */
  lemma {:induction false} BitsAreUnion(crc: Checksum, bits: set<nat>, texts: seq<string>)
    ensures forall n :: n in Grown(crc, bits, texts) <==> n in bits || PutIn(crc, texts, n)
    ensures forall t :: 0 <= t < |texts| ==> Hashes(crc, texts[t], HASHES) <= Grown(crc, bits, texts)
  {
    if texts != [] {
      BitsAreUnion(crc, bits, texts[..|texts| - 1]);
      forall n ensures n in Grown(crc, bits, texts) <==> n in bits || PutIn(crc, texts, n) {
        PutInMore(crc, texts, n);
      }
    }
  }

  // ---------- Indexes ----------

  lemma {:induction false} IndexesAreHashes(crc: Checksum, s: string)
    ensures forall n :: n in Indexes(crc, s) <==> n in Hashes(crc, s, HASHES)
  {
    var list, indexes := HashList(crc, s, HASHES), Indexes(crc, s);
    HashesAre(crc, s, HASHES);
    SortedIs(list);
    forall n ensures n in indexes <==> n in Hashes(crc, s, HASHES) {
      assert n in indexes <==> n in multiset(indexes);
      assert n in list <==> n in multiset(list);
    }
  }

  /** Testing a text is testing its indexes. */
  lemma {:induction false} TestIsTestIndex(crc: Checksum, s: string, bits: set<nat>)
    ensures Hashes(crc, s, HASHES) <= bits <==> forall n :: n in Indexes(crc, s) ==> n in bits
  {
    IndexesAreHashes(crc, s);
  }

  ghost predicate Differ(s: seq<nat>) {
    forall i, j :: 0 <= i < j < |s| ==> s[i] != s[j]
  }

  lemma {:induction false} DifferOnce(s: seq<nat>)
    requires Differ(s)
    ensures forall x :: multiset(s)[x] <= 1
  {
    if s != [] {
      var n := |s| - 1;
      DifferOnce(s[..n]);
      assert s == s[..n] + [s[n]];
      assert s[n] !in s[..n];
      assert s[n] !in multiset(s[..n]);
    }
  }

  lemma {:induction false} OnceDiffer(s: seq<nat>)
    requires forall x :: multiset(s)[x] <= 1
    ensures Differ(s)
  {
    forall i, j | 0 <= i < j < |s| ensures s[i] != s[j] {
      assert s == s[..j] + [s[j]] + s[j + 1..];
      assert s[i] in s[..j];
      assert multiset(s)[s[j]] >= 1 + multiset(s[..j])[s[j]];
    }
  }

  ghost predicate SameElements(a: seq<nat>, b: seq<nat>) {
    forall x :: x in a <==> x in b
  }

  lemma {:induction false} LastOfIncreasing(a: seq<nat>)
    requires Increasing(a) && a != []
    ensures forall x :: x in a[..|a| - 1] <==> x in a && x < a[|a| - 1]
    ensures forall x :: x in a ==> x <= a[|a| - 1]
    ensures a[|a| - 1] in a
  {
  }

  lemma {:induction false} SameLast(a: seq<nat>, b: seq<nat>)
    requires Increasing(a) && Increasing(b) && SameElements(a, b) && a != [] && b != []
    ensures a[|a| - 1] == b[|b| - 1] && SameElements(a[..|a| - 1], b[..|b| - 1])
  {
    LastOfIncreasing(a);
    LastOfIncreasing(b);
    assert a[|a| - 1] in b && b[|b| - 1] in a;
    var a', b' := a[..|a| - 1], b[..|b| - 1];
    forall x ensures x in a' <==> x in b' {
      assert x in a <==> x in b;
    }
  }

  lemma {:induction false} OneIncreasing(a: seq<nat>, b: seq<nat>)
    requires Increasing(a) && Increasing(b) && SameElements(a, b)
    ensures a == b
  {
    assert a != [] ==> a[0] in a;
    assert b != [] ==> b[0] in b;
    if a != [] && b != [] {
      SameLast(a, b);
      OneIncreasing(a[..|a| - 1], b[..|b| - 1]);
      assert a == a[..|a| - 1] + [a[|a| - 1]];
      assert b == b[..|b| - 1] + [b[|b| - 1]];
    }
  }

  /** The indexes of a filter that holds one text are the text's own if and only if its hashes all differ. */
  lemma {:induction false} SingleIndexes(crc: Checksum, s: string)
    ensures Listing(Hashes(crc, s, HASHES), BITS) == Indexes(crc, s)
            <==> forall i, j :: 0 <= i < j < HASHES ==> Hash(crc, i, s) != Hash(crc, j, s)
  {
    var listed, list := Listing(Hashes(crc, s, HASHES), BITS), HashList(crc, s, HASHES);
    ListingIs(Hashes(crc, s, HASHES), BITS);
    if Differ(list) {
      ListedAreHashes(crc, s);
      SortedIncreases(list);
      OneIncreasing(listed, Sorted(list));
    } else if listed == Sorted(list) {
      SortedIs(list);
      DifferOnce(listed);
      OnceDiffer(list);
    }
  }

  lemma {:induction false} SortedIncreases(list: seq<nat>)
    requires Differ(list)
    ensures Increasing(Sorted(list))
  {
    SortedIs(list);
    DifferOnce(list);
    OnceDiffer(Sorted(list));
  }

  lemma {:induction false} ListedAreHashes(crc: Checksum, s: string)
    ensures SameElements(Listing(Hashes(crc, s, HASHES), BITS), Indexes(crc, s))
  {
    IndexesAreHashes(crc, s);
    HashesAre(crc, s, HASHES);
    ListingIs(Hashes(crc, s, HASHES), BITS);
  }
}
