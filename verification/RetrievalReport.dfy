/**
 The counters of a sampling minute and the top lists made of them
 (src/status/retrieval_report.go, src/status/request.go).
 */
module RetrievalReport {
  import opened Options
  import opened Results
  import opened GoHeap

  // ---------- Requests and counters ----------

  datatype Request = Request(numReq: int, numFilled: int, country: string, platform: string,
                             adtype: string, slotid: string, offers: seq<string>)
  {
    /** As ctxToReq leaves a request. */
    predicate Ok() { |offers| == numFilled <= numReq }
  }

  /** The fields of the request context that ctxToReq reads; it raises adNum in place. */
  class Context {
    var adNum: int
    const country: string
    const platform: string
    const adType: string
    const slotId: string

    constructor (adNum: int, country: string, platform: string, adType: string, slotId: string)
      ensures this.adNum == adNum && this.country == country && this.platform == platform
      ensures this.adType == adType && this.slotId == slotId
    {
      this.adNum, this.country, this.platform, this.adType, this.slotId := adNum, country, platform, adType, slotId;
    }
  }

  method CtxToReq(ctx: Context, offers: seq<string>) returns (r: Request)
    modifies ctx
    ensures r.Ok() && r.offers == offers && ctx.adNum == r.numReq
    ensures r.numReq == if old(ctx.adNum) < |offers| then |offers| else old(ctx.adNum)
    ensures r.country == ctx.country && r.platform == ctx.platform && r.adtype == ctx.adType && r.slotid == ctx.slotId
  {
    if ctx.adNum < |offers| {
      ctx.adNum := |offers|;
    }
    r := Request(ctx.adNum, |offers|, ctx.country, ctx.platform, ctx.adType, ctx.slotId, offers);
  }

  /** A counter; its fill rate is printed from these two and not kept here. */
  datatype Elem = Elem(req: int, filled: int) {
    function Plus(e: Elem): Elem { Elem(req + e.req, filled + e.filled) }
  }

  const ZERO := Elem(0, 0)

  function Amount(r: Request): Elem { Elem(r.numReq, r.numFilled) }

  type Counters = map<string, Elem>

  /** What an update of one counter does to its map: AddReq on the element, or a new one. */
  function Bump(m: Counters, k: string, e: Elem): Counters {
    m[k := if k in m then m[k].Plus(e) else e]
  }

  // ---------- Recording ----------

  datatype Maps = Maps(iosCountry: Counters, androidCountry: Counters, iosAdType: Counters,
                       androidAdType: Counters, slot: Counters, offer: Counters)

  const PROMOTE := "8"

  function BumpOffers(m: Counters, offers: seq<string>): Counters {
    if offers == [] then m
    else Bump(BumpOffers(m, offers[..|offers| - 1]), offers[|offers| - 1], Elem(1, 1))
  }

  /** The counter by ad type, which comes first. */
  function RecordAdType(m: Maps, r: Request): Maps {
    if r.platform == "iOS"
    then m.(iosAdType := Bump(m.iosAdType, r.adtype, Amount(r)))
    else m.(androidAdType := Bump(m.androidAdType, r.adtype, Amount(r)))
  }

  function RecordPlatform(m: Maps, r: Request): Maps {
    var n := RecordAdType(m, r);
    if r.platform == "iOS"
    then n.(iosCountry := Bump(n.iosCountry, r.country, Amount(r)))
    else n.(androidCountry := Bump(n.androidCountry, r.country, Amount(r)))
  }

  /** Promotions are not counted by slot and offer. */
  function RecordSlot(m: Maps, r: Request): Maps {
    if r.adtype == PROMOTE then m
    else m.(slot := Bump(m.slot, r.slotid, Amount(r)), offer := BumpOffers(m.offer, r.offers))
  }

  function Record(m: Maps, r: Request): Maps { RecordSlot(RecordPlatform(m, r), r) }

  function RecordAll(log: seq<Request>): Maps {
    if log == [] then Maps(map[], map[], map[], map[], map[], map[])
    else Record(RecordAll(log[..|log| - 1]), log[|log| - 1])
  }

  // ---------- Totals ----------

  ghost function Total(m: Counters): Elem
    decreases |m|
  {
    if m == map[] then ZERO else
    var k :| k in m;
    m[k].Plus(Total(m - {k}))
  }

  lemma {:induction false} TotalWithout(m: Counters, k: string)
    requires k in m
    ensures Total(m) == m[k].Plus(Total(m - {k}))
    decreases |m|
  {
    var j :| j in m && Total(m) == m[j].Plus(Total(m - {j}));
    if j == k {
      assert Total(m) == m[k].Plus(Total(m - {k}));
    } else {
      TotalWithout(m - {j}, k);
      TotalWithout(m - {k}, j);
      assert m - {j} - {k} == m - {k} - {j};
      var rest := m - {j} - {k};
      assert Total(m - {j}) == m[k].Plus(Total(rest));
      assert Total(m - {k}) == m[j].Plus(Total(rest));
      assert Total(m) == m[j].Plus(m[k].Plus(Total(rest)));
      assert m[j].Plus(m[k].Plus(Total(rest))) == m[k].Plus(m[j].Plus(Total(rest)));
    }
  }

  lemma {:induction false} TotalBump(m: Counters, k: string, e: Elem)
    ensures Total(Bump(m, k, e)) == Total(m).Plus(e)
  {
    var b := Bump(m, k, e);
    TotalWithout(b, k);
    if k in m {
      TotalWithout(m, k);
      assert b - {k} == m - {k};
    } else {
      assert b - {k} == m;
    }
  }

  lemma {:induction false} TotalBumpOffers(m: Counters, offers: seq<string>)
    ensures Total(BumpOffers(m, offers)) == Total(m).Plus(Elem(|offers|, |offers|))
  {
    if offers != [] {
      var n := |offers| - 1;
      TotalBumpOffers(m, offers[..n]);
      TotalBump(BumpOffers(m, offers[..n]), offers[n], Elem(1, 1));
    }
  }

  /** Nothing is filled that was not requested. */
  ghost predicate FilledWithin(m: Counters) {
    forall k :: k in m ==> 0 <= m[k].filled <= m[k].req
  }

  /** The maps tell of the same requests. */
  ghost predicate Consistent(m: Maps) {
    && Total(m.iosAdType) == Total(m.iosCountry)
    && Total(m.androidAdType) == Total(m.androidCountry)
    && Total(m.slot).filled == Total(m.offer).filled == Total(m.offer).req
    && FilledWithin(m.iosAdType) && FilledWithin(m.iosCountry)
    && FilledWithin(m.androidAdType) && FilledWithin(m.androidCountry)
    && FilledWithin(m.slot) && FilledWithin(m.offer)
  }

  lemma {:induction false} BumpOffersWithin(m: Counters, offers: seq<string>)
    requires FilledWithin(m)
    ensures FilledWithin(BumpOffers(m, offers))
  {
    if offers != [] {
      BumpOffersWithin(m, offers[..|offers| - 1]);
    }
  }

  lemma {:induction false} RecordPlatformKeeps(m: Maps, r: Request)
    requires Consistent(m) && r.Ok()
    ensures Consistent(RecordPlatform(m, r))
  {
    var e := Amount(r);
    if r.platform == "iOS" {
      BumpKeeps(m.iosAdType, r.adtype, e);
      BumpKeeps(m.iosCountry, r.country, e);
    } else {
      BumpKeeps(m.androidAdType, r.adtype, e);
      BumpKeeps(m.androidCountry, r.country, e);
    }
  }

  lemma {:induction false} RecordKeeps(m: Maps, r: Request)
    requires Consistent(m) && r.Ok()
    ensures Consistent(Record(m, r))
  {
    RecordPlatformKeeps(m, r);
    if r.adtype != PROMOTE {
      var n := RecordPlatform(m, r);
      BumpKeeps(n.slot, r.slotid, Amount(r));
      BumpOffersKeeps(n.offer, r.offers);
    }
  }

  lemma {:induction false} BumpOffersKeeps(m: Counters, offers: seq<string>)
    requires FilledWithin(m)
    ensures FilledWithin(BumpOffers(m, offers))
    ensures Total(BumpOffers(m, offers)) == Total(m).Plus(Elem(|offers|, |offers|))
  {
    TotalBumpOffers(m, offers);
    BumpOffersWithin(m, offers);
  }

  lemma {:induction false} BumpKeeps(m: Counters, k: string, e: Elem)
    requires FilledWithin(m) && 0 <= e.filled <= e.req
    ensures FilledWithin(Bump(m, k, e)) && Total(Bump(m, k, e)) == Total(m).Plus(e)
  {
    TotalBump(m, k, e);
  }

  /** After any requests, the country and ad-type maps of a platform, and the slot and offer maps, agree. */
  lemma {:induction false} MapsAgree(log: seq<Request>)
    requires forall i :: 0 <= i < |log| ==> log[i].Ok()
    ensures Consistent(RecordAll(log))
  {
    if log != [] {
      MapsAgree(log[..|log| - 1]);
      RecordKeeps(RecordAll(log[..|log| - 1]), log[|log| - 1]);
    }
  }

  // ---------- What each counter counts ----------

  /** The dimensions with one key per request; None where a request is not counted. */
  datatype Dim = IosCountry | AndroidCountry | IosAdType | AndroidAdType | Slot {
    function Key(r: Request): Option<string> {
      match this
      case IosCountry => if r.platform == "iOS" then Some(r.country) else None
      case AndroidCountry => if r.platform == "iOS" then None else Some(r.country)
      case IosAdType => if r.platform == "iOS" then Some(r.adtype) else None
      case AndroidAdType => if r.platform == "iOS" then None else Some(r.adtype)
      case Slot => if r.adtype == "8" then None else Some(r.slotid)
    }

    function Of(m: Maps): Counters {
      match this
      case IosCountry => m.iosCountry
      case AndroidCountry => m.androidCountry
      case IosAdType => m.iosAdType
      case AndroidAdType => m.androidAdType
      case Slot => m.slot
    }
  }

  /** The requests of the log that fall under a key, added up. */
  function Tally(log: seq<Request>, d: Dim, k: string): Elem {
    if log == [] then Elem(0, 0) else
    var rest := Tally(log[..|log| - 1], d, k);
    var r := log[|log| - 1];
    if d.Key(r) == Some(k) then Elem(rest.req + r.numReq, rest.filled + r.numFilled) else rest
  }

  ghost predicate Counted(log: seq<Request>, d: Dim, k: string) {
    exists i :: 0 <= i < |log| && d.Key(log[i]) == Some(k)
  }

  lemma {:induction false} CountedSplit(log: seq<Request>, d: Dim, k: string)
    requires log != []
    ensures Counted(log, d, k) <==> Counted(log[..|log| - 1], d, k) || d.Key(log[|log| - 1]) == Some(k)
  {
    var n := |log| - 1;
    assert forall i :: 0 <= i < n ==> log[..n][i] == log[i];
    if Counted(log, d, k) {
      var i :| 0 <= i < |log| && d.Key(log[i]) == Some(k);
      assert i < n ==> d.Key(log[..n][i]) == Some(k);
    }
    if Counted(log[..n], d, k) {
      var i :| 0 <= i < n && d.Key(log[..n][i]) == Some(k);
      assert d.Key(log[i]) == Some(k);
    }
  }

  lemma {:induction false} TallyNothing(log: seq<Request>, d: Dim, k: string)
    requires !Counted(log, d, k)
    ensures Tally(log, d, k) == ZERO
  {
    if log != [] {
      CountedSplit(log, d, k);
      TallyNothing(log[..|log| - 1], d, k);
    }
  }

  /** Every counter is exactly the sum over the requests of its key, and exists only if there are any. */
  lemma {:induction false} CountersAreTallies(log: seq<Request>, d: Dim, k: string)
    ensures k in d.Of(RecordAll(log)) <==> Counted(log, d, k)
    ensures k in d.Of(RecordAll(log)) ==> d.Of(RecordAll(log))[k] == Tally(log, d, k)
  {
    if log != [] {
      var n := |log| - 1;
      CountersAreTallies(log[..n], d, k);
      TallyMore(log, d, k);
    }
  }

  lemma {:induction false} TallyMore(log: seq<Request>, d: Dim, k: string)
    requires log != []
    requires var m := d.Of(RecordAll(log[..|log| - 1]));
             && (k in m <==> Counted(log[..|log| - 1], d, k))
             && (k in m ==> m[k] == Tally(log[..|log| - 1], d, k))
    ensures var m := d.Of(RecordAll(log)); (k in m <==> Counted(log, d, k)) && (k in m ==> m[k] == Tally(log, d, k))
  {
    var n := |log| - 1;
    CountedSplit(log, d, k);
    if !Counted(log[..n], d, k) { TallyNothing(log[..n], d, k); }
    RecordAt(RecordAll(log[..n]), log[n], d);
  }

  lemma {:induction false} RecordAt(m: Maps, r: Request, d: Dim)
    ensures d.Of(Record(m, r)) == match d.Key(r) case Some(k) => Bump(d.Of(m), k, Amount(r)) case None => d.Of(m)
  {
  }

  lemma {:induction false} SlotsApart(n: Maps, r: Request)
    ensures RecordSlot(n, r).iosAdType == n.iosAdType && RecordSlot(n, r).androidAdType == n.androidAdType
  {
  }

  lemma {:induction false} PlatformKeeps(m: Maps, r: Request)
    ensures var n := RecordAdType(m, r);
            RecordPlatform(m, r) == n.(iosCountry := RecordPlatform(m, r).iosCountry,
                                       androidCountry := RecordPlatform(m, r).androidCountry)
  {
    var n := RecordAdType(m, r);
    if r.platform == "iOS" {
      assert RecordPlatform(m, r) == n.(iosCountry := Bump(n.iosCountry, r.country, Amount(r)));
    } else {
      assert RecordPlatform(m, r) == n.(androidCountry := Bump(n.androidCountry, r.country, Amount(r)));
    }
  }

  /** What a panic leaves of a request: it is counted by ad type, as any request is, and nowhere else. */
  lemma {:induction false} AdTypeComesFirst(m: Maps, r: Request)
    ensures var n := Record(m, r);
            RecordAdType(m, r) == m.(iosAdType := n.iosAdType, androidAdType := n.androidAdType)
  {
    PlatformKeeps(m, r);
    SlotsApart(RecordPlatform(m, r), r);
  }

  /** An offer's counter is the number of times requests other than promotions returned it. */
  function Served(log: seq<Request>, oid: string): nat {
    if log == [] then 0 else
    var r := log[|log| - 1];
    Served(log[..|log| - 1], oid) + if r.adtype == "8" then 0 else multiset(r.offers)[oid]
  }

  lemma {:induction false} BumpOffersAt(m: Counters, offers: seq<string>, oid: string)
    ensures var n := multiset(offers)[oid];
            var b := BumpOffers(m, offers);
            && (oid in b <==> oid in m || n > 0)
            && (oid in b ==> b[oid] == (if oid in m then m[oid] else ZERO).Plus(Elem(n, n)))
  {
    if offers != [] {
      var k := |offers| - 1;
      assert offers == offers[..k] + [offers[k]];
      BumpOffersAt(m, offers[..k], oid);
    }
  }

  lemma {:induction false} OffersAreServed(log: seq<Request>, oid: string)
    ensures var n := Served(log, oid);
            var m := RecordAll(log).offer;
            (oid in m <==> n > 0) && (oid in m ==> m[oid] == Elem(n, n))
  {
    if log != [] {
      var k := |log| - 1;
      OffersAreServed(log[..k], oid);
      BumpOffersAt(RecordAll(log[..k]).offer, log[k].offers, oid);
    }
  }

  // ---------- The top of a map ----------

  datatype Item = Item(key: string, elem: Elem)

  /** The queue serves the most requested first. */
  function Rank(x: Item): int { -x.elem.req }

  /** `keys` are the `top` most requested keys of `src`, or all of them if there are fewer. */
  ghost predicate IsTop(src: Counters, keys: set<string>, top: int) {
    && keys <= src.Keys
    && |keys| == (if top < 0 then 0 else if top < |src| then top else |src|)
    && forall a, b :: a in keys && b in src && b !in keys ==> src[a].req >= src[b].req
  }

  /** The items of some keys, each once. */
  ghost function Bag(src: Counters, keys: set<string>): multiset<Item>
    requires keys <= src.Keys
  {
    multiset(set k | k in keys :: Item(k, src[k]))
  }

  lemma {:induction false} BagMore(src: Counters, keys: set<string>, k: string)
    requires keys <= src.Keys && k in src && k !in keys
    ensures Bag(src, keys + {k}) == Bag(src, keys) + multiset{Item(k, src[k])}
  {
  }

  ghost predicate Heads(x: Item, queue: multiset<Item>) {
    forall y: Item :: y in queue ==> y.elem.req <= x.elem.req
  }

  class PriorityQueue {
    const h: Slice<Item>

    ghost predicate Valid()
      reads this, h
    {
      h.rank == Rank && IsHeap(Rank, h.s)
    }

    constructor ()
      ensures Valid() && fresh(h) && h.s == []
    {
      h := new Slice(Rank);
    }

    /** heap.Push */
    method Push(x: Item)
      requires Valid()
      modifies h
      ensures Valid() && multiset(h.s) == multiset(old(h.s)) + multiset{x}
    {
      PushKeepsHeap(Rank, h.s, x);
      h.s := h.s + [x];
      h.SiftUp(|h.s| - 1);
    }

    /** heap.Pop */
    method Pop() returns (x: Item)
      requires Valid() && h.s != []
      modifies h
      ensures Valid() && multiset(old(h.s)) == multiset(h.s) + multiset{x}
      ensures Heads(x, multiset(old(h.s)))
    {
      PopServesLeast(Rank, h.s);
      ghost var all := h.s;
      var n := |h.s| - 1;
      h.SwapAt(0, n);
      h.SiftDown(0, n);
      x := h.s[n];
      h.s := h.s[..n];
      assert Heads(x, multiset(all)) by {
        forall y: Item | y in multiset(all) ensures y.elem.req <= x.elem.req {
          assert y in all;
          assert Rank(x) <= Rank(y);
        }
      }
    }
  }

  /** Some of a map's counters, under their own keys. */
  function Pick(src: Counters, keys: set<string>): Counters
    requires keys <= src.Keys
  {
    map k | k in keys :: src[k]
  }

  lemma {:induction false} PickMore(dst: Counters, src: Counters, keys: set<string>, k: string)
    requires keys <= src.Keys && k in src
    ensures (dst + Pick(src, keys))[k := src[k]] == dst + Pick(src, keys + {k})
  {
  }

  /** dst[item.Key] = item.Elem for one item after the other. */
  function Store(dst: Counters, items: seq<Item>): Counters {
    if items == [] then dst
    else Store(dst, items[..|items| - 1])[items[|items| - 1].key := items[|items| - 1].elem]
  }

  lemma {:induction false} StoreNext(dst: Counters, items: seq<Item>, x: Item)
    ensures Store(dst, items + [x]) == Store(dst, items)[x.key := x.elem]
  {
    assert (items + [x])[..|items|] == items;
  }

  /** Items taken out of a map's bag have different keys, and storing them copies their counters. */
  lemma {:induction false} StoreIsPick(dst: Counters, src: Counters, items: seq<Item>) returns (keys: set<string>)
    requires multiset(items) <= Bag(src, src.Keys)
    ensures keys <= src.Keys && |keys| == |items| && multiset(items) == Bag(src, keys)
    ensures Store(dst, items) == dst + Pick(src, keys)
  {
    if items == [] {
      keys := {};
    } else {
      var n := |items| - 1;
      var x, init := items[n], items[..n];
      assert items == init + [x];
      StoreNext(dst, init, x);
      var before := StoreIsPick(dst, src, init);
      InBag(src, src.Keys, x);
      assert multiset(items)[x] <= Bag(src, src.Keys)[x] <= 1;
      InBag(src, before, x);
      BagMore(src, before, x.key);
      PickMore(dst, src, before, x.key);
      keys := before + {x.key};
    }
  }

  lemma {:induction false} InBag(src: Counters, keys: set<string>, x: Item)
    requires keys <= src.Keys
    ensures x in Bag(src, keys) <==> x.key in keys && x.elem == src[x.key]
    ensures Bag(src, keys)[x] <= 1
  {
  }

  lemma {:induction false} StoredOutrank(src: Counters, queue: multiset<Item>, items: seq<Item>, keys: set<string>,
                                         a: string, b: string)
    requires Taking(queue, items, Bag(src, src.Keys))
    requires keys <= src.Keys && multiset(items) == Bag(src, keys)
    requires a in keys && b in src && b !in keys
    ensures src[a].req >= src[b].req
  {
    var x, y := Item(a, src[a]), Item(b, src[b]);
    InBag(src, keys, x);
    InBag(src, keys, y);
    InBag(src, src.Keys, y);
    assert x in multiset(items) && y in queue + multiset(items);
  }

  /** Taking the most requested of a queue one by one yields a top of the map. */
  lemma {:induction false} TakenAreTop(dst: Counters, src: Counters, queue: multiset<Item>, items: seq<Item>, top: int)
    returns (keys: set<string>)
    requires Taking(queue, items, Bag(src, src.Keys))
    requires if queue == multiset{} then |items| <= Quota(top) else |items| == Quota(top)
    ensures IsTop(src, keys, top) && Store(dst, items) == dst + Pick(src, keys)
  {
    keys := StoreIsPick(dst, src, items);
    forall a, b | a in keys && b in src && b !in keys ensures src[a].req >= src[b].req {
      StoredOutrank(src, queue, items, keys, a, b);
    }
    if queue == multiset{} { AllTaken(src, keys); }
    SubsetSize(keys, src.Keys);
  }

  lemma {:induction false} AllTaken(src: Counters, keys: set<string>)
    requires keys <= src.Keys && Bag(src, keys) == Bag(src, src.Keys)
    ensures keys == src.Keys
  {
    forall b | b in src ensures b in keys {
      InBag(src, src.Keys, Item(b, src[b]));
      InBag(src, keys, Item(b, src[b]));
    }
  }

  lemma {:induction false} SubsetSize(a: set<string>, b: set<string>)
    requires a <= b
    ensures |a| <= |b| && (|a| == |b| ==> a == b)
  {
    assert b == a + (b - a);
  }

  /** The first loop of setTop: everything is queued, in whatever order the map is ranged over. */
  method Enqueue(src: Counters, order: seq<string>) returns (pq: PriorityQueue)
    requires Ranges(order, src)
    ensures fresh(pq) && fresh(pq.h) && pq.Valid() && multiset(pq.h.s) == Bag(src, src.Keys)
  {
    pq := new PriorityQueue();
    for i := 0 to |order|
      invariant pq.Valid() && fresh(pq) && fresh(pq.h)
      invariant KeySet(order[..i]) <= src.Keys && multiset(pq.h.s) == Bag(src, KeySet(order[..i]))
    {
      var k := order[i];
      KeysNext(src, order, i);
      BagMore(src, KeySet(order[..i]), k);
      pq.Push(Item(k, src[k]));
    }
    assert order[..|order|] == order;
  }

  function KeySet(ks: seq<string>): set<string> { set k | k in ks }

  lemma {:induction false} KeysNext(src: Counters, order: seq<string>, i: nat)
    requires Ranges(order, src) && i < |order|
    ensures order[i] in src && order[i] !in KeySet(order[..i])
    ensures KeySet(order[..i + 1]) == KeySet(order[..i]) + {order[i]}
  {
    assert order[..i + 1] == order[..i] + [order[i]];
    assert order[i] in KeySet(order);
  }

  ghost predicate Outrank(items: seq<Item>, queue: multiset<Item>) {
    forall x: Item, y: Item :: x in items && y in queue ==> y.elem.req <= x.elem.req
  }

  lemma {:induction false} OutrankNext(items: seq<Item>, queue: multiset<Item>, queue': multiset<Item>, x: Item)
    requires Outrank(items, queue) && queue == queue' + multiset{x}
    requires Heads(x, queue)
    ensures Outrank(items + [x], queue')
    ensures queue' + multiset(items + [x]) == queue + multiset(items)
  {
    forall y: Item | y in queue' ensures y in queue {
    }
  }

  /** Some of the items have been taken, most requested first, and the rest are still queued. */
  ghost predicate Taking(queue: multiset<Item>, items: seq<Item>, all: multiset<Item>) {
    queue + multiset(items) == all && Outrank(items, queue)
  }

  lemma {:induction false} TakingNext(queue: multiset<Item>, items: seq<Item>, all: multiset<Item>,
                                      queue': multiset<Item>, x: Item)
    requires Taking(queue, items, all) && queue == queue' + multiset{x}
    requires Heads(x, queue)
    ensures Taking(queue', items + [x], all)
  {
    OutrankNext(items, queue, queue', x);
  }

  /** The second loop of setTop. */
  method TakeTop(pq: PriorityQueue, dst: Counters, top: int) returns (dst': Counters, ghost items: seq<Item>)
    requires pq.Valid()
    modifies pq.h
    ensures pq.Valid() && dst' == Store(dst, items)
    ensures Taking(multiset(pq.h.s), items, multiset(old(pq.h.s)))
    ensures if pq.h.s == [] then |items| <= Quota(top) else |items| == Quota(top)
  {
    dst' := dst;
    items := [];
    ghost var all := multiset(pq.h.s);
    var n := top;
    while |pq.h.s| > 0 && n > 0
      invariant pq.Valid() && Taking(multiset(pq.h.s), items, all) && dst' == Store(dst, items)
      invariant if top < 0 then n == top && items == [] else 0 <= n && |items| == top - n
      decreases n
    {
      n := n - 1;
      ghost var queue := multiset(pq.h.s);
      var x := pq.Pop();
      TakingNext(queue, items, all, multiset(pq.h.s), x);
      StoreNext(dst, items, x);
      dst' := dst'[x.key := x.elem];
      items := items + [x];
    }
  }

  function Quota(top: int): nat { if top < 0 then 0 else top }

  method SetTop(dst: Counters, src: Counters, order: seq<string>, top: int)
    returns (dst': Counters)
    requires Ranges(order, src)
    ensures GainsTop(dst, src, top, dst')
  {
    var pq := Enqueue(src, order);
    ghost var items;
    dst', items := TakeTop(pq, dst, top);
    assert |pq.h.s| == 0 <==> multiset(pq.h.s) == multiset{};
    ghost var keys := TakenAreTop(dst, src, multiset(pq.h.s), items, top);
    assert GainsKeys(dst, src, keys, top, dst');
  }

  /** A map gains the counters of a top of another. */
  ghost predicate GainsTop(dst: Counters, src: Counters, top: int, dst': Counters) {
    exists keys :: GainsKeys(dst, src, keys, top, dst')
  }

  ghost predicate GainsKeys(dst: Counters, src: Counters, keys: set<string>, top: int, dst': Counters) {
    IsTop(src, keys, top) && dst' == dst + Pick(src, keys)
  }

  // ---------- The report ----------

  /** A run through a map: every key once. */
  ghost predicate Ranges(order: seq<string>, m: Counters) {
    KeySet(order) == m.Keys && forall i, j :: 0 <= i < j < |order| ==> order[i] != order[j]
  }

  /** A country list holds the elements of some keys, and nothing for a key that was never counted. */
  predicate ListOf(src: Counters, keys: set<string>, list: map<string, Option<Elem>>) {
    list.Keys == keys && forall k :: k in list ==> list[k] == Lookup(src, k)
  }

  function Lookup(src: Counters, k: string): Option<Elem> { if k in src then Some(src[k]) else None }

  function Entries(top: Counters): map<string, Option<Elem>> { map k | k in top :: Some(top[k]) }

  lemma {:induction false} EntriesList(src: Counters, keys: set<string>)
    requires keys <= src.Keys
    ensures ListOf(src, keys, Entries(map[] + Pick(src, keys)))
  {
  }

  lemma {:induction false} ListMore(src: Counters, keys: set<string>, list: map<string, Option<Elem>>, k: string)
    requires ListOf(src, keys, list)
    ensures ListOf(src, keys + {k}, list[k := Lookup(src, k)])
  {
  }

  /** The top twenty, and three countries that are listed even without a counter. */
  ghost predicate CountryList(src: Counters, list: map<string, Option<Elem>>) {
    exists keys :: CountryListOf(src, keys, list)
  }

  ghost predicate CountryListOf(src: Counters, keys: set<string>, list: map<string, Option<Elem>>) {
    IsTop(src, keys, 20) && ListOf(src, keys + {"CN"} + {"TW"} + {"HK"}, list)
  }

  method TopCountries(src: Counters, order: seq<string>) returns (list: map<string, Option<Elem>>)
    requires Ranges(order, src)
    ensures CountryList(src, list)
  {
    var top := SetTop(map[], src, order, 20);
    ghost var keys :| GainsKeys(map[], src, keys, 20, top);
    list := Entries(top);
    EntriesList(src, keys);
    ListMore(src, keys, list, "CN");
    list := list["CN" := Lookup(src, "CN")];
    ListMore(src, keys + {"CN"}, list, "TW");
    list := list["TW" := Lookup(src, "TW")];
    ListMore(src, keys + {"CN"} + {"TW"}, list, "HK");
    list := list["HK" := Lookup(src, "HK")];
    assert CountryListOf(src, keys, list);
  }

  /** A top of a map with its counters. */
  ghost predicate TopOf(src: Counters, list: Counters, top: int) {
    IsTop(src, list.Keys, top) && list == Pick(src, list.Keys)
  }

  method TopList(src: Counters, order: seq<string>, top: int) returns (list: Counters)
    requires Ranges(order, src)
    ensures TopOf(src, list, top)
  {
    list := SetTop(map[], src, order, top);
    ghost var keys :| GainsKeys(map[], src, keys, top, list);
    PickAlone(src, keys);
  }

  lemma {:induction false} PickAlone(src: Counters, keys: set<string>)
    requires keys <= src.Keys
    ensures map[] + Pick(src, keys) == Pick(src, keys) && Pick(src, keys).Keys == keys
  {
  }

  type CountryLists = map<string, map<string, Option<Elem>>>

  function PerPlatform<T>(ios: T, android: T): (m: map<string, T>)
    ensures "iOS" in m && m["iOS"] == ios && "Android" in m && m["Android"] == android
  {
    map["iOS" := ios, "Android" := android]
  }

  ghost predicate ListsOf(lists: CountryLists, m: Maps) {
    && "iOS" in lists && CountryList(m.iosCountry, lists["iOS"])
    && "Android" in lists && CountryList(m.androidCountry, lists["Android"])
    && lists == PerPlatform(lists["iOS"], lists["Android"])
  }

  method ListCountries(m: Maps, orders: Orders) returns (lists: CountryLists)
    requires orders.For(m)
    ensures ListsOf(lists, m)
  {
    var iosTopCountry := TopCountries(m.iosCountry, orders.iosCountry);
    var androidTopCountry := TopCountries(m.androidCountry, orders.androidCountry);
    lists := PerPlatform(iosTopCountry, androidTopCountry);
  }

  /** The orders in which the maps are ranged over, whatever they are. */
  datatype Orders = Orders(iosCountry: seq<string>, androidCountry: seq<string>, slot: seq<string>,
                           offer: seq<string>) {
    ghost predicate For(m: Maps) {
      && Ranges(iosCountry, m.iosCountry) && Ranges(androidCountry, m.androidCountry)
      && Ranges(slot, m.slot) && Ranges(offer, m.offer)
    }
  }

  datatype Tops = Tops(platformAdtype: map<string, Counters>, platformTop20Country: CountryLists,
                       top20Slot: Counters, top30Offer: Counters)
  {
    ghost predicate Report(m: Maps) {
      && platformAdtype == PerPlatform(m.iosAdType, m.androidAdType) && ListsOf(platformTop20Country, m)
      && TopOf(m.slot, top20Slot, 20) && TopOf(m.offer, top30Offer, 30)
    }
  }

  method MakeReport(m: Maps, orders: Orders) returns (tops: Tops)
    requires orders.For(m)
    ensures tops.Report(m)
  {
    var lists := ListCountries(m, orders);
    var slots := TopList(m.slot, orders.slot, 20);
    var offers := TopList(m.offer, orders.offer, 30);
    tops := Tops(PerPlatform(m.iosAdType, m.androidAdType), lists, slots, offers);
  }

  class RetrievalReport {
    var m: Maps
    var tops: Tops
    var topOk: bool

    constructor ()
      ensures Valid() && m == RecordAll([]) && !topOk
    {
      m := Maps(map[], map[], map[], map[], map[], map[]);
      tops, topOk := Tops(map[], map[], map[], map[]), false;
    }

    /** The report shares the maps by ad type once it is made. */
    ghost predicate Valid()
      reads this
    {
      topOk ==> tops.platformAdtype == PerPlatform(m.iosAdType, m.androidAdType)
    }

    /**
     It panics if and only if the report was made, which drops the maps by country. The request is
     then already counted by ad type, in the report too.
     */
    method RecordRequest(r: Request) returns (done: Result<()>)
      requires Valid()
      modifies this`m, this`tops
      ensures Valid()
      ensures done == Panic <==> topOk
      ensures !topOk ==> m == Record(old(m), r) && tops == old(tops)
      ensures topOk ==> m == RecordAdType(old(m), r) && tops == old(tops).(platformAdtype := tops.platformAdtype)
    {
      CountAdType(r);
      if topOk {
        tops := tops.(platformAdtype := PerPlatform(m.iosAdType, m.androidAdType));
        return Panic;
      }
      CountCountry(r);
      if r.adtype != PROMOTE {
        CountSlot(r);
      }
      done := Ok(());
    }

    method CountAdType(r: Request)
      modifies this`m
      ensures m == RecordAdType(old(m), r)
    {
      var e := Amount(r);
      if r.platform == "iOS" {
        m := m.(iosAdType := m.iosAdType[r.adtype :=
          if r.adtype in m.iosAdType then m.iosAdType[r.adtype].Plus(e) else e]);
      } else {
        m := m.(androidAdType := m.androidAdType[r.adtype :=
          if r.adtype in m.androidAdType then m.androidAdType[r.adtype].Plus(e) else e]);
      }
    }

    method CountCountry(r: Request)
      modifies this`m
      ensures m == if r.platform == "iOS" then old(m).(iosCountry := Bump(old(m).iosCountry, r.country, Amount(r)))
                   else old(m).(androidCountry := Bump(old(m).androidCountry, r.country, Amount(r)))
    {
      var e := Amount(r);
      if r.platform == "iOS" {
        m := m.(iosCountry := m.iosCountry[r.country :=
          if r.country in m.iosCountry then m.iosCountry[r.country].Plus(e) else e]);
      } else {
        m := m.(androidCountry := m.androidCountry[r.country :=
          if r.country in m.androidCountry then m.androidCountry[r.country].Plus(e) else e]);
      }
    }

    method CountSlot(r: Request)
      modifies this`m
      ensures m == old(m).(slot := Bump(old(m).slot, r.slotid, Amount(r)), offer := BumpOffers(old(m).offer, r.offers))
    {
      var e := Amount(r);
      m := m.(slot := m.slot[r.slotid := if r.slotid in m.slot then m.slot[r.slotid].Plus(e) else e]);
      ghost var before := m;
      for i := 0 to |r.offers|
        invariant m == before.(offer := BumpOffers(before.offer, r.offers[..i]))
      {
        var oid := r.offers[i];
        assert r.offers[..i + 1][..i] == r.offers[..i];
        m := m.(offer := m.offer[oid := if oid in m.offer then m.offer[oid].Plus(Elem(1, 1)) else Elem(1, 1)]);
      }
      assert r.offers[..|r.offers|] == r.offers;
    }

    /** Later calls change nothing. */
    method PreReport(orders: Orders)
      requires Valid() && (!topOk ==> orders.For(m))
      modifies this
      ensures Valid() && topOk
      ensures !old(topOk) ==> tops.Report(old(m))
      ensures !old(topOk) ==> m == old(m).(iosCountry := map[], androidCountry := map[], slot := map[], offer := map[])
      ensures old(topOk) ==> unchanged(this)
    {
      if topOk {
        return;
      }
      tops := MakeReport(m, orders);
      m := m.(iosCountry := map[], androidCountry := map[], slot := map[], offer := map[]);
      topOk := true;
    }
  }
}
