/**
 The retry heap for server-to-server callbacks (src/tpl/s2s_heap.go): the heap whose Push may
 drop its item, the wrapper around it, and the consumer's inner loop. S2sServe.dfy puts the
 consumer beside its producers.
 */
module S2sHeap {
  import opened Options
  import opened GoHeap

  /** Time is in nanoseconds. */
  const RETRY := 15_000_000_000
  const MAX_FAIL_COUNT := 3

  /** A callback; `id` tells items apart as their addresses do, `created` is its first LaunchTime. */
  datatype CbItem = CbItem(id: nat, created: int, failCount: nat, launchTime: int) {
    /** Callback books the attempt before it is known how it ends. */
    function Called(): CbItem {
      this.(failCount := failCount + 1, launchTime := launchTime + RETRY)
    }
  }

  function NewCbItem(id: nat, now: int): CbItem { CbItem(id, now, 0, now) }

  function LaunchTime(item: CbItem): int { item.launchTime }

  ghost predicate CbHeap(h: seq<CbItem>) {
    IsHeap(LaunchTime, h) && forall x :: x in h ==> x.failCount <= MAX_FAIL_COUNT
  }

  // ---------- The wrapper's operations as functions of the slice ----------

  function PushItem(h: seq<CbItem>, item: CbItem): seq<CbItem> {
    Pushed(LaunchTime, if item.failCount > MAX_FAIL_COUNT then h else h + [item])
  }

  function PopItem(h: seq<CbItem>): (CbItem, seq<CbItem>)
    requires h != []
  {
    var r := Popping(LaunchTime, h);
    (r[|h| - 1], r[..|h| - 1])
  }

  /** The last slot of the slice, which need not hold the item due first. */
  function TopItem(h: seq<CbItem>): Option<CbItem> {
    if |h| <= 0 then None else Some(h[|h| - 1])
  }

  lemma {:induction false} PushItemKeeps(h: seq<CbItem>, item: CbItem)
    requires CbHeap(h)
    ensures CbHeap(PushItem(h, item))
    ensures multiset(PushItem(h, item)) ==
            if item.failCount > MAX_FAIL_COUNT then multiset(h) else multiset(h) + multiset{item}
    ensures item.failCount > MAX_FAIL_COUNT ==> PushItem(h, item) == h
  {
    var h' := PushItem(h, item);
    if item.failCount > MAX_FAIL_COUNT {
      DroppedPushKeepsSlice(LaunchTime, h);
    } else {
      PushKeepsHeap(LaunchTime, h, item);
      forall x | x in h' ensures x.failCount <= MAX_FAIL_COUNT {
        assert x in multiset(h');
      }
    }
  }

  lemma {:induction false} PushItemStaysHeap(h: seq<CbItem>, item: CbItem)
    requires CbHeap(h)
    ensures CbHeap(PushItem(h, item))
  {
    PushItemKeeps(h, item);
  }

  lemma {:induction false} PopItemServes(h: seq<CbItem>)
    requires CbHeap(h) && h != []
    ensures var (item, rest) := PopItem(h);
            && CbHeap(rest) && multiset(h) == multiset(rest) + multiset{item} && |rest| == |h| - 1
            && item in h && forall x :: x in h ==> item.launchTime <= x.launchTime
  {
    PopServesLeast(LaunchTime, h);
    var (item, rest) := PopItem(h);
    assert item in multiset(h);
    forall x | x in rest ensures x in h {
      assert x in multiset(rest) && x in multiset(h);
    }
    forall x | x in h ensures item.launchTime <= x.launchTime {
      assert LaunchTime(item) <= LaunchTime(x);
    }
  }

  // ---------- The wrapper ----------

  class HeapWrapper {
    const h: Slice<CbItem>

    ghost predicate Valid()
      reads this, h
    {
      h.rank == LaunchTime && CbHeap(h.s)
    }

    constructor ()
      ensures Valid() && fresh(h) && h.s == []
    {
      h := new Slice(LaunchTime);
    }

    method Push(item: CbItem)
      requires Valid()
      modifies h
      ensures Valid() && h.s == PushItem(old(h.s), item)
    {
      ghost var pushed := PushItem(h.s, item);
      PushItemStaysHeap(h.s, item);
      if !(item.failCount > MAX_FAIL_COUNT) {
        h.s := h.s + [item];
      }
      h.SiftUp(|h.s| - 1);
      assert h.s == pushed;
    }

    /** Popping an empty heap panics. */
    method Pop() returns (item: CbItem)
      requires Valid() && h.s != []
      modifies h
      ensures Valid() && (item, h.s) == PopItem(old(h.s))
    {
      PopItemServes(h.s);
      var n := |h.s| - 1;
      h.SwapAt(0, n);
      h.SiftDown(0, n);
      item := h.s[n];
      h.s := h.s[..n];
    }

    method Top() returns (item: Option<CbItem>)
      ensures item == TopItem(h.s)
    {
      var n := |h.s|;
      if n <= 0 {
        return None;
      }
      return Some(h.s[n - 1]);
    }

    /**
     The inner loop of Serve when no producer interferes. `reply(k)` is whether the k-th
     callback succeeds. It ends: every round spends one of the attempts the items have left.
     */
    method Drain(first: Option<CbItem>, now: int, reply: nat -> bool)
      returns (called: seq<CbItem>, delivered: seq<CbItem>, dropped: seq<CbItem>)
      requires Valid() && first == TopItem(h.s)
      modifies h
      ensures Valid() && Drained(old(h.s), h.s, called, delivered, dropped, now)
      ensures Settled(old(h.s), h.s, called, delivered, dropped, reply)
      ensures h.s == [] || TopItem(h.s).value.launchTime >= now
    {
      called, delivered, dropped := [], [], [];
      var item := first;
      while item.Some? && item.value.launchTime < now
        invariant Valid() && item == TopItem(h.s)
        invariant Drained(old(h.s), h.s, called, delivered, dropped, now)
        invariant Settled(old(h.s), h.s, called, delivered, dropped, reply)
        decreases Attempts(h.s)
      {
        FailsOn(old(h.s), h.s, called, delivered, dropped, now);
        DeliversOn(old(h.s), h.s, called, delivered, dropped, now);
        SettlesOn(old(h.s), h.s, called, delivered, dropped, reply);
        var cb := Pop();
        var ok := reply(|called|);
        called := called + [cb];
        cb := cb.Called();
        if !ok {
          if cb.failCount > MAX_FAIL_COUNT {
            dropped := dropped + [cb];
          }
          Push(cb);
        } else {
          delivered := delivered + [cb];
        }
        item := Top();
      }
    }
  }

  /**
   What the inner loop has done to a heap `all`: only due items with attempts left were called,
   every call spent one of the attempts, no item was lost, doubled or exchanged for another, and
   the items dropped have failed four times.
   */
  ghost predicate Drained(all: seq<CbItem>, h: seq<CbItem>, called: seq<CbItem>, delivered: seq<CbItem>,
                          dropped: seq<CbItem>, now: int) {
    && (forall k :: 0 <= k < |called| ==> called[k].launchTime < now && called[k].failCount <= MAX_FAIL_COUNT)
    && |called| + Attempts(h) + Unspent(delivered) == Attempts(all)
    && Ids(h) + Ids(delivered) + Ids(dropped) == Ids(all)
    && (forall k :: 0 <= k < |dropped| ==> dropped[k].failCount == MAX_FAIL_COUNT + 1)
  }

  lemma {:induction false} DeliversOn(all: seq<CbItem>, h: seq<CbItem>, called: seq<CbItem>, delivered: seq<CbItem>,
                                      dropped: seq<CbItem>, now: int)
    requires CbHeap(h) && Drained(all, h, called, delivered, dropped, now) && h != []
    requires TopItem(h).value.launchTime < now
    ensures var (item, rest) := PopItem(h);
            && Drained(all, rest, called + [item], delivered + [item.Called()], dropped, now)
            && Attempts(rest) < Attempts(h)
  {
    var (item, rest) := PopItem(h);
    PopItemServes(h);
    AttemptsOfPop(h);
    Delivered(all, h, called, delivered, dropped, now, item, rest);
  }

  lemma {:induction false} Delivered(all: seq<CbItem>, h: seq<CbItem>, called: seq<CbItem>, delivered: seq<CbItem>,
                                     dropped: seq<CbItem>, now: int, item: CbItem, rest: seq<CbItem>)
    requires Drained(all, h, called, delivered, dropped, now) && item.launchTime < now
    requires item.failCount <= MAX_FAIL_COUNT
    requires Attempts(h) == Left(item) + Attempts(rest) && Ids(h) == multiset{item.id} + Ids(rest)
    ensures Drained(all, rest, called + [item], delivered + [item.Called()], dropped, now)
  {
    UnspentNext(delivered, item.Called());
    IdsNext(delivered, item.Called());
  }

  lemma {:induction false} FailsOn(all: seq<CbItem>, h: seq<CbItem>, called: seq<CbItem>, delivered: seq<CbItem>,
                                   dropped: seq<CbItem>, now: int)
    requires CbHeap(h) && Drained(all, h, called, delivered, dropped, now) && h != []
    requires TopItem(h).value.launchTime < now
    ensures var (item, rest) := PopItem(h);
            var cb := item.Called();
            && Drained(all, PushItem(rest, cb), called + [item], delivered,
                       if cb.failCount > MAX_FAIL_COUNT then dropped + [cb] else dropped, now)
            && Attempts(PushItem(rest, cb)) < Attempts(h)
  {
    var (item, rest) := PopItem(h);
    PopItemServes(h);
    AttemptsOfPop(h);
    AttemptsOfPush(rest, item.Called());
    Failed(all, h, called, delivered, dropped, now, item, rest, PushItem(rest, item.Called()));
  }

  lemma {:induction false} Failed(all: seq<CbItem>, h: seq<CbItem>, called: seq<CbItem>, delivered: seq<CbItem>,
                                  dropped: seq<CbItem>,
                                  now: int, item: CbItem, rest: seq<CbItem>, pushed: seq<CbItem>)
    requires Drained(all, h, called, delivered, dropped, now) && item.launchTime < now
    requires item.failCount <= MAX_FAIL_COUNT
    requires Attempts(h) == Left(item) + Attempts(rest) && Ids(h) == multiset{item.id} + Ids(rest)
    requires Attempts(pushed) == Attempts(rest) + Left(item.Called())
    requires Ids(pushed) == if item.failCount == MAX_FAIL_COUNT then Ids(rest) else multiset{item.id} + Ids(rest)
    ensures Drained(all, pushed, called + [item], delivered,
                    if item.failCount == MAX_FAIL_COUNT then dropped + [item.Called()] else dropped, now)
  {
    IdsNext(dropped, item.Called());
  }

  lemma {:induction false} IdsNext(items: seq<CbItem>, item: CbItem)
    ensures Ids(items + [item]) == Ids(items) + multiset{item.id}
  {
    IdsAppend(items, [item]);
    IdsOne(item);
  }

  // ---------- What the replies decide ----------

  /** The called items answered so, each with its attempt booked, in the order of the calls. */
  function Answered(called: seq<CbItem>, reply: nat -> bool, ok: bool): seq<CbItem> {
    if called == [] then [] else
    var n := |called| - 1;
    Answered(called[..n], reply, ok) + if reply(n) == ok then [called[n].Called()] else []
  }

  /** Those of some items that have, or have not, failed four times. */
  function Spent(items: seq<CbItem>, last: bool): seq<CbItem> {
    if items == [] then [] else
    var n := |items| - 1;
    Spent(items[..n], last) + if (items[n].failCount == 4) == last then [items[n]] else []
  }

  /**
   The items delivered are those whose callback succeeded. Of the others those are dropped that
   have failed four times, and the rest is back in the heap.
   */
  ghost predicate Settled(all: seq<CbItem>, h: seq<CbItem>, called: seq<CbItem>, delivered: seq<CbItem>,
                          dropped: seq<CbItem>, reply: nat -> bool) {
    var failed := Answered(called, reply, false);
    && delivered == Answered(called, reply, true)
    && dropped == Spent(failed, true)
    && multiset(h) + multiset(called) == multiset(all) + multiset(Spent(failed, false))
  }

  lemma {:induction false} AnsweredNext(called: seq<CbItem>, reply: nat -> bool, ok: bool, item: CbItem)
    ensures Answered(called + [item], reply, ok) ==
            if reply(|called|) == ok then Answered(called, reply, ok) + [item.Called()]
            else Answered(called, reply, ok)
  {
    assert (called + [item])[..|called|] == called;
  }

  lemma {:induction false} SpentNext(items: seq<CbItem>, last: bool, item: CbItem)
    ensures Spent(items + [item], last) ==
            if (item.failCount == 4) == last then Spent(items, last) + [item] else Spent(items, last)
  {
    assert (items + [item])[..|items|] == items;
  }

  lemma {:induction false} SettlesOn(all: seq<CbItem>, h: seq<CbItem>, called: seq<CbItem>, delivered: seq<CbItem>,
                                     dropped: seq<CbItem>, reply: nat -> bool)
    requires CbHeap(h) && h != [] && Settled(all, h, called, delivered, dropped, reply)
    ensures var (item, rest) := PopItem(h);
            var cb := item.Called();
            if reply(|called|) then Settled(all, rest, called + [item], delivered + [cb], dropped, reply)
            else Settled(all, PushItem(rest, cb), called + [item], delivered,
                         if cb.failCount > MAX_FAIL_COUNT then dropped + [cb] else dropped, reply)
  {
    var (item, rest) := PopItem(h);
    PopItemServes(h);
    if reply(|called|) {
      SettlesWell(all, h, called, delivered, dropped, reply, item, rest);
    } else {
      PushItemKeeps(rest, item.Called());
      SettlesBadly(all, h, called, delivered, dropped, reply, item, rest, PushItem(rest, item.Called()));
    }
  }

  lemma {:induction false} SettlesWell(all: seq<CbItem>, h: seq<CbItem>, called: seq<CbItem>, delivered: seq<CbItem>,
                                       dropped: seq<CbItem>, reply: nat -> bool, item: CbItem, rest: seq<CbItem>)
    requires Settled(all, h, called, delivered, dropped, reply) && reply(|called|)
    requires multiset(h) == multiset(rest) + multiset{item}
    ensures Settled(all, rest, called + [item], delivered + [item.Called()], dropped, reply)
  {
    AnsweredNext(called, reply, true, item);
    AnsweredNext(called, reply, false, item);
    BagOfMore(called, item);
  }

  lemma {:induction false} SettlesBadly(all: seq<CbItem>, h: seq<CbItem>, called: seq<CbItem>, delivered: seq<CbItem>,
                                        dropped: seq<CbItem>, reply: nat -> bool, item: CbItem, rest: seq<CbItem>,
                                        pushed: seq<CbItem>)
    requires Settled(all, h, called, delivered, dropped, reply) && !reply(|called|)
    requires multiset(h) == multiset(rest) + multiset{item} && item.failCount <= MAX_FAIL_COUNT
    requires multiset(pushed) ==
             if item.failCount == MAX_FAIL_COUNT then multiset(rest) else multiset(rest) + multiset{item.Called()}
    ensures Settled(all, pushed, called + [item], delivered,
                    if item.failCount == MAX_FAIL_COUNT then dropped + [item.Called()] else dropped, reply)
  {
    var failed := Answered(called, reply, false);
    AnsweredNext(called, reply, true, item);
    AnsweredNext(called, reply, false, item);
    SpentNext(failed, true, item.Called());
    SpentNext(failed, false, item.Called());
    BagOfMore(called, item);
    BagOfMore(Spent(failed, false), item.Called());
    var back := if item.failCount == MAX_FAIL_COUNT then multiset{} else multiset{item.Called()};
    Flow(multiset(all), multiset(rest), multiset(called), multiset(Spent(failed, false)), multiset{item}, back);
  }

  lemma {:induction false} Flow(all: multiset<CbItem>, rest: multiset<CbItem>, called: multiset<CbItem>,
                                back: multiset<CbItem>, out: multiset<CbItem>, more: multiset<CbItem>)
    requires rest + out + called == all + back
    ensures rest + more + (called + out) == all + (back + more)
  {
    assert rest + more + (called + out) == rest + out + called + more;
  }

  lemma {:induction false} BagOfMore(items: seq<CbItem>, item: CbItem)
    ensures multiset(items + [item]) == multiset(items) + multiset{item}
  {
  }

  // ---------- Whose items they are ----------

  function IdList(h: seq<CbItem>): seq<nat> { seq(|h|, i requires 0 <= i < |h| => h[i].id) }

  /** The ids of some items. */
  function Ids(h: seq<CbItem>): multiset<nat> { multiset(IdList(h)) }

  lemma {:induction false} IdsAppend(a: seq<CbItem>, b: seq<CbItem>)
    ensures Ids(a + b) == Ids(a) + Ids(b)
  {
    assert IdList(a + b) == IdList(a) + IdList(b);
  }

  lemma {:induction false} IdsOne(item: CbItem)
    ensures Ids([item]) == multiset{item.id}
  {
    assert IdList([item]) == [item.id];
  }

  // ---------- Attempts left ----------

  function Left(item: CbItem): nat {
    if item.failCount > MAX_FAIL_COUNT then 0 else MAX_FAIL_COUNT + 1 - item.failCount
  }

  /** How often the items of a heap can still be called back. */
  function Attempts(h: seq<CbItem>): nat {
    if h == [] then 0 else Left(h[0]) + Attempts(h[1..])
  }

  /** The attempts the delivered items did not need. */
  function Unspent(delivered: seq<CbItem>): nat { Attempts(delivered) }

  lemma {:induction false} AttemptsAppend(a: seq<CbItem>, b: seq<CbItem>)
    ensures Attempts(a + b) == Attempts(a) + Attempts(b)
  {
    if a == [] {
      assert a + b == b;
    } else {
      AttemptsAppend(a[1..], b);
      assert (a + b)[1..] == a[1..] + b;
    }
  }

  lemma {:induction false} UnspentNext(delivered: seq<CbItem>, item: CbItem)
    ensures Unspent(delivered + [item]) == Unspent(delivered) + Left(item)
  {
    AttemptsAppend(delivered, [item]);
  }

  lemma {:induction false} Without(b: seq<CbItem>, k: nat) returns (b': seq<CbItem>)
    requires k < |b|
    ensures multiset(b) == multiset(b') + multiset{b[k]} && |b'| == |b| - 1
    ensures Attempts(b) == Left(b[k]) + Attempts(b') && Ids(b) == multiset{b[k].id} + Ids(b')
  {
    var tail := [b[k]] + b[k + 1..];
    b' := b[..k] + b[k + 1..];
    assert b == b[..k] + tail && tail[1..] == b[k + 1..];
    IdsAppend(b[..k], b[k + 1..]);
    IdsAppend(b[..k], tail);
    IdsAppend([b[k]], b[k + 1..]);
    IdsOne(b[k]);
    AttemptsAppend(b[..k], b[k + 1..]);
    AttemptsAppend(b[..k], tail);
  }

  /** Neither depends on the order of the slice. */
  lemma {:induction false} AttemptsPermute(a: seq<CbItem>, b: seq<CbItem>)
    requires multiset(a) == multiset(b)
    ensures Attempts(a) == Attempts(b) && Ids(a) == Ids(b)
    decreases |a|
  {
    if a == [] {
      assert |multiset(b)| == 0;
    } else {
      var a' := Without(a, 0);
      assert a[0] in multiset(b);
      var k :| 0 <= k < |b| && b[k] == a[0];
      var b' := Without(b, k);
      assert multiset(a') == multiset(a) - multiset{a[0]};
      assert multiset(b') == multiset(b) - multiset{a[0]};
      AttemptsPermute(a', b');
    }
  }

  lemma {:induction false} AttemptsOfPop(h: seq<CbItem>)
    requires CbHeap(h) && h != []
    ensures var (item, rest) := PopItem(h);
            Attempts(h) == Left(item) + Attempts(rest) && Ids(h) == multiset{item.id} + Ids(rest)
  {
    PopItemServes(h);
    var (item, rest) := PopItem(h);
    AttemptsPermute(h, [item] + rest);
    IdsAppend([item], rest);
    IdsOne(item);
  }

  lemma {:induction false} AttemptsOfPush(h: seq<CbItem>, item: CbItem)
    requires CbHeap(h)
    ensures Attempts(PushItem(h, item)) == Attempts(h) + Left(item)
    ensures Ids(PushItem(h, item)) == if item.failCount > MAX_FAIL_COUNT then Ids(h) else multiset{item.id} + Ids(h)
  {
    PushItemKeeps(h, item);
    if item.failCount <= MAX_FAIL_COUNT {
      AttemptsPermute(PushItem(h, item), [item] + h);
      IdsAppend([item], h);
      IdsOne(item);
    }
  }
}
