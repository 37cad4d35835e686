/**
 The Serve loop of src/tpl/s2s_heap.go beside any number of producers. Every access to the heap
 is atomic under its lock, so the steps are: a producer creates or pushes an item, time passes,
 or the consumer goes from one of its program points to the next. Producers may step anywhere in
 between, in particular between the consumer's Top and its Pop.
 */
module S2sServe {
  import opened Options
  import opened S2sHeap

  /** Where the consumer stands and what it holds in its locals. */
  datatype Pc =
    | Outer                                      // before item := w.Top() of the outer loop
    | Seen(item: CbItem)                         // Top returned this item
    | Test(top: Option<CbItem>, now: int)        // at the condition of the inner loop
    | Pop(now: int)                              // before w.Pop()
    | Call(held: CbItem, now: int)               // before item.Callback()
    | Push(held: CbItem, now: int)               // after a failed callback, before w.Push(item)
    | Top(now: int)                              // before item = w.Top() of the inner loop
    | Crashed                                    // w.Pop() found the heap empty
  {
    /** The item only the consumer has. */
    function Hand(): multiset<CbItem> {
      match this
      case Call(item, _) => multiset{item}
      case Push(item, _) => multiset{item}
      case _ => multiset{}
    }
  }

  datatype State = State(heap: seq<CbItem>, pc: Pc, clock: int, nextId: nat,
                         born: multiset<CbItem>,       // created by a producer, not pushed yet
                         delivered: multiset<CbItem>,  // called back with success
                         dropped: multiset<CbItem>)    // refused by Push
  {
    function All(): multiset<CbItem> { multiset(heap) + born + delivered + dropped + pc.Hand() }
  }

  function Init(clock: int): State {
    State([], Outer, clock, 0, multiset{}, multiset{}, multiset{})
  }

  // ---------- Steps ----------

  /** `reply` is how a callback of this step ends. */
  datatype Step = Wait(t: nat) | Create | Produce(item: CbItem) | Consume(reply: bool)

  predicate Enabled(s: State, step: Step) {
    match step
    case Produce(item) => item in s.born
    case Consume(_) => s.pc != Crashed
    case _ => true
  }

  function Next(s: State, step: Step): State
    requires Enabled(s, step)
  {
    match step
    case Wait(t) => s.(clock := s.clock + t)
    case Create => s.(born := s.born + multiset{NewCbItem(s.nextId, s.clock)}, nextId := s.nextId + 1)
    case Produce(item) => s.(born := s.born - multiset{item}, heap := PushItem(s.heap, item))
    case Consume(reply) => Consumer(s, reply)
  }

  function Consumer(s: State, reply: bool): State
    requires s.pc != Crashed
  {
    match s.pc
    case Outer => s.(pc := match TopItem(s.heap) case Some(item) => Seen(item) case None => Outer)
    case Seen(item) => s.(pc := if item.launchTime > s.clock then Outer else Test(Some(item), s.clock))
    case Test(top, now) => s.(pc := if top.Some? && top.value.launchTime < now then Pop(now) else Outer)
    case Pop(now) =>
      if s.heap == [] then s.(pc := Crashed)
      else s.(heap := PopItem(s.heap).1, pc := Call(PopItem(s.heap).0, now))
    case Call(item, now) =>
      if reply then s.(delivered := s.delivered + multiset{item.Called()}, pc := Top(now))
      else s.(pc := Push(item.Called(), now))
    case Push(item, now) =>
      s.(heap := PushItem(s.heap, item), pc := Top(now),
         dropped := if item.failCount > MAX_FAIL_COUNT then s.dropped + multiset{item} else s.dropped)
    case Top(now) => s.(pc := Test(TopItem(s.heap), now))
  }

  ghost predicate IsRun(run: seq<State>) {
    && run != [] && (exists clock :: run[0] == Init(clock))
    && forall k :: 0 <= k < |run| - 1 ==> CanStep(run[k], run[k + 1])
  }

  ghost predicate CanStep(s: State, t: State) {
    exists step :: Enabled(s, step) && t == Next(s, step)
  }

  // ---------- The invariant ----------

  /** Each of the ids below `n` belongs to exactly one item of the bag. */
  ghost predicate OneEach(bag: multiset<CbItem>, n: nat) {
    && (forall a :: a in bag ==> a.id < n && bag[a] == 1)
    && (forall a, b :: a in bag && b in bag && a.id == b.id ==> a == b)
    && (forall id: nat :: id < n ==> HasId(bag, id))
  }

  ghost predicate HasId(bag: multiset<CbItem>, id: nat) {
    exists a :: a in bag && a.id == id
  }

  predicate OnTime(x: CbItem) {
    x.launchTime == x.created + RETRY * x.failCount
  }

  ghost predicate DueBefore(h: seq<CbItem>, now: int) {
    exists x :: x in h && x.launchTime < now
  }

  ghost predicate PcOk(s: State) {
    match s.pc
    case Outer => true
    case Seen(item) => item in s.heap
    case Test(top, now) => now <= s.clock && (top.Some? ==> top.value in s.heap)
    case Pop(now) => now <= s.clock && DueBefore(s.heap, now)
    case Call(item, now) => item.launchTime < now <= s.clock && item.failCount <= MAX_FAIL_COUNT
    case Push(item, now) => now <= s.clock && 1 <= item.failCount <= MAX_FAIL_COUNT + 1
    case Top(now) => now <= s.clock
    case Crashed => false
  }

  /** The bag of all items: none lost, none doubled, each on schedule. */
  ghost predicate Books(all: multiset<CbItem>, n: nat) {
    OneEach(all, n) && forall x :: x in all ==> OnTime(x)
  }

  ghost predicate Counts(s: State) {
    && (forall x :: x in s.born ==> x.failCount == 0)
    && (forall x :: x in s.delivered ==> 1 <= x.failCount <= MAX_FAIL_COUNT + 1)
    && (forall x :: x in s.dropped ==> x.failCount == MAX_FAIL_COUNT + 1)
  }

  ghost predicate Inv(s: State) {
    CbHeap(s.heap) && Books(s.All(), s.nextId) && PcOk(s) && Counts(s)
  }

  // ---------- Bags ----------

  lemma {:induction false} BooksOneMore(bag: multiset<CbItem>, n: nat, a: CbItem)
    requires Books(bag, n) && a.id == n && OnTime(a)
    ensures Books(bag + multiset{a}, n + 1)
  {
    var bag' := bag + multiset{a};
    forall id: nat | id < n + 1 ensures HasId(bag', id) {
      if id < n {
        assert HasId(bag, id);
        var b :| b in bag && b.id == id;
        assert b in bag';
      } else {
        assert a in bag';
      }
    }
  }

  /** Booking an attempt changes an item but not whose it is. */
  lemma {:induction false} BooksChanged(rest: multiset<CbItem>, n: nat, a: CbItem, a': CbItem)
    requires Books(rest + multiset{a}, n) && a.id == a'.id && OnTime(a')
    ensures Books(rest + multiset{a'}, n)
  {
    var bag, bag' := rest + multiset{a}, rest + multiset{a'};
    assert a in bag && bag[a] == 1;
    forall x | x in rest ensures x.id != a.id {
      assert x in bag;
    }
    forall x | x in bag' ensures x.id < n && bag'[x] == 1 {
      assert x in bag || x == a';
    }
    forall id: nat | id < n ensures HasId(bag', id) {
      assert HasId(bag, id);
      var b :| b in bag && b.id == id;
      assert (if b == a then a' else b) in bag';
    }
  }

  // ---------- Every step keeps it ----------

  // What the steps do to the bag of all items.

  predicate Looking(pc: Pc) { pc.Outer? || pc.Seen? || pc.Test? || pc.Top? }

  lemma {:induction false} LookMoves(s: State, reply: bool)
    requires Looking(s.pc)
    ensures Consumer(s, reply) == s.(pc := Consumer(s, reply).pc) && Consumer(s, reply).All() == s.All()
  {
    var t := Consumer(s, reply);
    assert t == s.(pc := t.pc);
    assert t.pc.Hand() == multiset{} == s.pc.Hand();
  }

  lemma {:induction false} PopMoves(s: State, reply: bool)
    requires CbHeap(s.heap) && s.heap != [] && s.pc.Pop?
    ensures Consumer(s, reply).All() == s.All()
  {
    PopItemServes(s.heap);
  }

  lemma {:induction false} PushMoves(s: State, reply: bool)
    requires CbHeap(s.heap) && s.pc.Push?
    ensures Consumer(s, reply).All() == s.All()
  {
    PushItemKeeps(s.heap, s.pc.held);
  }

  lemma {:induction false} CallMoves(s: State, reply: bool)
    requires s.pc.Call?
    ensures var rest := multiset(s.heap) + s.born + s.delivered + s.dropped;
            && s.All() == rest + multiset{s.pc.held}
            && Consumer(s, reply).All() == rest + multiset{s.pc.held.Called()}
  {
    if reply {
      assert Consumer(s, reply).pc.Hand() == multiset{};
      Regroup(multiset(s.heap) + s.born, s.delivered, s.dropped, multiset{s.pc.held.Called()});
    } else {
      assert Consumer(s, reply).pc.Hand() == multiset{s.pc.held.Called()};
    }
  }

  lemma {:induction false} Regroup(a: multiset<CbItem>, b: multiset<CbItem>, c: multiset<CbItem>, x: multiset<CbItem>)
    ensures a + (b + x) + c + multiset{} == a + b + c + x
  {
  }

  lemma {:induction false} ProducerMoves(s: State, item: CbItem)
    requires CbHeap(s.heap) && item in s.born && item.failCount == 0
    ensures Next(s, Produce(item)).All() == s.All()
  {
    PushItemKeeps(s.heap, item);
    MovedIn(multiset(s.heap), s.born, multiset{item});
  }

  lemma {:induction false} MovedIn(heap: multiset<CbItem>, born: multiset<CbItem>, x: multiset<CbItem>)
    requires x <= born
    ensures heap + x + (born - x) == heap + born
  {
  }

  /** A larger heap keeps what the program points promise of it. */
  lemma {:induction false} PcStays(s: State, t: State)
    requires PcOk(s) && t.pc == s.pc && t.clock >= s.clock && multiset(s.heap) <= multiset(t.heap)
    ensures PcOk(t)
  {
    assert forall x :: x in s.heap ==> x in multiset(t.heap);
    if s.pc.Pop? {
      var x :| x in s.heap && x.launchTime < s.pc.now;
      assert x in t.heap;
    }
  }

  lemma {:induction false} CreateKeeps(s: State)
    requires Inv(s)
    ensures Inv(Next(s, Create))
  {
    var t, item := Next(s, Create), NewCbItem(s.nextId, s.clock);
    BooksOneMore(s.All(), s.nextId, item);
    assert t.All() == s.All() + multiset{item};
    PcStays(s, t);
  }

  lemma {:induction false} ProduceKeeps(s: State, item: CbItem)
    requires Inv(s) && item in s.born
    ensures Inv(Next(s, Produce(item)))
  {
    var t := Next(s, Produce(item));
    PushItemKeeps(s.heap, item);
    ProducerMoves(s, item);
    PcStays(s, t);
  }

  lemma {:induction false} WaitKeeps(s: State, t: nat)
    requires Inv(s)
    ensures Inv(Next(s, Wait(t)))
  {
    PcStays(s, Next(s, Wait(t)));
  }

  lemma {:induction false} PopKeeps(s: State, reply: bool)
    requires Inv(s) && s.pc.Pop?
    ensures Inv(Consumer(s, reply))
  {
    var t := Consumer(s, reply);
    var x :| x in s.heap && x.launchTime < s.pc.now;
    PopItemServes(s.heap);
    PopMoves(s, reply);
  }

  lemma {:induction false} CallKeeps(s: State, reply: bool)
    requires Inv(s) && s.pc.Call?
    ensures Inv(Consumer(s, reply))
  {
    var item := s.pc.held;
    var rest := multiset(s.heap) + s.born + s.delivered + s.dropped;
    CallMoves(s, reply);
    assert item in rest + multiset{item};
    BooksChanged(rest, s.nextId, item, item.Called());
  }

  lemma {:induction false} PushKeeps(s: State, reply: bool)
    requires Inv(s) && s.pc.Push?
    ensures Inv(Consumer(s, reply))
  {
    PushItemKeeps(s.heap, s.pc.held);
    PushMoves(s, reply);
  }

  lemma {:induction false} LookPcOk(s: State, reply: bool)
    requires PcOk(s) && Looking(s.pc)
    ensures PcOk(Consumer(s, reply))
  {
    if s.pc.Test? && s.pc.top.Some? && s.pc.top.value.launchTime < s.pc.now {
      assert DueBefore(s.heap, s.pc.now);
    }
  }

  /** The steps that only move the program counter. */
  lemma {:induction false} LookKeeps(s: State, reply: bool)
    requires Inv(s) && Looking(s.pc)
    ensures Inv(Consumer(s, reply))
  {
    LookMoves(s, reply);
    LookPcOk(s, reply);
  }

  lemma {:induction false} StepKeeps(s: State, step: Step)
    requires Inv(s) && Enabled(s, step)
    ensures Inv(Next(s, step))
  {
    match step
    case Wait(t) => WaitKeeps(s, t);
    case Create => CreateKeeps(s);
    case Produce(item) => ProduceKeeps(s, item);
    case Consume(reply) =>
      match s.pc {
        case Pop(_) => PopKeeps(s, reply);
        case Call(_, _) => CallKeeps(s, reply);
        case Push(_, _) => PushKeeps(s, reply);
        case _ => LookKeeps(s, reply);
      }
  }

  lemma {:induction false} RunKeepsInv(run: seq<State>, k: nat)
    requires IsRun(run) && k < |run|
    ensures Inv(run[k])
  {
    if k > 0 {
      RunKeepsInv(run, k - 1);
      assert CanStep(run[k - 1], run[k - 1 + 1]);
      var step :| Enabled(run[k - 1], step) && run[k] == Next(run[k - 1], step);
      StepKeeps(run[k - 1], step);
    }
  }

  // ---------- What every run keeps to ----------

  /**
   Serve never pops an empty heap, and calls nothing back before its launch time, although the
   item it looked at before popping is the one in the last slot.
   */
  lemma {:induction false} NeverEarlyNeverEmpty(run: seq<State>, k: nat)
    requires IsRun(run) && k < |run|
    ensures run[k].pc != Crashed
    ensures run[k].pc.Call? ==> run[k].pc.held.launchTime < run[k].clock
    ensures run[k].pc.Pop? ==> run[k].heap != []
  {
    RunKeepsInv(run, k);
  }

  /**
   At the test of the inner loop a due item leads to a call at once, of an item due no later than
   any in the heap, and only that one leaves the heap; otherwise the loop ends.
   */
  lemma {:induction false} DueLeadsToCall(run: seq<State>, k: nat, reply: bool)
    requires IsRun(run) && k < |run| && run[k].pc.Test?
    ensures var s := run[k];
            var t := Consumer(s, reply);
            if s.pc.top.Some? && s.pc.top.value.launchTime < s.pc.now then
              && t.pc.Pop? && Consumer(t, reply).pc.Call?
              && var item := Consumer(t, reply).pc.held;
              && multiset(s.heap) == multiset(Consumer(t, reply).heap) + multiset{item}
              && forall x :: x in s.heap ==> item.launchTime <= x.launchTime
            else t == s.(pc := Outer)
  {
    RunKeepsInv(run, k);
    TestLeads(run[k], reply);
  }

  lemma {:induction false} TestLeads(s: State, reply: bool)
    requires CbHeap(s.heap) && PcOk(s) && s.pc.Test?
    ensures var t := Consumer(s, reply);
            if s.pc.top.Some? && s.pc.top.value.launchTime < s.pc.now then
              && t.pc.Pop? && Consumer(t, reply).pc.Call?
              && var item := Consumer(t, reply).pc.held;
              && multiset(s.heap) == multiset(Consumer(t, reply).heap) + multiset{item}
              && forall x :: x in s.heap ==> item.launchTime <= x.launchTime
            else t == s.(pc := Outer)
  {
    if s.heap != [] { PopItemServes(s.heap); }
  }

  /** The (n+1)-th attempt on an item comes later than n times 15 seconds after its creation. */
  lemma {:induction false} AttemptsAreSpaced(run: seq<State>, k: nat)
    requires IsRun(run) && k < |run| && run[k].pc.Call?
    ensures var item := run[k].pc.held;
            item.created + RETRY * item.failCount < run[k].clock && item.failCount <= 3
  {
    RunKeepsInv(run, k);
    assert run[k].pc.held in run[k].All();
  }

  /** The places an item can be in. */
  datatype Place = Waiting | Born | Delivered | Dropped | Held

  function At(s: State, p: Place): multiset<CbItem> {
    match p
    case Waiting => multiset(s.heap)
    case Born => s.born
    case Delivered => s.delivered
    case Dropped => s.dropped
    case Held => s.pc.Hand()
  }

  lemma {:induction false} AtIsInAll(s: State, p: Place, x: CbItem)
    requires x in At(s, p)
    ensures x in s.All()
  {
  }

  lemma {:induction false} PlaceOf(s: State, item: CbItem) returns (p: Place)
    requires s.All()[item] == 1
    ensures At(s, p)[item] == 1 && forall q :: item in At(s, q) ==> q == p
  {
    p := if item in s.heap then Waiting else if item in s.born then Born
         else if item in s.delivered then Delivered else if item in s.dropped then Dropped else Held;
    assert s.All()[item] ==
      multiset(s.heap)[item] + s.born[item] + s.delivered[item] + s.dropped[item] + s.pc.Hand()[item];
  }

  /**
   Every item ever created is in exactly one place, once, and in no other item's name; it is
   refused only after exactly four failures, and its launch time is its creation plus fifteen
   seconds for each attempt.
   */
  lemma {:induction false} NothingLostNothingDoubled(run: seq<State>, k: nat, id: nat) returns (item: CbItem, p: Place)
    requires IsRun(run) && k < |run| && id < run[k].nextId
    ensures At(run[k], p)[item] == 1 && item.id == id
    ensures forall q, x :: x in At(run[k], q) && x.id == id ==> q == p && x == item
    ensures item.launchTime == item.created + RETRY * item.failCount
    ensures p == Dropped ==> item.failCount == 4
    ensures p == Waiting ==> item.failCount <= 3
  {
    RunKeepsInv(run, k);
    var s := run[k];
    assert HasId(s.All(), id);
    item :| item in s.All() && item.id == id;
    p := PlaceOf(s, item);
    forall q, x | x in At(s, q) && x.id == id ensures q == p && x == item {
      AtIsInAll(s, q, x);
    }
    AtIsInAll(s, p, item);
  }
}
