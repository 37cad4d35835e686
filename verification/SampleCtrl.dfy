/**
 The sampling controller (src/status/ctrl.go) as a concurrent step system. Goroutines are
 threads with a program counter; a step is one access to the shared fields, one lock operation
 or one channel operation, so every interleaving of the Go code is a run of the model. Only what
 a call or the countdown does between taking and giving back the lock for writing is one step.
 Ticks may come at any time. A blocked thread simply has no enabled step.
 */
module SampleCtrl {
  import opened Options

  datatype Status = No | Ready | Doing | Done

  function Succ(k: Status): Status {
    match k
    case No => Ready
    case Ready => Doing
    case Doing => Done
    case Done => No
  }

  /** Before a phase is entered the status is that of the phase before it. */
  function Pre(k: Status): Status {
    match k
    case No => Done
    case Ready => No
    case Doing => Ready
    case Done => Doing
  }

  type Tid = nat
  type Chan = nat

  datatype Pc =
    // getSampleStatus and resetSample
    | RWait                             // before c.RLock()
    | RRead                             // before reading c.sampleStatus
    | RSwitch                           // before reading it again
    | RCheck                            // before the test c.reset != nil
    | REval                             // before c.reset is read again for the send
    | RSend(ch: Chan)                   // in c.reset <- true
    | RSendNil                          // in a send on a nil channel: blocked for good
    | RLeave                            // before c.RUnlock()
    // readySample, doSample, doneSample, named by the status they set
    | Call(phase: Status, sec: int)     // before c.Lock()
    | InCall(phase: Status, sec: int)   // before the test of c.sampleStatus
    | OutCall                           // before the deferred c.Unlock()
    // the ticker goroutine of a phase
    | TCheck(phase: Status)             // before the test c.ticker != nil
    | TCheckReset                       // before the test c.reset != nil
    | TNew(phase: Status)               // before c.ticker = time.NewTicker
    | TChan                             // before c.reset = make(chan bool)
    | TWait(phase: Status)              // waiting for a tick, or in Done for a reset
    | TLock(phase: Status)              // a tick came: before c.Lock()
    | TTick(phase: Status)              // before c.remainSec -= 1
    | TUnlock(phase: Status, last: bool)  // before c.Unlock()
    | TNext(phase: Status)              // before go c.doSample() or go c.doneSample()
    | TRLock                            // a reset came: before c.Lock()
    | TReset                            // before c.remainSec = 60 * 5
    | TRUnlock                          // before c.Unlock()
    | End
    | Panic                             // any of the panics of the file or of the runtime

  /** The fields of ctrl and its RWMutex; `closed` and `nextChan` are the channels made so far. */
  datatype Shared = Shared(status: Status, remainSec: int,
                           ticker: Option<Tid>,   // c.ticker, named by the goroutine that made it
                           reset: Option<Chan>, closed: set<Chan>, nextChan: Chan,
                           writer: Option<Tid>, readers: set<Tid>)
  {
    predicate LockFree() { writer == None && readers == {} }
  }

  datatype State = State(g: Shared, pcs: map<Tid, Pc>)

  function Init(): State { State(Shared(No, 0, None, None, {}, 0, None, {}), map[]) }

  // ---------- Steps ----------

  /** What a step of one thread does: to the fields, to itself, and the goroutine it starts. */
  datatype Effect = Effect(g: Shared, pc: Pc, go: Option<Pc>)

  predicate CanRun(g: Shared, pc: Pc) {
    match pc
    case RWait => g.writer == None
    case Call(_, _) => g.LockFree()
    case TLock(_) => g.LockFree()
    case TRLock => g.LockFree()
    case RSend(ch) => ch in g.closed
    case RSendNil => false
    case TWait(_) => false
    case End => false
    case Panic => false
    case _ => true
  }

  /** getSampleStatus and resetSample; `sec` is 60 minus the second of the clock it reads. */
  function ReaderStep(g: Shared, t: Tid, pc: Pc, sec: int): Effect
    requires pc.RWait? || pc.RRead? || pc.RSwitch? || pc.RCheck? || pc.REval? || pc.RSend? || pc.RLeave?
  {
    match pc
    case RWait => Effect(g.(readers := g.readers + {t}), RRead, None)
    case RRead =>
      (match g.status
       case Done => Effect(g, RCheck, None)
       case _ => Effect(g, RSwitch, None))
    case RSwitch =>
      (match g.status
       case Done => Effect(g, Panic, None)
       case No => Effect(g, RLeave, Some(Call(Ready, sec)))
       case _ => Effect(g, RLeave, None))
    case RCheck => Effect(g, if g.reset == None then RLeave else REval, None)
    case REval => Effect(g, if g.reset == None then RSendNil else RSend(g.reset.value), None)
    case RSend(_) => Effect(g, Panic, None)
    case RLeave => Effect(g.(readers := g.readers - {t}), End, None)
  }

  /** readySample, doSample and doneSample. */
  function CallStep(g: Shared, t: Tid, pc: Pc): Effect
    requires pc.Call? || pc.InCall? || pc.OutCall?
  {
    match pc
    case Call(k, n) => Effect(g.(writer := Some(t)), InCall(k, n), None)
    case InCall(k, n) =>
      if g.status != Pre(k) then Effect(g, OutCall, None)
      else Effect(g.(status := k, remainSec := if k == Ready then n else if k == Doing then 60 else 300),
                  OutCall, Some(TCheck(k)))
    case OutCall => Effect(g.(writer := None), End, None)
  }

  /** The ticker goroutines. */
  function TickerStep(g: Shared, t: Tid, pc: Pc): Effect
    requires pc.TCheck? || pc.TCheckReset? || pc.TNew? || pc.TChan? || pc.TLock? || pc.TTick? || pc.TUnlock? ||
        pc.TNext?
             || pc.TRLock? || pc.TReset? || pc.TRUnlock?
  {
    match pc
    case TCheck(k) => Effect(g, if g.ticker != None then Panic else if k == Done then TCheckReset else TNew(k), None)
    case TCheckReset => Effect(g, if g.reset != None then Panic else TNew(Done), None)
    case TNew(k) => Effect(g.(ticker := Some(t)), if k == Done then TChan else TWait(k), None)
    case TChan => Effect(g.(reset := Some(g.nextChan), nextChan := g.nextChan + 1), TWait(Done), None)
    case TLock(k) => Effect(g.(writer := Some(t)), TTick(k), None)
    case TTick(k) => Countdown(g, k)
    case TUnlock(k, last) =>
      Effect(g.(writer := None), if !last then TWait(k) else if k == Done then End else TNext(k), None)
    case TNext(k) => Effect(g, End, Some(Call(Succ(k), 0)))
    case TRLock => Effect(g.(writer := Some(t)), TReset, None)
    case TReset => Effect(g.(remainSec := 300), TRUnlock, None)
    case TRUnlock => Effect(g.(writer := None), TWait(Done), None)
  }

  /** c.remainSec -= 1 under the lock, and the clean-up when it runs out. */
  function Countdown(g: Shared, k: Status): Effect {
    var n := g.remainSec - 1;
    if n > 0 then Effect(g.(remainSec := n), TUnlock(k, false), None)
    else if g.ticker == None then Effect(g, Panic, None)
    else if k != Done then Effect(g.(remainSec := n, ticker := None), TUnlock(k, true), None)
    else if g.reset == None || g.reset.value in g.closed then Effect(g, Panic, None)
    else Effect(g.(remainSec := n, closed := g.closed + {g.reset.value}, reset := None, status := No, ticker := None),
                TUnlock(k, true), None)
  }

  predicate IsReader(pc: Pc) {
    pc.RWait? || pc.RRead? || pc.RSwitch? || pc.RCheck? || pc.REval? || pc.RSend? || pc.RLeave?
  }

  predicate IsCall(pc: Pc) { pc.Call? || pc.InCall? || pc.OutCall? }

  function Step(g: Shared, t: Tid, pc: Pc, sec: int): Effect
    requires CanRun(g, pc)
  {
    if IsReader(pc) then ReaderStep(g, t, pc, sec) else if IsCall(pc) then CallStep(g, t, pc) else TickerStep(g, t, pc)
  }

  /**
   `Visit(t)`: a status request arrives as thread t. `Tick(t)`: the ticker of t fires, read
   through c.ticker. `Receive(t, r)`: t takes the reset that r is sending. `Run(t, u, sec)`: any
   other step of t; u names the goroutine it may start.
   */
  datatype Act = Visit(t: Tid) | Tick(t: Tid) | Receive(t: Tid, r: Tid) | Run(t: Tid, u: Tid, sec: int)

  predicate Enabled(s: State, a: Act) {
    match a
    case Visit(t) => t !in s.pcs
    case Tick(t) => t in s.pcs && s.pcs[t].TWait?
    case Receive(t, r) =>
      t in s.pcs && r in s.pcs && s.pcs[t] == TWait(Done) && s.pcs[r].RSend? && s.g.reset == Some(s.pcs[r].ch)
    case Run(t, u, _) => t in s.pcs && u !in s.pcs && CanRun(s.g, s.pcs[t])
  }

  function Next(s: State, a: Act): State
    requires Enabled(s, a)
  {
    match a
    case Visit(t) => State(s.g, s.pcs[t := RWait])
    case Tick(t) => State(s.g, s.pcs[t := if s.g.ticker == None then Panic else TLock(s.pcs[t].phase)])
    case Receive(t, r) => State(s.g, s.pcs[t := TRLock][r := RLeave])
    case Run(t, u, sec) => After(s, t, u, Step(s.g, t, s.pcs[t], sec))
  }

  function After(s: State, t: Tid, u: Tid, e: Effect): State {
    State(e.g, if e.go.Some? then s.pcs[t := e.pc][u := e.go.value] else s.pcs[t := e.pc])
  }

  // ---------- The invariant ----------

  /** The phase a thread carries forward; at most one thread does. */
  function Carries(pc: Pc): Option<Status> {
    match pc
    case Call(k, _) => if k == Ready then None else Some(Pre(k))
    case InCall(k, _) => if k == Ready then None else Some(Pre(k))
    case TCheck(k) => Some(k)
    case TCheckReset => Some(Done)
    case TNew(k) => Some(k)
    case TChan => Some(Done)
    case TWait(k) => Some(k)
    case TLock(k) => Some(k)
    case TTick(k) => Some(k)
    case TUnlock(k, last) => if last && k == Done then None else Some(k)
    case TNext(k) => Some(k)
    case TRLock => Some(Done)
    case TReset => Some(Done)
    case TRUnlock => Some(Done)
    case _ => None
  }

  predicate OwnsTicker(pc: Pc) {
    pc.TChan? || pc.TWait? || pc.TLock? || pc.TTick? || (pc.TUnlock? && !pc.last) || pc.TRLock? || pc.TReset? ||
      pc.TRUnlock?
  }

  predicate OwnsReset(pc: Pc) {
    OwnsTicker(pc) && Carries(pc) == Some(Done) && !pc.TChan?
  }

  predicate Writes(pc: Pc) {
    pc.InCall? || pc.OutCall? || pc.TTick? || pc.TUnlock? || pc.TReset? || pc.TRUnlock?
  }

  predicate Reads(pc: Pc) {
    pc.RRead? || pc.RSwitch? || pc.RCheck? || pc.REval? || pc.RSend? || pc.RLeave?
  }

  /**
   What holds of each thread. The one that carries the phase pins down status, ticker and reset
   channel; the others only know what the lock they hold protects.
   */
  ghost predicate Local(g: Shared, t: Tid, pc: Pc) {
    && pc != Panic && pc != RSendNil
    && (Carries(pc).Some? ==> CarrierOk(g, t, pc))
    && (Writes(pc) <==> g.writer == Some(t))
    && (Reads(pc) <==> t in g.readers)
    && (pc.RCheck? || pc.REval? || pc.RSend? ==> g.status == Done)
    && (pc.RSwitch? ==> g.status != Done)
    && (pc.REval? ==> g.reset.Some?)
    && (pc.RSend? ==> g.reset == Some(pc.ch))
    && (pc.Call? || pc.InCall? ==> pc.phase != No)
    && (pc.TNext? ==> pc.phase != Done)
  }

  ghost predicate CarrierOk(g: Shared, t: Tid, pc: Pc) {
    && Carries(pc) == Some(g.status) && g.status != No
    && g.ticker == (if OwnsTicker(pc) then Some(t) else None)
    && (OwnsReset(pc) <==> g.reset.Some?)
  }

  ghost predicate Global(g: Shared) {
    && (g.status == No ==> g.ticker == None)
    && (g.status != Done ==> g.reset == None)
    && (g.reset.Some? ==> g.reset.value < g.nextChan && g.reset.value !in g.closed)
    && (forall c :: c in g.closed ==> c < g.nextChan)
    && (g.writer.Some? ==> g.readers == {})
  }

  /** A name that no field mentions. */
  ghost predicate Fresh(g: Shared, u: Tid) {
    g.writer != Some(u) && u !in g.readers && g.ticker != Some(u)
  }

  // ---------- One step, thread by thread ----------

  lemma {:induction false} StepKeepsGlobal(g: Shared, t: Tid, pc: Pc, sec: int)
    requires Global(g) && Local(g, t, pc) && CanRun(g, pc)
    ensures Global(Step(g, t, pc, sec).g)
  {
  }

  lemma {:induction false} ReaderKeepsSelf(g: Shared, t: Tid, pc: Pc, sec: int)
    requires Global(g) && Local(g, t, pc) && CanRun(g, pc) && IsReader(pc)
    ensures Local(Step(g, t, pc, sec).g, t, Step(g, t, pc, sec).pc)
  {
  }

  lemma {:induction false} CountdownKeepsSelf(g: Shared, t: Tid, k: Status)
    requires Global(g) && Local(g, t, TTick(k))
    ensures Local(Countdown(g, k).g, t, Countdown(g, k).pc)
  {
  }

  lemma {:induction false} StepKeepsSelf(g: Shared, t: Tid, pc: Pc, sec: int)
    requires Global(g) && Local(g, t, pc) && CanRun(g, pc)
    ensures Local(Step(g, t, pc, sec).g, t, Step(g, t, pc, sec).pc)
  {
    if IsReader(pc) {
      ReaderKeepsSelf(g, t, pc, sec);
    } else if pc.TTick? {
      CountdownKeepsSelf(g, t, pc.phase);
    }
  }

  lemma {:induction false} StepStartsWell(g: Shared, t: Tid, pc: Pc, sec: int, u: Tid)
    requires Global(g) && Local(g, t, pc) && CanRun(g, pc) && Fresh(g, u) && u != t
    ensures var e := Step(g, t, pc, sec); e.go.Some? ==> Local(e.g, u, e.go.value)
    ensures Fresh(Step(g, t, pc, sec).g, u)
  {
  }

  /** Nothing another thread relies on is changed under it. */
  lemma {:induction false} StepKeepsOther(g: Shared, t: Tid, pc: Pc, sec: int, v: Tid, w: Pc)
    requires Global(g) && Local(g, t, pc) && CanRun(g, pc) && Local(g, v, w) && v != t
    requires !(Carries(pc).Some? && Carries(w).Some?)
    ensures Local(Step(g, t, pc, sec).g, v, w)
  {
  }

  /** The phase is handed on, to the thread itself or to the one it starts, and never doubled. */
  ghost predicate HandsOn(g: Shared, pc: Pc, e: Effect) {
    var self, other := Carries(e.pc).Some?, e.go.Some? && Carries(e.go.value).Some?;
    && !(self && other)
    && (self || other ==> Carries(pc).Some? || g.status == No)
    && (Carries(pc).Some? && e.g.status != No ==> self || other)
    && (Carries(pc).None? && e.g.status != g.status ==> g.status == No && other)
  }

  lemma {:induction false} StepHandsOn(g: Shared, t: Tid, pc: Pc, sec: int)
    requires Global(g) && Local(g, t, pc) && CanRun(g, pc)
    ensures HandsOn(g, pc, Step(g, t, pc, sec))
  {
    if IsReader(pc) {
    } else if IsCall(pc) {
      CallHandsOn(g, t, pc);
    } else if pc.TTick? {
      CountdownHandsOn(g, t, pc.phase);
    } else {
      TickerHandsOn(g, t, pc);
    }
  }

  lemma {:induction false} CallHandsOn(g: Shared, t: Tid, pc: Pc)
    requires Global(g) && Local(g, t, pc) && CanRun(g, pc) && IsCall(pc)
    ensures HandsOn(g, pc, CallStep(g, t, pc))
  {
  }

  lemma {:induction false} TickerHandsOn(g: Shared, t: Tid, pc: Pc)
    requires Global(g) && Local(g, t, pc) && CanRun(g, pc) && !IsReader(pc) && !IsCall(pc) && !pc.TTick?
    ensures HandsOn(g, pc, TickerStep(g, t, pc))
  {
  }

  lemma {:induction false} CountdownHandsOn(g: Shared, t: Tid, k: Status)
    requires Global(g) && Local(g, t, TTick(k))
    ensures HandsOn(g, TTick(k), Countdown(g, k))
  {
  }

  // ---------- All threads ----------

  /** At most one thread carries the phase, and one does unless the status is No. */
  ghost predicate OneCarrier(s: State) {
    && (forall t, u :: t in s.pcs && u in s.pcs && Carries(s.pcs[t]).Some? && Carries(s.pcs[u]).Some? ==> t == u)
    && (s.g.status != No ==> exists t :: IsCarrier(s, t))
  }

  predicate IsCarrier(s: State, t: Tid) { t in s.pcs && Carries(s.pcs[t]).Some? }

  ghost predicate Inv(s: State) {
    && Global(s.g) && OneCarrier(s)
    && (forall t :: t in s.pcs ==> Local(s.g, t, s.pcs[t]))
    && (forall u :: u !in s.pcs ==> Fresh(s.g, u))
  }

  lemma {:induction false} AfterKeepsOneCarrier(s: State, t: Tid, u: Tid, e: Effect)
    requires t in s.pcs && u !in s.pcs && OneCarrier(s) && HandsOn(s.g, s.pcs[t], e)
    requires s.g.status == No ==> !exists c :: IsCarrier(s, c)
    ensures OneCarrier(After(s, t, u, e))
  {
    var s' := After(s, t, u, e);
    assert forall v :: v in s.pcs && v != t ==> s'.pcs[v] == s.pcs[v];
    forall v, w | v in s'.pcs && w in s'.pcs && Carries(s'.pcs[v]).Some? && Carries(s'.pcs[w]).Some? ensures v == w {
      assert v != t && v != u ==> IsCarrier(s, v);
      assert w != t && w != u ==> IsCarrier(s, w);
    }
    if s'.g.status != No && !IsCarrier(s', t) && !IsCarrier(s', u) {
      var c :| IsCarrier(s, c);
      assert IsCarrier(s', c);
    }
  }

  lemma {:induction false} RunKeepsInv(s: State, t: Tid, u: Tid, sec: int)
    requires Inv(s) && Enabled(s, Run(t, u, sec))
    ensures Inv(Next(s, Run(t, u, sec)))
  {
    var s' := Next(s, Run(t, u, sec));
    var pc, e := s.pcs[t], Step(s.g, t, s.pcs[t], sec);
    StepHandsOn(s.g, t, pc, sec);
    AfterKeepsOneCarrier(s, t, u, e);
    StepKeepsGlobal(s.g, t, pc, sec);
    StepStartsWell(s.g, t, pc, sec, u);
    forall v | v in s'.pcs ensures Local(s'.g, v, s'.pcs[v]) {
      if v == t {
        StepKeepsSelf(s.g, t, pc, sec);
      } else if v != u {
        StepKeepsOther(s.g, t, pc, sec, v, s.pcs[v]);
      }
    }
    forall v | v !in s'.pcs ensures Fresh(s'.g, v) {
      StepStartsWell(s.g, t, pc, sec, v);
    }
  }

  lemma {:induction false} VisitKeepsInv(s: State, t: Tid)
    requires Inv(s) && Enabled(s, Visit(t))
    ensures Inv(Next(s, Visit(t)))
  {
    var s' := Next(s, Visit(t));
    assert forall v :: v in s.pcs ==> s'.pcs[v] == s.pcs[v];
    if s.g.status != No { var c :| IsCarrier(s, c); assert IsCarrier(s', c); }
  }

  /** A thread moves on by itself, carrying what it carried. */
  lemma {:induction false} MoveKeepsInv(s: State, t: Tid, pc: Pc)
    requires Inv(s) && t in s.pcs && Local(s.g, t, pc) && Carries(pc) == Carries(s.pcs[t])
    ensures Inv(State(s.g, s.pcs[t := pc]))
  {
    var s' := State(s.g, s.pcs[t := pc]);
    assert forall v :: v in s.pcs ==> IsCarrier(s', v) == IsCarrier(s, v);
    if s.g.status != No { var c :| IsCarrier(s, c); assert IsCarrier(s', c); }
  }

  lemma {:induction false} TickKeepsInv(s: State, t: Tid)
    requires Inv(s) && Enabled(s, Tick(t))
    ensures Inv(Next(s, Tick(t)))
  {
    assert Local(s.g, t, s.pcs[t]);
    MoveKeepsInv(s, t, TLock(s.pcs[t].phase));
  }

  lemma {:induction false} ReceiveKeepsInv(s: State, t: Tid, r: Tid)
    requires Inv(s) && Enabled(s, Receive(t, r))
    ensures Inv(Next(s, Receive(t, r)))
  {
    assert Local(s.g, t, s.pcs[t]) && Local(s.g, r, s.pcs[r]);
    MoveKeepsInv(s, t, TRLock);
    MoveKeepsInv(State(s.g, s.pcs[t := TRLock]), r, RLeave);
  }

  lemma {:induction false} NextKeepsInv(s: State, a: Act)
    requires Inv(s) && Enabled(s, a)
    ensures Inv(Next(s, a))
  {
    match a
    case Run(t, u, sec) => RunKeepsInv(s, t, u, sec);
    case Visit(t) => VisitKeepsInv(s, t);
    case Tick(t) => TickKeepsInv(s, t);
    case Receive(t, r) => ReceiveKeepsInv(s, t, r);
  }

  // ---------- Safety in every interleaving ----------

  /** Where a sequence of acts leads, if each is enabled when its turn comes. */
  function Exec(s: State, acts: seq<Act>): Option<State>
    decreases |acts|
  {
    if acts == [] then Some(s)
    else if Enabled(s, acts[0]) then Exec(Next(s, acts[0]), acts[1..])
    else None
  }

  lemma {:induction false} ExecKeepsInv(s: State, acts: seq<Act>)
    requires Inv(s) && Exec(s, acts).Some?
    ensures Inv(Exec(s, acts).value)
    decreases |acts|
  {
    if acts != [] {
      NextKeepsInv(s, acts[0]);
      ExecKeepsInv(Next(s, acts[0]), acts[1..]);
    }
  }

  ghost predicate Reachable(s: State) {
    exists acts :: Exec(Init(), acts) == Some(s)
  }

  lemma {:induction false} ReachableInv(s: State)
    requires Reachable(s)
    ensures Inv(s)
  {
    var acts :| Exec(Init(), acts) == Some(s);
    ExecKeepsInv(Init(), acts);
  }

  /** No panic is reached, and no send waits on a nil channel. */
  lemma {:induction false} NoPanic(s: State, t: Tid)
    requires Reachable(s) && t in s.pcs
    ensures s.pcs[t] != Panic && s.pcs[t] != RSendNil
  {
    ReachableInv(s);
  }

  /** At most one ticker goroutine is live, and c.ticker is its ticker. */
  lemma {:induction false} OneTicker(s: State, t: Tid, u: Tid)
    requires Reachable(s) && t in s.pcs && OwnsTicker(s.pcs[t])
    ensures s.g.ticker == Some(t)
    ensures u in s.pcs && OwnsTicker(s.pcs[u]) ==> u == t
  {
    ReachableInv(s);
    OwnerIsTicker(s.g, t, s.pcs[t]);
    if u in s.pcs && OwnsTicker(s.pcs[u]) { OwnerIsTicker(s.g, u, s.pcs[u]); }
  }

  lemma {:induction false} OwnerIsTicker(g: Shared, t: Tid, pc: Pc)
    requires Local(g, t, pc) && OwnsTicker(pc)
    ensures g.ticker == Some(t)
  {
  }

  /** A send is on the channel in c.reset, and that channel is open. */
  lemma {:induction false} SendsAreOnOpenChannel(s: State, t: Tid)
    requires Reachable(s) && t in s.pcs && s.pcs[t].RSend?
    ensures s.g.reset == Some(s.pcs[t].ch) && s.pcs[t].ch !in s.g.closed
  {
    ReachableInv(s);
  }

  lemma {:induction false} StepMovesOn(g: Shared, t: Tid, pc: Pc, sec: int)
    requires Local(g, t, pc) && CanRun(g, pc)
    ensures Step(g, t, pc, sec).g.status in {g.status, Succ(g.status)}
  {
  }

  /** The status only moves on to the next phase, round and round. */
  lemma {:induction false} StatusCycles(s: State, a: Act)
    requires Reachable(s) && Enabled(s, a)
    ensures Next(s, a).g.status in {s.g.status, Succ(s.g.status)}
  {
    ReachableInv(s);
    if a.Run? { StepMovesOn(s.g, a.t, s.pcs[a.t], a.sec); }
  }
}
