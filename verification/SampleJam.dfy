/**
 When the sampling controller is lost: the readers that wait inside the lock for a reset to be
 taken can be more than the ticker goroutine of Done is able to take.
 */
module SampleJam {
  import opened Options
  import opened SampleCtrl
  import opened SampleRuns

  // ---------- A reader inside while the ticker wants the lock ----------

  /** The ticker goroutine of Done wants the lock. */
  predicate WantsLock(pc: Pc) { pc == TLock(Done) || pc == TRLock }

  /** A reader that has the lock and has not decided to leave. */
  predicate Inside(pc: Pc) { pc.RRead? || pc.RCheck? || pc.REval? || pc.RSend? }

  predicate Jams(s: State, t: Tid, r: Tid) {
    t in s.pcs && r in s.pcs && WantsLock(s.pcs[t]) && Inside(s.pcs[r])
  }

  lemma {:induction false} JamStays(s: State, t: Tid, r: Tid, a: Act)
    requires Inv(s) && Jams(s, t, r) && Enabled(s, a)
    ensures Jams(Next(s, a), t, r)
  {
    assert Local(s.g, t, s.pcs[t]) && Local(s.g, r, s.pcs[r]);
    assert IsCarrier(s, t);
    assert a.t in s.pcs ==> Local(s.g, a.t, s.pcs[a.t]);
    match a
    case Run(v, u, sec) => JamRuns(s, t, r, v, u, sec);
    case _ =>
  }

  lemma {:induction false} JamRuns(s: State, t: Tid, r: Tid, v: Tid, u: Tid, sec: int)
    requires Inv(s) && Jams(s, t, r) && Enabled(s, Run(v, u, sec))
    ensures Jams(Next(s, Run(v, u, sec)), t, r)
  {
    assert Local(s.g, t, s.pcs[t]) && Local(s.g, r, s.pcs[r]);
  }

  /**
   A reader that is inside the lock while the ticker goroutine of Done wants it blocks both for
   good: the reader ends in a send that only that goroutine could receive. Whatever else runs,
   the status stays Done and the countdown stops.
   */
  lemma {:induction false} JamIsForever(s: State, t: Tid, r: Tid, acts: seq<Act>)
    requires Reachable(s) && Jams(s, t, r) && Exec(s, acts).Some?
    ensures Jams(Exec(s, acts).value, t, r) && Exec(s, acts).value.g.status == Done
  {
    ReachableInv(s);
    JamLasts(s, t, r, acts);
    ExecKeepsInv(s, acts);
    var s' := Exec(s, acts).value;
    assert Local(s'.g, t, s'.pcs[t]);
  }

  lemma {:induction false} JamLasts(s: State, t: Tid, r: Tid, acts: seq<Act>)
    requires Inv(s) && Jams(s, t, r) && Exec(s, acts).Some?
    ensures Jams(Exec(s, acts).value, t, r)
    decreases |acts|
  {
    if acts != [] {
      JamStays(s, t, r, acts[0]);
      NextKeepsInv(s, acts[0]);
      JamLasts(Next(s, acts[0]), t, r, acts[1..]);
    }
  }

  // ---------- Lost states ----------

  /** Two readers are inside while the ticker goroutine of Done waits: it can take one reset only. */
  predicate Crowds(s: State, t: Tid, r: Tid, q: Tid) {
    t in s.pcs && r in s.pcs && q in s.pcs && r != q && s.pcs[t] == TWait(Done) && Inside(s.pcs[r]) && Inside(s.pcs[q])
  }

  ghost predicate Jammed(s: State) { exists t, r :: Jams(s, t, r) }

  ghost predicate Crowded(s: State) { exists t, r, q :: Crowds(s, t, r, q) }

  /** No run from here ends the sample. */
  ghost predicate Lost(s: State) { Jammed(s) || Crowded(s) }

  lemma {:induction false} CrowdStays(s: State, t: Tid, r: Tid, q: Tid, a: Act)
    requires Inv(s) && Crowds(s, t, r, q) && Enabled(s, a)
    ensures Lost(Next(s, a))
  {
    assert Local(s.g, t, s.pcs[t]) && Local(s.g, r, s.pcs[r]) && Local(s.g, q, s.pcs[q]);
    assert IsCarrier(s, t);
    var s' := Next(s, a);
    match a
    case Visit(v) => assert Crowds(s', t, r, q);
    case Tick(v) => assert IsCarrier(s, v); assert Local(s.g, v, s.pcs[v]); assert Jams(s', t, r);
    case Receive(v, x) => assert IsCarrier(s, v); assert Jams(s', t, if x == r then q else r);
    case Run(v, u, sec) => CrowdRuns(s, t, r, q, v, u, sec); assert Crowds(s', t, r, q);
  }

  lemma {:induction false} CrowdRuns(s: State, t: Tid, r: Tid, q: Tid, v: Tid, u: Tid, sec: int)
    requires Inv(s) && Crowds(s, t, r, q) && Enabled(s, Run(v, u, sec))
    ensures Crowds(Next(s, Run(v, u, sec)), t, r, q)
  {
    assert Local(s.g, t, s.pcs[t]) && Local(s.g, r, s.pcs[r]) && Local(s.g, q, s.pcs[q]);
  }

  lemma {:induction false} LostStays(s: State, a: Act)
    requires Inv(s) && Lost(s) && Enabled(s, a)
    ensures Lost(Next(s, a))
  {
    if Jammed(s) {
      var t, r :| Jams(s, t, r);
      JamStays(s, t, r, a);
    } else {
      var t, r, q :| Crowds(s, t, r, q);
      CrowdStays(s, t, r, q, a);
    }
  }

  lemma {:induction false} LostIsDone(s: State)
    requires Inv(s) && Lost(s)
    ensures s.g.status == Done
  {
    if Jammed(s) {
      var t, r :| Jams(s, t, r);
      assert Local(s.g, t, s.pcs[t]);
    } else {
      var t, r, q :| Crowds(s, t, r, q);
      assert Local(s.g, t, s.pcs[t]);
    }
  }

  /** From a lost state the status stays Done, whatever runs. */
  lemma {:induction false} LostIsForever(s: State, acts: seq<Act>)
    requires Inv(s) && Lost(s) && Exec(s, acts).Some?
    ensures Lost(Exec(s, acts).value) && Exec(s, acts).value.g.status == Done
    decreases |acts|
  {
    if acts == [] {
      LostIsDone(s);
    } else {
      LostStays(s, acts[0]);
      NextKeepsInv(s, acts[0]);
      LostIsForever(Next(s, acts[0]), acts[1..]);
    }
  }

  // ---------- The lock comes free ----------

  /** A step of whoever has the lock for writing. */
  lemma {:induction false} WriterStep(s0: State, s: State, w: Tid) returns (s': State)
    requires Leads(s0, s) && Inv(s) && s.g.writer == Some(w)
    ensures Leads(s0, s') && Inv(s') && w in s.pcs && w in s'.pcs && s'.g.readers == {}
    ensures s'.g.writer == None || (s'.g.writer == Some(w) && Held(s'.pcs[w]) < Held(s.pcs[w]))
  {
    assert w in s.pcs by { assert w !in s.pcs ==> Fresh(s.g, w); }
    WriterEffect(s.g, w, s.pcs[w]);
    var s1, _ := Take(s0, s, w, 0);
    s' := s1;
  }

  /** The steps to the unlock. */
  function Held(pc: Pc): nat { if pc.InCall? || pc.TTick? || pc.TReset? then 1 else 0 }

  lemma {:induction false} WriterEffect(g: Shared, w: Tid, pc: Pc)
    requires Global(g) && Local(g, w, pc) && g.writer == Some(w)
    ensures CanRun(g, pc)
    ensures var e := Step(g, w, pc, 0);
            e.g.readers == {} && (e.g.writer == None || (e.g.writer == Some(w) && Held(e.pc) < Held(pc)))
  {
  }

  /** Whoever has the lock for writing gives it back. */
  lemma {:induction false} WriterLeaves(s0: State, s: State, w: Tid) returns (s': State)
    requires Leads(s0, s) && Inv(s) && s.g.writer == Some(w)
    ensures Leads(s0, s') && Inv(s') && s'.g.LockFree()
  {
    s' := WriterStep(s0, s, w);
    if s'.g.writer.Some? {
      s' := WriterStep(s0, s', w);
    }
  }

  /** The steps a reader is away from leaving. */
  function Away(pc: Pc): nat {
    match pc
    case RRead => 4
    case RSwitch => 1
    case RCheck => 3
    case REval => 2
    case RSend(_) => 1
    case _ => 0
  }

  /** The same but for one reader, who stays inside or comes out. */
  lemma {:induction false} NotLostBy(s: State, s': State, r: Tid)
    requires !Lost(s) && r in s.pcs && s'.pcs.Keys == s.pcs.Keys
    requires forall v :: v in s.pcs && v != r ==> s'.pcs[v] == s.pcs[v]
    requires (Inside(s'.pcs[r]) ==> Inside(s.pcs[r])) && !WantsLock(s'.pcs[r]) && !s'.pcs[r].TWait?
    ensures !Lost(s')
  {
    if Jammed(s') {
      var t, x :| Jams(s', t, x);
      assert Jams(s, t, x);
    }
    if Crowded(s') {
      var t, x, y :| Crowds(s', t, x, y);
      assert Crowds(s, t, x, y);
    }
  }

  /** A reader whose reset is taken comes out; nobody else was inside. */
  lemma {:induction false} ResetIsTaken(s0: State, s: State, r: Tid) returns (s': State)
    requires Leads(s0, s) && Inv(s) && !Lost(s) && s.g.writer == None && r in s.pcs && s.pcs[r].RSend?
    ensures Leads(s0, s') && Inv(s') && !Lost(s') && s'.g == s.g && r in s'.pcs && s'.pcs[r] == RLeave
  {
    assert Local(s.g, r, s.pcs[r]);
    var c :| IsCarrier(s, c);
    assert Local(s.g, c, s.pcs[c]);
    assert !Jams(s, c, r);
    assert s.pcs[c] == TWait(Done);
    s' := Next(s, Receive(c, r));
    LeadsByOne(s, Receive(c, r));
    LeadsOn(s0, s, s');
    TakenIsNotLost(s, c, r);
  }

  lemma {:induction false} TakenIsNotLost(s: State, c: Tid, r: Tid)
    requires Inv(s) && !Lost(s) && Enabled(s, Receive(c, r))
    ensures !Lost(Next(s, Receive(c, r)))
  {
    var s' := Next(s, Receive(c, r));
    assert IsCarrier(s, c);
    forall t, x ensures !Jams(s', t, x) {
      assert !Crowds(s, c, r, x);
      assert t in s.pcs && WantsLock(s.pcs[t]) ==> IsCarrier(s, t);
    }
    forall t, x, y ensures !Crowds(s', t, x, y) {
      assert t in s.pcs && s.pcs[t].TWait? ==> IsCarrier(s, t);
    }
  }

  /** A step of a reader, who comes nearer to leaving. */
  lemma {:induction false} ReaderSteps(s0: State, s: State, r: Tid) returns (s': State)
    requires Leads(s0, s) && Inv(s) && !Lost(s) && s.g.status != No
    requires r in s.g.readers && r in s.pcs && !s.pcs[r].RSend? && s.pcs[r] != RLeave
    ensures Leads(s0, s') && Inv(s') && !Lost(s') && s'.g == s.g && r in s'.pcs && Away(s'.pcs[r]) < Away(s.pcs[r])
  {
    ReaderEffect(s.g, r, s.pcs[r]);
    var s1, _ := Take(s0, s, r, 0);
    s' := s1;
    NotLostBy(s, s', r);
  }

  lemma {:induction false} ReaderEffect(g: Shared, r: Tid, pc: Pc)
    requires Local(g, r, pc) && r in g.readers && !pc.RSend? && pc != RLeave && g.status != No
    ensures CanRun(g, pc) && (Inside(pc) || pc.RSwitch?)
    ensures var e := Step(g, r, pc, 0);
            e.g == g && e.go == None && Away(e.pc) < Away(pc) && !WantsLock(e.pc) && !e.pc.TWait?
  {
  }

  lemma {:induction false} ReaderLeaves(s0: State, s: State, r: Tid) returns (s': State)
    requires Leads(s0, s) && Inv(s) && !Lost(s) && r in s.pcs && s.pcs[r] == RLeave
    ensures Leads(s0, s') && Inv(s') && !Lost(s') && s'.g == s.g.(readers := s.g.readers - {r})
  {
    var s1, _ := Take(s0, s, r, 0);
    s' := s1;
    NotLostBy(s, s', r);
  }

  /** One reader comes out of the lock. */
  lemma {:induction false} OneLeaves(s0: State, s: State, r: Tid) returns (s': State)
    requires Leads(s0, s) && Inv(s) && !Lost(s) && s.g.writer == None && s.g.status != No && r in s.g.readers
    ensures Leads(s0, s') && Inv(s') && !Lost(s') && s'.g == s.g.(readers := s.g.readers - {r})
    decreases if r in s.pcs then Away(s.pcs[r]) else 0
  {
    assert r in s.pcs by { assert r !in s.pcs ==> Fresh(s.g, r); }
    if s.pcs[r] == RLeave {
      s' := ReaderLeaves(s0, s, r);
    } else {
      if s.pcs[r].RSend? {
        s' := ResetIsTaken(s0, s, r);
      } else {
        s' := ReaderSteps(s0, s, r);
      }
      s' := OneLeaves(s0, s', r);
    }
  }

  lemma {:induction false} ReadersLeave(s0: State, s: State) returns (s': State)
    requires Leads(s0, s) && Inv(s) && !Lost(s) && s.g.writer == None && s.g.status != No
    ensures Leads(s0, s') && Inv(s') && s'.g.LockFree()
    decreases s.g.readers
  {
    s' := s;
    if s.g.readers != {} {
      var r :| r in s.g.readers;
      var s1 := OneLeaves(s0, s, r);
      s' := ReadersLeave(s0, s1);
    }
  }

  // ---------- The sample comes to its end ----------

  function Phases(k: Status): nat {
    match k
    case No => 0
    case Done => 1
    case Doing => 2
    case Ready => 3
  }

  /** How far the thread that carries the phase is from its next countdown. */
  function Rank(pc: Pc): nat {
    match pc
    case TCheck(_) => 9
    case TCheckReset => 8
    case TNew(_) => 7
    case TChan => 6
    case TWait(_) => 5
    case TLock(_) => 4
    case TNext(_) => 3
    case Call(_, _) => 2
    case _ => 0
  }

  function Ticks(g: Shared): nat { if g.remainSec > 0 then g.remainSec else 0 }

  /** Nobody has the lock, and `c` carries the phase. */
  ghost predicate Carried(s: State, c: Tid) {
    Inv(s) && s.g.LockFree() && IsCarrier(s, c)
  }

  /** Less is left to do: a phase, a reset that was taken, a tick, or a step. */
  ghost predicate Nearer(s: State, c: Tid, s': State, c': Tid)
    requires IsCarrier(s, c) && IsCarrier(s', c')
  {
    var p, q := s.pcs[c], s'.pcs[c'];
    || Phases(s'.g.status) < Phases(s.g.status)
    || (s'.g.status == s.g.status && p == TRLock && q != TRLock)
    || (s'.g.status == s.g.status && p != TRLock && q != TRLock &&
        (Ticks(s'.g) < Ticks(s.g) || (Ticks(s'.g) == Ticks(s.g) && Rank(q) < Rank(p))))
  }

  ghost predicate GetsOn(s: State, c: Tid, s': State, c': Tid)
    requires IsCarrier(s, c)
  {
    s'.g.status == No || (Carried(s', c') && Nearer(s, c, s', c'))
  }

  /** A step that needs no lock. */
  lemma {:induction false} PlainStep(s0: State, s: State, c: Tid) returns (s': State, c': Tid)
    requires Leads(s0, s) && Carried(s, c)
    requires var pc := s.pcs[c]; pc.TCheck? || pc.TCheckReset? || pc.TNew? || pc.TChan? || pc.TNext?
    ensures Leads(s0, s') && Inv(s') && GetsOn(s, c, s', c')
  {
    PlainEffect(s.g, c, s.pcs[c]);
    var s1, u := Take(s0, s, c, 0);
    s', c' := s1, if s.pcs[c].TNext? then u else c;
  }

  lemma {:induction false} PlainEffect(g: Shared, c: Tid, pc: Pc)
    requires Global(g) && Local(g, c, pc) && (pc.TCheck? || pc.TCheckReset? || pc.TNew? || pc.TChan? || pc.TNext?)
    ensures CanRun(g, pc)
    ensures var e := Step(g, c, pc, 0);
            && e.g.writer == g.writer && e.g.readers == g.readers
            && e.g.status == g.status && e.g.remainSec == g.remainSec
            && (if pc.TNext? then e.go.Some? && Plainer(pc, e.go.value) else e.go == None && Plainer(pc, e.pc))
  {
  }

  ghost predicate Plainer(pc: Pc, pc': Pc) {
    Carries(pc').Some? && pc' != TRLock && Rank(pc') < Rank(pc)
  }

  lemma {:induction false} WaitStep(s0: State, s: State, c: Tid) returns (s': State)
    requires Leads(s0, s) && Carried(s, c) && s.pcs[c].TWait?
    ensures Leads(s0, s') && Inv(s') && GetsOn(s, c, s', c)
  {
    assert Local(s.g, c, s.pcs[c]);
    s' := TickIn(s0, s, c, s.pcs[c].phase);
  }

  /** The call that ends a phase enters the next one. */
  lemma {:induction false} CallStepOn(s0: State, s: State, c: Tid) returns (s': State, c': Tid)
    requires Leads(s0, s) && Carried(s, c) && s.pcs[c].Call?
    ensures Leads(s0, s') && Inv(s') && GetsOn(s, c, s', c')
  {
    assert Local(s.g, c, s.pcs[c]);
    s', c' := Enters(s0, s, c, s.pcs[c].phase);
    assert Local(s'.g, c', s'.pcs[c']);
  }

  lemma {:induction false} TakesLock(s0: State, s: State, c: Tid) returns (s': State)
    requires Leads(s0, s) && Carried(s, c) && (s.pcs[c].TLock? || s.pcs[c] == TRLock)
    ensures Leads(s0, s') && Inv(s') && c in s'.pcs && s'.g == s.g.(writer := Some(c))
    ensures s'.pcs[c] == if s.pcs[c] == TRLock then TReset else TTick(s.pcs[c].phase)
  {
    var s1, _ := Take(s0, s, c, 0);
    s' := s1;
  }

  /** A reset is worked off under the lock. */
  lemma {:induction false} ResetSteps(s0: State, s: State, c: Tid) returns (s': State)
    requires Leads(s0, s) && Carried(s, c) && s.pcs[c] == TRLock
    ensures Leads(s0, s') && Inv(s') && GetsOn(s, c, s', c)
  {
    var s1 := TakesLock(s0, s, c);
    var s2, _ := Take(s0, s1, c, 0);
    var s3, _ := Take(s0, s2, c, 0);
    s' := s3;
  }

  /** A tick is worked off under the lock. */
  lemma {:induction false} TickSteps(s0: State, s: State, c: Tid) returns (s': State)
    requires Leads(s0, s) && Carried(s, c) && s.pcs[c].TLock?
    ensures Leads(s0, s') && Inv(s') && GetsOn(s, c, s', c)
  {
    var s1 := TakesLock(s0, s, c);
    s' := CountsOnce(s0, s1, c, s.pcs[c].phase);
    TickIsNearer(s, c, s');
  }

  lemma {:induction false} TickIsNearer(s: State, c: Tid, s': State)
    requires IsCarrier(s, c) && s.pcs[c].TLock? && Inv(s') && s'.g.LockFree() && c in s'.pcs
    requires s'.g.status == No ||
             (s'.g.status == s.g.status && s'.g.remainSec == s.g.remainSec - 1 &&
              s'.pcs[c] == if s'.g.remainSec > 0 then TWait(s.pcs[c].phase) else TNext(s.pcs[c].phase))
    ensures GetsOn(s, c, s', c)
  {
  }

  lemma {:induction false} Advance(s0: State, s: State, c: Tid) returns (s': State, c': Tid)
    requires Leads(s0, s) && Carried(s, c)
    ensures Leads(s0, s') && Inv(s') && GetsOn(s, c, s', c')
  {
    assert Local(s.g, c, s.pcs[c]);
    c' := c;
    match s.pcs[c]
    case TWait(_) => s' := WaitStep(s0, s, c);
    case Call(_, _) => s', c' := CallStepOn(s0, s, c);
    case TLock(_) => s' := TickSteps(s0, s, c);
    case TRLock => s' := ResetSteps(s0, s, c);
    case _ => s', c' := PlainStep(s0, s, c);
  }

  lemma {:induction false} EndsFrom(s0: State, s: State, c: Tid) returns (s': State)
    requires Leads(s0, s) && Carried(s, c)
    ensures Leads(s0, s') && s'.g.status == No
    decreases Phases(s.g.status), if IsCarrier(s, c) && s.pcs[c] == TRLock then 1 else 0, Ticks(s.g),
              if IsCarrier(s, c) then Rank(s.pcs[c]) else 0
  {
    var s1, c1 := Advance(s0, s, c);
    s' := s1;
    if s1.g.status != No {
      s' := EndsFrom(s0, s1, c1);
    }
  }

  // ---------- Exactly when ----------

  /** Some run ends the sample, if there is one. */
  ghost predicate CanEnd(s: State) {
    exists s' :: Leads(s, s') && s'.g.status == No
  }

  lemma {:induction false} NotLostCanEnd(s: State)
    requires Inv(s) && !Lost(s)
    ensures CanEnd(s)
  {
    assert Exec(s, []) == Some(s);
    assert Leads(s, s);
    if s.g.status != No {
      var s1: State;
      if s.g.writer.Some? {
        s1 := WriterLeaves(s, s, s.g.writer.value);
      } else {
        s1 := ReadersLeave(s, s);
      }
      var s2 := s1;
      if s1.g.status != No {
        var c :| IsCarrier(s1, c);
        s2 := EndsFrom(s, s1, c);
      }
      assert Leads(s, s2) && s2.g.status == No;
    }
  }

  /**
   From a reachable state some run leads back to No if and only if the state is not lost: no reader
   is inside while the ticker goroutine of Done wants the lock, and no two are while it waits.
   */
  lemma {:induction false} EndsUnlessLost(s: State)
    requires Reachable(s)
    ensures CanEnd(s) <==> !Lost(s)
  {
    ReachableInv(s);
    if !Lost(s) {
      NotLostCanEnd(s);
    } else if CanEnd(s) {
      var s' :| Leads(s, s') && s'.g.status == No;
      var acts :| Exec(s, acts) == Some(s');
      LostIsForever(s, acts);
    }
  }

  // ---------- Both kinds of loss are reached ----------

  /** A reader comes in before the tick does. */
  lemma {:induction false} TickMeetsReader(s0: State, s: State, t: Tid) returns (s': State, r: Tid)
    requires Leads(s0, s) && Ticking(s, t, Done)
    ensures Leads(s0, s') && Jams(s', t, r)
  {
    r := FreshName(s.pcs.Keys);
    LeadsByOne(s, Visit(r));
    var s1 := Next(s, Visit(r));
    LeadsOn(s0, s, s1);
    var s2, _ := Take(s0, s1, r, 0);
    assert s2.pcs[t] == TWait(Done) && s2.pcs[r] == RRead;
    assert Local(s2.g, t, s2.pcs[t]);
    LeadsByOne(s2, Tick(t));
    s' := Next(s2, Tick(t));
    LeadsOn(s0, s2, s');
  }

  /** Two requests are enough: one to start a sample, one that is inside when a tick comes in Done. */
  lemma {:induction false} JamIsReachable() returns (s: State, t: Tid, r: Tid)
    ensures Reachable(s) && Jams(s, t, r)
  {
    var s1, t1 := DoneIsReached();
    t := t1;
    s, r := TickMeetsReader(Init(), s1, t);
    var acts :| Exec(Init(), acts) == Some(s);
  }

  lemma {:induction false} Comes(s0: State, s: State, t: Tid, r: Tid) returns (s': State)
    requires Leads(s0, s) && Inv(s) && s.g.writer == None && t in s.pcs && s.pcs[t] == TWait(Done) && r !in s.pcs
    ensures Leads(s0, s') && Inv(s') && s'.g.writer == None && s'.pcs == s.pcs[r := RRead]
  {
    LeadsByOne(s, Visit(r));
    var s1 := Next(s, Visit(r));
    LeadsOn(s0, s, s1);
    var s2, _ := Take(s0, s1, r, 0);
    s' := s2;
  }

  /** Two status requests in Done that overlap lose the controller, without any tick. */
  lemma {:induction false} CrowdIsReachable() returns (s: State, t: Tid, r: Tid, q: Tid)
    ensures Reachable(s) && Crowds(s, t, r, q) && !Jammed(s)
  {
    var s1, t1 := DoneIsReached();
    t := t1;
    r := FreshName(s1.pcs.Keys);
    var s2 := Comes(Init(), s1, t, r);
    q := FreshName(s2.pcs.Keys);
    s := Comes(Init(), s2, t, q);
    var acts :| Exec(Init(), acts) == Some(s);
    WaitingIsNotJammed(s, t);
  }

  lemma {:induction false} WaitingIsNotJammed(s: State, t: Tid)
    requires Inv(s) && t in s.pcs && s.pcs[t] == TWait(Done)
    ensures !Jammed(s)
  {
    assert IsCarrier(s, t);
    forall x, y ensures !Jams(s, x, y) {
      assert x in s.pcs && WantsLock(s.pcs[x]) ==> IsCarrier(s, x);
    }
  }
}
