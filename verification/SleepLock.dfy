/**
 Sleep locks (kernel/sleeplock.c) over sleep, wakeup and kill of kernel/proc.c, as a state machine
 in which processes on any number of processors interleave between lock operations.  One sleep
 lock is followed; `Pc` says where each process is with respect to it.
 */
module SleepLock {

  datatype Pc =
    | Idle
    | WantInner         // acquire(&lk->lk), in acquiresleep or at the end of sleep
    | Testing           // holds lk->lk, about to test lk->locked
    | SleepWant         // in sleep, holds lk->lk, about to acquire its own p->lock
    | SleepBoth         // in sleep, holds both, about to release lk->lk
    | SleepCommitted    // holds only p->lock, state still RUNNING
    | SleepMarked       // state SLEEPING, p->lock not yet released by the scheduler
    | Asleep            // state SLEEPING, p->lock free
    | Runnable          // woken, waiting to be scheduled
    | Scheduled         // running again inside sleep, holds p->lock
    | Taken             // has set lk->locked, still holds lk->lk
    | Holding           // has the sleep lock
    | ReleaseWant       // in releasesleep, about to acquire lk->lk
    | Releasing         // holds lk->lk, about to clear lk->locked
    | Waking(j: nat)    // holds lk->lk, wakeup has passed the slots below j

  datatype State = State(pcs: seq<Pc>, inner: int, locked: bool, owner: int)

  datatype Event =
    | Acquire(p: nat)   // an idle process calls acquiresleep
    | Release(p: nat)   // the holder calls releasesleep
    | Step(p: nat)      // process p takes its next step
    | Kill(p: nat)      // kill wakes a sleeping process

  /** Inside the critical section of the inner spinlock. */
  predicate InInner(pc: Pc) {
    pc.Testing? || pc.SleepWant? || pc.SleepBoth? || pc.Taken? || pc.Releasing? || pc.Waking?
  }

  /** Has the sleep lock. */
  predicate Owns(pc: Pc) {
    pc.Taken? || pc.Holding? || pc.ReleaseWant? || pc.Releasing?
  }

  /** Asleep on the lock, or past the point of no return in sleep. */
  predicate Sleeping(pc: Pc) {
    pc.SleepCommitted? || pc.SleepMarked? || pc.Asleep?
  }

  /** The process's own p->lock is taken, so wakeup and kill must wait. */
  predicate OwnLockTaken(pc: Pc) {
    pc.SleepBoth? || pc.SleepCommitted? || pc.SleepMarked? || pc.Scheduled?
  }

  predicate Enabled(s: State, e: Event) {
    && e.p < |s.pcs|
    && match e
       case Acquire(p) => s.pcs[p].Idle?
       case Release(p) => s.pcs[p].Holding?
       case Kill(p) => !OwnLockTaken(s.pcs[p])
       case Step(p) =>
         match s.pcs[p]
         case Idle => false
         case Holding => false
         case Asleep => false
         case WantInner => s.inner == -1
         case ReleaseWant => s.inner == -1
         case Waking(j) => j >= |s.pcs| || j == p || !OwnLockTaken(s.pcs[j])
         case _ => true
  }

  function Goto(s: State, p: nat, pc: Pc): State
    requires p < |s.pcs|
  {
    s.(pcs := s.pcs[p := pc])
  }

  function WakeOne(s: State, p: nat): State
    requires p < |s.pcs|
  {
    if s.pcs[p].Asleep? then Goto(s, p, Runnable) else s
  }

  function Do(s: State, e: Event): (t: State)
    requires Enabled(s, e)
    ensures |t.pcs| == |s.pcs|
  {
    match e
    case Acquire(p) => Goto(s, p, WantInner)
    case Release(p) => Goto(s, p, ReleaseWant)
    case Kill(p) => WakeOne(s, p)
    case Step(p) => DoStep(s, p)
  }

  function DoStep(s: State, p: nat): (t: State)
    requires Enabled(s, Step(p))
    ensures |t.pcs| == |s.pcs|
  {
    match s.pcs[p]
    case WantInner => Goto(s, p, Testing).(inner := p)
    case Testing =>
      if s.locked then Goto(s, p, SleepWant) else Goto(s, p, Taken).(locked := true, owner := p)
    case SleepWant => Goto(s, p, SleepBoth)
    case SleepBoth => Goto(s, p, SleepCommitted).(inner := -1)
    case SleepCommitted => Goto(s, p, SleepMarked)
    case SleepMarked => Goto(s, p, Asleep)
    case Runnable => Goto(s, p, Scheduled)
    case Scheduled => Goto(s, p, WantInner)
    case Taken => Goto(s, p, Holding).(inner := -1)
    case ReleaseWant => Goto(s, p, Releasing).(inner := p)
    case Releasing => Goto(s, p, Waking(0)).(locked := false, owner := -1)
    case Waking(j) =>
      if j >= |s.pcs| then Goto(s, p, Idle).(inner := -1)
      else if j == p then Goto(s, p, Waking(j + 1))
      else Goto(WakeOne(s, j), p, Waking(j + 1))
    case _ => s
  }

  predicate Init(s: State) {
    s.inner == -1 && !s.locked && s.owner == -1 && forall p :: 0 <= p < |s.pcs| ==> s.pcs[p].Idle?
  }

  predicate IsRun(s: State, es: seq<Event>)
    decreases |es|, 0
  {
    es == [] || (IsRun(s, es[..|es| - 1]) && Enabled(RunTo(s, es[..|es| - 1]), es[|es| - 1]))
  }

  function RunTo(s: State, es: seq<Event>): State
    requires IsRun(s, es)
    decreases |es|, 1
  {
    if es == [] then s else Do(RunTo(s, es[..|es| - 1]), es[|es| - 1])
  }

  // ----- Invariant -----

  /** The inner lock is held by exactly the process in its critical section. */
  ghost predicate InnerInv(s: State) {
    && -1 <= s.inner < |s.pcs|
    && forall p :: 0 <= p < |s.pcs| ==> (InInner(s.pcs[p]) <==> s.inner == p)
  }

  /** locked and owner describe exactly the process that has the sleep lock. */
  ghost predicate OwnerInv(s: State) {
    && -1 <= s.owner < |s.pcs| && (s.locked <==> s.owner != -1)
    && forall p :: 0 <= p < |s.pcs| ==> (Owns(s.pcs[p]) <==> s.owner == p)
  }

  /** Process p is going to sleep with the inner lock: the sleep lock is taken. */
  ghost predicate TestedInv(s: State) {
    forall p :: 0 <= p < |s.pcs| && (s.pcs[p].SleepWant? || s.pcs[p].SleepBoth?) ==> s.locked
  }

  /** Somebody is in wakeup and has not passed slot p. */
  predicate WillWake(s: State, p: nat) {
    0 <= s.inner < |s.pcs| && s.pcs[s.inner].Waking? && s.pcs[s.inner].j <= p
  }

  ghost predicate WakeInv(s: State) {
    !s.locked ==> forall p :: 0 <= p < |s.pcs| && Sleeping(s.pcs[p]) ==> WillWake(s, p)
  }

  ghost predicate Inv(s: State) {
    InnerInv(s) && OwnerInv(s) && TestedInv(s) && WakeInv(s)
  }

  lemma InnerStep(s: State, e: Event)
    requires InnerInv(s) && Enabled(s, e)
    ensures InnerInv(Do(s, e))
  {
  }

  lemma OwnerStep(s: State, e: Event)
    requires OwnerInv(s) && Enabled(s, e)
    ensures OwnerInv(Do(s, e))
  {
  }

  lemma TestedStep(s: State, e: Event)
    requires InnerInv(s) && OwnerInv(s) && TestedInv(s) && Enabled(s, e)
    ensures TestedInv(Do(s, e))
  {
  }

  lemma WakeStep(s: State, e: Event)
    requires Inv(s) && Enabled(s, e)
    ensures WakeInv(Do(s, e))
  {
    var t := Do(s, e);
    if !t.locked {
      forall p: nat | p < |t.pcs| && Sleeping(t.pcs[p]) ensures WillWake(t, p) { StaysWoken(s, e, p); }
    }
  }

  lemma StaysWoken(s: State, e: Event, p: nat)
    requires Inv(s) && Enabled(s, e) && p < |s.pcs| && Sleeping(Do(s, e).pcs[p]) && !Do(s, e).locked
    ensures WillWake(Do(s, e), p)
  {
    if e.Step? && s.pcs[e.p].Releasing? {
      assert Do(s, e).inner == e.p;
    } else {
      assert !s.locked;
      assert Sleeping(s.pcs[p]);
      assert WillWake(s, p);
    }
  }

  /** Every step keeps the invariant. */
  lemma StepKeepsInv(s: State, e: Event)
    requires Inv(s) && Enabled(s, e)
    ensures Inv(Do(s, e))
  {
    InnerStep(s, e);
    OwnerStep(s, e);
    TestedStep(s, e);
    WakeStep(s, e);
  }

  lemma {:induction false} RunKeepsInv(s: State, es: seq<Event>)
    requires Init(s) && IsRun(s, es)
    ensures Inv(RunTo(s, es))
    decreases |es|
  {
    if es != [] {
      RunKeepsInv(s, es[..|es| - 1]);
      StepKeepsInv(RunTo(s, es[..|es| - 1]), es[|es| - 1]);
    }
  }

  // ----- What it means -----

  /** At most one process has the sleep lock, and it is the one that holdingsleep recognizes. */
  lemma MutualExclusion(s: State, es: seq<Event>, p: nat)
    requires Init(s) && IsRun(s, es) && p < |RunTo(s, es).pcs|
    ensures Owns(RunTo(s, es).pcs[p]) <==> RunTo(s, es).locked && RunTo(s, es).owner == p
    ensures forall q :: 0 <= q < |RunTo(s, es).pcs| && Owns(RunTo(s, es).pcs[p]) && Owns(RunTo(s, es).pcs[q]) ==> p == q
  {
    RunKeepsInv(s, es);
  }

  /** No wakeup is lost: whenever the inner lock is free and the sleep lock is not taken, no process
      is asleep on it or on its way to sleep. */
  lemma NoLostWakeup(s: State, es: seq<Event>, p: nat)
    requires Init(s) && IsRun(s, es) && p < |RunTo(s, es).pcs|
    requires RunTo(s, es).inner == -1 && !RunTo(s, es).locked
    ensures var pc := RunTo(s, es).pcs[p]; !Sleeping(pc) && !pc.SleepWant? && !pc.SleepBoth?
  {
    RunKeepsInv(s, es);
  }

  /** In acquiresleep, with or without sleeping. */
  predicate Acquiring(pc: Pc) {
    || pc.WantInner? || pc.Testing? || pc.SleepWant? || pc.SleepBoth? || Sleeping(pc)
    || pc.Runnable? || pc.Scheduled?
  }

  /** A process leaves acquiresleep only by taking a lock that was free, and is its owner then; it gives
      the lock up only in releasesleep; and it leaves releasesleep only when nobody sleeps on the lock. */
  lemma LifeCycle(s: State, es: seq<Event>, e: Event, p: nat)
    requires Init(s) && IsRun(s, es) && Enabled(RunTo(s, es), e) && p < |RunTo(s, es).pcs|
    ensures var a := RunTo(s, es); var b := Do(a, e);
            && (a.pcs[p].Idle? && !b.pcs[p].Idle? ==> e == Acquire(p) && Acquiring(b.pcs[p]))
            && (Acquiring(a.pcs[p]) && !Acquiring(b.pcs[p]) ==>
                  !a.locked && b.locked && b.owner == p && Owns(b.pcs[p]))
            && (Owns(a.pcs[p]) && !Owns(b.pcs[p]) ==> a.owner == p && !b.locked && b.pcs[p].Waking?)
            && (a.pcs[p].Waking? && !b.pcs[p].Waking? ==>
                  b.pcs[p].Idle? && !b.locked && forall q :: 0 <= q < |b.pcs| ==> !Sleeping(b.pcs[q]))
  {
    RunKeepsInv(s, es);
    if RunTo(s, es).pcs[p].Waking? { WakingMeansFree(s, es, p); }
    StepKeepsInv(RunTo(s, es), e);
  }

  /** Nobody takes the lock while wakeup runs. */
  lemma {:induction false} WakingMeansFree(s: State, es: seq<Event>, p: nat)
    requires Init(s) && IsRun(s, es) && p < |RunTo(s, es).pcs| && RunTo(s, es).pcs[p].Waking?
    ensures !RunTo(s, es).locked
    decreases |es|
  {
    if es != [] {
      var n := |es| - 1;
      RunKeepsInv(s, es[..n]);
      if RunTo(s, es[..n]).pcs[p].Waking? { WakingMeansFree(s, es[..n], p); }
    }
  }

  /** acquiresleep of a free lock by a process that nobody gets in the way of. */
  lemma AloneAcquires(s: State, p: nat)
    requires p < |s.pcs| && s.pcs[p].Idle? && s.inner == -1 && !s.locked
    ensures var es := [Acquire(p), Step(p), Step(p), Step(p)];
            IsRun(s, es) && RunTo(s, es) == s.(pcs := s.pcs[p := Holding], locked := true, owner := p)
  {
    var a := Do(s, Acquire(p));
    var b := Do(a, Step(p));
    var c := Do(b, Step(p));
    var d := Do(c, Step(p));
    assert d.pcs == s.pcs[p := Holding];
    var es := [Acquire(p), Step(p), Step(p), Step(p)];
    assert es[..3] == [Acquire(p), Step(p), Step(p)] && es[..3][..2] == [Acquire(p), Step(p)]
           && es[..3][..2][..1] == [Acquire(p)] && es[..3][..2][..1][..0] == [];
    assert IsRun(s, es[..3][..2][..1]) && RunTo(s, es[..3][..2][..1]) == a;
    assert IsRun(s, es[..3][..2]) && RunTo(s, es[..3][..2]) == b;
    assert IsRun(s, es[..3]) && RunTo(s, es[..3]) == c;
  }

  /** The protocol never gets stuck: unless every process is outside it or the lock is in use, some
      process can take a step. */
  lemma NeverStuck(s: State, es: seq<Event>, p: nat)
    requires Init(s) && IsRun(s, es) && p < |RunTo(s, es).pcs| && !RunTo(s, es).pcs[p].Idle?
    requires forall q :: 0 <= q < |RunTo(s, es).pcs| ==> !RunTo(s, es).pcs[q].Holding?
    ensures exists q :: Enabled(RunTo(s, es), Step(q))
  {
    RunKeepsInv(s, es);
    var q := NextToMove(RunTo(s, es), p);
  }

  lemma NextToMove(t: State, p: nat) returns (q: nat)
    requires Inv(t) && p < |t.pcs| && !t.pcs[p].Idle? && forall q :: 0 <= q < |t.pcs| ==> !t.pcs[q].Holding?
    ensures Enabled(t, Step(q))
  {
    if t.inner != -1 {
      q := t.inner;
      assert InInner(t.pcs[q]);
      if t.pcs[q].Waking? && t.pcs[q].j < |t.pcs| && t.pcs[q].j != q && OwnLockTaken(t.pcs[t.pcs[q].j]) {
        q := t.pcs[q].j;
        assert !InInner(t.pcs[q]);
      }
    } else if t.locked {
      q := t.owner;
      assert Owns(t.pcs[q]) && !InInner(t.pcs[q]);
    } else {
      q := p;
      assert !InInner(t.pcs[q]) && !Owns(t.pcs[q]) && !Sleeping(t.pcs[q]);
    }
  }
}
