/**
 fork, exit, reparent and wait of kernel/proc.c with sleep, wakeup and kill, as a state machine in
 which processes interleave between lock operations.  A process sleeping in wait sleeps on its own
 address, so wakeup(q) can only wake q; it is one step, taken when q's p->lock is free.
 */
module WaitExit {
  import opened Folding
  import opened ProcTable

  datatype Pc =
    | Unborn                      // the slot is UNUSED, or USED and still being set up
    | User                        // anywhere else in the kernel or in user space
    | ForkWant(child: nat)        // allocproc done, about to set np->parent under wait_lock
    | ForkDone(child: nat)        // parent set, about to make the child RUNNABLE
    | ExitWant                    // about to acquire wait_lock
    | Reparent(j: nat)            // holds wait_lock, reparent has passed the slots below j
    | ReparentWake(j: nat)        // has given child j to init, about to wakeup(initproc)
    | ExitWake                    // about to wakeup(p->parent)
    | ExitMark                    // about to become ZOMBIE and release wait_lock
    | ExitSwitch                  // ZOMBIE, p->lock not yet released by the scheduler
    | Dead                        // ZOMBIE
    | WaitWant                    // about to acquire wait_lock, in wait or at the end of sleep
    | Scan(j: nat, kids: bool)    // holds wait_lock, has looked at the slots below j
    | SleepCommitted              // in sleep: has taken p->lock and released wait_lock
    | SleepMarked                 // SLEEPING, p->lock not yet released by the scheduler
    | Asleep                      // SLEEPING, p->lock free
    | Woken                       // RUNNABLE again

  /** The process table by columns, with the holder of wait_lock or -1. */
  datatype State = State(states: seq<ProcState>, parents: seq<int>, pcs: seq<Pc>, killed: set<nat>,
                         init: nat, lock: int)

  datatype Event =
    | Fork(p: nat, child: nat)    // fork or forkprio, up to a successful allocproc
    | ForkFail(p: nat)            // uvmcopy fails and the child is freed
    | Exit(p: nat)
    | Wait(p: nat)
    | Step(p: nat)                // process p takes its next step
    | GiveUp(p: nat)              // wait has found a ZOMBIE and returns -1, since copyout failed
    | Kill(p: nat)                // kill marks p, and wakes it if it is asleep in wait
    | Elsewhere(p: nat, state: ProcState)  // the rest of the kernel runs, stops or blocks p

  /** Holds wait_lock. */
  predicate InLock(pc: Pc) {
    pc.Reparent? || pc.ReparentWake? || pc.ExitWake? || pc.ExitMark? || pc.Scan?
  }

  /** Its p->lock is held, so wakeup, kill and wait must wait for it. */
  predicate OwnLockTaken(pc: Pc) {
    pc.SleepCommitted? || pc.SleepMarked? || pc.ExitSwitch?
  }

  /** Asleep in wait, or past the point of no return. */
  predicate Sleeping(pc: Pc) {
    pc.SleepCommitted? || pc.SleepMarked? || pc.Asleep?
  }

  predicate Forking(pc: Pc) {
    pc.ForkWant? || pc.ForkDone?
  }

  predicate Exiting(pc: Pc) {
    pc.ExitWant? || pc.Reparent? || pc.ReparentWake? || pc.ExitWake? || pc.ExitMark? || pc.ExitSwitch? || pc.Dead?
  }

  /** Neither free nor being set up nor dead. */
  predicate Alive(st: ProcState) {
    st == SLEEPING || st == RUNNABLE || st == RUNNING
  }

  predicate WellFormed(s: State) {
    |s.states| == |s.parents| == |s.pcs| && s.init < |s.pcs|
  }

  predicate Enabled(s: State, e: Event) {
    && WellFormed(s) && e.p < |s.pcs|
    && var pc := s.pcs[e.p];
       match e
       case Fork(p, c) =>
         pc.User? && s.states[p] == RUNNING && c < |s.pcs| && c != p && s.states[c] == UNUSED
       case ForkFail(p) => pc.ForkWant? && pc.child < |s.pcs|
       case Exit(p) => pc.User? && s.states[p] == RUNNING && p != s.init
       case Wait(p) => pc.User? && s.states[p] == RUNNING
       case GiveUp(p) => pc.Scan? && pc.j < |s.pcs| && Reapable(s, p, pc.j)
       case Kill(p) => !OwnLockTaken(pc) && !pc.Unborn?
       case Elsewhere(p, st) => pc.User? && Alive(st)
       case Step(p) =>
         match pc
         case Unborn => false
         case User => false
         case Dead => false
         case Asleep => false
         case ForkWant(c) => s.lock == -1 && c < |s.pcs|
         case ExitWant => s.lock == -1
         case WaitWant => s.lock == -1
         case ForkDone(c) => c < |s.pcs|
         case ReparentWake(_) => !OwnLockTaken(s.pcs[s.init])
         case ExitWake => 0 <= s.parents[p] < |s.pcs| && !OwnLockTaken(s.pcs[s.parents[p]])
         case Scan(j, _) => j >= |s.pcs| || s.parents[j] != p || !OwnLockTaken(s.pcs[j])
         case _ => true
  }

  /** Slot j is a ZOMBIE child of p, and done with its last switch. */
  predicate Reapable(s: State, p: nat, j: nat)
    requires WellFormed(s) && j < |s.pcs|
  {
    s.parents[j] == p && s.states[j] == ZOMBIE && !OwnLockTaken(s.pcs[j])
  }

  // ----- Steps -----

  function Goto(s: State, p: nat, pc: Pc): State
    requires p < |s.pcs|
  {
    s.(pcs := s.pcs[p := pc])
  }

  function Become(s: State, p: nat, st: ProcState, pc: Pc): State
    requires WellFormed(s) && p < |s.pcs|
  {
    s.(states := s.states[p := st], pcs := s.pcs[p := pc])
  }

  /** wakeup(q), and the part of kill that wakes a sleeper. */
  function WakeOne(s: State, q: nat): State
    requires WellFormed(s) && q < |s.pcs|
  {
    if s.pcs[q].Asleep? then Become(s, q, RUNNABLE, Woken) else s
  }

  /** freeproc. */
  function Free(s: State, c: nat): State
    requires WellFormed(s) && c < |s.pcs|
  {
    Become(s, c, UNUSED, Unborn).(parents := s.parents[c := -1], killed := s.killed - {c})
  }

  function Do(s: State, e: Event): (t: State)
    requires Enabled(s, e)
  {
    match e
    case Fork(p, c) => Goto(s.(states := s.states[c := USED]), p, ForkWant(c))
    case ForkFail(p) => Goto(Free(s, s.pcs[p].child), p, User)
    case Exit(p) => Goto(s, p, ExitWant)
    case Wait(p) => Goto(s, p, WaitWant)
    case GiveUp(p) => Goto(s, p, User).(lock := -1)
    case Kill(p) => WakeOne(s.(killed := s.killed + {p}), p)
    case Elsewhere(p, st) => s.(states := s.states[p := st])
    case Step(p) =>
      if Forking(s.pcs[p]) then ForkStep(s, p)
      else if Exiting(s.pcs[p]) then ExitStep(s, p)
      else if s.pcs[p].Scan? then ScanStep(s, p)
      else SleepStep(s, p)
  }

  function ForkStep(s: State, p: nat): (t: State)
    requires Enabled(s, Step(p)) && Forking(s.pcs[p])
  {
    match s.pcs[p]
    case ForkWant(c) => Goto(s.(parents := s.parents[c := p]), p, ForkDone(c))
    case ForkDone(c) => Goto(Become(s, c, RUNNABLE, User), p, User)
  }

  function ExitStep(s: State, p: nat): (t: State)
    requires Enabled(s, Step(p)) && Exiting(s.pcs[p])
  {
    match s.pcs[p]
    case ExitWant => Goto(s, p, Reparent(0)).(lock := p)
    case Reparent(j) =>
      if j >= |s.pcs| then Goto(s, p, ExitWake)
      else if s.parents[j] == p then Goto(s.(parents := s.parents[j := s.init]), p, ReparentWake(j))
      else Goto(s, p, Reparent(j + 1))
    case ReparentWake(j) => Goto(WakeOne(s, s.init), p, Reparent(j + 1))
    case ExitWake => Goto(WakeOne(s, s.parents[p]), p, ExitMark)
    case ExitMark => Become(s, p, ZOMBIE, ExitSwitch).(lock := -1)
    case ExitSwitch => Goto(s, p, Dead)
  }

  function ScanStep(s: State, p: nat): (t: State)
    requires Enabled(s, Step(p)) && s.pcs[p].Scan?
  {
    var j, kids := s.pcs[p].j, s.pcs[p].kids;
    if j >= |s.pcs| then
      if !kids || p in s.killed then Goto(s, p, User).(lock := -1) else Goto(s, p, SleepCommitted).(lock := -1)
    else if s.parents[j] != p then Goto(s, p, Scan(j + 1, kids))
    else if s.states[j] == ZOMBIE then Goto(Free(s, j), p, User).(lock := -1)
    else Goto(s, p, Scan(j + 1, true))
  }

  function SleepStep(s: State, p: nat): (t: State)
    requires Enabled(s, Step(p))
  {
    match s.pcs[p]
    case WaitWant => Goto(s, p, Scan(0, false)).(lock := p)
    case SleepCommitted => Become(s, p, SLEEPING, SleepMarked)
    case SleepMarked => Goto(s, p, Asleep)
    case Woken => Become(s, p, RUNNING, WaitWant)
    case _ => s
  }

  // ----- Runs -----

  /** userinit: one process, init, and every other slot free. */
  predicate Init(s: State) {
    && WellFormed(s) && s.lock == -1 && s.killed == {} && s.states[s.init] == RUNNABLE && s.pcs[s.init] == User
    && (forall p :: 0 <= p < |s.pcs| ==> s.parents[p] == -1)
    && (forall p :: 0 <= p < |s.pcs| && p != s.init ==> s.states[p] == UNUSED && s.pcs[p] == Unborn)
  }

  predicate IsRun(s: State, es: seq<Event>)
    decreases |es|, 0
  {
    es == [] || (IsRun(s, es[..|es| - 1]) && Enabled(RunTo(s, es[..|es| - 1]), es[|es| - 1]))
  }

  function RunTo(s: State, es: seq<Event>): State
    requires IsRun(s, es)
    decreases |es|, 1
  {
    if es == [] then s else Do(RunTo(s, es[..|es| - 1]), es[|es| - 1])
  }

  // ----- Invariant -----

  /** wait_lock is held by exactly the process in its critical section. */
  ghost predicate LockInv(pcs: seq<Pc>, lock: int) {
    -1 <= lock < |pcs| && forall p :: 0 <= p < |pcs| ==> (InLock(pcs[p]) <==> lock == p)
  }

  /** The state that goes with each place in the code. */
  predicate Fits(st: ProcState, pc: Pc) {
    match pc
    case Unborn => st == UNUSED || st == USED
    case User => Alive(st)
    case ExitSwitch => st == ZOMBIE
    case Dead => st == ZOMBIE
    case SleepMarked => st == SLEEPING
    case Asleep => st == SLEEPING
    case _ => st == RUNNING || st == RUNNABLE
  }

  ghost predicate StateInv(states: seq<ProcState>, pcs: seq<Pc>, init: nat) {
    && |states| == |pcs| && init < |pcs| && !Exiting(pcs[init]) && !pcs[init].Unborn?
    && forall p :: 0 <= p < |pcs| ==> Fits(states[p], pcs[p])
  }

  /** A child being made is USED, belongs to one parent, and has it recorded once wait_lock was held. */
  ghost predicate ForkInv(states: seq<ProcState>, parents: seq<int>, pcs: seq<Pc>)
    requires |states| == |parents| == |pcs|
  {
    && (forall p :: 0 <= p < |pcs| && Forking(pcs[p]) ==>
          && pcs[p].child < |pcs| && states[pcs[p].child] == USED
          && parents[pcs[p].child] == (if pcs[p].ForkDone? then p else -1))
    && (forall p, q :: 0 <= p < q < |pcs| && Forking(pcs[p]) && Forking(pcs[q]) ==> pcs[p].child != pcs[q].child)
  }

  /** Parents are alive; free slots have none; everything started except init has one. */
  ghost predicate TreeInv(states: seq<ProcState>, parents: seq<int>, init: nat)
    requires |states| == |parents|
  {
    forall c :: 0 <= c < |parents| ==>
      && -1 <= parents[c] < |parents|
      && (parents[c] >= 0 ==> Alive(states[parents[c]]))
      && (states[c] == UNUSED ==> parents[c] == -1)
      && (c != init && states[c] != UNUSED && states[c] != USED ==> parents[c] >= 0)
  }

  /** How far an exiting process has got with giving its children away. */
  predicate GivenAway(pc: Pc, c: nat) {
    || (pc.Reparent? && c < pc.j) || (pc.ReparentWake? && c <= pc.j)
    || pc.ExitWake? || pc.ExitMark? || pc.ExitSwitch? || pc.Dead?
  }

  ghost predicate OrphanInv(parents: seq<int>, pcs: seq<Pc>) {
    |parents| == |pcs| && forall p, c :: 0 <= p < |pcs| && 0 <= c < |pcs| && GivenAway(pcs[p], c) ==> parents[c] != p
  }

  ghost predicate HasChild(parents: seq<int>, p: nat) {
    exists c :: 0 <= c < |parents| && parents[c] == p
  }

  /** Some slot below n is a child of p. */
  ghost predicate HasChildBelow(parents: seq<int>, p: nat, n: nat) {
    exists c :: 0 <= c < |parents| && c < n && parents[c] == p
  }

  /** No slot below n is a ZOMBIE child of p. */
  ghost predicate NoZombie(states: seq<ProcState>, parents: seq<int>, p: nat, n: nat) {
    forall c :: 0 <= c < |parents| && c < n && c < |states| && parents[c] == p ==> states[c] != ZOMBIE
  }

  /** What a scan has seen stays true, since children die and appear only under wait_lock. */
  ghost predicate ScanInv(states: seq<ProcState>, parents: seq<int>, pcs: seq<Pc>) {
    forall p :: 0 <= p < |pcs| && pcs[p].Scan? ==>
      (pcs[p].kids <==> HasChildBelow(parents, p, pcs[p].j)) && NoZombie(states, parents, p, pcs[p].j)
  }

  /** A process that sleeps in wait has a child. */
  ghost predicate ChildInv(parents: seq<int>, pcs: seq<Pc>) {
    forall p :: 0 <= p < |pcs| && Sleeping(pcs[p]) ==> HasChild(parents, p)
  }

  /** reparent is about to wake init. */
  predicate WillWakeInit(pcs: seq<Pc>, lock: int) {
    0 <= lock < |pcs| && pcs[lock].ReparentWake?
  }

  /** A process that sleeps in wait has no ZOMBIE child, unless it is init and about to be woken. */
  ghost predicate ZombieInv(states: seq<ProcState>, parents: seq<int>, pcs: seq<Pc>, init: nat, lock: int) {
    forall p :: 0 <= p < |pcs| && Sleeping(pcs[p]) && !(p == init && WillWakeInit(pcs, lock)) ==>
      NoZombie(states, parents, p, |pcs|)
  }

  /** A process about to become ZOMBIE has woken its parent. */
  ghost predicate AwakeInv(parents: seq<int>, pcs: seq<Pc>) {
    |parents| == |pcs| && forall c :: 0 <= c < |pcs| && pcs[c].ExitMark? && 0 <= parents[c] < |pcs| ==>
      !Sleeping(pcs[parents[c]])
  }

  ghost predicate Parts(s: State) {
    && WellFormed(s) && LockInv(s.pcs, s.lock) && StateInv(s.states, s.pcs, s.init)
    && ForkInv(s.states, s.parents, s.pcs) && TreeInv(s.states, s.parents, s.init) && OrphanInv(s.parents, s.pcs)
    && ScanInv(s.states, s.parents, s.pcs) && ChildInv(s.parents, s.pcs)
    && ZombieInv(s.states, s.parents, s.pcs, s.init, s.lock) && AwakeInv(s.parents, s.pcs)
  }

  /** The invariant, kept folded in the proofs that only pass it on. */
  ghost predicate Inv(s: State) {
    WellFormed(s) && forall k: nat :: Open(TREE_SOUND, k) ==> Parts(s)
  }

  // ----- Moves: process p goes from one place in the code to another, and wait_lock with it -----

  predicate LockMoves(pcs: seq<Pc>, lock: int, p: nat, pc: Pc, lock': int)
    requires p < |pcs|
  {
    if InLock(pc) then lock' == p && (lock == -1 || lock == p)
    else lock' == if lock == p then -1 else lock
  }

  lemma LockMove(pcs: seq<Pc>, lock: int, p: nat, pc: Pc, lock': int)
    requires LockInv(pcs, lock) && p < |pcs| && LockMoves(pcs, lock, p, pc, lock')
    ensures LockInv(pcs[p := pc], lock')
  {
  }

  /** The general move of a live process, or of one whose state stays; the conditions say what the
      new place promises. */
  ghost predicate MoveOk(s: State, p: nat, st: ProcState, pc: Pc, lock': int) {
    && WellFormed(s) && p < |s.pcs| && LockMoves(s.pcs, s.lock, p, pc, lock')
    && (st == s.states[p] || (Alive(st) && Alive(s.states[p])))
    && Fits(st, pc) && !pc.Unborn? && (p == s.init ==> !Exiting(pc))
    && !Forking(pc)
    && (forall c :: 0 <= c < |s.pcs| && GivenAway(pc, c) ==> s.parents[c] != p)
    && (pc.Scan? ==> (pc.kids <==> HasChildBelow(s.parents, p, pc.j)) && NoZombie(s.states, s.parents, p, pc.j))
    && (Sleeping(pc) && !Sleeping(s.pcs[p]) ==>
        s.lock == p && HasChild(s.parents, p) && NoZombie(s.states, s.parents, p, |s.pcs|))
    && (s.pcs[p].ReparentWake? ==> !Sleeping(s.pcs[s.init]))
    && (pc.ExitMark? ==> 0 <= s.parents[p] < |s.pcs| && !Sleeping(s.pcs[s.parents[p]]))
  }

  lemma MoveKeepsInv(s: State, p: nat, st: ProcState, pc: Pc, lock': int)
    requires Inv(s) && MoveOk(s, p, st, pc, lock')
    ensures Inv(Become(s, p, st, pc).(lock := lock'))
  {
    assert Open(TREE_SOUND, 0);
    MoveParts(s, p, st, pc, lock');
  }

  lemma MoveParts(s: State, p: nat, st: ProcState, pc: Pc, lock': int)
    requires Parts(s) && MoveOk(s, p, st, pc, lock')
    ensures Parts(Become(s, p, st, pc).(lock := lock'))
  {
    LockMove(s.pcs, s.lock, p, pc, lock');
    MoveTree(s.states, s.parents, s.init, p, st);
    MoveFork(s.states, s.parents, s.pcs, p, st, pc);
    MoveState(s, p, st, pc, lock');
    MoveChild(s, p, st, pc, lock');
    MoveScan(s, p, st, pc, lock');
    MoveZombie(s, p, st, pc, lock');
    MoveAwake(s, p, st, pc, lock');
  }

  lemma MoveState(s: State, p: nat, st: ProcState, pc: Pc, lock': int)
    requires Parts(s) && MoveOk(s, p, st, pc, lock')
    ensures StateInv(s.states[p := st], s.pcs[p := pc], s.init) && OrphanInv(s.parents, s.pcs[p := pc])
  {
  }

  lemma MoveChild(s: State, p: nat, st: ProcState, pc: Pc, lock': int)
    requires Parts(s) && MoveOk(s, p, st, pc, lock')
    ensures ChildInv(s.parents, s.pcs[p := pc])
  {
  }

  lemma MoveTree(states: seq<ProcState>, parents: seq<int>, init: nat, p: nat, st: ProcState)
    requires |states| == |parents| && TreeInv(states, parents, init) && p < |states|
    requires st == states[p] || (Alive(st) && Alive(states[p]))
    ensures TreeInv(states[p := st], parents, init)
  {
  }

  lemma MoveFork(states: seq<ProcState>, parents: seq<int>, pcs: seq<Pc>, p: nat, st: ProcState, pc: Pc)
    requires |states| == |parents| == |pcs| && ForkInv(states, parents, pcs) && p < |pcs|
    requires !Forking(pc) && (st == states[p] || states[p] != USED)
    ensures ForkInv(states[p := st], parents, pcs[p := pc])
  {
  }

  lemma MoveScan(s: State, p: nat, st: ProcState, pc: Pc, lock': int)
    requires Parts(s) && MoveOk(s, p, st, pc, lock')
    ensures ScanInv(s.states[p := st], s.parents, s.pcs[p := pc])
  {
    var states', pcs' := s.states[p := st], s.pcs[p := pc];
    forall q: nat | q < |pcs'| && pcs'[q].Scan?
      ensures (pcs'[q].kids <==> HasChildBelow(s.parents, q, pcs'[q].j)) && NoZombie(states', s.parents, q, pcs'[q].j)
    {
      SameZombies(s.states, s.parents, p, st, q, pcs'[q].j);
    }
  }

  lemma SameZombies(states: seq<ProcState>, parents: seq<int>, p: nat, st: ProcState, q: nat, n: nat)
    requires p < |states| && (st == states[p] || (Alive(st) && Alive(states[p])))
    ensures NoZombie(states, parents, q, n) <==> NoZombie(states[p := st], parents, q, n)
  {
    forall c | 0 <= c < |states| ensures states[c] == ZOMBIE <==> states[p := st][c] == ZOMBIE {
    }
  }

  lemma MoveZombie(s: State, p: nat, st: ProcState, pc: Pc, lock': int)
    requires Parts(s) && MoveOk(s, p, st, pc, lock')
    ensures ZombieInv(s.states[p := st], s.parents, s.pcs[p := pc], s.init, lock')
  {
  }

  lemma MoveAwake(s: State, p: nat, st: ProcState, pc: Pc, lock': int)
    requires Parts(s) && MoveOk(s, p, st, pc, lock')
    ensures AwakeInv(s.parents, s.pcs[p := pc])
  {
  }

  lemma GotoIsBecome(s: State, p: nat, pc: Pc)
    requires WellFormed(s) && p < |s.pcs|
    ensures Goto(s, p, pc) == Become(s, p, s.states[p], pc)
  {
    assert s.states[p := s.states[p]] == s.states;
  }

  // ----- Facts that the invariant gives about one process -----

  lemma Facts(s: State, p: nat)
    requires Inv(s) && p < |s.pcs|
    ensures WellFormed(s) && (InLock(s.pcs[p]) <==> s.lock == p) && Fits(s.states[p], s.pcs[p])
    ensures -1 <= s.parents[p] < |s.pcs|
    ensures p == s.init ==> !Exiting(s.pcs[p])
    ensures forall c :: 0 <= c < |s.pcs| && GivenAway(s.pcs[p], c) ==> s.parents[c] != p
    ensures s.pcs[p].Scan? ==>
      (s.pcs[p].kids <==> HasChildBelow(s.parents, p, s.pcs[p].j)) && NoZombie(s.states, s.parents, p, s.pcs[p].j)
  {
    assert Open(TREE_SOUND, 0);
  }

  lemma ForkFacts(s: State, p: nat)
    requires Inv(s) && p < |s.pcs| && Forking(s.pcs[p])
    ensures WellFormed(s) && s.pcs[p].child < |s.pcs| && s.states[s.pcs[p].child] == USED && s.pcs[p].child != p
    ensures s.parents[s.pcs[p].child] == if s.pcs[p].ForkDone? then p else -1
    ensures forall q :: 0 <= q < |s.pcs| && q != p && Forking(s.pcs[q]) ==> s.pcs[q].child != s.pcs[p].child
  {
    assert Open(TREE_SOUND, 0);
    assert Fits(s.states[p], s.pcs[p]);
  }

  lemma WakeKeepsInv(s: State, q: nat)
    requires Inv(s) && q < |s.pcs|
    ensures WellFormed(s) && Inv(WakeOne(s, q)) && (!OwnLockTaken(s.pcs[q]) ==> !Sleeping(WakeOne(s, q).pcs[q]))
  {
    Facts(s, q);
    if s.pcs[q].Asleep? { MoveKeepsInv(s, q, RUNNABLE, Woken, s.lock); }
  }

  lemma KilledKeepsInv(s: State, killed: set<nat>)
    requires Inv(s)
    ensures Inv(s.(killed := killed))
  {
    assert Open(TREE_SOUND, 0);
  }

  // ----- Steps that change the tree -----

  /** A process that has given its children away and woken its parent dies. */
  lemma DieKeepsInv(s: State, p: nat)
    requires Inv(s) && p < |s.pcs| && s.pcs[p].ExitMark?
    ensures Inv(Become(s, p, ZOMBIE, ExitSwitch).(lock := -1))
  {
    assert Open(TREE_SOUND, 0);
    LockMove(s.pcs, s.lock, p, ExitSwitch, -1);
    MoveFork(s.states, s.parents, s.pcs, p, ZOMBIE, ExitSwitch);
    DieTree(s, p);
    DieScan(s, p);
    DieZombie(s, p);
  }

  lemma DieTree(s: State, p: nat)
    requires Parts(s) && p < |s.pcs| && s.pcs[p].ExitMark?
    ensures TreeInv(s.states[p := ZOMBIE], s.parents, s.init)
    ensures StateInv(s.states[p := ZOMBIE], s.pcs[p := ExitSwitch], s.init)
    ensures OrphanInv(s.parents, s.pcs[p := ExitSwitch])
  {
    assert forall c :: 0 <= c < |s.pcs| ==> GivenAway(s.pcs[p], c);
  }

  lemma DieScan(s: State, p: nat)
    requires Parts(s) && p < |s.pcs| && s.pcs[p].ExitMark?
    ensures ScanInv(s.states[p := ZOMBIE], s.parents, s.pcs[p := ExitSwitch])
    ensures ChildInv(s.parents, s.pcs[p := ExitSwitch]) && AwakeInv(s.parents, s.pcs[p := ExitSwitch])
  {
    assert s.lock == p;
  }

  lemma DieZombie(s: State, p: nat)
    requires Parts(s) && p < |s.pcs| && s.pcs[p].ExitMark?
    ensures ZombieInv(s.states[p := ZOMBIE], s.parents, s.pcs[p := ExitSwitch], s.init, -1)
  {
    forall q | 0 <= q < |s.pcs| && Sleeping(s.pcs[q]) ensures NoZombie(s.states[p := ZOMBIE], s.parents, q, |s.pcs|) {
      assert s.parents[p] != q;
      assert NoZombie(s.states, s.parents, q, |s.pcs|);
    }
  }

  /** reparent gives child j of p to init. */
  lemma AdoptKeepsInv(s: State, p: nat, j: nat)
    requires Inv(s) && p < |s.pcs| && s.pcs[p] == Reparent(j) && j < |s.pcs| && s.parents[j] == p
    ensures Inv(Goto(s.(parents := s.parents[j := s.init]), p, ReparentWake(j)))
  {
    assert Open(TREE_SOUND, 0);
    LockMove(s.pcs, s.lock, p, ReparentWake(j), s.lock);
    AdoptChildren(s, p, j);
    AdoptFork(s, p, j);
    AdoptTree(s, p, j);
  }

  lemma AdoptTree(s: State, p: nat, j: nat)
    requires Parts(s) && p < |s.pcs| && s.pcs[p] == Reparent(j) && j < |s.pcs| && s.parents[j] == p
    ensures TreeInv(s.states, s.parents[j := s.init], s.init)
    ensures StateInv(s.states, s.pcs[p := ReparentWake(j)], s.init)
    ensures OrphanInv(s.parents[j := s.init], s.pcs[p := ReparentWake(j)])
  {
  }

  lemma AdoptFork(s: State, p: nat, j: nat)
    requires Parts(s) && p < |s.pcs| && s.pcs[p] == Reparent(j) && j < |s.pcs| && s.parents[j] == p
    ensures ForkInv(s.states, s.parents[j := s.init], s.pcs[p := ReparentWake(j)])
  {
    forall q | 0 <= q < |s.pcs| && Forking(s.pcs[q]) ensures s.pcs[q].child != j {
      assert s.parents[s.pcs[q].child] != p;
    }
  }

  lemma AdoptChildren(s: State, p: nat, j: nat)
    requires Parts(s) && p < |s.pcs| && s.pcs[p] == Reparent(j) && j < |s.pcs| && s.parents[j] == p
    ensures var parents', pcs' := s.parents[j := s.init], s.pcs[p := ReparentWake(j)];
            && ScanInv(s.states, parents', pcs') && ChildInv(parents', pcs')
            && ZombieInv(s.states, parents', pcs', s.init, s.lock) && AwakeInv(parents', pcs')
  {
    var parents', pcs' := s.parents[j := s.init], s.pcs[p := ReparentWake(j)];
    forall q: nat | q < |s.pcs| && Sleeping(pcs'[q]) ensures HasChild(parents', q) {
      ChildStays(s.parents, q, j, s.init);
    }
    forall q: nat | q < |s.pcs| && Sleeping(pcs'[q]) && q != s.init ensures NoZombie(s.states, parents', q, |s.pcs|) {
      assert NoZombie(s.states, s.parents, q, |s.pcs|);
    }
  }

  lemma ChildStays(parents: seq<int>, q: nat, j: nat, x: int)
    requires HasChild(parents, q) && j < |parents| && parents[j] != q
    ensures HasChild(parents[j := x], q)
  {
    var c :| 0 <= c < |parents| && parents[c] == q;
    assert parents[j := x][c] == q;
  }

  lemma SameChildren(parents: seq<int>, q: nat, c: nat, x: int, n: nat)
    requires c < |parents| && parents[c] != q && x != q
    ensures HasChildBelow(parents, q, n) <==> HasChildBelow(parents[c := x], q, n)
  {
    var parents' := parents[c := x];
    if HasChildBelow(parents, q, n) {
      var d :| 0 <= d < |parents| && d < n && parents[d] == q;
      assert parents'[d] == q;
    }
    if HasChildBelow(parents', q, n) {
      var d :| 0 <= d < |parents'| && d < n && parents'[d] == q;
      assert parents[d] == q;
    }
  }

  /** allocproc: a free slot becomes the child being made. */
  lemma AllocKeepsInv(s: State, p: nat, c: nat)
    requires Inv(s) && p < |s.pcs| && c < |s.pcs| && c != p && s.pcs[p].User? && s.states[c] == UNUSED
    requires s.states[p] == RUNNING
    ensures Inv(Goto(s.(states := s.states[c := USED]), p, ForkWant(c)))
  {
    assert Parts(s) by { assert Open(TREE_SOUND, 0); }
    AllocParts(s, p, c);
  }

  lemma AllocParts(s: State, p: nat, c: nat)
    requires Parts(s) && p < |s.pcs| && c < |s.pcs| && c != p && s.pcs[p].User? && s.states[c] == UNUSED
    requires s.states[p] == RUNNING
    ensures Parts(Goto(s.(states := s.states[c := USED]), p, ForkWant(c)))
  {
    LockMove(s.pcs, s.lock, p, ForkWant(c), s.lock);
    AllocFork(s.states, s.parents, s.pcs, p, c);
    AllocTree(s.states, s.parents, s.init, c);
    AllocOthers(s, p, c);
  }

  lemma AllocTree(states: seq<ProcState>, parents: seq<int>, init: nat, c: nat)
    requires |states| == |parents| && TreeInv(states, parents, init) && c < |states| && states[c] == UNUSED
    ensures TreeInv(states[c := USED], parents, init)
  {
  }

  lemma AllocFork(states: seq<ProcState>, parents: seq<int>, pcs: seq<Pc>, p: nat, c: nat)
    requires |states| == |parents| == |pcs| && ForkInv(states, parents, pcs) && p < |pcs| && c < |pcs|
    requires !Forking(pcs[p]) && states[c] == UNUSED && parents[c] == -1
    ensures ForkInv(states[c := USED], parents, pcs[p := ForkWant(c)])
  {
  }

  lemma AllocOthers(s: State, p: nat, c: nat)
    requires Parts(s) && p < |s.pcs| && c < |s.pcs| && c != p && s.pcs[p].User? && s.states[c] == UNUSED
    ensures OrphanInv(s.parents, s.pcs[p := ForkWant(c)]) && ChildInv(s.parents, s.pcs[p := ForkWant(c)])
    ensures ScanInv(s.states[c := USED], s.parents, s.pcs[p := ForkWant(c)])
    ensures ZombieInv(s.states[c := USED], s.parents, s.pcs[p := ForkWant(c)], s.init, s.lock)
    ensures AwakeInv(s.parents, s.pcs[p := ForkWant(c)])
  {
  }

  /** np->parent = p, with wait_lock free before and after. */
  lemma LinkKeepsInv(s: State, p: nat, c: nat)
    requires Inv(s) && p < |s.pcs| && s.pcs[p] == ForkWant(c) && s.lock == -1 && c < |s.pcs|
    ensures Inv(Goto(s.(parents := s.parents[c := p]), p, ForkDone(c)))
  {
    assert Open(TREE_SOUND, 0);
    LockMove(s.pcs, s.lock, p, ForkDone(c), s.lock);
    LinkTree(s.states, s.parents, s.init, p, c);
    LinkOrphan(s.parents, s.pcs, p, c, ForkDone(c));
    LinkFork(s.states, s.parents, s.pcs, p, c);
    LinkOthers(s, p, c);
  }

  lemma LinkTree(states: seq<ProcState>, parents: seq<int>, init: nat, p: nat, c: nat)
    requires |states| == |parents| && TreeInv(states, parents, init) && p < |states| && c < |states|
    requires Alive(states[p]) && states[c] != UNUSED
    ensures TreeInv(states, parents[c := p], init)
  {
  }

  lemma LinkOrphan(parents: seq<int>, pcs: seq<Pc>, p: nat, c: nat, pc: Pc)
    requires OrphanInv(parents, pcs) && p < |pcs| && c < |pcs| && !Exiting(pc)
    ensures OrphanInv(parents[c := p], pcs[p := pc])
  {
  }

  lemma LinkFork(states: seq<ProcState>, parents: seq<int>, pcs: seq<Pc>, p: nat, c: nat)
    requires |states| == |parents| == |pcs| && ForkInv(states, parents, pcs) && p < |pcs| && pcs[p] == ForkWant(c)
    ensures c < |pcs| && ForkInv(states, parents[c := p], pcs[p := ForkDone(c)])
  {
  }

  lemma LinkOthers(s: State, p: nat, c: nat)
    requires Parts(s) && p < |s.pcs| && s.pcs[p] == ForkWant(c) && s.lock == -1 && c < |s.pcs|
    ensures ScanInv(s.states, s.parents[c := p], s.pcs[p := ForkDone(c)])
    ensures ChildInv(s.parents[c := p], s.pcs[p := ForkDone(c)])
    ensures ZombieInv(s.states, s.parents[c := p], s.pcs[p := ForkDone(c)], s.init, s.lock)
    ensures AwakeInv(s.parents[c := p], s.pcs[p := ForkDone(c)])
  {
    var parents', pcs' := s.parents[c := p], s.pcs[p := ForkDone(c)];
    forall q: nat | q < |s.pcs| && Sleeping(pcs'[q])
      ensures HasChild(parents', q) && NoZombie(s.states, parents', q, |s.pcs|)
    {
      ChildStays(s.parents, q, c, p);
      assert NoZombie(s.states, s.parents, q, |s.pcs|);
    }
  }

  /** No fork is still working on slot c. */
  ghost predicate NoForker(pcs: seq<Pc>, c: nat) {
    forall q :: 0 <= q < |pcs| && Forking(pcs[q]) ==> pcs[q].child != c
  }

  /** The child is made RUNNABLE. */
  lemma StartKeepsInv(s: State, c: nat)
    requires Inv(s) && c < |s.pcs| && s.states[c] == USED && s.parents[c] >= 0 && NoForker(s.pcs, c)
    ensures Inv(Become(s, c, RUNNABLE, User))
  {
    assert Open(TREE_SOUND, 0);
    assert s.pcs[c].Unborn?;
    LockMove(s.pcs, s.lock, c, User, s.lock);
    StartTree(s.states, s.parents, s.init, c);
    StartFork(s.states, s.parents, s.pcs, c);
    StartOthers(s, c);
  }

  lemma StartTree(states: seq<ProcState>, parents: seq<int>, init: nat, c: nat)
    requires |states| == |parents| && TreeInv(states, parents, init) && c < |states| && states[c] == USED
    requires parents[c] >= 0
    ensures TreeInv(states[c := RUNNABLE], parents, init)
  {
  }

  lemma StartFork(states: seq<ProcState>, parents: seq<int>, pcs: seq<Pc>, c: nat)
    requires |states| == |parents| == |pcs| && ForkInv(states, parents, pcs) && c < |pcs| && NoForker(pcs, c)
    ensures ForkInv(states[c := RUNNABLE], parents, pcs[c := User])
  {
  }

  lemma StartOthers(s: State, c: nat)
    requires Parts(s) && c < |s.pcs| && s.states[c] == USED && s.pcs[c].Unborn?
    ensures OrphanInv(s.parents, s.pcs[c := User]) && ChildInv(s.parents, s.pcs[c := User])
    ensures ScanInv(s.states[c := RUNNABLE], s.parents, s.pcs[c := User])
    ensures ZombieInv(s.states[c := RUNNABLE], s.parents, s.pcs[c := User], s.init, s.lock)
    ensures AwakeInv(s.parents, s.pcs[c := User])
  {
  }

  /** freeproc of a dead process by its parent, or of a child whose fork failed. */
  ghost predicate MayFree(s: State, c: nat) {
    && WellFormed(s) && c < |s.pcs| && NoForker(s.pcs, c)
    && ((s.states[c] == ZOMBIE && s.pcs[c].Dead?) || s.states[c] == USED)
    && (0 <= s.parents[c] < |s.pcs| ==> !Sleeping(s.pcs[s.parents[c]]) && !s.pcs[s.parents[c]].Scan?)
  }

  lemma FreeKeepsInv(s: State, c: nat)
    requires Inv(s) && MayFree(s, c)
    ensures Inv(Free(s, c))
  {
    assert Open(TREE_SOUND, 0);
    LockMove(s.pcs, s.lock, c, Unborn, s.lock);
    FreeTree(s, c);
    FreeFork(s.states, s.parents, s.pcs, c);
    FreeChild(s.parents, s.pcs, c);
    FreeScan(s.states, s.parents, s.pcs, c);
    FreeZombie(s, c);
  }

  lemma FreeTree(s: State, c: nat)
    requires Parts(s) && MayFree(s, c)
    ensures TreeInv(s.states[c := UNUSED], s.parents[c := -1], s.init)
    ensures StateInv(s.states[c := UNUSED], s.pcs[c := Unborn], s.init)
    ensures OrphanInv(s.parents[c := -1], s.pcs[c := Unborn]) && AwakeInv(s.parents[c := -1], s.pcs[c := Unborn])
  {
  }

  lemma FreeFork(states: seq<ProcState>, parents: seq<int>, pcs: seq<Pc>, c: nat)
    requires |states| == |parents| == |pcs| && ForkInv(states, parents, pcs) && c < |pcs| && NoForker(pcs, c)
    ensures ForkInv(states[c := UNUSED], parents[c := -1], pcs[c := Unborn])
  {
  }

  lemma FreeChild(parents: seq<int>, pcs: seq<Pc>, c: nat)
    requires |parents| == |pcs| && ChildInv(parents, pcs) && c < |pcs|
    requires 0 <= parents[c] < |pcs| ==> !Sleeping(pcs[parents[c]])
    ensures ChildInv(parents[c := -1], pcs[c := Unborn])
  {
    var pcs' := pcs[c := Unborn];
    forall q: nat | q < |pcs'| && Sleeping(pcs'[q]) ensures HasChild(parents[c := -1], q) {
      ChildStays(parents, q, c, -1);
    }
  }

  lemma FreeScan(states: seq<ProcState>, parents: seq<int>, pcs: seq<Pc>, c: nat)
    requires |states| == |parents| == |pcs| && ScanInv(states, parents, pcs) && c < |pcs|
    requires 0 <= parents[c] < |pcs| ==> !pcs[parents[c]].Scan?
    ensures ScanInv(states[c := UNUSED], parents[c := -1], pcs[c := Unborn])
  {
    var pcs' := pcs[c := Unborn];
    forall q: nat | q < |pcs'| && pcs'[q].Scan?
      ensures pcs'[q].kids <==> HasChildBelow(parents[c := -1], q, pcs'[q].j)
      ensures NoZombie(states[c := UNUSED], parents[c := -1], q, pcs'[q].j)
    {
      SameChildren(parents, q, c, -1, pcs[q].j);
      assert NoZombie(states, parents, q, pcs[q].j);
    }
  }

  lemma FreeZombie(s: State, c: nat)
    requires WellFormed(s) && ZombieInv(s.states, s.parents, s.pcs, s.init, s.lock) && c < |s.pcs| && s.lock != c
    ensures ZombieInv(s.states[c := UNUSED], s.parents[c := -1], s.pcs[c := Unborn], s.init, s.lock)
  {
    var pcs' := s.pcs[c := Unborn];
    forall q: nat | q < |pcs'| && Sleeping(pcs'[q]) && !(q == s.init && WillWakeInit(pcs', s.lock))
      ensures NoZombie(s.states[c := UNUSED], s.parents[c := -1], q, |pcs'|)
    {
      assert NoZombie(s.states, s.parents, q, |s.pcs|);
    }
  }

  // ----- Every step keeps the invariant -----

  lemma GotoKeepsInv(s: State, p: nat, pc: Pc, lock': int)
    requires Inv(s) && WellFormed(s) && p < |s.pcs| && MoveOk(s, p, s.states[p], pc, lock')
    ensures Inv(Goto(s, p, pc).(lock := lock'))
    ensures lock' == s.lock ==> Inv(Goto(s, p, pc))
  {
    GotoIsBecome(s, p, pc);
    MoveKeepsInv(s, p, s.states[p], pc, lock');
    assert lock' == s.lock ==> Goto(s, p, pc).(lock := lock') == Goto(s, p, pc);
  }

  lemma ForkStepInv(s: State, p: nat)
    requires Inv(s) && Enabled(s, Step(p)) && Forking(s.pcs[p])
    ensures Inv(ForkStep(s, p))
  {
    var c := s.pcs[p].child;
    ForkFacts(s, p);
    Facts(s, p);
    if s.pcs[p].ForkWant? {
      LinkKeepsInv(s, p, c);
    } else {
      GotoKeepsInv(s, p, User, s.lock);
      StartKeepsInv(Goto(s, p, User), c);
      assert s.pcs[p := User][c := User] == s.pcs[c := User][p := User];
    }
  }

  lemma ForkFailInv(s: State, p: nat)
    requires Inv(s) && Enabled(s, ForkFail(p))
    ensures Inv(Do(s, ForkFail(p)))
  {
    var c := s.pcs[p].child;
    ForkFacts(s, p);
    Facts(s, p);
    GotoKeepsInv(s, p, User, s.lock);
    FreeKeepsInv(Goto(s, p, User), c);
    assert s.pcs[p := User][c := Unborn] == s.pcs[c := Unborn][p := User];
  }

  lemma ScanStepInv(s: State, p: nat)
    requires Inv(s) && Enabled(s, Step(p)) && s.pcs[p].Scan?
    ensures Inv(ScanStep(s, p))
  {
    var j, t := s.pcs[p].j, ScanStep(s, p);
    if j >= |s.pcs| {
      ScanEndInv(s, p);
    } else if s.parents[j] == p && s.states[j] == ZOMBIE {
      ReapInv(s, p, j);
      assert t == Goto(Free(s, j), p, User).(lock := -1);
    } else {
      ScanNextInv(s, p);
    }
  }

  lemma ScanEndInv(s: State, p: nat)
    requires Inv(s) && Enabled(s, Step(p)) && s.pcs[p].Scan? && s.pcs[p].j >= |s.pcs|
    ensures Inv(ScanStep(s, p))
  {
    Facts(s, p);
    assert s.pcs[p].kids ==> HasChild(s.parents, p);
    var pc := if s.pcs[p].kids && p !in s.killed then SleepCommitted else User;
    GotoKeepsInv(s, p, pc, -1);
    assert ScanStep(s, p) == Goto(s, p, pc).(lock := -1);
  }

  lemma ScanNextInv(s: State, p: nat)
    requires Inv(s) && Enabled(s, Step(p)) && s.pcs[p].Scan? && s.pcs[p].j < |s.pcs|
    requires s.parents[s.pcs[p].j] != p || s.states[s.pcs[p].j] != ZOMBIE
    ensures Inv(ScanStep(s, p))
  {
    Facts(s, p);
    var pc := Scan(s.pcs[p].j + 1, s.pcs[p].kids || s.parents[s.pcs[p].j] == p);
    ChildrenNext(s.parents, p, s.pcs[p].j);
    GotoKeepsInv(s, p, pc, s.lock);
    assert ScanStep(s, p) == Goto(s, p, pc);
  }

  lemma ChildrenNext(parents: seq<int>, p: nat, j: nat)
    requires j < |parents|
    ensures HasChildBelow(parents, p, j + 1) <==> HasChildBelow(parents, p, j) || parents[j] == p
  {
    if HasChildBelow(parents, p, j) {
      var c :| 0 <= c < |parents| && c < j && parents[c] == p;
      assert c < j + 1;
    }
    if parents[j] == p { assert j < j + 1 && parents[j] == p; }
  }

  lemma ReapInv(s: State, p: nat, j: nat)
    requires Inv(s) && WellFormed(s) && p < |s.pcs| && s.pcs[p].Scan? && j < |s.pcs| && s.parents[j] == p
    requires s.states[j] == ZOMBIE
    requires !OwnLockTaken(s.pcs[j])
    ensures Inv(Goto(Free(s, j), p, User).(lock := -1))
  {
    Facts(s, p);
    Facts(s, j);
    GotoKeepsInv(s, p, User, -1);
    var t := Goto(s, p, User).(lock := -1);
    forall q: nat | q < |t.pcs| && Forking(t.pcs[q]) ensures t.pcs[q].child != j { ForkFacts(t, q); }
    FreeKeepsInv(t, j);
    assert s.pcs[p := User][j := Unborn] == s.pcs[j := Unborn][p := User];
  }

  lemma ExitStepInv(s: State, p: nat)
    requires Inv(s) && Enabled(s, Step(p)) && Exiting(s.pcs[p])
    ensures Inv(ExitStep(s, p))
  {
    var pc, t := s.pcs[p], ExitStep(s, p);
    if pc.ExitWant? || pc.ExitSwitch? {
      ExitPlainInv(s, p);
    } else if pc.Reparent? {
      ReparentInv(s, p, pc.j);
    } else if pc.ReparentWake? {
      AdoptedInv(s, p, pc.j);
      assert t == Goto(WakeOne(s, s.init), p, Reparent(pc.j + 1));
    } else if pc.ExitWake? {
      ExitWakeInv(s, p);
      assert t == Goto(WakeOne(s, s.parents[p]), p, ExitMark);
    } else if pc.ExitMark? {
      DieKeepsInv(s, p);
      assert t == Become(s, p, ZOMBIE, ExitSwitch).(lock := -1);
    }
  }

  lemma ExitPlainInv(s: State, p: nat)
    requires Inv(s) && Enabled(s, Step(p)) && (s.pcs[p].ExitWant? || s.pcs[p].ExitSwitch?)
    ensures Inv(ExitStep(s, p))
  {
    Facts(s, p);
    if s.pcs[p].ExitWant? {
      GotoKeepsInv(s, p, Reparent(0), p);
      assert ExitStep(s, p) == Goto(s, p, Reparent(0)).(lock := p);
    } else {
      GotoKeepsInv(s, p, Dead, s.lock);
      assert ExitStep(s, p) == Goto(s, p, Dead);
    }
  }

  lemma ReparentInv(s: State, p: nat, j: nat)
    requires Inv(s) && Enabled(s, Step(p)) && s.pcs[p] == Reparent(j)
    ensures Inv(ExitStep(s, p))
  {
    Facts(s, p);
    var t := ExitStep(s, p);
    if j >= |s.pcs| {
      GotoKeepsInv(s, p, ExitWake, s.lock);
      assert t == Goto(s, p, ExitWake);
    } else if s.parents[j] == p {
      AdoptKeepsInv(s, p, j);
      assert t == Goto(s.(parents := s.parents[j := s.init]), p, ReparentWake(j));
    } else {
      GotoKeepsInv(s, p, Reparent(j + 1), s.lock);
      assert t == Goto(s, p, Reparent(j + 1));
    }
  }

  lemma AdoptedInv(s: State, p: nat, j: nat)
    requires Inv(s) && WellFormed(s) && p < |s.pcs| && s.pcs[p] == ReparentWake(j) && !OwnLockTaken(s.pcs[s.init])
    ensures Inv(Goto(WakeOne(s, s.init), p, Reparent(j + 1)))
  {
    WakeKeepsInv(s, s.init);
    var t := WakeOne(s, s.init);
    Facts(t, p);
    GotoKeepsInv(t, p, Reparent(j + 1), t.lock);
  }

  lemma ExitWakeInv(s: State, p: nat)
    requires Inv(s) && WellFormed(s) && p < |s.pcs| && s.pcs[p].ExitWake?
    requires 0 <= s.parents[p] < |s.pcs| && !OwnLockTaken(s.pcs[s.parents[p]])
    ensures Inv(Goto(WakeOne(s, s.parents[p]), p, ExitMark))
  {
    WakeKeepsInv(s, s.parents[p]);
    var t := WakeOne(s, s.parents[p]);
    Facts(t, p);
    GotoKeepsInv(t, p, ExitMark, t.lock);
  }

  lemma SleepStepInv(s: State, p: nat)
    requires Inv(s) && Enabled(s, Step(p)) && !Forking(s.pcs[p]) && !Exiting(s.pcs[p]) && !s.pcs[p].Scan?
    ensures Inv(SleepStep(s, p))
  {
    Facts(s, p);
    var pc, t := s.pcs[p], SleepStep(s, p);
    if pc.WaitWant? {
      GotoKeepsInv(s, p, Scan(0, false), p);
      assert t == Goto(s, p, Scan(0, false)).(lock := p);
    } else if pc.SleepCommitted? {
      MoveKeepsInv(s, p, SLEEPING, SleepMarked, s.lock);
      assert t == Become(s, p, SLEEPING, SleepMarked).(lock := s.lock);
    } else if pc.SleepMarked? {
      GotoKeepsInv(s, p, Asleep, s.lock);
      assert t == Goto(s, p, Asleep);
    } else if pc.Woken? {
      MoveKeepsInv(s, p, RUNNING, WaitWant, s.lock);
      assert t == Become(s, p, RUNNING, WaitWant).(lock := s.lock);
    }
  }

  lemma StepKeepsInv(s: State, e: Event)
    requires Inv(s) && Enabled(s, e)
    ensures Inv(Do(s, e))
  {
    Facts(s, e.p);
    match e
    case Fork(p, c) => AllocKeepsInv(s, p, c);
    case ForkFail(p) => ForkFailInv(s, p);
    case Exit(p) => GotoKeepsInv(s, p, ExitWant, s.lock);
    case Wait(p) => GotoKeepsInv(s, p, WaitWant, s.lock);
    case GiveUp(p) => GotoKeepsInv(s, p, User, -1);
    case Kill(p) =>
      KilledKeepsInv(s, s.killed + {p});
      WakeKeepsInv(s.(killed := s.killed + {p}), p);
    case Elsewhere(p, st) =>
      MoveKeepsInv(s, p, st, User, s.lock);
      assert s.pcs[p := User] == s.pcs;
    case Step(p) =>
      if Forking(s.pcs[p]) { ForkStepInv(s, p); }
      else if Exiting(s.pcs[p]) { ExitStepInv(s, p); }
      else if s.pcs[p].Scan? { ScanStepInv(s, p); }
      else { SleepStepInv(s, p); }
  }

  lemma {:induction false} RunKeepsInv(s: State, es: seq<Event>)
    requires Init(s) && IsRun(s, es)
    ensures Inv(RunTo(s, es))
    decreases |es|
  {
    if es == [] {
      assert Parts(s);
    } else {
      RunKeepsInv(s, es[..|es| - 1]);
      StepKeepsInv(RunTo(s, es[..|es| - 1]), es[|es| - 1]);
    }
  }

  // ----- What it means -----

  /** Whenever wait_lock is free, a process asleep in wait has a child and none of them is a ZOMBIE. */
  lemma SleepersHaveNothingToReap(s: State, es: seq<Event>, p: nat)
    requires Init(s) && IsRun(s, es) && RunTo(s, es).lock == -1
    requires p < |RunTo(s, es).pcs| && Sleeping(RunTo(s, es).pcs[p])
    ensures var t := RunTo(s, es); HasChild(t.parents, p) && NoZombie(t.states, t.parents, p, |t.parents|)
  {
    RunKeepsInv(s, es);
    assert Open(TREE_SOUND, 0);
  }

  /** Every started process other than init has a parent that is neither ZOMBIE nor UNUSED, at every
      moment: nobody is orphaned, and every ZOMBIE has somebody to wait for it. */
  lemma NobodyIsOrphaned(s: State, es: seq<Event>, c: nat)
    requires Init(s) && IsRun(s, es) && c < |RunTo(s, es).states| && c != s.init
    requires RunTo(s, es).states[c] != UNUSED && RunTo(s, es).states[c] != USED
    ensures var t := RunTo(s, es);
            |t.parents| == |t.states| && 0 <= t.parents[c] < |t.states| && Alive(t.states[t.parents[c]])
  {
    RunKeepsInv(s, es);
    assert Open(TREE_SOUND, 0);
    InitStays(s, es);
  }

  lemma {:induction false} InitStays(s: State, es: seq<Event>)
    requires IsRun(s, es)
    ensures RunTo(s, es).init == s.init
    decreases |es|
  {
    if es != [] { InitStays(s, es[..|es| - 1]); }
  }

  /** How wait ends its scan.  It returns with a ZOMBIE child that it has freed, or -1 because it has no
      child or was killed, in both cases with no ZOMBIE child, or -1 because copyout failed at one; it goes
      to sleep only with a child, no ZOMBIE child and not killed. */
  lemma WaitReturns(s: State, es: seq<Event>, e: Event, p: nat)
    requires Init(s) && IsRun(s, es) && Enabled(RunTo(s, es), e)
    requires p < |RunTo(s, es).pcs| && RunTo(s, es).pcs[p].Scan? && !Do(RunTo(s, es), e).pcs[p].Scan?
    ensures var a := RunTo(s, es); var b := Do(a, e);
            || (e == Step(p) && b.pcs[p].User? && Reaped(a, b, p))
            || (e == Step(p) && b.pcs[p].User? && Unmoved(a, b) && NoZombie(a.states, a.parents, p, |a.parents|)
                && (!HasChild(a.parents, p) || p in a.killed))
            || (e == GiveUp(p) && b.pcs[p].User? && Unmoved(a, b) && !NoZombie(a.states, a.parents, p, |a.parents|))
            || (e == Step(p) && b.pcs[p].SleepCommitted? && Unmoved(a, b) && p !in a.killed
                && HasChild(a.parents, p) && NoZombie(a.states, a.parents, p, |a.parents|))
  {
    RunKeepsInv(s, es);
    var a := RunTo(s, es);
    Facts(a, p);
    if e.p == p {
      if e.Step? && a.pcs[p].j >= |a.pcs| {
        assert HasChildBelow(a.parents, p, a.pcs[p].j) <==> HasChild(a.parents, p);
      }
    } else {
      OthersKeepScan(a, e, p);
    }
  }

  /** One ZOMBIE child of p has become free, and nothing else about the tree has changed. */
  ghost predicate Reaped(a: State, b: State, p: nat) {
    exists z :: && 0 <= z < |a.states| && z < |a.parents| && a.parents[z] == p && a.states[z] == ZOMBIE
                && b.states == a.states[z := UNUSED] && b.parents == a.parents[z := -1]
  }

  predicate Unmoved(a: State, b: State) {
    b.states == a.states && b.parents == a.parents
  }

  /** Nobody but p moves p while it scans. */
  lemma OthersKeepScan(a: State, e: Event, p: nat)
    requires Inv(a) && Enabled(a, e) && e.p != p && p < |a.pcs| && a.pcs[p].Scan?
    ensures Do(a, e).pcs[p] == a.pcs[p]
  {
    Facts(a, p);
    Facts(a, e.p);
    if e.Step? && a.pcs[e.p].ForkDone? { ForkFacts(a, e.p); }
    if e.ForkFail? { ForkFacts(a, e.p); }
  }

  // ----- A scan that nobody gets in the way of -----

  lemma OneStep(s: State, e: Event)
    requires Enabled(s, e)
    ensures IsRun(s, [e]) && RunTo(s, [e]) == Do(s, e)
  {
    assert [e][..0] == [];
    assert IsRun(s, []) && RunTo(s, []) == s;
  }

  lemma {:induction false} RunCons(s: State, e: Event, es: seq<Event>)
    requires Enabled(s, e) && IsRun(Do(s, e), es)
    ensures IsRun(s, [e] + es) && RunTo(s, [e] + es) == RunTo(Do(s, e), es)
    decreases |es|
  {
    if es == [] {
      assert [e] + es == [e];
      OneStep(s, e);
    } else {
      var n := |es| - 1;
      RunCons(s, e, es[..n]);
      assert ([e] + es)[..n + 1] == [e] + es[..n];
    }
  }

  /** z is the first ZOMBIE child of p from slot j on. */
  ghost predicate FirstZombie(s: State, p: nat, j: nat, z: nat) {
    && WellFormed(s) && j <= z < |s.pcs| && s.parents[z] == p && s.states[z] == ZOMBIE
    && forall c :: j <= c < z && s.parents[c] == p ==> s.states[c] != ZOMBIE
  }

  /** wait reaps the first ZOMBIE child in the table, sleeps if it has children but none to reap and is not
      killed, and otherwise returns at once. */
  lemma {:induction false} ScanAlone(s: State, p: nat) returns (es: seq<Event>)
    requires Inv(s) && p < |s.pcs| && s.pcs[p].Scan?
    requires forall c :: 0 <= c < |s.pcs| && s.parents[c] == p ==> !OwnLockTaken(s.pcs[c])
    ensures IsRun(s, es) && forall e :: e in es ==> e == Step(p)
    ensures forall z :: FirstZombie(s, p, s.pcs[p].j, z) ==> RunTo(s, es) == Goto(Free(s, z), p, User).(lock := -1)
    ensures (forall z :: !FirstZombie(s, p, s.pcs[p].j, z)) ==>
              RunTo(s, es) == Goto(s, p, if HasChild(s.parents, p) && p !in s.killed then SleepCommitted else User)
                                .(lock := -1)
    decreases |s.pcs| - s.pcs[p].j
  {
    Facts(s, p);
    var j, t := s.pcs[p].j, Do(s, Step(p));
    assert t == ScanStep(s, p);
    if j >= |s.pcs| || (s.parents[j] == p && s.states[j] == ZOMBIE) {
      es := [Step(p)];
      OneStep(s, Step(p));
      if j >= |s.pcs| {
        assert HasChildBelow(s.parents, p, j) <==> HasChild(s.parents, p);
      } else {
        assert FirstZombie(s, p, j, j);
      }
    } else {
      StepKeepsInv(s, Step(p));
      ScanGoesOn(s, p);
      var rest := ScanAlone(t, p);
      RunCons(s, Step(p), rest);
      es := [Step(p)] + rest;
      ScannedSame(s, t, p, RunTo(t, rest));
    }
  }

  lemma ScanGoesOn(s: State, p: nat)
    requires Inv(s) && Enabled(s, Step(p)) && s.pcs[p].Scan? && s.pcs[p].j < |s.pcs|
    requires s.parents[s.pcs[p].j] != p || s.states[s.pcs[p].j] != ZOMBIE
    ensures var t := Do(s, Step(p));
            && t == Goto(s, p, t.pcs[p]) && t.pcs[p].Scan? && t.pcs[p].j == s.pcs[p].j + 1
            && forall c :: 0 <= c < |s.pcs| && c != p ==> t.pcs[c] == s.pcs[c]
  {
  }

  /** The rest of the scan leads to the same place from the next slot. */
  lemma ScannedSame(s: State, t: State, p: nat, r: State)
    requires WellFormed(s) && p < |s.pcs| && s.pcs[p].Scan? && s.pcs[p].j < |s.pcs|
    requires s.parents[s.pcs[p].j] != p || s.states[s.pcs[p].j] != ZOMBIE
    requires |t.pcs| == |s.pcs| && t == Goto(s, p, t.pcs[p]) && t.pcs[p].Scan? && t.pcs[p].j == s.pcs[p].j + 1
    requires forall z :: FirstZombie(t, p, t.pcs[p].j, z) ==> r == Goto(Free(t, z), p, User).(lock := -1)
    requires (forall z :: !FirstZombie(t, p, t.pcs[p].j, z)) ==>
               r == Goto(t, p, if HasChild(t.parents, p) && p !in t.killed then SleepCommitted else User).(lock := -1)
    ensures forall z :: FirstZombie(s, p, s.pcs[p].j, z) ==> r == Goto(Free(s, z), p, User).(lock := -1)
    ensures (forall z :: !FirstZombie(s, p, s.pcs[p].j, z)) ==>
              r == Goto(s, p, if HasChild(s.parents, p) && p !in s.killed then SleepCommitted else User).(lock := -1)
  {
    assert forall z :: FirstZombie(s, p, s.pcs[p].j, z) <==> FirstZombie(t, p, t.pcs[p].j, z);
    forall z: nat | FirstZombie(s, p, s.pcs[p].j, z) ensures r == Goto(Free(s, z), p, User).(lock := -1) {
      assert t.pcs[z := Unborn][p := User] == s.pcs[z := Unborn][p := User];
    }
    assert t.pcs[p := User] == s.pcs[p := User] && t.pcs[p := SleepCommitted] == s.pcs[p := SleepCommitted];
  }

  // ----- Fork, exit and progress -----

  /** fork returns with a RUNNABLE child of the caller, or has freed the slot again. */
  lemma ForkReturns(s: State, es: seq<Event>, e: Event, p: nat)
    requires Init(s) && IsRun(s, es) && Enabled(RunTo(s, es), e)
    requires p < |RunTo(s, es).pcs| && Forking(RunTo(s, es).pcs[p]) && !Forking(Do(RunTo(s, es), e).pcs[p])
    ensures var a := RunTo(s, es); var b := Do(a, e); var c := a.pcs[p].child;
            && b.pcs[p].User? && c < |b.pcs| == |b.states| == |b.parents|
            && if e == Step(p) then b.states[c] == RUNNABLE && b.parents[c] == p && b.pcs[c].User?
               else e == ForkFail(p) && b.states[c] == UNUSED
  {
    RunKeepsInv(s, es);
    var a := RunTo(s, es);
    if e.p == p { ForkFacts(a, p); } else { OthersKeepFork(a, e, p); }
  }

  lemma OthersKeepFork(a: State, e: Event, p: nat)
    requires Inv(a) && Enabled(a, e) && e.p != p && p < |a.pcs| && Forking(a.pcs[p])
    ensures Do(a, e).pcs[p] == a.pcs[p]
  {
    Facts(a, p);
    Facts(a, e.p);
    if Forking(a.pcs[e.p]) { ForkFacts(a, e.p); }
  }

  /** A process dies only in exit, with no child left and its parent not asleep in wait. */
  lemma ExitLeavesZombie(s: State, es: seq<Event>, e: Event, p: nat)
    requires Init(s) && IsRun(s, es) && Enabled(RunTo(s, es), e)
    requires p < |RunTo(s, es).states| && RunTo(s, es).states[p] != ZOMBIE
    requires p < |Do(RunTo(s, es), e).states| && Do(RunTo(s, es), e).states[p] == ZOMBIE
    ensures e == Step(p) && RunTo(s, es).pcs[p].ExitMark?
    ensures var b := Do(RunTo(s, es), e);
            && |b.pcs| == |b.parents| && 0 <= b.parents[p] < |b.pcs| && !Sleeping(b.pcs[b.parents[p]])
            && forall c :: 0 <= c < |b.parents| ==> b.parents[c] != p
  {
    RunKeepsInv(s, es);
    var a := RunTo(s, es);
    DiesInExit(a, e, p);
    DiesWell(a, p);
    assert Do(a, e) == Become(a, p, ZOMBIE, ExitSwitch).(lock := -1);
  }

  /** Only its parent's wait frees a dead process. */
  lemma OnlyWaitReaps(s: State, es: seq<Event>, e: Event, p: nat)
    requires Init(s) && IsRun(s, es) && Enabled(RunTo(s, es), e)
    requires p < |RunTo(s, es).states| && RunTo(s, es).states[p] == ZOMBIE
    requires p < |Do(RunTo(s, es), e).states| && Do(RunTo(s, es), e).states[p] != ZOMBIE
    ensures var a := RunTo(s, es); var b := Do(a, e);
            && b.states[p] == UNUSED && p < |a.parents| && 0 <= a.parents[p] < |a.pcs| == |b.pcs|
            && e == Step(a.parents[p]) && a.pcs[a.parents[p]].Scan? && b.pcs[a.parents[p]].User?
  {
    RunKeepsInv(s, es);
    ReapedInWait(RunTo(s, es), e, p);
  }

  lemma DiesInExit(a: State, e: Event, p: nat)
    requires Inv(a) && Enabled(a, e) && p < |a.pcs| && a.states[p] != ZOMBIE
    ensures p < |Do(a, e).states| && (Do(a, e).states[p] == ZOMBIE ==> e == Step(p) && a.pcs[p].ExitMark?)
  {
    Facts(a, p);
  }

  lemma ReapedInWait(a: State, e: Event, p: nat)
    requires Inv(a) && Enabled(a, e) && p < |a.pcs| && a.states[p] == ZOMBIE && Do(a, e).states[p] != ZOMBIE
    ensures e.Step? && e.p == a.parents[p] && a.pcs[e.p].Scan? && Do(a, e).pcs[e.p].User?
    ensures Do(a, e).states[p] == UNUSED
  {
    Facts(a, p);
    Facts(a, e.p);
    if Forking(a.pcs[e.p]) { ForkFacts(a, e.p); }
  }

  lemma DiesWell(a: State, p: nat)
    requires Inv(a) && p < |a.pcs| && a.pcs[p].ExitMark?
    ensures 0 <= a.parents[p] < |a.pcs| && !Sleeping(a.pcs[a.parents[p]]) && a.parents[p] != p
    ensures forall c :: 0 <= c < |a.parents| ==> a.parents[c] != p
  {
    assert Open(TREE_SOUND, 0);
    assert forall c :: 0 <= c < |a.pcs| ==> GivenAway(a.pcs[p], c);
    assert Fits(a.states[p], a.pcs[p]) && p != a.init;
  }

  /** Nobody waits for ever for a lock: whenever a process is inside fork, exit or wait and not asleep,
      some process can take its next step. */
  lemma NoDeadlock(s: State, es: seq<Event>, p: nat)
    requires Init(s) && IsRun(s, es) && p < |RunTo(s, es).pcs|
    requires var pc := RunTo(s, es).pcs[p]; !pc.Unborn? && !pc.User? && !pc.Dead? && !pc.Asleep?
    ensures exists q :: Enabled(RunTo(s, es), Step(q))
  {
    RunKeepsInv(s, es);
    var q := NextToMove(RunTo(s, es), p);
  }

  lemma NextToMove(t: State, p: nat) returns (q: nat)
    requires Inv(t) && p < |t.pcs| && !t.pcs[p].Unborn? && !t.pcs[p].User? && !t.pcs[p].Dead? && !t.pcs[p].Asleep?
    ensures Enabled(t, Step(q))
  {
    Facts(t, p);
    if Forking(t.pcs[p]) { ForkFacts(t, p); }
    q := p;
    if !InLock(t.pcs[p]) && t.lock != -1 && !Enabled(t, Step(p)) {
      q := Holder(t);
    } else if InLock(t.pcs[p]) {
      q := HolderMoves(t, p);
    }
  }

  lemma Holder(t: State) returns (q: nat)
    requires Inv(t) && t.lock != -1
    ensures Enabled(t, Step(q))
  {
    assert 0 <= t.lock < |t.pcs| && InLock(t.pcs[t.lock]) by { assert Open(TREE_SOUND, 0); }
    q := HolderMoves(t, t.lock);
  }

  /** The holder of wait_lock can move, or waits for somebody who is just switching away. */
  lemma HolderMoves(t: State, p: nat) returns (q: nat)
    requires Inv(t) && p < |t.pcs| && InLock(t.pcs[p])
    ensures Enabled(t, Step(q))
  {
    Facts(t, p);
    q := p;
    if t.pcs[p].ReparentWake? && OwnLockTaken(t.pcs[t.init]) {
      q := t.init;
    } else if t.pcs[p].ExitWake? {
      assert 0 <= t.parents[p] < |t.pcs| by { assert Open(TREE_SOUND, 0); assert Fits(t.states[p], t.pcs[p]); }
      if OwnLockTaken(t.pcs[t.parents[p]]) { q := t.parents[p]; }
    } else if t.pcs[p].Scan? && t.pcs[p].j < |t.pcs| && OwnLockTaken(t.pcs[t.pcs[p].j]) {
      q := if t.parents[t.pcs[p].j] == p then t.pcs[p].j else p;
    }
  }
}
