/**
 scheduler_stride, allocproc, fork and forkprio of kernel/proc.c over the process table they update
 in place.  `seen` is what each acquire of a slot's lock finds there: other processors and interrupts
 may change a slot up to that moment, and no longer while its lock is held.  `later` is what the
 other slots hold when the picked process comes back.
 */
module StrideScheduler {
  import opened Folding
  import opened ProcTable
  import opened Spinlock
  import opened Stride

  function Upto(n: nat): (r: seq<nat>) {
    seq(n, i => i)
  }

  /** The first n slots' locks were taken in order, never more than two at once. */
  ghost predicate TookInOrder(es: seq<LockEvent>, n: nat) {
    forall k: nat :: Open(TOOK_IN_ORDER, k) ==> Ordered(es) && Taken(es) == Upto(n)
  }

  /** best is the pick among the first i slots, or -1 if none of them is runnable. */
  predicate Scanned(ps: seq<Proc>, i: nat, best: int)
    requires i <= |ps|
  {
    if best == -1 then forall j :: 0 <= j < i ==> !Runnable(ps[j]) else 0 <= best && IsPick(ps[..i], best)
  }

  lemma ScanNext(ps: seq<Proc>, i: nat, best: int)
    requires i < |ps| && Scanned(ps, i, best) && best < i
    ensures Scanned(ps, i + 1, if Runnable(ps[i]) && (best == -1 || Beats(ps[i], ps[best])) then i else best)
  {
    if best != -1 { PickNext(ps, best, i); }
  }

  /** A process after its dispatch: in the state it came back with, one stride further. */
  function Returned(p: Proc, back: ProcState): Proc {
    p.(state := back, pass := p.pass + p.stride)
  }

  function TicketsOf(prio: int): (t: int)
    ensures t > 0 && (STRIDE1 / t) * t == STRIDE1
  {
    match prio
    case 0 => 100
    case 1 => 50
    case 2 => 250
    case _ => 10000
  }

  /** The stride of each class, in numbers. */
  function StrideOf(prio: int): int {
    if prio == 0 then 100 else if prio == 1 then 200 else if prio == 2 then 40 else 1
  }

  /** Along every run of forkprio children, one of class 0 is dispatched twice as often as one of class 1,
      one of class 2 five times, and one of any other class two hundred times, to within the bounds. */
  lemma ClassShares(ps: seq<Proc>, ks: seq<nat>, i: nat, j: nat, prio: int)
    requires IsRun(ps, ks) && FreshStart(ps) && i < |ps| && j < |ps| && Runnable(ps[i]) && Runnable(ps[j])
    requires ps[i].tickets == TicketsOf(prio) && ps[j].tickets == TicketsOf(1)
    ensures prio == 0 ==> 2 * Runs(ks, j) - 2 <= Runs(ks, i) <= 2 * Runs(ks, j) + 1
    ensures prio == 1 ==> Runs(ks, j) - 1 <= Runs(ks, i) <= Runs(ks, j) + 1
    ensures prio == 2 ==> 5 * Runs(ks, j) - 5 <= Runs(ks, i) <= 5 * Runs(ks, j) + 1
    ensures prio < 0 || prio > 2 ==> 200 * Runs(ks, j) - 200 <= Runs(ks, i) <= 200 * Runs(ks, j) + 1
  {
    PairwiseShare(ps, ks, i, j);
    PairwiseShare(ps, ks, j, i);
  }

  class Scheduler {
    const proc: array<Proc>
    const cpu: Cpu
    var nextpid: int

    ghost predicate Valid()
      reads this, proc, cpu
    {
      proc.Length == NPROC && cpu.Valid()
    }

    /** procinit: every slot UNUSED, as C zero-initializes it. */
    constructor ()
      ensures Valid() && DistinctPids() && cpu.noff == 0 && cpu.locks == {} && fresh(proc) && fresh(cpu)
      ensures forall i :: 0 <= i < NPROC ==> proc[i].state == UNUSED
    {
      proc := new Proc[NPROC](_ => Proc(UNUSED, 0, 0, 0, 0, 0));
      cpu := new Cpu();
      nextpid := 1;
    }

    /** Live processes have distinct pids, all handed out already. */
    ghost predicate DistinctPids()
      reads this, proc
    {
      && nextpid > 0
      && (forall i :: 0 <= i < proc.Length ==> 0 <= proc[i].pid < nextpid)
      && (forall i, j :: 0 <= i < j < proc.Length && proc[i].pid == proc[j].pid ==> proc[i].pid == 0)
    }

    /** The scan: it ends holding exactly the lock of the pick among what it saw, or no lock; it takes
        the locks in increasing order and never holds more than two. */
    method Scan(seen: seq<Proc>) returns (best: int)
      requires Valid() && cpu.noff == 0 && cpu.locks == {} && cpu.events == [] && |seen| == NPROC
      modifies proc, cpu
      ensures Valid() && proc[..] == seen
      ensures best == -1 || (0 <= best && IsPick(seen, best) && IsLeast(seen, best))
      ensures best == -1 <==> forall i :: 0 <= i < NPROC ==> seen[i].state != RUNNABLE
      ensures cpu.locks == (if best == -1 then {} else {best}) && cpu.noff == |cpu.locks|
      ensures TookInOrder(cpu.events, NPROC)
    {
      best := -1;
      var i := 0;
      while i < NPROC
        invariant 0 <= i <= NPROC && -1 <= best < i && Valid()
        invariant forall j :: 0 <= j < i ==> proc[j] == seen[j]
        invariant Scanned(seen, i, best)
        invariant cpu.locks == (if best == -1 then {} else {best}) && cpu.noff == |cpu.locks|
        invariant TookInOrder(cpu.events, i)
      {
        best := Look(seen, best, i);
        i := i + 1;
      }
      assert seen[..NPROC] == seen && proc[..NPROC] == proc[..];
      if best != -1 { PickIsLeast(seen, best); }
    }

    /** One slot of the scan. */
    method Look(seen: seq<Proc>, best: int, i: nat) returns (next: int)
      requires Valid() && i < NPROC == |seen| && -1 <= best < i
      requires forall j :: 0 <= j < i ==> proc[j] == seen[j]
      requires Scanned(seen, i, best)
      requires cpu.locks == (if best == -1 then {} else {best}) && cpu.noff == |cpu.locks|
      requires TookInOrder(cpu.events, i)
      modifies proc, cpu
      ensures Valid() && -1 <= next <= i
      ensures forall j :: 0 <= j <= i ==> proc[j] == seen[j]
      ensures Scanned(seen, i + 1, next)
      ensures cpu.locks == (if next == -1 then {} else {next}) && cpu.noff == |cpu.locks|
      ensures TookInOrder(cpu.events, i + 1)
    {
      ScanNext(seen, i, best);
      Lock(i);
      proc[i] := seen[i];
      next := best;
      if proc[i].state == RUNNABLE {
        if best == -1
           || proc[i].pass < proc[best].pass
           || (proc[i].pass == proc[best].pass && proc[i].pid > proc[best].pid) {
          if best != -1 { Unlock(best, i + 1); }
          next := i;
        } else {
          Unlock(i, i + 1);
        }
      } else {
        Unlock(i, i + 1);
      }
    }

    method Lock(i: nat)
      requires cpu.Valid() && (forall j :: j in cpu.locks ==> j < i) && |cpu.locks| <= 1
      requires TookInOrder(cpu.events, i)
      modifies cpu
      ensures cpu.Valid() && cpu.locks == old(cpu.locks) + {i} && cpu.noff == old(cpu.noff) + 1
      ensures TookInOrder(cpu.events, i + 1)
    {
      assert Open(LOCKS_RECORDED, 0) && Open(TOOK_IN_ORDER, 0);
      HeldSnoc(cpu.events, Took(i));
      OrderedSnoc(cpu.events, Took(i));
      cpu.Acquire(i);
    }

    method Unlock(i: nat, ghost n: nat)
      requires cpu.Valid() && i in cpu.locks && |cpu.locks| <= 2 && TookInOrder(cpu.events, n)
      modifies cpu
      ensures cpu.Valid() && cpu.locks == old(cpu.locks) - {i} && cpu.noff == old(cpu.noff) - 1
      ensures TookInOrder(cpu.events, n)
    {
      assert Open(LOCKS_RECORDED, 0) && Open(TOOK_IN_ORDER, 0);
      HeldSnoc(cpu.events, Gave(i));
      OrderedSnoc(cpu.events, Gave(i));
      cpu.Release(i);
    }

    /** The process runs until it calls sched, whose four tests are the requirements here and on
        `back`: only its own lock held, noff == 1, interrupts off, no longer RUNNING. */
    method Swtch(k: nat, back: ProcState, later: seq<Proc>)
      requires k < proc.Length == |later| && proc[k].state == RUNNING && back != RUNNING
      requires cpu.Valid() && cpu.locks == {k} && cpu.noff == 1 && !cpu.intr
      modifies proc
      ensures proc[..] == later[k := old(proc[k]).(state := back)]
    {
      forall i | 0 <= i < proc.Length { proc[i] := if i == k then proc[i].(state := back) else later[i]; }
    }

    /** The switch to the picked process and what follows its return. */
    method RunPicked(best: nat, back: ProcState, later: seq<Proc>)
      requires Valid() && best < NPROC == |later| && back != RUNNING && TookInOrder(cpu.events, NPROC)
      requires cpu.locks == {best} && cpu.noff == 1
      modifies proc, cpu
      ensures Valid() && cpu.noff == 0 && cpu.locks == {}
      ensures proc[..] == later[best := Returned(old(proc[best]), back)]
    {
      proc[best] := proc[best].(state := RUNNING);
      Swtch(best, back, later);
      proc[best] := proc[best].(pass := proc[best].pass + proc[best].stride);
      Unlock(best, NPROC);
    }

    /** One turn of scheduler_stride.  At the switch the processor holds the picked process's lock and
        nothing else, with noff == 1, as sched demands; the process comes back in state `back`. */
    method Round(seen: seq<Proc>, back: ProcState, later: seq<Proc>) returns (best: int)
      requires Valid() && cpu.noff == 0 && cpu.locks == {} && |seen| == |later| == NPROC && back != RUNNING
      modifies proc, cpu
      ensures Valid() && cpu.noff == 0 && cpu.locks == {}
      ensures best == -1 <==> forall i :: 0 <= i < NPROC ==> seen[i].state != RUNNABLE
      ensures best == -1 ==> proc[..] == seen
      ensures best != -1 ==> && 0 <= best && IsPick(seen, best) && IsLeast(seen, best)
                             && proc[..] == later[best := Returned(seen[best], back)]
                             && (back == RUNNABLE && later == seen ==> proc[..] == Dispatch(seen, best))
    {
      cpu.Restart();
      best := Scan(seen);
      if best != -1 { RunPicked(best, back, later); }
    }

    /** allocproc's search: the first UNUSED slot, with its lock held, or -1. */
    method FindUnused() returns (k: int)
      requires Valid() && cpu.locks == {}
      modifies cpu
      ensures Valid() && cpu.locks == (if k == -1 then {} else {k}) && cpu.noff == old(cpu.noff) + |cpu.locks|
      ensures if k == -1 then NoneUnused(proc[..]) else FirstUnused(proc[..], k)
      ensures if k == -1 then forall i :: 0 <= i < NPROC ==> proc[i].state != UNUSED
              else 0 <= k < NPROC && proc[k].state == UNUSED && forall i :: 0 <= i < k ==> proc[i].state != UNUSED
    {
      k := 0;
      while k < NPROC
        invariant 0 <= k <= NPROC && cpu.Valid() && cpu.locks == {} && cpu.noff == old(cpu.noff)
        invariant forall i :: 0 <= i < k ==> proc[i].state != UNUSED
      {
        cpu.Acquire(k);
        if proc[k].state == UNUSED { return; }
        cpu.Release(k);
        k := k + 1;
      }
      k := -1;
    }

    /** allocproc: the first UNUSED slot, locked, with a fresh pid.  `room` says whether there are pages
        for its trapframe and page table; without them the slot is freed and its pid is lost. */
    method AllocProc(room: bool) returns (k: int)
      requires Valid() && DistinctPids() && cpu.locks == {}
      modifies this`nextpid, proc, cpu
      ensures Valid() && DistinctPids() && -1 <= k < NPROC
      ensures cpu.locks == (if k == -1 then {} else {k}) && cpu.noff == old(cpu.noff) + |cpu.locks|
      ensures k == -1 <==> !room || NoneUnused(old(proc[..]))
      ensures NoneUnused(old(proc[..])) ==> proc[..] == old(proc[..]) && nextpid == old(nextpid)
      ensures !NoneUnused(old(proc[..])) && !room ==>
                && nextpid == old(nextpid) + 1
                && (exists j :: FirstUnused(old(proc[..]), j)
                     && proc[..] == old(proc[..])[j := old(proc[j]).(pid := 0)])
      ensures k != -1 ==>
                && nextpid == old(nextpid) + 1 && FirstUnused(old(proc[..]), k)
                && proc[..] == old(proc[..])[k := old(proc[k]).(state := USED, pid := old(nextpid))]
    {
      k := FindUnused();
      if k == -1 { return; }
      if room {
        SetPid(k, proc[k].(state := USED, pid := nextpid));
      } else {
        SetPid(k, proc[k].(pid := 0));
        cpu.Release(k);
        k := -1;
      }
    }

    /** allocpid, and what becomes of the slot. */
    method SetPid(k: nat, p: Proc)
      requires Valid() && DistinctPids() && k < NPROC && (p.pid == 0 || p.pid == nextpid)
      modifies this`nextpid, proc
      ensures Valid() && DistinctPids() && nextpid == old(nextpid) + 1 && proc[..] == old(proc[..])[k := p]
    {
      proc[k] := p;
      nextpid := nextpid + 1;
    }

    /** The end of fork and forkprio: the child's lock is dropped and taken again to make it RUNNABLE. */
    method Start(k: nat)
      requires Valid() && k < NPROC && cpu.locks == {k} && cpu.noff > 0
      modifies proc, cpu
      ensures Valid() && cpu.locks == {} && cpu.noff == old(cpu.noff) - 1
      ensures proc[..] == old(proc[..])[k := old(proc[k]).(state := RUNNABLE)]
    {
      cpu.Release(k);
      cpu.Acquire(k);
      proc[k] := proc[k].(state := RUNNABLE);
      cpu.Release(k);
    }

    /** forkprio: the first UNUSED slot becomes a RUNNABLE process with a fresh pid, its class, the
        tickets of its class, the exact stride and pass 0.  `copied` says whether uvmcopy succeeds; if
        not, forkprio acquires the child's lock, which allocproc left it with, and acquire panics. */
    method ForkPrio(prio: int, room: bool, copied: bool) returns (r: Forked)
      requires Valid() && DistinctPids() && cpu.locks == {}
      modifies this`nextpid, proc, cpu
      ensures Valid() && DistinctPids()
      ensures r == Failed <==> !room || NoneUnused(old(proc[..]))
      ensures r == Panicked <==> room && !NoneUnused(old(proc[..])) && !copied
      ensures r != Panicked ==> cpu.locks == {} && cpu.noff == old(cpu.noff)
      ensures NoneUnused(old(proc[..])) ==> proc[..] == old(proc[..])
      ensures r == Panicked ==> exists k :: k in cpu.locks && FirstUnused(old(proc[..]), k)
      ensures r.Child? ==>
                exists k :: && FirstUnused(old(proc[..]), k)
                            && Exact(proc[k]) && proc[k].stride == StrideOf(prio) && r.pid == old(nextpid)
                            && nextpid == r.pid + 1
                            && proc[..] == old(proc[..])[k := Proc(RUNNABLE, r.pid, prio, TicketsOf(prio),
                                 proc[k].stride, 0)]
    {
      var k := AllocProc(room);
      if k == -1 { return Failed; }
      proc[k] := proc[k].(classe := prio);
      if !copied { return Panicked; }
      var tickets := TicketsOf(prio);
      proc[k] := proc[k].(tickets := tickets, stride := STRIDE1 / tickets, pass := 0);
      r := Child(proc[k].pid);
      Start(k);
    }

    /** fork: the child has its class, and the tickets, stride and pass that the last process in its
        slot left there, or zeros in a slot that was never used. */
    method Fork(classe: int, room: bool, copied: bool) returns (r: Forked)
      requires Valid() && DistinctPids() && cpu.locks == {}
      modifies this`nextpid, proc, cpu
      ensures Valid() && DistinctPids() && cpu.locks == {} && cpu.noff == old(cpu.noff)
      ensures r == Failed <==> !room || NoneUnused(old(proc[..])) || !copied
      ensures r != Panicked && (NoneUnused(old(proc[..])) ==> proc[..] == old(proc[..]))
      ensures r == Failed && room && !NoneUnused(old(proc[..])) ==>
                exists k :: FirstUnused(old(proc[..]), k) && proc[..]
                    == old(proc[..])[k := old(proc[k]).(pid := 0, classe := classe)]
      ensures r.Child? ==>
                exists k :: && FirstUnused(old(proc[..]), k) && r.pid == old(nextpid) && nextpid == r.pid + 1
                            && proc[..] == old(proc[..])[k := old(proc[k]).(state := RUNNABLE, pid := r.pid,
                                 classe := classe)]
    {
      var k := AllocProc(room);
      if k == -1 { return Failed; }
      proc[k] := proc[k].(classe := classe);
      if !copied {
        proc[k] := proc[k].(state := UNUSED, pid := 0);
        cpu.Release(k);
        return Failed;
      }
      r := Child(proc[k].pid);
      Start(k);
    }
  }

  datatype Forked = Child(pid: int) | Failed | Panicked

  predicate NoneUnused(ps: seq<Proc>) {
    forall i :: 0 <= i < |ps| ==> ps[i].state != UNUSED
  }

  predicate FirstUnused(ps: seq<Proc>, k: int) {
    0 <= k < |ps| && ps[k].state == UNUSED && forall i :: 0 <= i < k ==> ps[i].state != UNUSED
  }

  /** A child that fork put into a slot never used before has stride 0 and pass 0: a process with a
      positive pass may then wait for ever, whatever its own stride is. */
  lemma ForkedChildStarves(ps: seq<Proc>, i: nat, j: nat, pid: int, classe: int)
    requires i < |ps| && j < |ps| && Runnable(ps[i]) && ps[i].pass > 0
    requires ps[j] == Proc(RUNNABLE, pid, classe, 0, 0, 0)
    ensures forall bound :: !WaitsAtMost(ps, i, bound)
  {
    assert Rival(ps, i, j) && ps[j].stride == 0;
    WaitIsBoundedIff(ps, i);
  }
}
