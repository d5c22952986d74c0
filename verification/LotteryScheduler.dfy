/**
 rand_lottery, sorteio_prioridade and scheduler_loteria of kernel/proc.c over the state they update
 in place.  `seen` is what each acquire of a slot's lock finds there, and `later` what the other slots
 hold when the picked process comes back.
 */
module LotteryScheduler {
  import opened Folding
  import opened Spinlock
  import opened ProcTable
  import opened LotteryDraw
  import opened LotteryShare
  import opened Lottery

  class Scheduler {
    const proc: array<Proc>
    const lastIndex: array<nat>
    const cpu: Cpu
    var seed: nat

    ghost predicate Valid()
      reads this, proc, lastIndex, cpu
    {
      proc.Length == NPROC && lastIndex.Length == 4 && Abstract().Ok() && cpu.Valid()
    }

    ghost function Abstract(): Lot
      reads this, lastIndex
    {
      Lot(seed, lastIndex[..])
    }

    constructor ()
      ensures Valid() && seed == 123456 && lastIndex[..] == [0, 0, 0, 0] && cpu.noff == 0 && cpu.locks == {}
      ensures fresh(proc) && fresh(lastIndex) && fresh(cpu)
    {
      proc := new Proc[NPROC](_ => Proc(UNUSED, 0, 0, 0, 0, 0));
      lastIndex := new nat[4](_ => 0);
      cpu := new Cpu();
      seed := 123456;
      new;
      assert lastIndex[..] == [0, 0, 0, 0];
    }

    method RandLottery() returns (r: nat)
      modifies this`seed
      ensures seed == Next(old(seed)) && r == Draw(seed)
    {
      seed := (seed * 1103515245 + 1248345) % 0x1_0000_0000;
      r := (seed / 65536) % 32768;
    }

    method SorteioPrioridade() returns (c: nat)
      modifies this`seed
      ensures seed == Next(old(seed)) && c == SeedClass(seed)
      ensures var ticket := Draw(seed) % 12;
              c == if ticket <= 5 then 0 else if ticket <= 8 then 1 else if ticket <= 10 then 2 else 3
    {
      var total := 6 + 3 + 2 + 1;
      var sorteio := RandLottery();
      sorteio := sorteio % total;
      if sorteio < 6 { return 0; }
      else if sorteio < 6 + 3 { return 1; }
      else if sorteio < 6 + 3 + 2 { return 2; }
      else { return 3; }
    }

    /** The process runs until it calls sched, which demands what is required here. */
    method Swtch(k: nat, back: ProcState, later: seq<Proc>)
      requires k < proc.Length == |later| && proc[k].state == RUNNING && back != RUNNING
      requires cpu.Valid() && cpu.locks == {k} && cpu.noff == 1 && !cpu.intr
      modifies proc
      ensures proc[..] == later[k := old(proc[k]).(state := back)]
    {
      forall i | 0 <= i < proc.Length { proc[i] := if i == k then proc[i].(state := back) else later[i]; }
    }

    /** One slot of the search: its lock is taken and given back, with the switch between if it matches. */
    method Try(idx: nat, now: Proc, c: nat, back: ProcState, later: seq<Proc>) returns (ran: bool)
      requires proc.Length == NPROC == |later| && idx < NPROC && back != RUNNING
      requires cpu.Valid() && cpu.noff == 0 && cpu.locks == {} && OneAtATime(cpu.events)
      modifies proc, cpu
      ensures cpu.Valid() && cpu.noff == 0 && cpu.locks == {} && OneAtATime(cpu.events)
      ensures ran == Eligible(now, c)
      ensures proc[..] == if ran then later[idx := now.(state := back)] else old(proc[..])[idx := now]
    {
      OneTaken(cpu.events, cpu.locks, idx);
      cpu.Acquire(idx);
      proc[idx] := now;
      ran := proc[idx].state == RUNNABLE && proc[idx].classe == c;
      if ran {
        proc[idx] := proc[idx].(state := RUNNING);
        Swtch(idx, back, later);
      }
      cpu.Release(idx);
    }

    /** The search for a process of the drawn class, and the switch to it; it returns in state `back`. */
    method RunNext(seen: seq<Proc>, c: nat, start: nat, back: ProcState, later: seq<Proc>) returns (k: int)
      requires proc.Length == NPROC == |seen| == |later| && start < NPROC && back != RUNNING
      requires cpu.Valid() && cpu.noff == 0 && cpu.locks == {} && OneAtATime(cpu.events)
      modifies proc, cpu
      ensures cpu.Valid() && cpu.noff == 0 && cpu.locks == {} && OneAtATime(cpu.events)
      ensures k == Search(seen, start, c, 0)
      ensures k == -1 ==> proc[..] == seen
      ensures k != -1 ==> proc[..] == later[k := seen[k].(state := back)]
    {
      ghost var found := Search(seen, start, c, 0);
      assert Visited(start, 0, proc[..], seen) by { VisitedNone(start, proc[..], seen); }
      var i := 0;
      while i < NPROC
        invariant 0 <= i <= NPROC && found == Search(seen, start, c, i)
        invariant Visited(start, i, proc[..], seen)
        invariant cpu.Valid() && cpu.noff == 0 && cpu.locks == {} && OneAtATime(cpu.events)
      {
        var idx := (start + i) % NPROC;
        VisitedNext(start, i, proc[..], seen);
        var ran := Try(idx, seen[idx], c, back, later);
        if ran { return idx; }
        i := i + 1;
      }
      k := -1;
      VisitedAll(start, proc[..], seen);
    }

    /** The turn after the draw: the search from the class's cursor, and the cursor past the slot that ran. */
    method RunClass(seen: seq<Proc>, c: nat, back: ProcState, later: seq<Proc>) returns (k: int)
      requires proc.Length == NPROC == |seen| == |later| && lastIndex.Length == 4 && c < 4 && lastIndex[c] < NPROC
      requires back != RUNNING && cpu.Valid() && cpu.noff == 0 && cpu.locks == {}
      modifies proc, lastIndex, cpu
      ensures cpu.Valid() && cpu.noff == 0 && cpu.locks == {} && OneAtATime(cpu.events)
      ensures k == Search(seen, old(lastIndex[c]), c, 0)
      ensures lastIndex[..] == if k == -1 then old(lastIndex[..]) else old(lastIndex[..])[c := (k + 1) % NPROC]
      ensures k == -1 ==> proc[..] == seen
      ensures k != -1 ==> proc[..] == later[k := seen[k].(state := back)]
    {
      cpu.Restart();
      OneNone();
      k := RunNext(seen, c, lastIndex[c], back, later);
      if k != -1 { lastIndex[c] := (k + 1) % NPROC; }
    }

    /** One turn of scheduler_loteria.  It holds one lock at a time, and at the switch exactly the lock
        of the process it runs. */
    method Round(seen: seq<Proc>, back: ProcState, later: seq<Proc>) returns (k: int)
      requires Valid() && |seen| == |later| == NPROC && back != RUNNING && cpu.noff == 0 && cpu.locks == {}
      modifies this`seed, proc, lastIndex, cpu
      ensures Valid() && k == Chosen(old(Abstract()), seen) && Abstract() == Turn(old(Abstract()), seen)
      ensures cpu.noff == 0 && cpu.locks == {} && OneAtATime(cpu.events)
      ensures InTurn(seen, Draw(seed) % 12, old(lastIndex[..]), k, lastIndex[..])
      ensures k == -1 ==> proc[..] == seen
      ensures k != -1 ==> proc[..] == later[k := seen[k].(state := back)]
    {
      ghost var lot := Abstract();
      var c := SorteioPrioridade();
      k := RunClass(seen, c, back, later);
      TurnIs(lot, seen, seed, c, k, lastIndex[..]);
      TurnInFields(seen, Draw(seed) % 12, c, lot.last, k, lastIndex[..]);
    }
  }

  lemma TurnIs(lot: Lot, seen: seq<Proc>, seed: nat, c: nat, k: int, last: seq<nat>)
    requires lot.Ok() && |seen| == NPROC && seed == Next(lot.seed) && c == SeedClass(seed) < 4
    requires k == Search(seen, lot.last[c], c, 0)
    requires last == if k == -1 then lot.last else lot.last[c := (k + 1) % NPROC]
    ensures k == Chosen(lot, seen) && Lot(seed, last) == Turn(lot, seen) && Lot(seed, last).Ok()
  {
  }

  /** With that ticket the class is c, and k is the slot nearest after c's cursor, going round, that
      holds a RUNNABLE process of class c, or -1 if no slot does; the cursor moves just past k. */
  ghost predicate InTurn(seen: seq<Proc>, ticket: nat, last: seq<nat>, k: int, last': seq<nat>) {
    var c := if ticket <= 5 then 0 else if ticket <= 8 then 1 else if ticket <= 10 then 2 else 3;
    && |last| == 4 && |seen| == NPROC && -1 <= k < NPROC
    && (k == -1 ==> last' == last && forall j :: 0 <= j < NPROC ==> seen[j].state != RUNNABLE || seen[j].classe != c)
    && (k != -1 ==>
          && last' == last[c := if k == NPROC - 1 then 0 else k + 1]
          && seen[k].state == RUNNABLE && seen[k].classe == c
          && forall j :: 0 <= j < NPROC && seen[j].state == RUNNABLE && seen[j].classe == c ==>
               (k - last[c]) % NPROC <= (j - last[c]) % NPROC)
  }

  lemma GapMod(start: nat, i: nat)
    requires start < NPROC && i < NPROC
    ensures Gap(start, i) == (i - start) % NPROC
  {
  }

  lemma TurnInFields(seen: seq<Proc>, ticket: nat, c: nat, last: seq<nat>, k: int, last': seq<nat>)
    requires |seen| == NPROC && |last| == 4 && c < 4 && last[c] < NPROC
    requires c == if ticket <= 5 then 0 else if ticket <= 8 then 1 else if ticket <= 10 then 2 else 3
    requires k == Search(seen, last[c], c, 0)
    requires last' == if k == -1 then last else last[c := (k + 1) % NPROC]
    ensures InTurn(seen, ticket, last, k, last')
  {
    SearchFinds(seen, last[c], c, 0);
    if k != -1 {
      forall j | 0 <= j < NPROC && Eligible(seen[j], c) ensures (k - last[c]) % NPROC <= (j - last[c]) % NPROC {
        GapMod(last[c], k);
        GapMod(last[c], j);
      }
    }
  }

  /** The first i slots from start on, going round, are as they were seen. */
  ghost predicate Visited(start: nat, i: nat, ps: seq<Proc>, seen: seq<Proc>) {
    forall k: nat :: Open(SLOTS_SEEN, k) ==>
      && |ps| == |seen| == NPROC
      && forall j :: 0 <= j < NPROC && (if j >= start then j - start else j + NPROC - start) < i ==> ps[j] == seen[j]
  }

  lemma VisitedNone(start: nat, ps: seq<Proc>, seen: seq<Proc>)
    requires start < NPROC == |ps| == |seen|
    ensures Visited(start, 0, ps, seen)
  {
  }

  lemma VisitedNext(start: nat, i: nat, ps: seq<Proc>, seen: seq<Proc>)
    requires start < NPROC == |ps| == |seen| && i < NPROC && Visited(start, i, ps, seen)
    ensures var idx := (start + i) % NPROC; Visited(start, i + 1, ps[idx := seen[idx]], seen)
  {
    assert Open(SLOTS_SEEN, 0);
  }

  lemma VisitedAll(start: nat, ps: seq<Proc>, seen: seq<Proc>)
    requires start < NPROC && Visited(start, NPROC, ps, seen)
    ensures ps == seen
  {
    assert Open(SLOTS_SEEN, 0);
  }
}
