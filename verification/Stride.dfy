/** The fields of struct proc (kernel/proc.h) that the schedulers use. */
module ProcTable {
  const NPROC := 64

  datatype ProcState = UNUSED | USED | SLEEPING | RUNNABLE | RUNNING | ZOMBIE

  datatype Proc = Proc(state: ProcState, pid: int, classe: int, tickets: int, stride: int, pass: int)

  predicate Runnable(p: Proc) {
    p.state == RUNNABLE
  }
}

/**
 The stride scheduler of kernel/proc.c: which process one scan picks, what a dispatch changes,
 and what share of the dispatches and how long a wait this gives each process.
 */
module Stride {
  import opened ProcTable
  import opened Arithmetic

  const STRIDE1 := 10000

  /** The comparison of the scan: p replaces the best candidate q so far. */
  predicate Beats(p: Proc, q: Proc) {
    p.pass < q.pass || (p.pass == q.pass && p.pid > q.pid)
  }

  /** Slot k is runnable, has the least pass, and among those the greatest pid; the first such slot. */
  predicate IsPick(ps: seq<Proc>, k: nat) {
    && k < |ps| && Runnable(ps[k])
    && (forall j :: 0 <= j < |ps| && Runnable(ps[j]) ==> !Beats(ps[j], ps[k]))
    && (forall j :: 0 <= j < k && Runnable(ps[j]) ==> Beats(ps[k], ps[j]))
  }

  /** At most one slot is the pick. */
  lemma PickUnique(ps: seq<Proc>, k: nat, m: nat)
    requires IsPick(ps, k) && IsPick(ps, m)
    ensures k == m
  {
  }

  /** What the pick is, in the fields: least pass, and greatest pid among those with that pass. */
  ghost predicate IsLeast(ps: seq<Proc>, k: int) {
    && 0 <= k < |ps| && ps[k].state == RUNNABLE
    && forall j :: 0 <= j < |ps| && ps[j].state == RUNNABLE ==>
         ps[k].pass <= ps[j].pass && (ps[j].pass == ps[k].pass ==> ps[j].pid <= ps[k].pid)
  }

  /** With distinct pids among the runnable processes, exactly that process is the pick. */
  lemma PickIsLeast(ps: seq<Proc>, k: nat)
    ensures IsPick(ps, k) ==> IsLeast(ps, k)
    ensures IsLeast(ps, k) && (forall j :: 0 <= j < |ps| && Runnable(ps[j]) && j != k ==> ps[j].pid != ps[k].pid) ==>
              IsPick(ps, k)
  {
    if IsPick(ps, k) {
      forall j | 0 <= j < |ps| && ps[j].state == RUNNABLE
        ensures ps[k].pass <= ps[j].pass && (ps[j].pass == ps[k].pass ==> ps[j].pid <= ps[k].pid) {
        assert Runnable(ps[j]) && !Beats(ps[j], ps[k]);
      }
    }
  }

  /** One dispatch of a process that yields: it is RUNNABLE again and one stride further. */
  function Dispatch(ps: seq<Proc>, k: nat): (r: seq<Proc>)
    requires k < |ps|
  {
    ps[k := ps[k].(pass := ps[k].pass + ps[k].stride)]
  }

  // ----- Runs with a fixed set of runnable processes -----

  predicate IsRun(ps: seq<Proc>, ks: seq<nat>)
    decreases |ks|, 0
  {
    ks == [] || (IsRun(ps, ks[..|ks| - 1]) && IsPick(After(ps, ks[..|ks| - 1]), ks[|ks| - 1]))
  }

  /** The table after the dispatches ks. */
  function After(ps: seq<Proc>, ks: seq<nat>): (r: seq<Proc>)
    requires IsRun(ps, ks)
    ensures |r| == |ps|
    decreases |ks|, 1
  {
    if ks == [] then ps else Dispatch(After(ps, ks[..|ks| - 1]), ks[|ks| - 1])
  }

  /** How often slot i was dispatched. */
  function Runs(ks: seq<nat>, i: nat): (r: nat)
  {
    if ks == [] then 0 else Runs(ks[..|ks| - 1], i) + if ks[|ks| - 1] == i then 1 else 0
  }

  /** Strides are positive wherever a process can run. */
  predicate GoodStrides(ps: seq<Proc>) {
    forall i :: 0 <= i < |ps| && Runnable(ps[i]) ==> ps[i].stride > 0
  }

  lemma {:induction false} RunChangesPassOnly(ps: seq<Proc>, ks: seq<nat>, i: nat)
    requires IsRun(ps, ks) && i < |ps|
    ensures After(ps, ks)[i] == ps[i].(pass := ps[i].pass + Runs(ks, i) * ps[i].stride)
    decreases |ks|
  {
    if ks != [] {
      RunChangesPassOnly(ps, ks[..|ks| - 1], i);
      var r, d := Runs(ks[..|ks| - 1], i), ps[i].stride;
      assert (r + 1) * d == r * d + d;
    }
  }

  /** Of two runnable processes with equal pass, the one with the smaller pid waits until the other has
      been dispatched, however long the run. */
  lemma {:induction false} NewerGoesFirst(ps: seq<Proc>, ks: seq<nat>, i: nat, j: nat)
    requires IsRun(ps, ks) && i < |ps| && j < |ps| && ps[i].state == ps[j].state == RUNNABLE
    requires ps[i].pass == ps[j].pass && ps[i].pid < ps[j].pid && j !in ks
    ensures i !in ks
    decreases |ks|
  {
    if ks != [] {
      var n := |ks| - 1;
      NewerGoesFirst(ps, ks[..n], i, j);
      RunChangesPassOnly(ps, ks[..n], i);
      RunChangesPassOnly(ps, ks[..n], j);
      NotRun(ks[..n], i);
      NotRun(ks[..n], j);
      PickIsLeast(After(ps, ks[..n]), ks[n]);
      assert ks == ks[..n] + [ks[n]];
    }
  }

  // ----- Proportional share -----

  /** No runnable process is ahead of another by more than its own stride. */
  ghost predicate Close(ps: seq<Proc>) {
    forall i, j :: 0 <= i < |ps| && 0 <= j < |ps| && Runnable(ps[i]) && Runnable(ps[j]) ==>
      ps[i].pass - ps[j].pass <= ps[i].stride
  }

  lemma {:induction false} RunKeepsClose(ps: seq<Proc>, ks: seq<nat>)
    requires IsRun(ps, ks) && GoodStrides(ps) && Close(ps)
    ensures Close(After(ps, ks)) && GoodStrides(After(ps, ks))
    decreases |ks|
  {
    if ks != [] {
      RunKeepsClose(ps, ks[..|ks| - 1]);
      DispatchKeepsClose(After(ps, ks[..|ks| - 1]), ks[|ks| - 1]);
    }
  }

  lemma DispatchKeepsClose(ps: seq<Proc>, k: nat)
    requires IsPick(ps, k) && GoodStrides(ps) && Close(ps)
    ensures Close(Dispatch(ps, k)) && GoodStrides(Dispatch(ps, k))
  {
    var qs := Dispatch(ps, k);
    forall i, j | 0 <= i < |qs| && 0 <= j < |qs| && Runnable(qs[i]) && Runnable(qs[j])
      ensures qs[i].pass - qs[j].pass <= qs[i].stride
    {
      assert Runnable(ps[i]) && Runnable(ps[j]);
      assert !Beats(ps[j], ps[k]);
    }
  }

  /** Tickets, dispatches and number of the runnable slots below m. */
  function Tickets(ps: seq<Proc>, m: nat): int
    requires m <= |ps|
  {
    if m == 0 then 0 else Tickets(ps, m - 1) + if Runnable(ps[m - 1]) then ps[m - 1].tickets else 0
  }

  function AllRuns(ps: seq<Proc>, ks: seq<nat>, m: nat): nat
    requires m <= |ps|
  {
    if m == 0 then 0 else AllRuns(ps, ks, m - 1) + if Runnable(ps[m - 1]) then Runs(ks, m - 1) else 0
  }

  function Count(ps: seq<Proc>, m: nat): nat
    requires m <= |ps|
  {
    if m == 0 then 0 else Count(ps, m - 1) + if Runnable(ps[m - 1]) then 1 else 0
  }

  lemma {:induction false} RunsSnoc(ps: seq<Proc>, ks: seq<nat>, k: nat, m: nat)
    requires m <= |ps| && k < |ps| && Runnable(ps[k])
    ensures AllRuns(ps, ks + [k], m) == AllRuns(ps, ks, m) + if k < m then 1 else 0
  {
    assert (ks + [k])[..|ks|] == ks;
    if m > 0 { RunsSnoc(ps, ks, k, m - 1); }
  }

  lemma {:induction false} NoRuns(ps: seq<Proc>, m: nat)
    requires m <= |ps|
    ensures AllRuns(ps, [], m) == 0
  {
    if m > 0 { NoRuns(ps, m - 1); }
  }

  /** Every dispatch is a dispatch of one of the runnable slots. */
  lemma {:induction false} RunsAddUp(ps: seq<Proc>, ks: seq<nat>)
    requires IsRun(ps, ks)
    ensures AllRuns(ps, ks, |ps|) == |ks|
    decreases |ks|
  {
    if ks == [] {
      NoRuns(ps, |ps|);
    } else {
      var n := |ks| - 1;
      RunsAddUp(ps, ks[..n]);
      RunChangesPassOnly(ps, ks[..n], ks[n]);
      RunsSnoc(ps, ks[..n], ks[n], |ps|);
      assert ks == ks[..n] + [ks[n]];
    }
  }

  /** The processes that forkprio makes: their stride divides STRIDE1 exactly. */
  predicate Exact(p: Proc) {
    p.tickets > 0 && p.stride * p.tickets == STRIDE1
  }

  ghost predicate FreshStart(ps: seq<Proc>) {
    forall i :: 0 <= i < |ps| && Runnable(ps[i]) ==> Exact(ps[i]) && ps[i].pass == 0
  }

  lemma ExactPositive(s: int, t: int)
    requires t > 0 && s * t == STRIDE1
    ensures s > 0
  {
    if s <= 0 { ProductSign(s, t); }
  }

  /** Dispatches of any two processes are in proportion to their tickets, within one. */
  lemma PairwiseShare(ps: seq<Proc>, ks: seq<nat>, i: nat, j: nat)
    requires IsRun(ps, ks) && FreshStart(ps)
    requires i < |ps| && j < |ps| && Runnable(ps[i]) && Runnable(ps[j])
    ensures (Runs(ks, i) - 1) * ps[j].tickets <= Runs(ks, j) * ps[i].tickets
  {
    forall k | 0 <= k < |ps| && Runnable(ps[k]) ensures ps[k].stride > 0 {
      ExactPositive(ps[k].stride, ps[k].tickets);
    }
    RunKeepsClose(ps, ks);
    RunChangesPassOnly(ps, ks, i);
    RunChangesPassOnly(ps, ks, j);
    CrossMultiply(Runs(ks, i), Runs(ks, j), ps[i].stride, ps[j].stride, ps[i].tickets, ps[j].tickets);
  }

  lemma CrossMultiply(ri: int, rj: int, si: int, sj: int, ti: int, tj: int)
    requires ti > 0 && tj > 0 && si * ti == STRIDE1 && sj * tj == STRIDE1
    requires ri * si - rj * sj <= si
    ensures (ri - 1) * tj <= rj * ti
  {
    var a, b := (ri - 1) * si, rj * sj;
    assert a <= b;
    assert a * (ti * tj) <= b * (ti * tj);
    calc {
      a * (ti * tj);
      (ri - 1) * (si * ti) * tj;
      (ri - 1) * STRIDE1 * tj;
      ((ri - 1) * tj) * STRIDE1;
    }
    calc {
      b * (ti * tj);
      rj * (sj * tj) * ti;
      (rj * ti) * STRIDE1;
    }
  }

  /** The sums above without slot i. */
  function OtherTickets(ps: seq<Proc>, i: nat, m: nat): int
    requires m <= |ps|
  {
    if m == 0 then 0
    else OtherTickets(ps, i, m - 1) + if Runnable(ps[m - 1]) && m - 1 != i then ps[m - 1].tickets else 0
  }

  function OtherRuns(ps: seq<Proc>, ks: seq<nat>, i: nat, m: nat): int
    requires m <= |ps|
  {
    if m == 0 then 0
    else OtherRuns(ps, ks, i, m - 1) + if Runnable(ps[m - 1]) && m - 1 != i then Runs(ks, m - 1) else 0
  }

  function OtherCount(ps: seq<Proc>, i: nat, m: nat): int
    requires m <= |ps|
  {
    if m == 0 then 0 else OtherCount(ps, i, m - 1) + if Runnable(ps[m - 1]) && m - 1 != i then 1 else 0
  }

  lemma {:induction false} Others(ps: seq<Proc>, ks: seq<nat>, i: nat, m: nat)
    requires i < |ps| && Runnable(ps[i]) && m <= |ps|
    ensures OtherTickets(ps, i, m) == Tickets(ps, m) - if i < m then ps[i].tickets else 0
    ensures OtherRuns(ps, ks, i, m) == AllRuns(ps, ks, m) - if i < m then Runs(ks, i) else 0
    ensures OtherCount(ps, i, m) == Count(ps, m) - if i < m then 1 else 0
  {
    if m > 0 { Others(ps, ks, i, m - 1); }
  }

  lemma AddProducts(a: int, x: int, x': int, y: int, y': int, t: int)
    requires a * x <= y * t && a * x' <= y' * t
    ensures a * (x + x') <= (y + y') * t
  {
    assert a * (x + x') == a * x + a * x';
    assert (y + y') * t == y * t + y' * t;
  }

  lemma {:induction false} SumUpper(ps: seq<Proc>, ks: seq<nat>, i: nat, m: nat)
    requires IsRun(ps, ks) && FreshStart(ps) && i < |ps| && Runnable(ps[i]) && m <= |ps|
    ensures (Runs(ks, i) - 1) * OtherTickets(ps, i, m) <= OtherRuns(ps, ks, i, m) * ps[i].tickets
  {
    if m > 0 {
      SumUpper(ps, ks, i, m - 1);
      if Runnable(ps[m - 1]) && m - 1 != i {
        PairwiseShare(ps, ks, i, m - 1);
        AddProducts(Runs(ks, i) - 1, OtherTickets(ps, i, m - 1), ps[m - 1].tickets,
                    OtherRuns(ps, ks, i, m - 1), Runs(ks, m - 1), ps[i].tickets);
      }
    }
  }

  lemma {:induction false} SumLower(ps: seq<Proc>, ks: seq<nat>, i: nat, m: nat)
    requires IsRun(ps, ks) && FreshStart(ps) && i < |ps| && Runnable(ps[i]) && m <= |ps|
    ensures ps[i].tickets * (OtherRuns(ps, ks, i, m) - OtherCount(ps, i, m)) <= OtherTickets(ps, i, m) * Runs(ks, i)
  {
    if m > 0 {
      SumLower(ps, ks, i, m - 1);
      if Runnable(ps[m - 1]) && m - 1 != i {
        PairwiseShare(ps, ks, m - 1, i);
        AddProducts(ps[i].tickets, OtherRuns(ps, ks, i, m - 1) - OtherCount(ps, i, m - 1), Runs(ks, m - 1) - 1,
                    OtherTickets(ps, i, m - 1), ps[m - 1].tickets, Runs(ks, i));
      }
    }
  }

  /** The stride share theorem: after N dispatches of n always-runnable forkprio processes with T
      tickets in all, process i has had N * t_i / T of them to within the given bounds. */
  lemma ProportionalShare(ps: seq<Proc>, ks: seq<nat>, i: nat)
    requires IsRun(ps, ks) && FreshStart(ps) && i < |ps| && Runnable(ps[i])
    ensures var N, T, n, t := |ks|, Tickets(ps, |ps|), Count(ps, |ps|), ps[i].tickets;
            N * t - (n - 1) * t <= Runs(ks, i) * T <= N * t + T - t
  {
    RunsAddUp(ps, ks);
    Others(ps, ks, i, |ps|);
    SumUpper(ps, ks, i, |ps|);
    SumLower(ps, ks, i, |ps|);
    ShareArithmetic(|ks|, Tickets(ps, |ps|), Count(ps, |ps|), ps[i].tickets, Runs(ks, i));
  }

  lemma ShareArithmetic(N: int, T: int, n: int, t: int, r: int)
    requires (r - 1) * (T - t) <= (N - r) * t
    requires t * (N - r - (n - 1)) <= (T - t) * r
    ensures N * t - (n - 1) * t <= r * T <= N * t + T - t
  {
    assert (r - 1) * (T - t) == r * T - r * t - T + t;
    assert (N - r) * t == N * t - r * t;
    assert t * (N - r - (n - 1)) == N * t - r * t - (n - 1) * t;
    assert (T - t) * r == r * T - r * t;
  }

  // ----- Bounded waiting -----

  /** Slot j would be dispatched before slot i. */
  predicate Rival(ps: seq<Proc>, i: nat, j: nat)
    requires i < |ps| && j < |ps|
  {
    j != i && Runnable(ps[j]) && (Beats(ps[j], ps[i]) || (!Beats(ps[i], ps[j]) && j < i))
  }

  /** Every rival of i has a positive stride.  Slots that fork made, whose stride is never set, need not. */
  predicate RivalsMove(ps: seq<Proc>, i: nat)
    requires i < |ps|
  {
    forall j :: 0 <= j < |ps| && Rival(ps, i, j) ==> ps[j].stride > 0
  }

  /** How many more dispatches slot j can get before slot i. */
  function Ahead(ps: seq<Proc>, i: nat, j: nat): (r: nat)
    requires i < |ps| && j < |ps| && RivalsMove(ps, i)
  {
    if Rival(ps, i, j) then QuotientSign(ps[i].pass - ps[j].pass,
       ps[j].stride); (ps[i].pass - ps[j].pass) / ps[j].stride + 1
    else 0
  }

  lemma QuotientSign(a: int, s: int)
    requires a >= 0 && s > 0
    ensures a / s >= 0
  {
  }

  function Wait(ps: seq<Proc>, i: nat, m: nat): (r: nat)
    requires i < |ps| && m <= |ps| && RivalsMove(ps, i)
  {
    if m == 0 then 0 else Wait(ps, i, m - 1) + Ahead(ps, i, m - 1)
  }

  lemma PickIsRival(ps: seq<Proc>, i: nat, k: nat)
    requires IsPick(ps, k) && i < |ps| && Runnable(ps[i]) && k != i
    ensures Rival(ps, i, k)
  {
  }

  lemma DispatchKeepsRivals(ps: seq<Proc>, i: nat, k: nat)
    requires i < |ps| && RivalsMove(ps, i) && k < |ps| && Rival(ps, i, k)
    ensures RivalsMove(Dispatch(ps, k), i)
  {
    var qs := Dispatch(ps, k);
    forall j | 0 <= j < |qs| && Rival(qs, i, j) ensures qs[j].stride > 0 {
      if j != k { assert Rival(ps, i, j); }
    }
  }

  lemma AheadDrops(ps: seq<Proc>, i: nat, k: nat)
    requires i < |ps| && RivalsMove(ps, i) && k < |ps| && Rival(ps, i, k) && RivalsMove(Dispatch(ps, k), i)
    ensures Ahead(Dispatch(ps, k), i, k) < Ahead(ps, i, k)
  {
    DivStep(ps[i].pass - ps[k].pass, ps[k].stride);
  }

  lemma {:induction false} WaitDrops(ps: seq<Proc>, i: nat, k: nat, m: nat)
    requires i < |ps| && RivalsMove(ps, i) && k < |ps| && Rival(ps, i, k) && m <= |ps|
    requires RivalsMove(Dispatch(ps, k), i)
    ensures Wait(Dispatch(ps, k), i, m) <= Wait(ps, i, m) - if k < m then 1 else 0
  {
    if m > 0 {
      WaitDrops(ps, i, k, m - 1);
      if m - 1 == k {
        AheadDrops(ps, i, k);
      } else {
        assert Rival(Dispatch(ps, k), i, m - 1) <==> Rival(ps, i, m - 1);
      }
    }
  }

  /** Each dispatch of another process uses up some of the wait of i, so i is dispatched after at
      most Wait of them. */
  lemma {:induction false} BoundedWaiting(ps: seq<Proc>, ks: seq<nat>, i: nat)
    requires IsRun(ps, ks) && i < |ps| && Runnable(ps[i]) && RivalsMove(ps, i)
    requires i !in ks
    ensures RivalsMove(After(ps, ks), i)
    ensures |ks| + Wait(After(ps, ks), i, |ps|) <= Wait(ps, i, |ps|)
    decreases |ks|
  {
    if ks != [] {
      var n := |ks| - 1;
      BoundedWaiting(ps, ks[..n], i);
      var qs := After(ps, ks[..n]);
      assert ks[n] != i;
      RunChangesPassOnly(ps, ks[..n], i);
      PickIsRival(qs, i, ks[n]);
      DispatchKeepsRivals(qs, i, ks[n]);
      WaitDrops(qs, i, ks[n], |ps|);
    }
  }

  lemma {:induction false} PickExists(ps: seq<Proc>, m: nat) returns (k: nat)
    requires m <= |ps| && exists i :: 0 <= i < m && Runnable(ps[i])
    ensures IsPick(ps[..m], k)
  {
    if exists i :: 0 <= i < m - 1 && Runnable(ps[i]) {
      k := PickExists(ps, m - 1);
      PickNext(ps, k, m - 1);
      if Runnable(ps[m - 1]) && Beats(ps[m - 1], ps[k]) { k := m - 1; }
    } else {
      k := m - 1;
    }
  }

  /** The pick of a scan that has looked at one more slot. */
  lemma PickNext(ps: seq<Proc>, best: nat, i: nat)
    requires i < |ps| && IsPick(ps[..i], best)
    ensures IsPick(ps[..i + 1], if Runnable(ps[i]) && Beats(ps[i], ps[best]) then i else best)
  {
    assert ps[..i + 1] == ps[..i] + [ps[i]];
  }

  /** A rival whose stride is not positive keeps i waiting for any number of dispatches. */
  lemma {:induction false} Starved(ps: seq<Proc>, i: nat, j: nat, n: nat) returns (ks: seq<nat>)
    requires i < |ps| && Runnable(ps[i]) && j < |ps| && Rival(ps, i, j) && ps[j].stride <= 0
    ensures IsRun(ps, ks) && i !in ks && |ks| == n
  {
    ks := [];
    if n > 0 {
      ks := Starved(ps, i, j, n - 1);
      var qs := After(ps, ks);
      RunChangesPassOnly(ps, ks, i);
      RunChangesPassOnly(ps, ks, j);
      NotRun(ks, i);
      ProductSign(ps[j].stride, Runs(ks, j));
      assert Rival(qs, i, j);
      var k := PickExists(qs, |qs|);
      assert qs[..|qs|] == qs && (ks + [k])[..|ks|] == ks;
      ks := ks + [k];
    }
  }

  lemma {:induction false} NotRun(ks: seq<nat>, i: nat)
    requires i !in ks
    ensures Runs(ks, i) == 0
  {
    if ks != [] { NotRun(ks[..|ks| - 1], i); }
  }

  ghost predicate WaitsAtMost(ps: seq<Proc>, i: nat, bound: nat) {
    forall ks :: IsRun(ps, ks) && i !in ks ==> |ks| <= bound
  }

  /** A runnable process is dispatched within some bound in every run if and only if every rival moves. */
  lemma WaitIsBoundedIff(ps: seq<Proc>, i: nat)
    requires i < |ps| && Runnable(ps[i])
    ensures RivalsMove(ps, i) <==> exists bound :: WaitsAtMost(ps, i, bound)
    ensures RivalsMove(ps, i) ==> WaitsAtMost(ps, i, Wait(ps, i, |ps|))
  {
    if RivalsMove(ps, i) {
      forall ks | IsRun(ps, ks) && i !in ks ensures |ks| <= Wait(ps, i, |ps|) {
        BoundedWaiting(ps, ks, i);
      }
      assert WaitsAtMost(ps, i, Wait(ps, i, |ps|));
    } else {
      var j: nat :| j < |ps| && Rival(ps, i, j) && ps[j].stride <= 0;
      forall bound: nat ensures !WaitsAtMost(ps, i, bound) {
        var ks := Starved(ps, i, j, bound + 1);
      }
    }
  }
}
