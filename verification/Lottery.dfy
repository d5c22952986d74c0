/**
 The lottery scheduler of kernel/proc.c: a class is drawn, and inside the class the processes take
 turns round robin from a cursor.  `tabs` is the process table as each round finds it; between
 rounds it may change in any way.
 */
module Lottery {
  import opened ProcTable
  import opened LotteryDraw
  import opened LotteryShare

  datatype Lot = Lot(seed: nat, last: seq<nat>) {
    predicate Ok() {
      seed < M && |last| == 4 && forall c :: 0 <= c < 4 ==> last[c] < NPROC
    }
  }

  predicate Eligible(p: Proc, c: nat) {
    p.state == RUNNABLE && p.classe == c
  }

  /** Steps from the cursor to slot i, going round the table. */
  function Gap(start: nat, i: nat): (r: nat)
    requires start < NPROC && i < NPROC
    ensures r < NPROC
  {
    if i >= start then i - start else i + NPROC - start
  }

  /** The slot reached after i steps is i steps away; with the cursor just after slot k, every slot
      beyond k is that much nearer. */
  lemma GapSteps(start: nat, i: nat, k: nat)
    requires start < NPROC && i < NPROC && k < NPROC
    ensures Gap(start, (start + i) % NPROC) == i
    ensures Gap(start, k) < Gap(start, i) ==> Gap((k + 1) % NPROC, i) == Gap(start, i) - Gap(start, k) - 1
  {
    assert (start + i) % NPROC == if start + i < NPROC then start + i else start + i - NPROC;
    assert (k + 1) % NPROC == if k + 1 < NPROC then k + 1 else 0;
  }

  /** Slot k is the eligible slot nearest after the cursor. */
  predicate IsTurn(ps: seq<Proc>, start: nat, c: nat, k: nat)
    requires |ps| == NPROC && start < NPROC
  {
    && k < NPROC && Eligible(ps[k], c)
    && forall j :: 0 <= j < NPROC && Eligible(ps[j], c) ==> Gap(start, k) <= Gap(start, j)
  }

  /** The slot that a round runs, found from step i of the search on, or -1. */
  function Search(ps: seq<Proc>, start: nat, c: nat, i: nat): (k: int)
    requires |ps| == NPROC && start < NPROC && i <= NPROC
    ensures -1 <= k < NPROC
    decreases NPROC - i
  {
    if i == NPROC then -1
    else if Eligible(ps[(start + i) % NPROC], c) then (start + i) % NPROC
    else Search(ps, start, c, i + 1)
  }

  lemma {:induction false} SearchFinds(ps: seq<Proc>, start: nat, c: nat, i: nat)
    requires |ps| == NPROC && start < NPROC && i <= NPROC
    requires forall j :: 0 <= j < NPROC && Eligible(ps[j], c) ==> Gap(start, j) >= i
    ensures var k := Search(ps, start, c, i);
            if k == -1 then forall j :: 0 <= j < NPROC ==> !Eligible(ps[j], c) else IsTurn(ps, start, c, k)
    decreases NPROC - i
  {
    if i < NPROC {
      var k := (start + i) % NPROC;
      GapSteps(start, i, k);
      if !Eligible(ps[k], c) {
        forall j | 0 <= j < NPROC && Eligible(ps[j], c) ensures Gap(start, j) >= i + 1 {
          GapUnique(start, j, k);
        }
        SearchFinds(ps, start, c, i + 1);
      }
    }
  }

  lemma GapUnique(start: nat, j: nat, k: nat)
    requires start < NPROC && j < NPROC && k < NPROC && j != k
    ensures Gap(start, j) != Gap(start, k)
  {
  }

  /** One turn of the loop of scheduler_loteria: the slot run, or -1. */
  function Chosen(l: Lot, ps: seq<Proc>): (k: int)
    requires l.Ok() && |ps| == NPROC
    ensures -1 <= k < NPROC
  {
    var c := SeedClass(Next(l.seed));
    Search(ps, l.last[c], c, 0)
  }

  function Turn(l: Lot, ps: seq<Proc>): (r: Lot)
    requires l.Ok() && |ps| == NPROC
    ensures r.Ok()
  {
    var seed := Next(l.seed);
    var c := SeedClass(seed);
    var k := Chosen(l, ps);
    Lot(seed, if k == -1 then l.last else l.last[c := (k + 1) % NPROC])
  }

  predicate Tables(tabs: seq<seq<Proc>>) {
    forall k :: 0 <= k < |tabs| ==> |tabs[k]| == NPROC
  }

  function After(l: Lot, tabs: seq<seq<Proc>>): (r: Lot)
    requires l.Ok() && Tables(tabs)
    ensures r.Ok()
  {
    if tabs == [] then l else Turn(After(l, tabs[..|tabs| - 1]), tabs[|tabs| - 1])
  }

  /** The slot run in round k. */
  function ChosenAt(l: Lot, tabs: seq<seq<Proc>>, k: nat): int
    requires l.Ok() && Tables(tabs) && k < |tabs|
  {
    Chosen(After(l, tabs[..k]), tabs[k])
  }

  // ----- Round robin inside a class -----

  /** Process i stays runnable in class c, and none of the rounds runs it. */
  ghost predicate Waits(l: Lot, tabs: seq<seq<Proc>>, i: nat, c: nat) {
    && l.Ok() && Tables(tabs) && i < NPROC && c < 4
    && (forall k :: 0 <= k < |tabs| ==> Eligible(tabs[k][i], c))
    && (forall k :: 0 <= k < |tabs| ==> ChosenAt(l, tabs, k) != i)
  }

  lemma WaitsPrefix(l: Lot, tabs: seq<seq<Proc>>, i: nat, c: nat, n: nat)
    requires Waits(l, tabs, i, c) && n <= |tabs|
    ensures Waits(l, tabs[..n], i, c)
  {
    forall k | 0 <= k < n ensures ChosenAt(l, tabs[..n], k) != i {
      assert tabs[..n][..k] == tabs[..k];
      assert ChosenAt(l, tabs, k) != i;
    }
  }

  /** A round of class c that runs another process brings the cursor nearer to i; other rounds leave it. */
  lemma GapDrops(l: Lot, ps: seq<Proc>, i: nat, c: nat)
    requires l.Ok() && |ps| == NPROC && i < NPROC && c < 4 && Eligible(ps[i], c) && Chosen(l, ps) != i
    ensures SeedClass(Next(l.seed)) != c ==> Turn(l, ps).last[c] == l.last[c]
    ensures SeedClass(Next(l.seed)) == c ==>
              && 0 <= Chosen(l, ps)
              && Gap(l.last[c], Chosen(l, ps)) < Gap(l.last[c], i)
              && Gap(Turn(l, ps).last[c], i) == Gap(l.last[c], i) - Gap(l.last[c], Chosen(l, ps)) - 1
  {
    var d := SeedClass(Next(l.seed));
    SearchFinds(ps, l.last[d], d, 0);
    var k := Chosen(l, ps);
    if d == c && k != -1 {
      GapUnique(l.last[c], i, k);
      GapSteps(l.last[c], i, k);
      assert Turn(l, ps).last[c] == (k + 1) % NPROC;
    }
  }

  lemma {:induction false} SeedAfter(l: Lot, tabs: seq<seq<Proc>>)
    requires l.Ok() && Tables(tabs)
    ensures After(l, tabs).seed == Iter(l.seed, |tabs|)
  {
    if tabs != [] { SeedAfter(l, tabs[..|tabs| - 1]); }
  }

  /** While i waits, its gap pays for every draw of its class: there are fewer than NPROC of them. */
  lemma {:induction false} WaitIsPaid(l: Lot, tabs: seq<seq<Proc>>, i: nat, c: nat)
    requires Waits(l, tabs, i, c)
    ensures Gap(After(l, tabs).last[c], i) + Drawn(l.seed, |tabs|, c) <= Gap(l.last[c], i) < NPROC
    decreases |tabs|
  {
    if tabs != [] {
      var n := |tabs| - 1;
      WaitsPrefix(l, tabs, i, c, n);
      WaitIsPaid(l, tabs[..n], i, c);
      SeedAfter(l, tabs[..n]);
      assert ChosenAt(l, tabs, n) != i && Eligible(tabs[n][i], c);
      GapDrops(After(l, tabs[..n]), tabs[n], i, c);
    }
  }

  /** The gap of i before round k. */
  function GapAt(l: Lot, tabs: seq<seq<Proc>>, i: nat, c: nat, k: nat): nat
    requires l.Ok() && Tables(tabs) && i < NPROC && c < 4 && k <= |tabs|
  {
    Gap(After(l, tabs[..k]).last[c], i)
  }

  /** The class drawn in round k. */
  function ClassAt(l: Lot, tabs: seq<seq<Proc>>, k: nat): nat
    requires l.Ok() && Tables(tabs) && k <= |tabs|
  {
    SeedClass(Next(After(l, tabs[..k]).seed))
  }

  /** A round of class c runs the slot that is this far from the first cursor. */
  lemma TurnsGoForward(l: Lot, tabs: seq<seq<Proc>>, i: nat, c: nat, k: nat)
    requires Waits(l, tabs, i, c) && k < |tabs|
    ensures GapAt(l, tabs, i, c, k + 1) <= GapAt(l, tabs, i, c, k) <= Gap(l.last[c], i)
    ensures ClassAt(l, tabs, k) == c ==>
              && 0 <= ChosenAt(l, tabs, k) < NPROC && GapAt(l, tabs, i, c, k + 1) < GapAt(l, tabs, i, c, k)
              && Gap(l.last[c], ChosenAt(l, tabs, k)) == Gap(l.last[c], i) - GapAt(l, tabs, i, c, k + 1) - 1
  {
    WaitsPrefix(l, tabs, i, c, k);
    WaitIsPaid(l, tabs[..k], i, c);
    assert ChosenAt(l, tabs, k) != i && Eligible(tabs[k][i], c);
    GapDrops(After(l, tabs[..k]), tabs[k], i, c);
    assert tabs[..k + 1][..k] == tabs[..k];
    if ClassAt(l, tabs, k) == c {
      GapChain(l.last[c], After(l, tabs[..k]).last[c], ChosenAt(l, tabs, k), i);
    }
  }

  /** Gaps add up along the way from one cursor to a later one. */
  lemma GapChain(start: nat, later: nat, k: nat, i: nat)
    requires start < NPROC && later < NPROC && k < NPROC && i < NPROC
    requires Gap(later, k) < Gap(later, i) <= Gap(start, i)
    ensures Gap(start, k) == Gap(start, i) - Gap(later, i) + Gap(later, k)
  {
  }

  lemma {:induction false} GapNeverGrows(l: Lot, tabs: seq<seq<Proc>>, i: nat, c: nat, j: nat, k: nat)
    requires Waits(l, tabs, i, c) && j <= k <= |tabs|
    ensures GapAt(l, tabs, i, c, k) <= GapAt(l, tabs, i, c, j)
    decreases k
  {
    if j < k {
      GapNeverGrows(l, tabs, i, c, j, k - 1);
      TurnsGoForward(l, tabs, i, c, k - 1);
    }
  }

  /** Before a waiting process gets its turn, no process of its class has two. */
  lemma NoClassmateTwice(l: Lot, tabs: seq<seq<Proc>>, i: nat, c: nat, j: nat, k: nat)
    requires Waits(l, tabs, i, c) && j < k < |tabs| && ClassAt(l, tabs, j) == c == ClassAt(l, tabs, k)
    ensures ChosenAt(l, tabs, j) != ChosenAt(l, tabs, k)
  {
    TurnsGoForward(l, tabs, i, c, j);
    TurnsGoForward(l, tabs, i, c, k);
    GapNeverGrows(l, tabs, i, c, j + 1, k);
  }

  // ----- Nobody starves -----

  /** A process that stays runnable in one of the four classes runs within 2^32 rounds. */
  lemma NobodyStarves(l: Lot, tabs: seq<seq<Proc>>, i: nat, c: nat)
    requires l.Ok() && Tables(tabs) && i < NPROC && c < 4 && |tabs| == M
    requires forall k :: 0 <= k < |tabs| ==> Eligible(tabs[k][i], c)
    ensures exists k :: 0 <= k < |tabs| && ChosenAt(l, tabs, k) == i
  {
    if forall k :: 0 <= k < |tabs| ==> ChosenAt(l, tabs, k) != i {
      WaitIsPaid(l, tabs, i, c);
      ExactShares(l.seed, c, |tabs|);
    }
  }

  /** A process whose class is none of the four, as forkprio allows, never runs. */
  lemma OtherClassesNeverRun(l: Lot, tabs: seq<seq<Proc>>, i: nat, k: nat)
    requires l.Ok() && Tables(tabs) && k < |tabs| && i < NPROC
    requires !(0 <= tabs[k][i].classe < 4)
    ensures ChosenAt(l, tabs, k) != i
  {
    var m := After(l, tabs[..k]);
    var c := SeedClass(Next(m.seed));
    SearchFinds(tabs[k], m.last[c], c, 0);
  }
}
