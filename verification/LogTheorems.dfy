/**
 What the log guarantees over whole runs: recovery after any number of crashes, atomicity of
 operations, pins, reserved space, and when log_write and write_log cannot go on.
 */
module LogTheorems {
  import opened Folding
  import opened Params
  import opened DiskBlocks
  import opened LogMachine
  import opened LogSafety

  // ----- Recovery -----

  lemma InitInv(L: Layout, s: State)
    requires Init(L, s)
    ensures Inv(L, s.disk, s)
  {
  }

  lemma {:induction false} RunKeepsInv(L: Layout, s: State, es: seq<Event>)
    requires Init(L, s) && IsRun(L, s, es)
    ensures Inv(L, s.disk, RunTo(L, s, es))
    decreases |es|
  {
    if es == [] {
      InitInv(L, s);
    } else {
      var n := |es| - 1;
      RunKeepsInv(L, s, es[..n]);
      StepKeepsInv(L, s.disk, RunTo(L, s, es[..n]), es[n]);
    }
  }

  /** A run goes through the end of each of its prefixes. */
  lemma {:induction false} RunSplits(L: Layout, s: State, es: seq<Event>, fs: seq<Event>)
    requires IsRun(L, s, es + fs)
    ensures IsRun(L, s, es) && IsRun(L, RunTo(L, s, es), fs)
    ensures RunTo(L, s, es + fs) == RunTo(L, RunTo(L, s, es), fs)
    decreases |fs|
  {
    if fs == [] {
      assert es + fs == es;
    } else {
      var n := |fs| - 1;
      assert (es + fs)[..|es + fs| - 1] == es + fs[..n];
      RunSplits(L, s, es, fs[..n]);
    }
  }

  lemma RunSnoc(L: Layout, s: State, es: seq<Event>, e: Event)
    requires IsRun(L, s, es) && Enabled(L, RunTo(L, s, es), e)
    ensures IsRun(L, s, es + [e]) && RunTo(L, s, es + [e]) == Do(L, RunTo(L, s, es), e)
  {
    assert (es + [e])[..|es|] == es;
  }

  lemma ReachInit(L: Layout, s: State)
    requires Init(L, s)
    ensures Reachable(L, s, s)
  {
    assert IsRun(L, s, []) && RunTo(L, s, []) == s;
  }

  lemma ReachStep(L: Layout, s: State, t: State, e: Event)
    requires Reachable(L, s, t) && Enabled(L, t, e)
    ensures Reachable(L, s, Do(L, t, e))
  {
    assert Open(REACHABLE, 0);
    var es :| IsRun(L, s, es) && t == RunTo(L, s, es);
    RunSnoc(L, s, es, e);
  }

  predicate IsRecovery(e: Event) {
    e.Crash? || e.ReadHead? || e.InstallOne? || e.ClearHead? || e.Load? || e.Hold? || e.Release? || e.Evict?
  }

  lemma {:induction false} RecoveryKeepsHistory(L: Layout, s: State, rs: seq<Event>)
    requires IsRun(L, s, rs) && forall e :: e in rs ==> IsRecovery(e)
    ensures RunTo(L, s, rs).done == s.done
    decreases |rs|
  {
    if rs != [] {
      var n := |rs| - 1;
      RecoveryKeepsHistory(L, s, rs[..n]);
      assert IsRecovery(rs[n]);
      DoneMoves(L, RunTo(L, s, rs[..n]), rs[n]);
    }
  }

  /** The disk holds no transaction and its home blocks are exactly `d`. */
  ghost predicate Holds(L: Layout, disk: seq<Block>, d: seq<Block>)
    requires L.Ok() && |disk| == |d| == L.blocks
  {
    HeadBlocks(disk[L.start]) == [] && forall b: nat :: L.Home(b) ==> disk[b] == d[b]
  }

  /** When nothing is being installed, the disk has the committed transactions at home. */
  lemma SettledDisk(L: Layout, base: seq<Block>, t: State)
    requires Inv(L, base, t) && t.phase == Running
    ensures |t.disk| == |base| == L.blocks && Holds(L, t.disk, Playback(base, t.done))
  {
    assert Open(LOG_REPLAYS, 0);
  }

  /** Crash after any run, and again any number of times during recovery: when recovery ends,
      the home blocks hold the committed transactions and nothing else. */
  lemma CrashRecovery(L: Layout, s: State, es: seq<Event>, rs: seq<Event>)
    requires Init(L, s) && IsRun(L, s, es + [Crash] + rs)
    requires forall e :: e in rs ==> IsRecovery(e)
    requires RunTo(L, s, es + [Crash] + rs).phase == Running
    ensures IsRun(L, s, es)
    ensures |RunTo(L, s, es + [Crash] + rs).disk| == L.blocks
    ensures Holds(L, RunTo(L, s, es + [Crash] + rs).disk, Playback(s.disk, RunTo(L, s, es).done))
  {
    RunSplits(L, s, es + [Crash], rs);
    RunSplits(L, s, es, [Crash]);
    var mid := RunTo(L, s, es + [Crash]);
    assert mid.done == RunTo(L, s, es).done by { assert (es + [Crash])[..|es|] == es; }
    RecoveryKeepsHistory(L, mid, rs);
    RunKeepsInv(L, s, es + [Crash] + rs);
    SettledDisk(L, s.disk, RunTo(L, s, es + [Crash] + rs));
  }

  /** A step of commit or recovery itself, of a reader or of a sleeper: no operation begins, writes
      or ends, and no crash. */
  predicate IsCommitStep(e: Event) {
    !e.Begin? && !e.Modify? && !e.LogWrite? && !e.End? && !e.Crash?
  }

  lemma {:induction false} CommitKeepsOrTakesAll(L: Layout, s: State, cs: seq<Event>)
    requires IsRun(L, s, cs) && forall e :: e in cs ==> IsCommitStep(e)
    ensures var t := RunTo(L, s, cs);
            || (t.done == s.done && t.pending == s.pending)
            || (t.done == s.done + s.pending && t.pending == [])
    decreases |cs|
  {
    if cs != [] {
      var n := |cs| - 1;
      CommitKeepsOrTakesAll(L, s, cs[..n]);
      var t := RunTo(L, s, cs[..n]);
      assert IsCommitStep(cs[n]);
      DoneMoves(L, t, cs[n]);
      assert t.done + [] == t.done;
    }
  }

  /** A crash between any two block writes of a commit, then recovery with any number of further
      crashes, leaves exactly the state before the transaction or exactly the state after it. */
  lemma CommitIsAtomic(L: Layout, s: State, es: seq<Event>, cs: seq<Event>, rs: seq<Event>)
    requires Init(L, s) && IsRun(L, s, es + cs + [Crash] + rs)
    requires forall e :: e in cs ==> IsCommitStep(e)
    requires forall e :: e in rs ==> IsRecovery(e)
    requires RunTo(L, s, es + cs + [Crash] + rs).phase == Running
    ensures IsRun(L, s, es) && |RunTo(L, s, es + cs + [Crash] + rs).disk| == L.blocks
    ensures var before := RunTo(L, s, es);
            var after := RunTo(L, s, es + cs + [Crash] + rs).disk;
            || Holds(L, after, Playback(s.disk, before.done))
            || Holds(L, after, Playback(s.disk, before.done + before.pending))
  {
    CrashRecovery(L, s, es + cs, rs);
    RunSplits(L, s, es, cs);
    CommitKeepsOrTakesAll(L, RunTo(L, s, es), cs);
  }

  // ----- Operations -----

  /** In which transaction the writes of each operation are. */
  ghost predicate HistInv(ops: nat, epoch: nat, issued: seq<Write>, done: seq<Write>, pending: seq<Write>) {
    && (forall o: nat :: o >= ops ==> ByOp(issued, o) == [])
    && (forall o: nat :: o >= epoch ==> ByOp(done, o) == [] && ByOp(pending, o) == ByOp(issued, o))
    && (forall o: nat :: o < epoch ==>
          ByOp(pending, o) == [] && (ByOp(done, o) == [] || ByOp(done, o) == ByOp(issued, o)))
  }

  ghost predicate StateHist(s: State) {
    HistInv(|s.ops|, s.epoch, s.issued, s.done, s.pending)
  }

  lemma ByOpSnoc(ws: seq<Write>, w: Write, o: nat)
    ensures ByOp(ws + [w], o) == ByOp(ws, o) + if w.op == o then [w] else []
  {
    assert (ws + [w])[..|ws|] == ws;
  }

  lemma {:induction false} ByOpConcat(ws: seq<Write>, vs: seq<Write>, o: nat)
    ensures ByOp(ws + vs, o) == ByOp(ws, o) + ByOp(vs, o)
    decreases |vs|
  {
    if vs == [] {
      assert ws + vs == ws;
    } else {
      var n := |vs| - 1;
      assert (ws + vs)[..|ws + vs| - 1] == ws + vs[..n];
      ByOpConcat(ws, vs[..n], o);
    }
  }

  lemma HistWrite(ops: nat, epoch: nat, issued: seq<Write>, done: seq<Write>, pending: seq<Write>, w: Write)
    requires HistInv(ops, epoch, issued, done, pending) && epoch <= w.op < ops
    ensures HistInv(ops, epoch, issued + [w], done, pending + [w])
  {
    forall o: nat
      ensures ByOp(issued + [w], o) == ByOp(issued, o) + if w.op == o then [w] else []
      ensures ByOp(pending + [w], o) == ByOp(pending, o) + if w.op == o then [w] else []
    {
      ByOpSnoc(issued, w, o);
      ByOpSnoc(pending, w, o);
    }
  }

  lemma HistCommit(ops: nat, epoch: nat, issued: seq<Write>, done: seq<Write>, pending: seq<Write>)
    requires HistInv(ops, epoch, issued, done, pending) && epoch <= ops
    ensures HistInv(ops, ops, issued, done + pending, [])
  {
    forall o: nat ensures ByOp(done + pending, o) == ByOp(done, o) + ByOp(pending, o) {
      ByOpConcat(done, pending, o);
    }
  }

  lemma HistStep(L: Layout, s: State, e: Event)
    requires StateHist(s) && OpInv(s) && Enabled(L, s, e)
    ensures StateHist(Do(L, s, e))
  {
    match e
    case LogWrite(op, b, data) =>
      LiveMeansRunning(s, op);
      HistWrite(|s.ops|, s.epoch, s.issued, s.done, s.pending, Write(op, b, data));
    case WriteCommit => HistCommit(|s.ops|, s.epoch, s.issued, s.done, s.pending);
    case _ =>
  }

  lemma {:induction false} RunKeepsHist(L: Layout, s: State, es: seq<Event>)
    requires Init(L, s) && IsRun(L, s, es)
    ensures StateHist(RunTo(L, s, es))
    decreases |es|
  {
    if es != [] {
      var n := |es| - 1;
      RunKeepsHist(L, s, es[..n]);
      RunKeepsInv(L, s, es[..n]);
      HistStep(L, RunTo(L, s, es[..n]), es[n]);
    }
  }

  lemma ReachableInv(L: Layout, s: State, t: State)
    requires Reachable(L, s, t)
    ensures Init(L, s) && Inv(L, s.disk, t) && StateHist(t) && SpaceInv(t) && |t.cached| <= NBUF
  {
    assert Open(REACHABLE, 0);
    var es :| IsRun(L, s, es) && t == RunTo(L, s, es);
    RunKeepsInv(L, s, es);
    RunKeepsHist(L, s, es);
    SpaceIsReserved(L, s, es);
    CacheFits(L, s, es);
  }

  /** All the writes of an operation are in one transaction: the durable history has every write
      the operation issued, or none of them, and none while the operation is still live. */
  lemma OperationsAreAtomic(L: Layout, s: State, t: State, o: nat)
    requires Reachable(L, s, t)
    ensures ByOp(t.done, o) == [] || (ByOp(t.done, o) == ByOp(t.issued, o) && ByOp(t.pending, o) == [])
    ensures o < |t.ops| && t.ops[o].live ==> ByOp(t.done, o) == [] && ByOp(t.pending, o) == ByOp(t.issued, o)
  {
    ReachableInv(L, s, t);
  }

  /** A commit runs only with no operation outstanding, and end_op never finds one running. */
  lemma NoCommitDuringOperation(L: Layout, s: State, t: State)
    requires Reachable(L, s, t)
    ensures t.committing ==> t.outstanding == 0
    ensures forall op :: 0 <= op < |t.ops| && t.ops[op].live ==> t.outstanding >= 1 && !t.committing
  {
    ReachableInv(L, s, t);
    forall op: nat | op < |t.ops| && t.ops[op].live ensures t.outstanding >= 1 && !t.committing {
      LiveWitnessed(t.ops, op);
    }
  }

  function InstalledCount(s: State): nat {
    if s.phase.Installing? || s.phase.Recovering? then s.phase.k else 0
  }

  /** Logged block numbers are distinct; each stays pinned exactly once, and cached with its current
      content unless an operation is just changing it, until it is installed; nothing else is pinned. */
  lemma PinnedUntilInstalled(L: Layout, s: State, t: State, i: nat)
    requires Reachable(L, s, t) && InstalledCount(t) <= i < |t.lh| && !t.phase.Recovering? && !t.phase.Down?
    ensures GoodBlocks(L, t.lh) && t.pins == multiset(t.lh[InstalledCount(t)..]) && t.pins[t.lh[i]] == 1
    ensures t.lh[i] in t.cached && t.lh[i] < |s.disk|
    ensures t.lh[i] !in t.changed ==> t.cached[t.lh[i]] == Playback(s.disk, t.done + t.pending)[t.lh[i]]
  {
    ReachablePins(L, s, t);
    PinnedOnce(t.lh, InstalledCount(t), i);
    PinnedShown(L, t.disk, t.cached, t.pins, t.changed.Keys, Playback(s.disk, t.done + t.pending), t.lh[i]);
  }

  /** A buffer differs from the disk only while it is pinned, or held by the operation that is changing
      it: whatever is logged before it is released is never lost with its buffer. */
  lemma DirtyIsPinnedOrHeld(L: Layout, s: State, t: State, b: nat)
    requires Reachable(L, s, t) && b in t.cached
    ensures b < |t.disk|
    ensures t.cached[b] != t.disk[b] ==>
      b in t.pins || (b in t.changed && b in t.held && t.changed[b] < |t.ops| && t.ops[t.changed[b]].live)
  {
    ReachableInv(L, s, t);
    assert Open(CACHE_COHERENT, 0) && Open(CACHE_HELD, 0);
  }

  lemma PinnedOnce(bs: seq<nat>, k: nat, i: nat)
    requires k <= i < |bs| && Distinct(bs)
    ensures multiset(bs[k..])[bs[i]] == 1
  {
    assert Open(LOG_DISTINCT, 0);
    assert bs[k..][i - k] == bs[i];
    OnceInDistinct(bs[k..], i - k);
  }

  lemma PinnedShown(L: Layout, disk: seq<Block>, cached: map<nat, Block>, pins: multiset<nat>, dirty: set<nat>,
                    c: seq<Block>, b: nat)
    requires |disk| == |c| == L.blocks && Coherent(disk, cached, pins, dirty) && Shows(L, disk, cached, dirty, c)
    requires L.Home(b) && b in pins
    ensures b in cached && (b !in dirty ==> cached[b] == c[b])
  {
    assert Open(CACHE_COHERENT, 0) && Open(CACHE_SHOWS, 0);
  }

  lemma ReachablePins(L: Layout, s: State, t: State)
    requires Reachable(L, s, t) && InstalledCount(t) <= |t.lh| && !t.phase.Recovering? && !t.phase.Down?
    ensures GoodBlocks(L, t.lh) && t.pins == multiset(t.lh[InstalledCount(t)..]) && |t.disk| == |s.disk| == L.blocks
    ensures Coherent(t.disk, t.cached, t.pins, t.changed.Keys)
    ensures Shows(L, t.disk, t.cached, t.changed.Keys, Playback(s.disk, t.done + t.pending))
  {
    ReachableInv(L, s, t);
    PinsBefore(L, s.disk, t);
  }

  lemma PinsBefore(L: Layout, base: seq<Block>, t: State)
    requires Inv(L, base, t) && !t.phase.Recovering? && InstalledCount(t) <= |t.lh|
    ensures t.pins == multiset(t.lh[InstalledCount(t)..])
  {
    assert t.lh[0..] == t.lh;
  }

  lemma {:induction false} OnceInDistinct(bs: seq<nat>, i: nat)
    requires i < |bs| && forall i, j :: 0 <= i < j < |bs| ==> bs[i] != bs[j]
    ensures multiset(bs)[bs[i]] == 1
  {
    assert bs == bs[..i] + [bs[i]] + bs[i + 1..];
    assert bs[i] !in bs[..i] && bs[i] !in bs[i + 1..];
  }

  // ----- Log space -----

  /** The file system's promise: no operation adds more than MAXOPBLOCKS blocks. */
  ghost predicate Budgeted(ops: seq<Op>) {
    forall i :: 0 <= i < |ops| ==> ops[i].added <= MAXOPBLOCKS
  }

  ghost predicate SpaceInv(s: State) {
    Budgeted(s.ops) ==> |s.lh| + Unused(s.ops) <= LOGSIZE
  }

  lemma {:induction false} UnusedBounds(ops: seq<Op>)
    requires Budgeted(ops)
    ensures 0 <= Unused(ops) <= Live(ops) * MAXOPBLOCKS
    ensures forall i :: 0 <= i < |ops| && ops[i].live ==> Unused(ops) >= MAXOPBLOCKS - ops[i].added
  {
    if ops != [] { UnusedBounds(ops[..|ops| - 1]); }
  }

  lemma SpaceStep(L: Layout, s: State, e: Event)
    requires OpInv(s) && SpaceInv(s) && Enabled(L, s, e)
    ensures SpaceInv(Do(L, s, e))
  {
    var t := Do(L, s, e);
    if Budgeted(t.ops) {
      assert Budgeted(s.ops) by { BudgetedBefore(L, s, e); }
      UnusedBounds(s.ops);
      match e
      case Begin => LiveSnoc(s.ops, Op(true, 0));
      case LogWrite(op, b, data) => LiveUpdate(s.ops, op, Op(s.ops[op].live, s.ops[op].added + 1));
      case End(op) => LiveUpdate(s.ops, op, s.ops[op].(live := false));
      case Crash => LiveDead(t.ops);
      case _ =>
    }
  }

  lemma BudgetedBefore(L: Layout, s: State, e: Event)
    requires Enabled(L, s, e) && Budgeted(Do(L, s, e).ops)
    ensures Budgeted(s.ops)
  {
    var t := Do(L, s, e);
    forall i | 0 <= i < |s.ops| ensures s.ops[i].added <= MAXOPBLOCKS {
      assert s.ops[i].added <= t.ops[i].added;
    }
  }

  /** The blocks logged and the reservations still unused never exceed the log, in any run. */
  lemma {:induction false} SpaceIsReserved(L: Layout, s: State, es: seq<Event>)
    requires Init(L, s) && IsRun(L, s, es)
    ensures SpaceInv(RunTo(L, s, es))
    decreases |es|
  {
    if es != [] {
      var n := |es| - 1;
      SpaceIsReserved(L, s, es[..n]);
      RunKeepsInv(L, s, es[..n]);
      SpaceStep(L, RunTo(L, s, es[..n]), es[n]);
    }
  }

  /** With a log larger than LOGSIZE, an operation that keeps its promise and has a block left to
      spend never meets "too big a transaction". */
  lemma RoomForEveryPromise(L: Layout, s: State, t: State, op: nat)
    requires Reachable(L, s, t) && L.size > LOGSIZE
    requires Budgeted(t.ops) && op < |t.ops| && t.ops[op].live && t.ops[op].added < MAXOPBLOCKS
    ensures !TooBig(L, t)
  {
    ReachableInv(L, s, t);
    UnusedBounds(t.ops);
  }

  // ----- Operations that log few blocks -----

  function BlocksIn(ws: seq<Write>): set<nat> {
    set w | w in ws :: w.block
  }

  /** What a live operation logged is in the header, and no operation adds more than it logs. */
  ghost predicate AddInv(ops: seq<Op>, lh: seq<nat>, issued: seq<Write>) {
    forall k: nat :: Open(LOG_ADDED, k) ==>
      && (forall o: nat :: o < |ops| ==> ops[o].added <= |BlocksIn(ByOp(issued, o))|)
      && (forall o: nat, b :: o < |ops| && ops[o].live && b in BlocksIn(ByOp(issued, o)) ==> b in lh)
  }

  lemma BlocksSnoc(issued: seq<Write>, w: Write)
    ensures forall o: nat ::
      BlocksIn(ByOp(issued + [w], o)) == BlocksIn(ByOp(issued, o)) + if w.op == o then {w.block} else {}
  {
    forall o: nat
      ensures BlocksIn(ByOp(issued + [w], o)) == BlocksIn(ByOp(issued, o)) + if w.op == o then {w.block} else {}
    {
      ByOpSnoc(issued, w, o);
    }
  }

  lemma AddAbsorb(ops: seq<Op>, lh: seq<nat>, issued: seq<Write>, w: Write)
    requires AddInv(ops, lh, issued) && w.op < |ops| && w.block in lh
    ensures AddInv(ops, lh, issued + [w])
  {
    assert Open(LOG_ADDED, 0);
    BlocksSnoc(issued, w);
    SubsetSize(BlocksIn(ByOp(issued, w.op)), BlocksIn(ByOp(issued + [w], w.op)));
  }

  lemma AddAppend(ops: seq<Op>, lh: seq<nat>, issued: seq<Write>, w: Write, ops': seq<Op>)
    requires AddInv(ops, lh, issued) && w.op < |ops| && ops[w.op].live && w.block !in lh
    requires ops' == ops[w.op := Op(true, ops[w.op].added + 1)]
    ensures AddInv(ops', lh + [w.block], issued + [w])
  {
    assert Open(LOG_ADDED, 0);
    BlocksSnoc(issued, w);
    var had, has := BlocksIn(ByOp(issued, w.op)), BlocksIn(ByOp(issued + [w], w.op));
    assert |has| == |had| + 1 by {
      assert w.block !in had;
      assert has == had + {w.block};
    }
    forall o: nat | o < |ops'| && o != w.op ensures ops'[o] == ops[o] {}
    forall o: nat, b | o < |ops'| && ops'[o].live && b in BlocksIn(ByOp(issued + [w], o)) ensures b in lh + [w.block] {
      assert b in BlocksIn(ByOp(issued, o)) || b == w.block;
    }
  }

  /** Ends and crashes only make operations dead; the header changes only when none is live. */
  lemma AddLess(ops: seq<Op>, lh: seq<nat>, issued: seq<Write>, ops': seq<Op>, lh': seq<nat>)
    requires AddInv(ops, lh, issued) && |ops'| == |ops|
    requires forall o: nat :: o < |ops| ==> ops'[o].added == ops[o].added && (ops'[o].live ==> ops[o].live && lh' == lh)
    ensures AddInv(ops', lh', issued)
  {
    assert Open(LOG_ADDED, 0);
  }

  lemma AddBegin(ops: seq<Op>, lh: seq<nat>, issued: seq<Write>)
    requires AddInv(ops, lh, issued) && ByOp(issued, |ops|) == []
    ensures AddInv(ops + [Op(true, 0)], lh, issued)
  {
    assert Open(LOG_ADDED, 0);
  }

  lemma QuietOps(L: Layout, s: State, e: Event)
    requires Enabled(L, s, e) && !e.Begin? && !e.LogWrite? && !e.End? && !e.Crash? && !e.ClearHead? && !e.ReadHead?
    ensures var t := Do(L, s, e); t.ops == s.ops && t.lh == s.lh && t.issued == s.issued
  {
  }

  lemma AddStep(L: Layout, s: State, e: Event)
    requires AddInv(s.ops, s.lh, s.issued) && OpInv(s) && StateHist(s) && Enabled(L, s, e)
    ensures var t := Do(L, s, e); AddInv(t.ops, t.lh, t.issued)
  {
    var t := Do(L, s, e);
    match e
    case Begin => AddBegin(s.ops, s.lh, s.issued);
    case LogWrite(op, b, data) => AddLogWrite(s, op, b, data);
    case End(op) => AddLess(s.ops, s.lh, s.issued, t.ops, t.lh);
    case Crash => AddLess(s.ops, s.lh, s.issued, t.ops, t.lh);
    case ClearHead => NobodyLive(s); AddLess(s.ops, s.lh, s.issued, t.ops, t.lh);
    case ReadHead => NobodyLive(s); AddLess(s.ops, s.lh, s.issued, t.ops, t.lh);
    case _ => QuietOps(L, s, e);
  }

  lemma AddLogWrite(s: State, op: nat, b: nat, data: Block)
    requires AddInv(s.ops, s.lh, s.issued) && op < |s.ops| && s.ops[op].live
    ensures var t := DoLogWrite(s, op, b, data); AddInv(t.ops, t.lh, t.issued)
  {
    var w, t := Write(op, b, data), DoLogWrite(s, op, b, data);
    if b in s.lh { AddAbsorb(s.ops, s.lh, s.issued, w); } else { AddAppend(s.ops, s.lh, s.issued, w, t.ops); }
  }

  lemma NobodyLive(s: State)
    requires OpInv(s) && s.phase != Running
    ensures forall o: nat :: o < |s.ops| ==> !s.ops[o].live
  {
    forall o: nat | o < |s.ops| ensures !s.ops[o].live {
      if s.ops[o].live { LiveWitnessed(s.ops, o); }
    }
  }

  lemma {:induction false} RunKeepsAdd(L: Layout, s: State, es: seq<Event>)
    requires Init(L, s) && IsRun(L, s, es)
    ensures var t := RunTo(L, s, es); AddInv(t.ops, t.lh, t.issued)
    decreases |es|
  {
    if es != [] {
      var n := |es| - 1;
      RunKeepsAdd(L, s, es[..n]);
      RunKeepsInv(L, s, es[..n]);
      RunKeepsHist(L, s, es[..n]);
      AddStep(L, RunTo(L, s, es[..n]), es[n]);
    }
  }

  /** If every operation logs at most MAXOPBLOCKS blocks, as each chunk of a file write does with its
      seven, then no operation that has logged fewer meets "too big a transaction", however often it
      logs them, and its writes become durable together. */
  lemma SmallOperationsFit(L: Layout, s: State, t: State, op: nat)
    requires Reachable(L, s, t) && L.size > LOGSIZE
    requires forall o: nat :: o < |t.ops| ==> |BlocksIn(ByOp(t.issued, o))| <= MAXOPBLOCKS
    requires op < |t.ops| && t.ops[op].live && |BlocksIn(ByOp(t.issued, op))| < MAXOPBLOCKS
    ensures Budgeted(t.ops) && t.ops[op].added <= |BlocksIn(ByOp(t.issued, op))| && !TooBig(L, t)
    ensures ByOp(t.done, op) == [] && ByOp(t.pending, op) == ByOp(t.issued, op)
  {
    AddedFew(L, s, t);
    RoomForEveryPromise(L, s, t, op);
    OperationsAreAtomic(L, s, t, op);
  }

  /** log_write counts a block against an operation at most once. */
  lemma AddedFew(L: Layout, s: State, t: State)
    requires Reachable(L, s, t)
    ensures forall o: nat :: o < |t.ops| ==> t.ops[o].added <= |BlocksIn(ByOp(t.issued, o))|
  {
    assert Open(REACHABLE, 0);
    var es :| IsRun(L, s, es) && t == RunTo(L, s, es);
    RunKeepsAdd(L, s, es);
    assert Open(LOG_ADDED, 0);
  }

  // ----- Sleepers in begin_op -----

  /** Whoever sleeps in begin_op has a reason to, and an idle log is empty. */
  ghost predicate SleepInv(s: State) {
    && (s.asleep > 0 ==> !MayBegin(s))
    && (s.phase.Running? && s.outstanding == 0 ==> s.lh == [])
    && (s.phase.Finishing? ==> s.lh == [])
    && (s.phase.Down? || s.phase.Recovering? ==> s.asleep == 0)
  }

  lemma SleepStep(L: Layout, s: State, e: Event)
    requires SleepInv(s) && OpInv(s) && Enabled(L, s, e)
    ensures SleepInv(Do(L, s, e))
  {
    if e.LogWrite? { LiveWitnessed(s.ops, e.op); }
  }

  lemma {:induction false} RunKeepsSleep(L: Layout, s: State, es: seq<Event>)
    requires Init(L, s) && IsRun(L, s, es)
    ensures SleepInv(RunTo(L, s, es))
    decreases |es|
  {
    if es != [] {
      var n := |es| - 1;
      RunKeepsSleep(L, s, es[..n]);
      RunKeepsInv(L, s, es[..n]);
      SleepStep(L, RunTo(L, s, es[..n]), es[n]);
    }
  }

  /** No wakeup is lost: a process asleep in begin_op could not begin if it looked, and whenever it is
      asleep an operation is outstanding or a commit is running, whose end wakes it. */
  lemma NoSleeperStuck(L: Layout, s: State, t: State)
    requires Reachable(L, s, t) && t.asleep > 0
    ensures !MayBegin(t)
    ensures t.committing || t.outstanding > 0
  {
    assert Open(REACHABLE, 0);
    var es :| IsRun(L, s, es) && t == RunTo(L, s, es);
    RunKeepsSleep(L, s, es);
    RunKeepsInv(L, s, es);
  }

  // ----- The panic of log_write is reachable on a small log -----

  /** Block number i of the blocks just after the log. */
  function Fresh(L: Layout, i: nat): nat {
    L.start + L.size + i
  }

  function Spent(op: nat, m: nat): nat {
    if m <= op * MAXOPBLOCKS then 0
    else if m >= (op + 1) * MAXOPBLOCKS then MAXOPBLOCKS
    else m - op * MAXOPBLOCKS
  }

  ghost predicate Filled(L: Layout, t: State, m: nat) {
    && t.phase == Running && !t.committing && t.outstanding == 3 && |t.disk| == L.blocks && t.held == multiset{}
    && t.changed == map[]
    && |t.lh| == m && (forall i :: 0 <= i < m ==> t.lh[i] == Fresh(L, i))
    && |t.cached| == m && (forall b :: b in t.cached ==> Fresh(L, 0) <= b < Fresh(L, m))
    && t.ops == [Op(true, Spent(0, m)), Op(true, Spent(1, m)), Op(true, Spent(2, m))]
  }

  /** Nothing logged, n operations begun. */
  predicate Idle(L: Layout, t: State, n: nat) {
    && t.phase == Running && !t.committing && t.outstanding == n && |t.disk| == L.blocks
    && t.held == multiset{} && t.changed == map[]
    && t.lh == [] && t.cached == map[] && t.ops == seq(n, _ => Op(true, 0))
  }

  lemma BeginIdle(L: Layout, t: State, n: nat)
    requires Idle(L, t, n) && n < 3
    ensures Enabled(L, t, Begin) && Idle(L, Do(L, t, Begin), n + 1)
  {
  }

  /** Boot: the header is read, nothing is installed, and the header is cleared and released. */
  lemma Booted(L: Layout, s: State) returns (t: State)
    requires Init(L, s)
    ensures Reachable(L, s, t) && Idle(L, t, 0)
  {
    ReachInit(L, s);
    ReachStep(L, s, s, Load(L.start));
    t := Do(L, s, Load(L.start));
    assert t == s.(cached := map[L.start := s.disk[L.start]], held := multiset{L.start});
    ReachStep(L, s, t, ReadHead);
    t := Do(L, t, ReadHead);
    assert t == s.(cached := map[L.start := s.disk[L.start]], held := multiset{L.start}, phase := Recovering(0));
    ReachStep(L, s, t, ClearHead);
    t := Do(L, t, ClearHead);
    BootEnds(L, s, t);
    ReachStep(L, s, t, Release(L.start));
    t := Do(L, t, Release(L.start));
    ReachStep(L, s, t, Evict(L.start));
    t := Do(L, t, Evict(L.start));
  }

  lemma BootEnds(L: Layout, s: State, t: State)
    requires Init(L, s)
    requires var a := s.(cached := map[L.start := s.disk[L.start]], held := multiset{L.start}, phase := Recovering(0));
             Enabled(L, a, ClearHead) && t == Do(L, a, ClearHead)
    ensures Enabled(L, t, Release(L.start))
    ensures var u := Do(L, t, Release(L.start)); Enabled(L, u, Evict(L.start)) && Idle(L, Do(L, u, Evict(L.start)), 0)
  {
    assert t.cached.Keys == {L.start};
    assert t.cached - {L.start} == map[];
    assert t.held - multiset{L.start} == multiset{};
  }

  /** The next block is loaded ... */
  ghost predicate Loaded(L: Layout, t: State, u: State, m: nat) {
    u == t.(cached := u.cached, held := multiset{Fresh(L, m)})
    && |u.cached| == m + 1 && Fresh(L, m) in u.cached
    && forall b :: b in u.cached ==> Fresh(L, 0) <= b < Fresh(L, m + 1)
  }

  lemma FillLoad(L: Layout, t: State, m: nat)
    requires Filled(L, t, m) && m < LOGSIZE && Fresh(L, LOGSIZE) <= L.blocks
    ensures Enabled(L, t, Load(Fresh(L, m))) && Loaded(L, t, Do(L, t, Load(Fresh(L, m))), m)
  {
    assert multiset{} + multiset{Fresh(L, m)} == multiset{Fresh(L, m)};
  }

  /** ... and logged by the operation whose turn it is, and released. */
  lemma FillLog(L: Layout, t: State, u: State, m: nat)
    requires Filled(L, t, m) && m < LOGSIZE && m + 1 < L.size && Fresh(L, LOGSIZE) <= L.blocks && Loaded(L, t, u, m)
    ensures Enabled(L, u, LogWrite(m / MAXOPBLOCKS, Fresh(L, m), u.cached[Fresh(L, m)]))
  {
  }

  lemma FillRelease(L: Layout, t: State, u: State, m: nat)
    requires Filled(L, t, m) && m < LOGSIZE && Loaded(L, t, u, m)
    ensures var v := DoLogWrite(u, m / MAXOPBLOCKS, Fresh(L, m), u.cached[Fresh(L, m)]);
            Enabled(L, v, Release(Fresh(L, m))) && Filled(L, v.(held := v.held - multiset{Fresh(L, m)}), m + 1)
  {
    var b := Fresh(L, m);
    assert multiset{b} - multiset{b} == multiset{};
    assert u.changed - {b} == u.changed;
    assert b !in u.lh;
    TurnSpends(m);
  }

  /** The operation whose turn it is has spent what the next block adds to. */
  lemma TurnSpends(m: nat)
    requires m < LOGSIZE
    ensures m / MAXOPBLOCKS < 3
    ensures forall o: nat :: Spent(o, m + 1) == Spent(o, m) + if o == m / MAXOPBLOCKS then 1 else 0
  {
  }

  /** Three operations that have begun and logged m distinct blocks between them. */
  lemma {:induction false} FillingReaches(L: Layout, s: State, m: nat) returns (t: State)
    requires Init(L, s) && Fresh(L, LOGSIZE) <= L.blocks && m <= LOGSIZE && m < L.size
    ensures Reachable(L, s, t) && Filled(L, t, m)
  {
    if m == 0 {
      t := Booted(L, s);
      for n := 0 to 3
        invariant Reachable(L, s, t) && Idle(L, t, n)
      {
        BeginIdle(L, t, n);
        ReachStep(L, s, t, Begin);
        t := Do(L, t, Begin);
      }
    } else {
      t := FillingReaches(L, s, m - 1);
      t := FillMore(L, s, t, m - 1);
    }
  }

  lemma FillMore(L: Layout, s: State, t: State, m: nat) returns (u: State)
    requires Reachable(L, s, t) && Filled(L, t, m) && m < LOGSIZE && m + 1 < L.size && Fresh(L, LOGSIZE) <= L.blocks
    ensures Reachable(L, s, u) && Filled(L, u, m + 1)
  {
    var b := Fresh(L, m);
    FillLoad(L, t, m);
    ReachStep(L, s, t, Load(b));
    u := Do(L, t, Load(b));
    FillLog(L, t, u, m);
    FillRelease(L, t, u, m);
    ReachStep(L, s, u, LogWrite(m / MAXOPBLOCKS, b, u.cached[b]));
    u := DoLogWrite(u, m / MAXOPBLOCKS, b, u.cached[b]);
    ReachStep(L, s, u, Release(b));
    u := Do(L, u, Release(b));
  }

  /** A reachable state in which an operation that has kept its promise, with a block left to
      spend, finds the log too small. */
  ghost predicate PromiseBroken(L: Layout, s: State, t: State, op: nat) {
    && Reachable(L, s, t)
    && Budgeted(t.ops) && op < |t.ops| && t.ops[op].live && t.ops[op].added < MAXOPBLOCKS
    && TooBig(L, t)
  }

  /** Exactly the logs of more than LOGSIZE blocks are large enough for what begin_op promises. */
  lemma LogLargeEnough(L: Layout, s: State)
    requires Init(L, s) && Fresh(L, LOGSIZE) <= L.blocks
    ensures L.size > LOGSIZE <==> forall t, op :: !PromiseBroken(L, s, t, op)
  {
    if L.size > LOGSIZE {
      forall t, op ensures !PromiseBroken(L, s, t, op) {
        if PromiseBroken(L, s, t, op) { RoomForEveryPromise(L, s, t, op); }
      }
    } else {
      var m := L.size - 1;
      var t := FillingReaches(L, s, m);
      assert PromiseBroken(L, s, t, m / MAXOPBLOCKS);
    }
  }

  // ----- When begin_op refuses -----

  /** The blocks that live operations have added: the test of begin_op counts them twice. */
  function AddedLive(ops: seq<Op>): nat {
    if ops == [] then 0
    else AddedLive(ops[..|ops| - 1]) + if ops[|ops| - 1].live then ops[|ops| - 1].added else 0
  }

  lemma {:induction false} UnusedIs(ops: seq<Op>)
    ensures Unused(ops) == Live(ops) * MAXOPBLOCKS - AddedLive(ops)
  {
    if ops != [] { UnusedIs(ops[..|ops| - 1]); }
  }

  /** Reserving for one more operation would promise more than LOGSIZE blocks. */
  ghost predicate WouldOverflow(t: State) {
    |t.lh| + Unused(t.ops) + MAXOPBLOCKS > LOGSIZE
  }

  /** Outside a commit, begin_op refuses whenever it must.  It refuses needlessly exactly if room is left
      for one more operation and the blocks that live operations have already added, counted again, would
      not fit; so a refusal while no live operation has added a block is always needed. */
  lemma RefusalNeededIff(L: Layout, s: State, t: State)
    requires Reachable(L, s, t) && t.phase == Running
    ensures WouldOverflow(t) ==> !MayBegin(t)
    ensures !MayBegin(t) && !WouldOverflow(t)
            <==> |t.lh| + Unused(t.ops) + MAXOPBLOCKS <= LOGSIZE
                 < |t.lh| + Unused(t.ops) + MAXOPBLOCKS + AddedLive(t.ops)
    ensures AddedLive(t.ops) == 0 ==> (!MayBegin(t) <==> WouldOverflow(t))
  {
    ReachableInv(L, s, t);
    UnusedIs(t.ops);
  }

  /** It does happen: two operations have added their ten blocks each, and a third is refused although
      ten blocks are free and nobody else may use them. */
  lemma NeedlessRefusal(L: Layout, s: State) returns (t: State)
    requires Init(L, s) && Fresh(L, LOGSIZE) <= L.blocks && L.size > 20
    ensures Reachable(L, s, t) && Budgeted(t.ops) && t.phase == Running && |t.lh| == 20 && t.outstanding == 2
    ensures !MayBegin(t) && !WouldOverflow(t)
  {
    t := FillingReaches(L, s, 20);
    ReachStep(L, s, t, End(2));
    t := Do(L, t, End(2));
    UnusedIs(t.ops);
    assert AddedLive([Op(true, 10), Op(true, 10), Op(false, 0)]) == 20 by {
      assert [Op(true, 10), Op(true, 10), Op(false, 0)][..2] == [Op(true, 10), Op(true, 10)];
      assert [Op(true, 10), Op(true, 10)][..1] == [Op(true, 10)];
    }
    assert t.ops == [Op(true, 10), Op(true, 10), Op(false, 0)];
    ReachableInv(L, s, t);
  }

  // ----- Absorption -----

  /** How many blocks a transaction can have. */
  function Capacity(L: Layout): int {
    if L.size - 1 < LOGSIZE then L.size - 1 else LOGSIZE
  }

  /** A live operation holds a block that is already logged, so that log_write has nothing to add. */
  ghost predicate WouldAbsorb(L: Layout, t: State, op: nat, b: nat) {
    op < |t.ops| && t.ops[op].live && b in t.lh && Has(t, b) && MayChange(t, op, b)
  }

  /** log_write panics on a block that it would only absorb if and only if the log is full: the size
      test comes before the search for the block. */
  lemma AbsorptionRefusedIff(L: Layout, s: State, t: State, op: nat, b: nat)
    requires Reachable(L, s, t) && WouldAbsorb(L, t, op, b)
    ensures !Enabled(L, t, LogWrite(op, b, t.cached[b])) <==> |t.lh| == Capacity(L)
  {
    ReachableInv(L, s, t);
    LiveWitnessed(t.ops, op);
  }

  /** On a log of more than LOGSIZE blocks that happens only when every live operation has spent its budget. */
  lemma RefusedOnlyWhenSpent(L: Layout, s: State, t: State, op: nat, b: nat, o: nat)
    requires Reachable(L, s, t) && WouldAbsorb(L, t, op, b) && Budgeted(t.ops) && L.size > LOGSIZE
    requires !Enabled(L, t, LogWrite(op, b, t.cached[b])) && o < |t.ops| && t.ops[o].live
    ensures t.ops[o].added == MAXOPBLOCKS
  {
    AbsorptionRefusedIff(L, s, t, op, b);
    ReachableInv(L, s, t);
    UnusedBounds(t.ops);
  }

  /** ... and it does happen, on every log with room for a block, with all operations within budget. */
  lemma FullLogRefusesAbsorption(L: Layout, s: State) returns (t: State)
    requires Init(L, s) && Fresh(L, LOGSIZE) <= L.blocks && L.size > 1
    ensures Reachable(L, s, t) && Budgeted(t.ops) && WouldAbsorb(L, t, 0, Fresh(L, 0))
    ensures !Enabled(L, t, LogWrite(0, Fresh(L, 0), t.cached[Fresh(L, 0)]))
  {
    t := FillingReaches(L, s, Capacity(L));
    assert t.lh[0] == Fresh(L, 0);
    LoggedIsCached(L, s, t, 0);
    ReachStep(L, s, t, Hold(Fresh(L, 0)));
    t := Do(L, t, Hold(Fresh(L, 0)));
    AbsorptionRefusedIff(L, s, t, 0, Fresh(L, 0));
  }

  lemma LoggedIsCached(L: Layout, s: State, t: State, i: nat)
    requires Reachable(L, s, t) && t.phase == Running && i < |t.lh|
    ensures t.lh[i] in t.cached
  {
    PinnedUntilInstalled(L, s, t, i);
  }

  // ----- Buffers -----

  lemma {:induction false} CacheFits(L: Layout, s: State, es: seq<Event>)
    requires Init(L, s) && IsRun(L, s, es)
    ensures |RunTo(L, s, es).cached| <= NBUF
    decreases |es|
  {
    if es != [] {
      var n := |es| - 1;
      CacheFits(L, s, es[..n]);
      CacheStep(L, RunTo(L, s, es[..n]), es[n]);
    }
  }

  lemma CacheStep(L: Layout, s: State, e: Event)
    requires |s.cached| <= NBUF && Enabled(L, s, e)
    ensures |Do(L, s, e).cached| <= NBUF
  {
    match e
    case Evict(b) => assert (s.cached - {b}).Keys == s.cached.Keys - {b};
    case Modify(op, b, data) => assert s.cached[b := data].Keys == s.cached.Keys;
    case WriteSlot => assert s.cached[L.Slot(s.phase.k) := s.cached[s.lh[s.phase.k]]].Keys == s.cached.Keys;
    case WriteCommit => assert Do(L, s, e).cached.Keys == s.cached.Keys;
    case InstallOne => assert Do(L, s, e).cached.Keys == s.cached.Keys;
    case ClearHead => assert Do(L, s, e).cached.Keys == s.cached.Keys;
    case _ =>
  }

  /** The blocks whose buffers cannot be recycled. */
  function Busy(t: State): set<nat> {
    set b | b in t.cached.Keys && (b in t.pins || b in t.held)
  }

  /** The blocks that some process holds and no log_write has pinned. */
  function HeldOnly(t: State): set<nat> {
    set b | b in t.cached.Keys && b in t.held && b !in t.pins
  }

  /** bread of block x finds neither the block nor a buffer that it may use, the panic of bget. */
  ghost predicate NoBuffer(L: Layout, t: State, x: nat) {
    x !in t.cached && !Enabled(L, t, Load(x)) && forall b :: !Enabled(L, t, Evict(b))
  }

  /** bget panics if and only if the block is not cached and the pinned and held blocks are NBUF. */
  lemma NoBufferIff(L: Layout, s: State, t: State, x: nat)
    requires Reachable(L, s, t) && x < |t.disk|
    ensures NoBuffer(L, t, x) <==> x !in t.cached && |Busy(t)| == NBUF
  {
    assert |t.cached| <= NBUF by { ReachableInv(L, s, t); }
    SubsetSize(Busy(t), t.cached.Keys);
    if Busy(t) == t.cached.Keys {
    } else {
      var b :| b in t.cached && b !in Busy(t);
      assert Enabled(L, t, Evict(b));
    }
  }

  function Elements(bs: seq<nat>): set<nat> {
    set b | b in bs
  }

  lemma {:induction false} DistinctCount(bs: seq<nat>)
    requires forall i, j :: 0 <= i < j < |bs| ==> bs[i] != bs[j]
    ensures |Elements(bs)| == |bs|
  {
    if bs != [] {
      var n := |bs| - 1;
      DistinctCount(bs[..n]);
      assert Elements(bs) == Elements(bs[..n]) + {bs[n]};
    }
  }

  /** write_log runs out of buffers for its next log block if and only if that block is not cached and
      the logged blocks together with the other blocks that processes hold are NBUF. */
  lemma CommitNeedsOneFreeBuffer(L: Layout, s: State, t: State)
    requires Reachable(L, s, t) && t.phase.Logging? && t.phase.k < |t.lh|
    ensures L.Slot(t.phase.k) < |t.disk|
    ensures NoBuffer(L, t, L.Slot(t.phase.k)) <==> L.Slot(t.phase.k) !in t.cached && |t.lh| + |HeldOnly(t)| == NBUF
  {
    ReachableInv(L, s, t);
    SlotBounds(L, t.lh, t.phase.k);
    NoBufferIff(L, s, t, L.Slot(t.phase.k));
    BusyWhileLogging(L, s, t);
  }

  lemma BusyWhileLogging(L: Layout, s: State, t: State)
    requires Reachable(L, s, t) && t.phase.Logging?
    ensures |Busy(t)| == |t.lh| + |HeldOnly(t)|
  {
    assert t.pins == multiset(t.lh) && Distinct(t.lh) && Coherent(t.disk, t.cached, t.pins, t.changed.Keys) by {
      ReachableInv(L, s, t);
    }
    BusySplits(t);
  }

  lemma BusySplits(t: State)
    requires t.pins == multiset(t.lh) && Distinct(t.lh) && Coherent(t.disk, t.cached, t.pins, t.changed.Keys)
    ensures |Busy(t)| == |t.lh| + |HeldOnly(t)|
  {
    assert Open(CACHE_COHERENT, 0) && Open(LOG_DISTINCT, 0);
    DistinctCount(t.lh);
    assert Busy(t) == Elements(t.lh) + HeldOnly(t);
  }

  lemma SubsetSize(a: set<nat>, b: set<nat>)
    requires a <= b
    ensures |a| <= |b| && (|a| == |b| <==> a == b)
  {
    assert |b - a| == |b| - |a|;
  }

  // ----- The shortage of buffers does happen -----

  /** The commit of m blocks has begun and r readers hold the next r blocks. */
  ghost predicate Crowded(L: Layout, t: State, m: nat, r: nat) {
    && t.phase == Logging(0) && |t.disk| == L.blocks
    && |t.lh| == m && (forall i :: 0 <= i < m ==> t.lh[i] == Fresh(L, i))
    && |t.cached| == m + r && (forall b :: b in t.cached ==> Fresh(L, 0) <= b < Fresh(L, m + r))
    && |HeldOnly(t)| == r
  }

  /** The three operations end, the last of them starting the commit. */
  lemma EndAll(L: Layout, s: State, t: State, m: nat) returns (u: State)
    requires Reachable(L, s, t) && Filled(L, t, m) && m > 0
    ensures Reachable(L, s, u) && Crowded(L, u, m, 0)
  {
    ReachStep(L, s, t, End(0));
    u := Do(L, t, End(0));
    ReachStep(L, s, u, End(1));
    u := Do(L, u, End(1));
    ReachStep(L, s, u, End(2));
    u := Do(L, u, End(2));
    assert HeldOnly(u) == {};
  }

  lemma MoreReaders(L: Layout, t: State, u: State, m: nat, r: nat)
    requires Crowded(L, t, m, r) && m + r < NBUF && Fresh(L, NBUF) <= L.blocks && t.pins == multiset(t.lh)
    requires var b := Fresh(L, m + r); u == t.(cached := t.cached[b := t.disk[b]], held := t.held + multiset{b})
    ensures Enabled(L, t, Load(Fresh(L, m + r))) && Crowded(L, u, m, r + 1)
  {
    var b := Fresh(L, m + r);
    assert b !in t.cached;
    NotLogged(L, t.lh, m, b);
    assert u.cached.Keys == t.cached.Keys + {b};
    OneMoreHeld(t, u, b);
  }

  lemma NotLogged(L: Layout, lh: seq<nat>, m: nat, b: nat)
    requires |lh| == m && b >= Fresh(L, m) && forall i :: 0 <= i < m ==> lh[i] == Fresh(L, i)
    ensures b !in multiset(lh)
  {
    assert forall i :: 0 <= i < m ==> lh[i] < b;
    assert b !in lh;
  }

  lemma OneMoreHeld(t: State, u: State, b: nat)
    requires b !in t.cached && b !in t.pins && u.pins == t.pins
    requires u.cached.Keys == t.cached.Keys + {b} && u.held == t.held + multiset{b}
    ensures |HeldOnly(u)| == |HeldOnly(t)| + 1
  {
    assert HeldOnly(u) == HeldOnly(t) + {b};
  }

  /** With m blocks logged and NBUF - m readers, each with one block, write_log has no buffer: at 29
      blocks one reader is enough, and at 30 none is needed. */
  lemma ReadersExhaustBuffers(L: Layout, s: State, m: nat) returns (t: State)
    requires Init(L, s) && Fresh(L, NBUF) <= L.blocks && 0 < m <= LOGSIZE && m < L.size
    ensures Reachable(L, s, t) && t.phase == Logging(0) && |t.lh| == m && |HeldOnly(t)| == NBUF - m
    ensures NoBuffer(L, t, L.Slot(0))
  {
    t := FillingReaches(L, s, m);
    t := EndAll(L, s, t, m);
    for r := 0 to NBUF - m
      invariant Reachable(L, s, t) && Crowded(L, t, m, r)
    {
      assert t.pins == multiset(t.lh) by { ReachableInv(L, s, t); }
      MoreReaders(L, t, Do(L, t, Load(Fresh(L, m + r))), m, r);
      ReachStep(L, s, t, Load(Fresh(L, m + r)));
      t := Do(L, t, Load(Fresh(L, m + r)));
    }
    CommitNeedsOneFreeBuffer(L, s, t);
    assert L.Slot(0) < Fresh(L, 0);
  }
}
