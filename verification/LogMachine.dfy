/**
 The redo log of kernel/log.c as a state machine over block writes.

 A state holds the disk, the buffer cache with its pins and the references that processes hold, the
 in-memory log header and the commit or recovery in progress.  An event is one step that other
 processors, or a power failure, can see: one block write, one call that holds log.lock, one call
 of the buffer cache, a change to a held buffer, or a crash.  Readers outside operations take part
 with Load, Hold and Release.  `done` and `pending` are the history of logged writes: those of
 committed transactions, and those of the transaction being gathered.
 */
module LogMachine {
  import opened Folding
  import opened Params
  import opened DiskBlocks

  datatype Layout = Layout(start: nat, size: nat, blocks: nat) {
    /** The log area lies inside the disk and has room for its header. */
    predicate Ok() {
      0 < size && start + size <= blocks
    }

    /** A block that may be logged: on the disk and outside the log area. */
    predicate Home(b: nat) {
      b < blocks && !(start <= b < start + size)
    }

    /** The log block that holds the copy of the i-th block of a transaction. */
    function Slot(i: nat): nat {
      start + i + 1
    }
  }

  datatype Op = Op(live: bool, added: nat)

  datatype Write = Write(op: nat, block: nat, data: Block)

  datatype Phase =
    | Running             // no commit in progress
    | Logging(k: nat)     // write_log has written k log blocks
    | Installing(k: nat)  // the header is on disk; k blocks are installed
    | Finishing           // the header is cleared; `committing` is still set
    | Down                // after a crash, before read_head
    | Recovering(k: nat)  // recovery has installed k blocks

  /** Each reference counts: pins from bpin, held from bget until brelse.  `changed` has the blocks
      that an operation has changed in the cache and not yet passed to log_write. */
  datatype State = State(
    disk: seq<Block>, cached: map<nat, Block>, pins: multiset<nat>, held: multiset<nat>, changed: map<nat, nat>,
    lh: seq<nat>, outstanding: nat, committing: bool, phase: Phase, asleep: nat,
    ops: seq<Op>, epoch: nat, issued: seq<Write>, done: seq<Write>, pending: seq<Write>)

  datatype Event =
    | Begin | Sleep | Wake
    | Modify(op: nat, block: nat, data: Block)
    | LogWrite(op: nat, block: nat, data: Block)
    | End(op: nat)
    | WriteSlot | WriteCommit | InstallOne | ClearHead | Finish
    | Crash | ReadHead
    | Load(block: nat) | Hold(block: nat) | Release(block: nat) | Evict(block: nat)

  // ----- The header block -----

  /** write_head changes word 0 and the first |lh| block numbers and nothing else. */
  function EncodeHead(h: Block, lh: seq<nat>): (r: Block)
    requires |lh| <= LOGSIZE
  {
    Block([|lh|] + lh + h.words[1 + |lh|..])
  }

  function HeadBlocks(h: Block): (r: seq<nat>)
  {
    if HeadFits(h) then h.words[1..1 + h.words[0]] else []
  }

  predicate HeadFits(h: Block) {
    h.words[0] <= LOGSIZE
  }

  lemma HeadRoundTrip(h: Block, lh: seq<nat>)
    requires |lh| <= LOGSIZE
    ensures HeadFits(EncodeHead(h, lh))
    ensures HeadBlocks(EncodeHead(h, lh)) == lh
    ensures forall i :: |lh| < i < WORDS ==> EncodeHead(h, lh).words[i] == h.words[i]
  {
    assert EncodeHead(h, lh).words[1..1 + |lh|] == lh;
  }

  // ----- Meaning of a history -----

  /** The disk after the given writes, in order. */
  function Playback(base: seq<Block>, ws: seq<Write>): (r: seq<Block>)
    ensures |r| == |base|
  {
    if ws == [] then base
    else
      var w := ws[|ws| - 1];
      var before := Playback(base, ws[..|ws| - 1]);
      if w.block < |base| then before[w.block := w.data] else before
  }

  function ByOp(ws: seq<Write>, op: nat): (r: seq<Write>)
  {
    if ws == [] then []
    else
      var w := ws[|ws| - 1];
      ByOp(ws[..|ws| - 1], op) + if w.op == op then [w] else []
  }

  /** What bread returns for block b. */
  function Logical(s: State, b: nat): (r: Block)
    requires b < |s.disk|
  {
    if b in s.cached then s.cached[b] else s.disk[b]
  }

  /** Blocks that begin_op reserved and the live operations have not used. */
  function Unused(ops: seq<Op>): int
  {
    if ops == [] then 0
    else
      var op := ops[|ops| - 1];
      Unused(ops[..|ops| - 1]) + if op.live then MAXOPBLOCKS - op.added else 0
  }

  function Live(ops: seq<Op>): nat
  {
    if ops == [] then 0
    else Live(ops[..|ops| - 1]) + if ops[|ops| - 1].live then 1 else 0
  }

  function AllDead(ops: seq<Op>): (r: seq<Op>)
  {
    seq(|ops|, i requires 0 <= i < |ops| => ops[i].(live := false))
  }

  // ----- Steps -----

  /** The two tests of log_write that end in panic("too big a transaction"). */
  predicate TooBig(L: Layout, s: State) {
    |s.lh| >= LOGSIZE || |s.lh| >= L.size - 1
  }

  /** begin_op goes to sleep in exactly the other states. */
  predicate MayBegin(s: State) {
    !s.committing && |s.lh| + (s.outstanding + 1) * MAXOPBLOCKS <= LOGSIZE
  }

  predicate Enabled(L: Layout, s: State, e: Event)
  {
    match e
    case Begin => MayBegin(s) && s.phase == Running
    case Sleep => !MayBegin(s) && !s.phase.Down? && !s.phase.Recovering?
    case Wake => s.asleep > 0
    case Modify(op, b, _) =>
      op < |s.ops| && s.ops[op].live && L.Home(b) && b in s.held && b in s.cached && MayChange(s, op, b)
    case LogWrite(op, b, data) =>
      && op < |s.ops| && s.ops[op].live
      && L.Home(b) && b in s.held && b in s.cached && s.cached[b] == data && MayChange(s, op, b)
      && s.outstanding >= 1 && !TooBig(L, s)
    case End(op) => op < |s.ops| && s.ops[op].live && s.outstanding >= 1 && op !in s.changed.Values
    case WriteSlot =>
      && s.phase.Logging? && s.phase.k < |s.lh| && L.Slot(s.phase.k) < |s.disk|
      && Has(s, L.Slot(s.phase.k)) && Has(s, s.lh[s.phase.k])
    case WriteCommit =>
      s.phase.Logging? && s.phase.k == |s.lh| <= LOGSIZE && Has(s, L.start) && L.start < |s.disk|
    case InstallOne =>
      && (s.phase.Installing? || s.phase.Recovering?) && s.phase.k < |s.lh| && s.lh[s.phase.k] < |s.disk|
      && Has(s, s.lh[s.phase.k]) && Has(s, L.Slot(s.phase.k))
    case ClearHead =>
      && (s.phase.Installing? || s.phase.Recovering?) && s.phase.k == |s.lh|
      && Has(s, L.start) && L.start < |s.disk|
    case Finish => s.phase == Finishing
    case Crash => true
    case ReadHead => s.phase == Down && Has(s, L.start)
    case Load(b) => b < |s.disk| && b !in s.cached && |s.cached| < NBUF
    case Hold(b) => b in s.cached
    case Release(b) => b in s.held && b !in s.changed
    case Evict(b) => b in s.cached && b !in s.pins && b !in s.held
  }

  /** The block is cached and somebody holds its buffer. */
  predicate Has(s: State, b: nat) {
    b in s.cached && b in s.held
  }

  /** No other operation has a change under way: the buffer's sleep lock sees to it. */
  predicate MayChange(s: State, op: nat, b: nat) {
    b in s.changed ==> s.changed[b] == op
  }

  function Do(L: Layout, s: State, e: Event): (t: State)
    requires Enabled(L, s, e)
  {
    match e
    case Begin => s.(outstanding := s.outstanding + 1, ops := s.ops + [Op(true, 0)])
    case Sleep => s.(asleep := s.asleep + 1)
    case Wake => s.(asleep := s.asleep - 1)
    case Modify(op, b, data) => s.(cached := s.cached[b := data], changed := s.changed[b := op])
    case LogWrite(op, b, data) => DoLogWrite(s, op, b, data)
    case End(op) => DoEnd(s, op)
    case WriteSlot => DoWriteSlot(L, s)
    case WriteCommit => DoWriteCommit(L, s)
    case InstallOne => DoInstallOne(L, s)
    case ClearHead => DoClearHead(L, s)
    case Finish => s.(phase := Running, committing := false, asleep := 0)
    case Crash => DoCrash(s)
    case ReadHead => s.(lh := HeadBlocks(s.cached[L.start]), phase := Recovering(0))
    case Load(b) => s.(cached := s.cached[b := s.disk[b]], held := s.held + multiset{b})
    case Hold(b) => s.(held := s.held + multiset{b})
    case Release(b) => s.(held := s.held - multiset{b})
    case Evict(b) => s.(cached := s.cached - {b})
  }

  /** Memory is gone; the disk and the history of what was durable stay. */
  function DoCrash(s: State): State {
    State(s.disk, map[], multiset{}, multiset{}, map[], [], 0, false, Down, 0,
          AllDead(s.ops), |s.ops|, s.issued, s.done, [])
  }

  /** memmove into a held buffer followed by bwrite. */
  function PutBlock(s: State, b: nat, data: Block): State
    requires b < |s.disk|
  {
    s.(disk := s.disk[b := data], cached := s.cached[b := data])
  }

  /** One turn of write_log: a cached block goes to its log block. */
  function DoWriteSlot(L: Layout, s: State): State
    requires Enabled(L, s, WriteSlot)
  {
    PutBlock(s, L.Slot(s.phase.k), s.cached[s.lh[s.phase.k]]).(phase := Logging(s.phase.k + 1))
  }

  /** write_head of a commit: the gathered transaction becomes durable. */
  function DoWriteCommit(L: Layout, s: State): State
    requires Enabled(L, s, WriteCommit)
  {
    PutBlock(s, L.start, EncodeHead(s.cached[L.start], s.lh))
      .(phase := Installing(0), done := s.done + s.pending, pending := [], epoch := |s.ops|)
  }

  /** One turn of install_trans: a log block goes home, and is unpinned unless recovering. */
  function DoInstallOne(L: Layout, s: State): State
    requires Enabled(L, s, InstallOne)
  {
    var b := s.lh[s.phase.k];
    var t := PutBlock(s, b, s.cached[L.Slot(s.phase.k)]);
    if s.phase.Installing? then t.(phase := Installing(s.phase.k + 1), pins := s.pins - multiset{b})
    else t.(phase := Recovering(s.phase.k + 1))
  }

  /** log.lh.n = 0 and write_head. */
  function DoClearHead(L: Layout, s: State): State
    requires Enabled(L, s, ClearHead)
  {
    PutBlock(s, L.start, EncodeHead(s.cached[L.start], []))
      .(lh := [], phase := if s.phase.Installing? then Finishing else Running)
  }

  /** log_write of a held buffer: absorb, or pin and append. */
  function DoLogWrite(s: State, op: nat, b: nat, data: Block): State
    requires op < |s.ops|
  {
    var w := Write(op, b, data);
    var t := s.(changed := s.changed - {b}, issued := s.issued + [w], pending := s.pending + [w]);
    if b in s.lh then t
    else t.(lh := s.lh + [b], pins := s.pins + multiset{b},
            ops := s.ops[op := Op(s.ops[op].live, s.ops[op].added + 1)])
  }

  /** end_op up to its first release: the last operation starts a commit, any other wakes the sleepers. */
  function DoEnd(s: State, op: nat): State
    requires op < |s.ops| && s.outstanding >= 1
  {
    var t := s.(outstanding := s.outstanding - 1, ops := s.ops[op := s.ops[op].(live := false)]);
    if t.outstanding > 0 then t.(asleep := 0)
    else t.(committing := true, phase := if |s.lh| > 0 then Logging(0) else Finishing)
  }

  // ----- Runs -----

  function Boot(disk: seq<Block>): State {
    State(disk, map[], multiset{}, multiset{}, map[], [], 0, false, Down, 0, [], 0, [], [], [])
  }

  /** mkfs leaves an empty log; the machine starts with nothing cached. */
  predicate Init(L: Layout, s: State)
  {
    && L.Ok() && |s.disk| == L.blocks && s.disk[L.start].words[0] == 0
    && s == Boot(s.disk)
  }

  predicate IsRun(L: Layout, s: State, es: seq<Event>)
    decreases |es|, 0
  {
    es == [] || (IsRun(L, s, es[..|es| - 1]) && Enabled(L, RunTo(L, s, es[..|es| - 1]), es[|es| - 1]))
  }

  function RunTo(L: Layout, s: State, es: seq<Event>): (t: State)
    requires IsRun(L, s, es)
    decreases |es|, 1
  {
    if es == [] then s else Do(L, RunTo(L, s, es[..|es| - 1]), es[|es| - 1])
  }

  /** t is the state at the end of some run from the initial state s. */
  ghost predicate Reachable(L: Layout, s: State, t: State) {
    forall k: nat :: Open(REACHABLE, k) ==> Init(L, s) && exists es :: IsRun(L, s, es) && t == RunTo(L, s, es)
  }
}
