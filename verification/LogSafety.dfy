/**
 Crash safety of the redo log: an invariant that every step keeps, and what it means for
 every run with any number of crashes.
 */
module LogSafety {
  import opened Folding
  import opened Params
  import opened DiskBlocks
  import opened LogMachine

  /** Blocks as the committed transactions left them. */
  function Durable(base: seq<Block>, s: State): (r: seq<Block>)
    ensures |r| == |base|
  {
    Playback(base, s.done)
  }

  /** Blocks as the file system sees them: the gathered transaction included. */
  function Current(base: seq<Block>, s: State): (r: seq<Block>)
    ensures |r| == |base|
  {
    Playback(base, s.done + s.pending)
  }

  ghost predicate Distinct(bs: seq<nat>) {
    forall k: nat :: Open(LOG_DISTINCT, k) ==> forall i, j :: 0 <= i < j < |bs| ==> bs[i] != bs[j]
  }

  ghost predicate GoodBlocks(L: Layout, bs: seq<nat>) {
    |bs| <= LOGSIZE && |bs| < L.size && (forall i :: 0 <= i < |bs| ==> L.Home(bs[i])) && Distinct(bs)
  }

  ghost predicate ReplaysParts(L: Layout, disk: seq<Block>, d: seq<Block>)
    requires L.Ok() && |disk| == |d| == L.blocks
  {
    var bs := HeadBlocks(disk[L.start]);
    && HeadFits(disk[L.start]) && GoodBlocks(L, bs)
    && (forall i :: 0 <= i < |bs| ==> disk[L.Slot(i)] == d[bs[i]])
    && (forall b: nat :: L.Home(b) && b !in bs ==> disk[b] == d[b])
  }

  /** Replaying the on-disk transaction over the home blocks gives exactly `d`. */
  ghost predicate Replays(L: Layout, disk: seq<Block>, d: seq<Block>)
    requires L.Ok() && |disk| == |d| == L.blocks
  {
    forall k: nat :: Open(LOG_REPLAYS, k) ==> ReplaysParts(L, disk, d)
  }

  /** Cached copies differ from the disk only while pinned or being changed, and pinned blocks are cached. */
  ghost predicate Coherent(disk: seq<Block>, cached: map<nat, Block>, pins: multiset<nat>, dirty: set<nat>) {
    forall k: nat :: Open(CACHE_COHERENT, k) ==>
      && (forall b :: b in cached ==> b < |disk| && (b in pins || b in dirty || cached[b] == disk[b]))
      && (forall b :: b in pins ==> b in cached)
  }

  /** Held buffers are cached, and only home blocks that somebody holds are being changed. */
  ghost predicate Holding(L: Layout, cached: map<nat, Block>, held: multiset<nat>, dirty: set<nat>) {
    forall k: nat :: Open(CACHE_HELD, k) ==>
      && (forall b :: b in held ==> b in cached)
      && (forall b :: b in dirty ==> b in held && L.Home(b))
  }

  /** bread returns the content `c` of every home block that nobody is changing. */
  ghost predicate Shows(L: Layout, disk: seq<Block>, cached: map<nat, Block>, dirty: set<nat>, c: seq<Block>)
    requires |disk| == |c| == L.blocks
  {
    forall k: nat :: Open(CACHE_SHOWS, k) ==>
      forall b: nat :: L.Home(b) && b !in dirty ==> c[b] == if b in cached then cached[b] else disk[b]
  }

  /** The first k log blocks hold the content `c` of the first k blocks of the transaction. */
  ghost predicate SlotsHold(L: Layout, disk: seq<Block>, lh: seq<nat>, k: nat, c: seq<Block>)
    requires L.Ok() && |disk| == |c| == L.blocks && k <= |lh| && GoodBlocks(L, lh)
  {
    forall i :: 0 <= i < k ==> disk[L.Slot(i)] == c[lh[i]]
  }

  /** The first k blocks of the transaction are home with content `d`. */
  ghost predicate Installed(L: Layout, disk: seq<Block>, lh: seq<nat>, k: nat, d: seq<Block>)
    requires |disk| == |d| == L.blocks && k <= |lh| && GoodBlocks(L, lh)
  {
    forall i :: 0 <= i < k ==> disk[lh[i]] == d[lh[i]]
  }

  ghost predicate PhaseInv(L: Layout, d: seq<Block>, c: seq<Block>, disk: seq<Block>, lh: seq<nat>,
                           pins: multiset<nat>, pending: seq<Write>, phase: Phase)
    requires L.Ok() && |disk| == |d| == |c| == L.blocks && GoodBlocks(L, lh)
  {
    var head := HeadBlocks(disk[L.start]);
    match phase
    case Running => head == [] && pins == multiset(lh) && (lh == [] ==> pending == [])
    case Logging(k) => head == [] && pins == multiset(lh) && k <= |lh| && SlotsHold(L, disk, lh, k, c)
    case Installing(k) =>
      head == lh && pending == [] && k <= |lh| && pins == multiset(lh[k..]) && Installed(L, disk, lh, k, d)
    case Finishing => head == [] && lh == [] && pins == multiset{} && pending == []
    case Down => lh == [] && pins == multiset{} && pending == []
    case Recovering(k) =>
      head == lh && pins == multiset{} && pending == [] && k <= |lh| && Installed(L, disk, lh, k, d)
  }

  ghost predicate DataCols(L: Layout, d: seq<Block>, c: seq<Block>, disk: seq<Block>, cached: map<nat, Block>,
                           pins: multiset<nat>,
                           held: multiset<nat>, dirty: set<nat>, lh: seq<nat>, pending: seq<Write>, phase: Phase)
  {
    && L.Ok() && |disk| == |d| == |c| == L.blocks
    && GoodBlocks(L, lh)
    && Coherent(disk, cached, pins, dirty)
    && Holding(L, cached, held, dirty)
    && Replays(L, disk, d)
    && PhaseInv(L, d, c, disk, lh, pins, pending, phase)
    && (pending == [] ==> d == c)
    && (!phase.Down? && !phase.Recovering? ==> Shows(L, disk, cached, dirty, c))
  }

  /** Disk, cache, pins and header fit the durable content `d` and the current content `c`. */
  ghost predicate DataInv(L: Layout, d: seq<Block>, c: seq<Block>, s: State)
  {
    DataCols(L, d, c, s.disk, s.cached, s.pins, s.held, s.changed.Keys, s.lh, s.pending, s.phase)
  }

  /** Bookkeeping of operations: counts, and which transaction an operation belongs to. */
  ghost predicate OpInv(s: State) {
    && s.outstanding == Live(s.ops)
    && (s.committing <==> s.phase.Logging? || s.phase.Installing? || s.phase.Finishing?)
    && (!s.phase.Running? ==> s.outstanding == 0)
    && s.epoch <= |s.ops|
    && (forall i :: 0 <= i < |s.ops| && s.ops[i].live ==> s.epoch <= i)
    && (forall b :: b in s.changed ==> s.changed[b] < |s.ops| && s.ops[s.changed[b]].live)
  }

  ghost predicate Inv(L: Layout, base: seq<Block>, s: State) {
    DataInv(L, Durable(base, s), Current(base, s), s) && OpInv(s)
  }

  // ----- Lemmas about histories and sums -----

  lemma PlaybackSnoc(base: seq<Block>, ws: seq<Write>, w: Write)
    requires w.block < |base|
    ensures Playback(base, ws + [w]) == Playback(base, ws)[w.block := w.data]
  {
    assert (ws + [w])[..|ws|] == ws;
  }

  lemma {:induction false} LiveUpdate(ops: seq<Op>, i: nat, op: Op)
    requires i < |ops|
    ensures Live(ops[i := op]) == Live(ops) - (if ops[i].live then 1 else 0) + (if op.live then 1 else 0)
    ensures Unused(ops[i := op]) == Unused(ops) - (if ops[i].live then MAXOPBLOCKS - ops[i].added else 0)
                                    + (if op.live then MAXOPBLOCKS - op.added else 0)
  {
    var n := |ops| - 1;
    if i == n {
      assert ops[i := op][..n] == ops[..n];
    } else {
      assert ops[i := op][..n] == ops[..n][i := op];
      LiveUpdate(ops[..n], i, op);
    }
  }

  lemma LiveSnoc(ops: seq<Op>, op: Op)
    ensures Live(ops + [op]) == Live(ops) + (if op.live then 1 else 0)
    ensures Unused(ops + [op]) == Unused(ops) + (if op.live then MAXOPBLOCKS - op.added else 0)
  {
    assert (ops + [op])[..|ops|] == ops;
  }

  lemma {:induction false} LiveDead(ops: seq<Op>)
    requires forall i :: 0 <= i < |ops| ==> !ops[i].live
    ensures Live(ops) == 0 && Unused(ops) == 0
  {
    if ops != [] { LiveDead(ops[..|ops| - 1]); }
  }

  lemma {:induction false} LiveWitness(ops: seq<Op>)
    requires Live(ops) == 0
    ensures forall i :: 0 <= i < |ops| ==> !ops[i].live
  {
    if ops != [] { LiveWitness(ops[..|ops| - 1]); }
  }

  // ----- Every step keeps the operation bookkeeping -----

  lemma OpStep(L: Layout, s: State, e: Event)
    requires OpInv(s) && Enabled(L, s, e)
    ensures OpInv(Do(L, s, e))
  {
    match e
    case Begin => LiveSnoc(s.ops, Op(true, 0));
    case LogWrite(op, b, data) => OpLogWrite(L, s, op, b, data);
    case End(op) => OpEnd(L, s, op);
    case Crash => LiveDead(AllDead(s.ops));
    case WriteCommit => LiveWitness(s.ops);
    case _ =>
  }

  lemma OpLogWrite(L: Layout, s: State, op: nat, b: nat, data: Block)
    requires OpInv(s) && Enabled(L, s, LogWrite(op, b, data))
    ensures OpInv(DoLogWrite(s, op, b, data))
  {
    LiveWitnessed(s.ops, op);
    LiveUpdate(s.ops, op, Op(s.ops[op].live, s.ops[op].added + 1));
  }

  lemma OpEnd(L: Layout, s: State, op: nat)
    requires OpInv(s) && Enabled(L, s, End(op))
    ensures OpInv(DoEnd(s, op))
  {
    LiveWitnessed(s.ops, op);
    LiveUpdate(s.ops, op, s.ops[op].(live := false));
    forall b | b in s.changed ensures s.changed[b] != op { assert s.changed[b] in s.changed.Values; }
  }

  lemma LiveWitnessed(ops: seq<Op>, i: nat)
    requires i < |ops| && ops[i].live
    ensures Live(ops) > 0
  {
    if Live(ops) == 0 { LiveWitness(ops); }
  }

  // ----- Every step keeps the data invariant -----

  lemma DataLogWrite(L: Layout, d: seq<Block>, c: seq<Block>, s: State, op: nat, b: nat, data: Block)
    requires DataInv(L, d, c, s) && s.phase == Running && Enabled(L, s, LogWrite(op, b, data))
    ensures DataInv(L, d, c[b := data], DoLogWrite(s, op, b, data))
  {
    LoggedBlocks(L, s.lh, b);
    var t := DoLogWrite(s, op, b, data);
    assert t.pins == multiset(t.lh);
    CacheLogged(L, s.disk, s.cached, s.pins, t.pins, s.changed.Keys, c, b, data);
    assert t.changed.Keys == s.changed.Keys - {b};
  }

  lemma LoggedBlocks(L: Layout, bs: seq<nat>, b: nat)
    requires GoodBlocks(L, bs) && L.Home(b) && |bs| < LOGSIZE && |bs| < L.size - 1
    ensures b !in bs ==> GoodBlocks(L, bs + [b])
  {
  }

  /** A logged block is pinned, and what its buffer holds is its content from now on. */
  lemma CacheLogged(L: Layout, disk: seq<Block>, cached: map<nat, Block>, pins: multiset<nat>,
                    pins': multiset<nat>, dirty: set<nat>, c: seq<Block>, b: nat, data: Block)
    requires |disk| == |c| == L.blocks && b in cached && cached[b] == data && b < |c|
    requires Coherent(disk, cached, pins, dirty) && Shows(L, disk, cached, dirty, c)
    requires b in pins' && forall x :: x != b ==> pins'[x] == pins[x]
    ensures Coherent(disk, cached, pins', dirty - {b}) && Shows(L, disk, cached, dirty - {b}, c[b := data])
  {
  }

  /** Changing a held buffer touches no block but its own, and that one only until it is logged. */
  lemma DataModify(L: Layout, d: seq<Block>, c: seq<Block>, s: State, op: nat, b: nat, data: Block)
    requires DataInv(L, d, c, s) && s.phase == Running && Enabled(L, s, Modify(op, b, data))
    ensures DataInv(L, d, c, Do(L, s, Modify(op, b, data)))
  {
    var t := Do(L, s, Modify(op, b, data));
    assert t.changed.Keys == s.changed.Keys + {b};
    CacheModified(L, s.disk, s.cached, s.pins, s.changed.Keys, c, b, data);
  }

  lemma CacheModified(L: Layout, disk: seq<Block>, cached: map<nat, Block>, pins: multiset<nat>, dirty: set<nat>,
                      c: seq<Block>, b: nat, data: Block)
    requires |disk| == |c| == L.blocks && b in cached && Coherent(disk, cached, pins, dirty)
    ensures Coherent(disk, cached[b := data], pins, dirty + {b})
    ensures Shows(L, disk, cached, dirty, c) ==> Shows(L, disk, cached[b := data], dirty + {b}, c)
  {
  }

  lemma DataEnd(L: Layout, d: seq<Block>, c: seq<Block>, s: State, op: nat)
    requires DataInv(L, d, c, s) && s.phase == Running && Enabled(L, s, End(op))
    ensures DataInv(L, d, c, Do(L, s, End(op)))
  {
  }

  /** A write inside the log area, of a held and unpinned buffer. */
  lemma LogAreaWrite(L: Layout, s: State, c: seq<Block>, b: nat, data: Block)
    requires |s.disk| == |c| == L.blocks && Coherent(s.disk, s.cached, s.pins, {})
    requires b < |s.disk| && !L.Home(b)
    ensures var t := PutBlock(s, b, data);
            && Coherent(t.disk, t.cached, t.pins, {})
            && (Shows(L, s.disk, s.cached, {}, c) ==> Shows(L, t.disk, t.cached, {}, c))
  {
  }

  lemma SlotBounds(L: Layout, lh: seq<nat>, k: nat)
    requires L.Ok() && GoodBlocks(L, lh) && k < |lh|
    ensures L.start < L.Slot(k) < L.start + L.size <= L.blocks && !L.Home(L.Slot(k))
  {
  }

  lemma DataWriteSlot(L: Layout, d: seq<Block>, c: seq<Block>, s: State)
    requires DataInv(L, d, c, s) && s.changed == map[] && Enabled(L, s, WriteSlot)
    ensures DataInv(L, d, c, Do(L, s, WriteSlot))
  {
    var k := s.phase.k;
    SlotBounds(L, s.lh, k);
    var data := s.cached[s.lh[k]];
    LogAreaWrite(L, s, c, L.Slot(k), data);
    assert data == c[s.lh[k]] by { assert Open(CACHE_SHOWS, 0); }
    SlotsGrow(L, s.disk, s.lh, k, c);
    SlotWriteKeepsReplay(L, d, s.disk, L.Slot(k), data);
  }

  lemma SlotsGrow(L: Layout, disk: seq<Block>, lh: seq<nat>, k: nat, c: seq<Block>)
    requires L.Ok() && |disk| == |c| == L.blocks && k < |lh| && GoodBlocks(L, lh)
    requires SlotsHold(L, disk, lh, k, c)
    ensures SlotsHold(L, disk[L.Slot(k) := c[lh[k]]], lh, k + 1, c)
  {
  }

  lemma SlotWriteKeepsReplay(L: Layout, d: seq<Block>, disk: seq<Block>, b: nat, data: Block)
    requires L.Ok() && |disk| == |d| == L.blocks && Replays(L, disk, d)
    requires HeadBlocks(disk[L.start]) == [] && L.start < b < L.start + L.size
    ensures Replays(L, disk[b := data], d)
  {
  }

  lemma DataWriteCommit(L: Layout, d: seq<Block>, c: seq<Block>, s: State)
    requires DataInv(L, d, c, s) && s.changed == map[] && Enabled(L, s, WriteCommit)
    ensures DataInv(L, c, c, Do(L, s, WriteCommit))
  {
    var head := EncodeHead(s.cached[L.start], s.lh);
    HeadRoundTrip(s.cached[L.start], s.lh);
    LogAreaWrite(L, s, c, L.start, head);
    assert s.lh[0..] == s.lh;
    CommitReplays(L, s, c, head);
  }

  lemma CommitReplays(L: Layout, s: State, c: seq<Block>, head: Block)
    requires L.Ok() && |s.disk| == |c| == L.blocks && GoodBlocks(L, s.lh)
    requires SlotsHold(L, s.disk, s.lh, |s.lh|, c) && Shows(L, s.disk, s.cached, {}, c)
    requires Coherent(s.disk, s.cached, s.pins, {}) && s.pins == multiset(s.lh)
    requires HeadFits(head) && HeadBlocks(head) == s.lh
    ensures Replays(L, s.disk[L.start := head], c)
  {
    var disk' := s.disk[L.start := head];
    forall i | 0 <= i < |s.lh| ensures disk'[L.Slot(i)] == c[s.lh[i]] {
      assert disk'[L.Slot(i)] == s.disk[L.Slot(i)];
    }
    forall b: nat | L.Home(b) && b !in s.lh ensures disk'[b] == c[b] {
      UnpinnedShown(L, s.disk, s.cached, s.pins, c, b);
    }
  }

  lemma UnpinnedShown(L: Layout, disk: seq<Block>, cached: map<nat, Block>, pins: multiset<nat>, c: seq<Block>, b: nat)
    requires |disk| == |c| == L.blocks && Coherent(disk, cached, pins, {}) && Shows(L, disk, cached, {}, c)
    requires L.Home(b) && b !in pins
    ensures disk[b] == c[b]
  {
    assert Open(CACHE_COHERENT, 0) && Open(CACHE_SHOWS, 0);
  }

  lemma DataInstallOne(L: Layout, d: seq<Block>, s: State)
    requires DataInv(L, d, d, s) && s.changed == map[] && Enabled(L, s, InstallOne)
    ensures DataInv(L, d, d, Do(L, s, InstallOne))
  {
    InstalledData(L, d, s);
    if s.phase.Installing? { DataInstallPinned(L, d, s); } else { DataInstallRecovered(L, d, s); }
  }

  lemma DataInstallPinned(L: Layout, d: seq<Block>, s: State)
    requires DataInv(L, d, d, s) && s.changed == map[] && s.phase.Installing? && s.phase.k < |s.lh|
    ensures var b := s.lh[s.phase.k];
            DataInv(L, d, d, PutBlock(s, b, d[b]).(phase := Installing(s.phase.k + 1), pins := s.pins - multiset{b}))
  {
    var b := s.lh[s.phase.k];
    var t := PutBlock(s, b, d[b]).(phase := Installing(s.phase.k + 1), pins := s.pins - multiset{b});
    assert s.changed.Keys == {} && s.pending == [] && s.phase == Installing(s.phase.k);
    InstallColumns(L, d, s.disk, s.cached, s.pins, s.held, s.lh, s.phase.k);
    assert DataCols(L, d, d, t.disk, t.cached, t.pins, t.held, {}, t.lh, [], t.phase);
  }

  lemma InstallColumns(L: Layout, d: seq<Block>, disk: seq<Block>, cached: map<nat, Block>, pins: multiset<nat>,
                       held: multiset<nat>, lh: seq<nat>, k: nat)
    requires DataCols(L, d, d, disk, cached, pins, held, {}, lh, [], Installing(k)) && k < |lh|
    ensures DataCols(L, d, d, disk[lh[k] := d[lh[k]]], cached[lh[k] := d[lh[k]]], pins - multiset{lh[k]}, held, {}, lh,
            [], Installing(k + 1))
  {
    InstallKeepsReplay(L, d, disk, lh, k);
    InstallKeepsCache(L, d, disk, cached, pins, lh[k]);
    HoldingPut(L, cached, held, lh[k], d[lh[k]]);
    InstalledPhase(L, d, disk, lh, pins, k);
  }

  lemma InstalledPhase(L: Layout, d: seq<Block>, disk: seq<Block>, lh: seq<nat>, pins: multiset<nat>, k: nat)
    requires L.Ok() && |disk| == |d| == L.blocks && GoodBlocks(L, lh) && k < |lh| && Replays(L, disk, d)
    requires PhaseInv(L, d, d, disk, lh, pins, [], Installing(k))
    ensures PhaseInv(L, d, d, disk[lh[k] := d[lh[k]]], lh, pins - multiset{lh[k]}, [], Installing(k + 1))
  {
    InstallKeepsReplay(L, d, disk, lh, k);
    UnpinOne(lh, k);
  }

  lemma HoldingPut(L: Layout, cached: map<nat, Block>, held: multiset<nat>, b: nat, data: Block)
    requires Holding(L, cached, held, {})
    ensures Holding(L, cached[b := data], held, {})
  {
  }

  lemma DataInstallRecovered(L: Layout, d: seq<Block>, s: State)
    requires DataInv(L, d, d, s) && s.changed == map[] && s.phase.Recovering? && s.phase.k < |s.lh|
    ensures var b := s.lh[s.phase.k];
            DataInv(L, d, d, PutBlock(s, b, d[b]).(phase := Recovering(s.phase.k + 1)))
  {
    InstallKeepsReplay(L, d, s.disk, s.lh, s.phase.k);
    InstallKeepsCache(L, d, s.disk, s.cached, s.pins, s.lh[s.phase.k]);
    HoldingPut(L, s.cached, s.held, s.lh[s.phase.k], d[s.lh[s.phase.k]]);
  }

  lemma UnpinOne(lh: seq<nat>, k: nat)
    requires k < |lh|
    ensures multiset(lh[k..]) - multiset{lh[k]} == multiset(lh[k + 1..])
  {
    assert lh[k..] == [lh[k]] + lh[k + 1..];
  }

  lemma InstalledData(L: Layout, d: seq<Block>, s: State)
    requires DataInv(L, d, d, s) && s.changed == map[] && Enabled(L, s, InstallOne)
    ensures s.cached[L.Slot(s.phase.k)] == d[s.lh[s.phase.k]]
  {
    assert Open(CACHE_COHERENT, 0) && Open(LOG_REPLAYS, 0);
    SlotBounds(L, s.lh, s.phase.k);
    PinsAreHome(L, d, d, s);
  }

  lemma InstallKeepsReplay(L: Layout, d: seq<Block>, disk: seq<Block>, lh: seq<nat>, k: nat)
    requires L.Ok() && |disk| == |d| == L.blocks && GoodBlocks(L, lh) && k < |lh|
    requires Replays(L, disk, d) && Installed(L, disk, lh, k, d)
    ensures Replays(L, disk[lh[k] := d[lh[k]]], d)
    ensures disk[lh[k] := d[lh[k]]][L.start] == disk[L.start]
    ensures Installed(L, disk[lh[k] := d[lh[k]]], lh, k + 1, d)
  {
  }

  lemma InstallKeepsCache(L: Layout, d: seq<Block>, disk: seq<Block>, cached: map<nat, Block>, pins: multiset<nat>,
                          b: nat)
    requires |disk| == |d| == L.blocks && b < |disk| && Coherent(disk, cached, pins, {})
    ensures Coherent(disk[b := d[b]], cached[b := d[b]], pins, {})
    ensures Coherent(disk[b := d[b]], cached[b := d[b]], pins - multiset{b}, {})
    ensures Shows(L, disk, cached, {}, d) ==> Shows(L, disk[b := d[b]], cached[b := d[b]], {}, d)
  {
  }

  lemma PinsAreHome(L: Layout, d: seq<Block>, c: seq<Block>, s: State)
    requires DataInv(L, d, c, s)
    ensures forall b :: b in s.pins ==> b in s.lh && L.Home(b)
  {
    if s.phase.Installing? {
      forall b | b in s.pins ensures b in s.lh { assert b in s.lh[s.phase.k..]; }
    }
  }

  lemma DataClearHead(L: Layout, d: seq<Block>, s: State)
    requires DataInv(L, d, d, s) && s.changed == map[] && Enabled(L, s, ClearHead)
    ensures DataInv(L, d, d, Do(L, s, ClearHead))
  {
    var head := EncodeHead(s.cached[L.start], []);
    HeadRoundTrip(s.cached[L.start], []);
    ClearedData(L, d, s, head, if s.phase.Installing? then Finishing else Running);
  }

  lemma ClearedData(L: Layout, d: seq<Block>, s: State, head: Block, phase: Phase)
    requires DataInv(L, d, d, s) && s.changed == map[] && (s.phase.Installing? || s.phase.Recovering?)
    requires s.phase.k == |s.lh|
    requires HeadFits(head) && HeadBlocks(head) == [] && phase == if s.phase.Installing? then Finishing else Running
    ensures DataInv(L, d, d, PutBlock(s, L.start, head).(lh := [], phase := phase))
  {
    LogAreaWrite(L, s, d, L.start, head);
    HoldingPut(L, s.cached, s.held, L.start, head);
    ClearedReplays(L, d, s.disk, s.lh, head);
    ClearedPhase(L, d, s.disk, s.lh, s.pins, s.phase, head);
    SettledShows(L, s.disk[L.start := head], s.cached[L.start := head], d);
  }

  /** With no transaction in the log and nothing pinned or changed, bread returns what is durable. */
  lemma SettledShows(L: Layout, disk: seq<Block>, cached: map<nat, Block>, d: seq<Block>)
    requires L.Ok() && |disk| == |d| == L.blocks && Replays(L, disk, d) && HeadBlocks(disk[L.start]) == []
    requires Coherent(disk, cached, multiset{}, {})
    ensures Shows(L, disk, cached, {}, d)
  {
    assert Open(CACHE_COHERENT, 0) && Open(LOG_REPLAYS, 0);
  }

  lemma ClearedPhase(L: Layout, d: seq<Block>, disk: seq<Block>, lh: seq<nat>, pins: multiset<nat>, phase: Phase,
                     head: Block)
    requires L.Ok() && |disk| == |d| == L.blocks && GoodBlocks(L, lh) && HeadBlocks(head) == []
    requires (phase.Installing? || phase.Recovering?) && phase.k == |lh| && PhaseInv(L, d, d, disk, lh, pins, [], phase)
    ensures pins == multiset{}
    ensures PhaseInv(L, d, d, disk[L.start := head], [], pins, [], if phase.Installing? then Finishing else Running)
  {
    assert lh[|lh|..] == [];
  }

  lemma ClearedReplays(L: Layout, d: seq<Block>, disk: seq<Block>, lh: seq<nat>, head: Block)
    requires L.Ok() && |disk| == |d| == L.blocks && GoodBlocks(L, lh)
    requires Replays(L, disk, d) && HeadBlocks(disk[L.start]) == lh && Installed(L, disk, lh, |lh|, d)
    requires HeadFits(head) && HeadBlocks(head) == []
    ensures Replays(L, disk[L.start := head], d)
  {
  }

  lemma DataCrash(L: Layout, d: seq<Block>, c: seq<Block>, s: State)
    requires DataInv(L, d, c, s)
    ensures DataInv(L, d, d, Do(L, s, Crash))
  {
  }

  lemma DataLoad(L: Layout, d: seq<Block>, c: seq<Block>, s: State, b: nat)
    requires DataInv(L, d, c, s) && Enabled(L, s, Load(b))
    ensures DataInv(L, d, c, Do(L, s, Load(b)))
  {
    CacheLoad(L, s.disk, s.cached, s.pins, s.changed.Keys, c, b);
  }

  lemma CacheLoad(L: Layout, disk: seq<Block>, cached: map<nat, Block>, pins: multiset<nat>, dirty: set<nat>,
                  c: seq<Block>, b: nat)
    requires |disk| == |c| == L.blocks && b < |disk| && b !in cached && Coherent(disk, cached, pins, dirty)
    ensures Coherent(disk, cached[b := disk[b]], pins, dirty)
    ensures Shows(L, disk, cached, dirty, c) ==> Shows(L, disk, cached[b := disk[b]], dirty, c)
  {
  }

  lemma DataEvict(L: Layout, d: seq<Block>, c: seq<Block>, s: State, b: nat)
    requires DataInv(L, d, c, s) && Enabled(L, s, Evict(b))
    ensures DataInv(L, d, c, Do(L, s, Evict(b)))
  {
    assert b !in s.changed.Keys by { assert Open(CACHE_HELD, 0); }
    CacheEvict(L, s.disk, s.cached, s.pins, s.changed.Keys, c, b);
  }

  lemma CacheEvict(L: Layout, disk: seq<Block>, cached: map<nat, Block>, pins: multiset<nat>, dirty: set<nat>,
                   c: seq<Block>, b: nat)
    requires |disk| == |c| == L.blocks && b !in pins && b !in dirty && Coherent(disk, cached, pins, dirty)
    ensures Coherent(disk, cached - {b}, pins, dirty)
    ensures Shows(L, disk, cached, dirty, c) ==> Shows(L, disk, cached - {b}, dirty, c)
  {
    assert Open(CACHE_COHERENT, 0);
  }

  lemma DataReadHead(L: Layout, d: seq<Block>, s: State)
    requires DataInv(L, d, d, s) && s.changed == map[] && Enabled(L, s, ReadHead)
    ensures DataInv(L, d, d, Do(L, s, ReadHead))
  {
    assert s.cached[L.start] == s.disk[L.start] by { assert Open(CACHE_COHERENT, 0); }
    assert GoodBlocks(L, HeadBlocks(s.disk[L.start])) by { assert Open(LOG_REPLAYS, 0); }
  }

  /** The durable content moves only when the header is written; then it takes the whole transaction. */
  function NextDurable(d: seq<Block>, c: seq<Block>, e: Event): seq<Block> {
    if e.WriteCommit? then c else d
  }

  function NextCurrent(d: seq<Block>, c: seq<Block>, e: Event): seq<Block> {
    match e
    case LogWrite(_, b, data) => if b < |c| then c[b := data] else c
    case Crash => d
    case _ => c
  }

  /** Writing the commit header moves the whole gathered transaction; nothing else touches `done`. */
  lemma DoneMoves(L: Layout, s: State, e: Event)
    requires Enabled(L, s, e)
    ensures Do(L, s, e).done == if e.WriteCommit? then s.done + s.pending else s.done
    ensures Do(L, s, e).pending ==
            match e
            case LogWrite(op, b, data) => s.pending + [Write(op, b, data)]
            case WriteCommit => []
            case Crash => []
            case _ => s.pending
  {
  }

  lemma HistoryStep(L: Layout, base: seq<Block>, s: State, e: Event)
    requires Enabled(L, s, e) && |base| == L.blocks
    ensures Durable(base, Do(L, s, e)) == NextDurable(Durable(base, s), Current(base, s), e)
    ensures Current(base, Do(L, s, e)) == NextCurrent(Durable(base, s), Current(base, s), e)
  {
    DoneMoves(L, s, e);
    if e.LogWrite? {
      CurrentSnoc(base, s.done, s.pending, Write(e.op, e.block, e.data));
    } else if e.WriteCommit? {
      assert s.done + s.pending + [] == s.done + s.pending;
    } else if e.Crash? {
      assert s.done + [] == s.done;
    }
  }

  lemma CurrentSnoc(base: seq<Block>, done: seq<Write>, pending: seq<Write>, w: Write)
    requires w.block < |base|
    ensures Playback(base, done + (pending + [w])) == Playback(base, done + pending)[w.block := w.data]
  {
    PlaybackSnoc(base, done + pending, w);
    assert done + (pending + [w]) == (done + pending) + [w];
  }

  lemma DataQuiet(L: Layout, d: seq<Block>, c: seq<Block>, s: State, e: Event)
    requires DataInv(L, d, c, s) && Enabled(L, s, e)
    requires e.Begin? || e.Finish? || e.Sleep? || e.Wake?
    ensures DataInv(L, d, c, Do(L, s, e))
  {
  }

  lemma DataReader(L: Layout, d: seq<Block>, c: seq<Block>, s: State, e: Event)
    requires DataInv(L, d, c, s) && Enabled(L, s, e)
    requires e.Hold? || e.Release?
    ensures DataInv(L, d, c, Do(L, s, e))
  {
    HoldingMoves(L, s.cached, s.held, s.changed.Keys, Do(L, s, e).held, e.block);
  }

  /** A reference comes or goes; whoever changes a buffer keeps its own. */
  lemma HoldingMoves(L: Layout, cached: map<nat, Block>, held: multiset<nat>, dirty: set<nat>, held': multiset<nat>,
                     b: nat)
    requires Holding(L, cached, held, dirty)
    requires (b in cached && held' == held + multiset{b}) || (b !in dirty && held' == held - multiset{b})
    ensures Holding(L, cached, held', dirty)
  {
    assert Open(CACHE_HELD, 0);
  }

  lemma DataCall(L: Layout, d: seq<Block>, c: seq<Block>, s: State, e: Event)
    requires DataInv(L, d, c, s) && Enabled(L, s, e)
    requires s.phase == Running && (e.Modify? || e.LogWrite? || e.End?)
    ensures DataInv(L, d, NextCurrent(d, c, e), Do(L, s, e))
  {
    match e
    case Modify(op, b, data) => DataModify(L, d, c, s, op, b, data);
    case LogWrite(op, b, data) => DataLogWrite(L, d, c, s, op, b, data);
    case End(op) => DataEnd(L, d, c, s, op);
  }

  lemma DataEnvironment(L: Layout, d: seq<Block>, c: seq<Block>, s: State, e: Event)
    requires DataInv(L, d, c, s) && Enabled(L, s, e)
    requires e.Load? || e.Evict? || e.Crash?
    ensures DataInv(L, d, NextCurrent(d, c, e), Do(L, s, e))
  {
    match e
    case Load(b) => DataLoad(L, d, c, s, b);
    case Evict(b) => DataEvict(L, d, c, s, b);
    case Crash => DataCrash(L, d, c, s);
  }

  lemma DataBlockWrite(L: Layout, d: seq<Block>, c: seq<Block>, s: State, e: Event)
    requires DataInv(L, d, c, s) && s.changed == map[] && Enabled(L, s, e)
    requires e.WriteSlot? || e.WriteCommit? || e.InstallOne? || e.ClearHead? || e.ReadHead?
    ensures DataInv(L, NextDurable(d, c, e), NextCurrent(d, c, e), Do(L, s, e))
  {
    match e
    case WriteSlot => DataWriteSlot(L, d, c, s);
    case WriteCommit => DataWriteCommit(L, d, c, s);
    case InstallOne => DataInstallOne(L, d, s);
    case ClearHead => DataClearHead(L, d, s);
    case ReadHead => DataReadHead(L, d, s);
  }

  lemma LiveMeansRunning(s: State, op: nat)
    requires OpInv(s) && op < |s.ops| && s.ops[op].live
    ensures s.phase == Running && !s.committing && s.epoch <= op
  {
    LiveWitnessed(s.ops, op);
  }

  /** No buffer is being changed while a commit or a recovery runs. */
  lemma NothingChanged(s: State)
    requires OpInv(s) && !s.phase.Running?
    ensures s.changed == map[]
  {
    LiveWitness(s.ops);
    assert forall b :: b !in s.changed;
  }

  lemma DataStep(L: Layout, d: seq<Block>, c: seq<Block>, s: State, e: Event)
    requires DataInv(L, d, c, s) && OpInv(s) && Enabled(L, s, e)
    ensures DataInv(L, NextDurable(d, c, e), NextCurrent(d, c, e), Do(L, s, e))
  {
    if e.Modify? || e.LogWrite? || e.End? {
      LiveMeansRunning(s, e.op);
      DataCall(L, d, c, s, e);
    } else if e.Begin? || e.Finish? || e.Sleep? || e.Wake? {
      DataQuiet(L, d, c, s, e);
    } else if e.Hold? || e.Release? {
      DataReader(L, d, c, s, e);
    } else if e.Load? || e.Evict? || e.Crash? {
      DataEnvironment(L, d, c, s, e);
    } else {
      NothingChanged(s);
      DataBlockWrite(L, d, c, s, e);
    }
  }

  /** Every step keeps the whole invariant. */
  lemma StepKeepsInv(L: Layout, base: seq<Block>, s: State, e: Event)
    requires Inv(L, base, s) && Enabled(L, s, e)
    ensures Inv(L, base, Do(L, s, e))
  {
    OpStep(L, s, e);
    HistoryStep(L, base, s, e);
    DataStep(L, Durable(base, s), Current(base, s), s, e);
  }
}
