/**
 kernel/log.c as it is written: loops over an in-memory header and the buffer cache of kernel/bio.c,
 updated in place.  Every method extends a run of LogMachine by the steps it takes, so the theorems
 about runs (a crash between any two block writes included) hold of the code.  A method returns
 ok == false, or HEAD for a buffer, where the source panics.
 */
module RedoLog {
  import opened Folding
  import opened Params
  import opened DiskBlocks
  import opened LogMachine
  import opened LogSafety
  import opened LogTheorems
  import opened CacheTie
  import Buffers
  import Ring
  import BufferCache

  /** s is the state at the end of `run`, a run from an initial state. */
  ghost predicate OnRun(L: Layout, first: State, run: seq<Event>, s: State) {
    forall k: nat :: Open(ON_RUN, k) ==> Init(L, first) && IsRun(L, first, run) && s == RunTo(L, first, run)
  }

  /** The run was extended by steps of commit, recovery or the cache only. */
  ghost predicate Extends(r0: seq<Event>, r1: seq<Event>) {
    forall k: nat :: Open(RUN_EXTENDS, k) ==> r0 <= r1 && forall i :: |r0| <= i < |r1| ==> IsCommitStep(r1[i])
  }

  lemma ExtendsSelf(r: seq<Event>)
    ensures Extends(r, r)
  {
  }

  lemma ExtendsStep(r0: seq<Event>, r1: seq<Event>, e: Event)
    requires Extends(r0, r1) && IsCommitStep(e)
    ensures Extends(r0, r1 + [e])
  {
    assert Open(RUN_EXTENDS, 0);
  }

  lemma ExtendsMore(r0: seq<Event>, r1: seq<Event>, r2: seq<Event>)
    requires Extends(r0, r1) && Extends(r1, r2)
    ensures Extends(r0, r2)
  {
    assert Open(RUN_EXTENDS, 0);
    assert forall i :: |r0| <= i < |r1| ==> r2[i] == r1[i];
  }

  ghost predicate TiedTo(dev: nat, bs: seq<Buffers.Buf>, image: map<Buffers.Key, Block>, s: State) {
    Tied(dev, bs, image, s.disk, s.cached, s.pins, s.held)
  }

  function InstallPhase(recovering: bool, k: nat): Phase {
    if recovering then Recovering(k) else Installing(k)
  }

  // ----- When buffers suffice -----

  /** A block read now gets a buffer. */
  ghost predicate Readable(s: State, b: nat) {
    b in s.cached || |Busy(s)| < NBUF
  }

  /** write_log gets a buffer for every log block. */
  ghost predicate CanWriteLog(L: Layout, s: State) {
    forall i: nat :: i < |s.lh| ==> Readable(s, L.Slot(i))
  }

  /** install_trans gets one too: each block that nobody holds frees its buffer when it is home. */
  ghost predicate CanInstall(L: Layout, s: State) {
    forall i: nat :: i < |s.lh| ==> Readable(s, L.Slot(i)) || exists j: nat :: j < i && s.lh[j] !in s.held
  }

  ghost predicate CanCommit(L: Layout, s: State) {
    s.lh == [] || (CanWriteLog(L, s) && Readable(s, L.start))
  }

  /** The busy blocks are those with a reference, whatever else is cached. */
  ghost predicate Counted(s: State) {
    forall k: nat :: Open(LOG_COUNTED, k) ==>
      && (forall b :: b in Busy(s) <==> b in s.pins || b in s.held)
      && (|Busy(s)| == NBUF ==> Busy(s) == s.cached.Keys)
      && |Busy(s)| <= NBUF
  }

  lemma InvCounted(L: Layout, base: seq<Block>, s: State)
    requires Inv(L, base, s) && |s.cached| <= NBUF
    ensures Counted(s)
  {
    assert Open(CACHE_COHERENT, 0) && Open(CACHE_HELD, 0);
    LogTheorems.SubsetSize(Busy(s), s.cached.Keys);
  }

  /** With the same pins and holders, the same blocks can be read. */
  lemma SameBusy(s: State, t: State)
    requires Counted(s) && Counted(t) && s.pins == t.pins && s.held == t.held
    ensures Busy(s) == Busy(t) && |Busy(s)| <= NBUF
    ensures |Busy(s)| == NBUF ==> s.cached.Keys == t.cached.Keys
  {
    assert Open(LOG_COUNTED, 0);
    assert Busy(s) == Busy(t);
  }

  lemma SameReadable(s: State, t: State, b: nat)
    requires Counted(s) && Counted(t) && s.pins == t.pins && s.held == t.held
    ensures Readable(s, b) <==> Readable(t, b)
  {
    SameBusy(s, t);
  }

  /** Installing frees buffers, and frees none exactly as long as every installed block is held. */
  lemma InstallBusy(s: State, t: State, k: nat)
    requires Counted(s) && Counted(t) && s.held == t.held && k <= |s.lh| && Distinct(s.lh)
    requires s.pins == multiset(s.lh) && t.pins == multiset(s.lh[k..])
    ensures Busy(t) <= Busy(s) && (Busy(t) == Busy(s) <==> forall j: nat :: j < k ==> s.lh[j] in s.held)
  {
    assert forall b :: b in Busy(s) <==> b in s.lh || b in s.held by { assert Open(LOG_COUNTED, 0); }
    assert forall b :: b in Busy(t) <==> b in s.lh[k..] || b in s.held by { assert Open(LOG_COUNTED, 0); }
    SuffixCovers(s.lh, k, s.held, Busy(s), Busy(t));
  }

  lemma SuffixCovers(bs: seq<nat>, k: nat, held: multiset<nat>, all: set<nat>, rest: set<nat>)
    requires k <= |bs| && Distinct(bs)
    requires forall b :: b in all <==> b in bs || b in held
    requires forall b :: b in rest <==> b in bs[k..] || b in held
    ensures rest <= all && (rest == all <==> forall j: nat :: j < k ==> bs[j] in held)
  {
    assert Open(LOG_DISTINCT, 0);
    assert forall b :: b in bs <==> b in bs[..k] || b in bs[k..] by { assert bs == bs[..k] + bs[k..]; }
    if rest == all {
      forall j: nat | j < k ensures bs[j] in held { assert bs[j] in rest; }
    } else {
      var b :| b in all && b !in rest;
      var j :| 0 <= j < k && bs[..k][j] == b;
      assert bs[j] !in held;
    }
  }

  lemma InstallReadable(s: State, t: State, k: nat, b: nat)
    requires Counted(s) && Counted(t) && s.held == t.held && k <= |s.lh| && Distinct(s.lh)
    requires s.pins == multiset(s.lh) && t.pins == multiset(s.lh[k..])
    ensures Readable(t, b) <==> Readable(s, b) || exists j: nat :: j < k && s.lh[j] !in s.held
  {
    InstallBusy(s, t, k);
    LogTheorems.SubsetSize(Busy(t), Busy(s));
    assert Open(LOG_COUNTED, 0);
  }

  /** What bread of block b leaves: one more holder, and everything in use still there. */
  ghost predicate Got(s: State, b: nat, t: State) {
    && b < |s.disk| && t == s.(cached := t.cached, held := s.held + multiset{b})
    && b in t.cached && t.cached[b] == Logical(s, b)
    && (b in s.cached ==> t.cached == s.cached)
    && (forall x :: x in s.cached && (x in s.pins || x in s.held) ==> x in t.cached && t.cached[x] == s.cached[x])
  }

  // ----- Counting references -----

  /** One reference to b more or less. */
  ghost predicate Moves(m: multiset<nat>, m': multiset<nat>, b: nat, d: int) {
    m'[b] == m[b] + d && forall x :: x != b ==> m'[x] == m[x]
  }

  lemma Adds(m: multiset<nat>, b: nat)
    ensures Moves(m, m + multiset{b}, b, 1)
  {
  }

  lemma Drops(m: multiset<nat>, b: nat)
    requires b in m
    ensures Moves(m, m - multiset{b}, b, -1)
  {
  }

  /** bpin and bunpin. */
  lemma TiedPin(dev: nat, bs: seq<Buffers.Buf>, bs': seq<Buffers.Buf>, image: map<Buffers.Key, Block>, s: State,
                t: State, i: nat, d: int)
    requires TiedTo(dev, bs, image, s) && i < |bs| == |bs'| && bs[i].dev == dev && t == s.(pins := t.pins)
    requires bs' == bs[i := bs'[i]] && bs'[i] == bs[i].(refcnt := bs'[i].refcnt) && bs'[i].refcnt == bs[i].refcnt + d
    requires Moves(s.pins, t.pins, bs[i].blockno, d)
    ensures TiedTo(dev, bs', image, t)
  {
    TiedAt(dev, bs, image, s.disk, s.cached, s.pins, s.held, i);
    TiedCount(dev, bs, image, s.disk, s.cached, s.pins, s.held, i, bs', t.pins, t.held);
  }

  /** bget of a cached block and brelse. */
  lemma TiedHold(dev: nat, bs: seq<Buffers.Buf>, bs': seq<Buffers.Buf>, image: map<Buffers.Key, Block>, s: State,
                 t: State, i: nat, d: int)
    requires TiedTo(dev, bs, image, s) && i < |bs| == |bs'| && bs[i].dev == dev && t == s.(held := t.held)
    requires bs' == bs[i := bs'[i]] && bs'[i] == bs[i].(refcnt := bs'[i].refcnt) && bs'[i].refcnt == bs[i].refcnt + d
    requires Moves(s.held, t.held, bs[i].blockno, d)
    ensures TiedTo(dev, bs', image, t)
  {
    TiedAt(dev, bs, image, s.disk, s.cached, s.pins, s.held, i);
    TiedCount(dev, bs, image, s.disk, s.cached, s.pins, s.held, i, bs', t.pins, t.held);
  }

  /** Blocks a and b have one more holder each. */
  ghost predicate BothHeld(held: multiset<nat>, held': multiset<nat>, a: nat, b: nat) {
    forall k: nat :: Open(TWO_HELD, k) ==> held' == held + multiset{a} + multiset{b}
  }

  lemma BothBack(held: multiset<nat>, held': multiset<nat>, a: nat, b: nat)
    requires BothHeld(held, held', a, b)
    ensures held' - multiset{a} - multiset{b} == held' - multiset{b} - multiset{a} == held
  {
    assert Open(TWO_HELD, 0);
  }

  lemma OneBack(held: multiset<nat>, a: nat)
    ensures held + multiset{a} - multiset{a} == held
  {
  }

  class Log {
    const layout: Layout
    const dev: nat
    var cache: BufferCache.Cache
    var n: nat
    const block: array<nat>
    var outstanding: nat
    var committing: bool
    ghost const first: State
    ghost var run: seq<Event>
    ghost var s: State

    ghost predicate Valid()
      reads this, block, cache, cache.buf, cache.next, cache.prev
    {
      && block.Length == LOGSIZE && n <= LOGSIZE && dev != 0
      && cache.Valid() && block != cache.next && block != cache.prev
      && OnRun(layout, first, run, s)
      && TiedTo(dev, cache.buf[..], cache.disk, s)
      && block[..n] == s.lh && outstanding == s.outstanding && committing == s.committing
    }

    lemma Counts()
      requires OnRun(layout, first, run, s)
      ensures Counted(s) && |s.cached| <= NBUF
    {
      OnRunInv();
    }

    lemma OnRunInv()
      requires OnRun(layout, first, run, s)
      ensures Inv(layout, first.disk, s) && |s.cached| <= NBUF && Counted(s) && |first.disk| == layout.blocks
    {
      assert Open(ON_RUN, 0);
      RunKeepsInv(layout, first, run);
      CacheFits(layout, first, run);
      InvCounted(layout, first.disk, s);
    }

    /** Buffers that nobody uses agree with the disk: what was changed was logged before it was
        released, log_write pinned it, and install_trans writes it before it unpins it. */
    lemma CacheIsClean()
      requires Valid()
      ensures Buffers.Clean(cache.buf[..], cache.disk)
    {
      OnRunInv();
      TiedClean(layout, dev, cache.buf[..], cache.disk, s.disk, s.cached, s.pins, s.held, s.changed.Keys);
    }

    lemma Shape()
      requires Valid()
      ensures layout.Ok() && |s.disk| == layout.blocks == |first.disk| && GoodBlocks(layout, block[..n])
      ensures forall i :: 0 <= i < n ==> layout.start < layout.Slot(i) < |s.disk|
      ensures s.phase.Logging? ==> s.pins == multiset(block[..n])
      ensures s.phase.Installing? && s.phase.k <= n ==> s.pins == multiset(block[..n][s.phase.k..])
      ensures s.phase.Recovering? || s.phase.Down? ==> s.pins == multiset{}
      ensures forall b :: b in s.pins ==> b in s.cached
    {
      OnRunInv();
      assert Open(CACHE_COHERENT, 0);
    }

    /** initlog's state before recovery: a disk made by mkfs and the cache that binit makes. */
    constructor (L: Layout, device: nat, image: map<Buffers.Key, Block>)
      requires L.Ok() && device != 0 && Buffers.DiskAt(image, (device, L.start)).words[0] == 0
      ensures Valid() && layout == L && dev == device && cache.disk == image && run == [] && s.phase == Down
      ensures fresh(block) && fresh(cache) && fresh(cache.buf) && fresh(cache.next) && fresh(cache.prev)
    {
      layout, dev, n, outstanding, committing := L, device, 0, 0, false;
      block := new nat[LOGSIZE];
      cache := new BufferCache.Cache(image);
      ghost var disk := seq(L.blocks, (b: nat) => Buffers.DiskAt(image, (device, b)));
      first, s, run := Boot(disk), Boot(disk), [];
      new;
      TiedFresh(dev, cache.buf[..], cache.disk, s.disk);
    }

    /** Records the step that the code has just taken. */
    ghost method Take(e: Event)
      requires OnRun(layout, first, run, s) && Enabled(layout, s, e)
      modifies this`s, this`run
      ensures OnRun(layout, first, run, s)
      ensures s == Do(layout, old(s), e) && run == old(run) + [e]
    {
      assert Open(ON_RUN, 0);
      RunSnoc(layout, first, run, e);
      run := run + [e];
      s := Do(layout, s, e);
    }

    // ----- The cache -----

    /** bread found the block in buffer i. */
    ghost method TakeHit(bs: seq<Buffers.Buf>, i: nat, b: nat)
      requires OnRun(layout, first, run, s) && TiedTo(dev, bs, cache.disk, s) && i < |bs| == cache.buf.Length
      requires bs[i].Key() == (dev, b) && b < |s.disk| && cache.buf[..] == bs[i := bs[i].(refcnt := bs[i].refcnt + 1)]
      modifies this`s, this`run
      ensures OnRun(layout, first, run, s) && run == old(run) + [Hold(b)] && Got(old(s), b, s)
      ensures TiedTo(dev, cache.buf[..], cache.disk, s)
    {
      TiedAt(dev, bs, cache.disk, s.disk, s.cached, s.pins, s.held, i);
      Adds(s.held, b);
      Take(Hold(b));
      TiedHold(dev, bs, cache.buf[..], cache.disk, old(s), s, i, 1);
    }

    /** bread loaded the block into buffer i, giving up the block that was there. */
    ghost method TakeMiss(bs: seq<Buffers.Buf>, i: nat, b: nat)
      requires OnRun(layout, first, run, s) && TiedTo(dev, bs, cache.disk, s) && i < |bs| && bs[i].refcnt == 0
      requires b < |s.disk| && forall j :: 0 <= j < |bs| ==> bs[j].Key() != (dev, b)
      requires cache.buf[..] == bs[i := Buffers.Buf(dev, b, true, 1, s.disk[b])]
      modifies this`s, this`run
      ensures OnRun(layout, first, run, s) && Extends(old(run), run) && Got(old(s), b, s)
      ensures TiedTo(dev, cache.buf[..], cache.disk, s)
    {
      ghost var s0 := s;
      Counts();
      TiedFound(dev, bs, cache.disk, s.disk, s.cached, s.pins, s.held, b);
      TiedVictim(dev, bs, cache.disk, s.disk, s.cached, s.pins, s.held, i);
      ExtendsSelf(run);
      if bs[i].dev != 0 {
        assert (s.cached - {bs[i].blockno}).Keys == s.cached.Keys - {bs[i].blockno};
        ExtendsStep(run, run, Evict(bs[i].blockno));
        Take(Evict(bs[i].blockno));
      }
      ExtendsStep(old(run), run, Load(b));
      Take(Load(b));
      TiedLoad(dev, bs, cache.disk, s0.disk, s0.cached, s0.pins, s0.held, i, b, cache.buf[..], s.cached, s.held);
    }

    /** bread, by a reader or by the log: HEAD is the panic of bget, when the block is not cached and
        the pinned and held blocks are NBUF. */
    method Bread(b: nat) returns (i: nat)
      requires Valid() && b < |s.disk|
      modifies this`s, this`run, cache.buf
      ensures Valid() && Extends(old(run), run) && i <= Ring.HEAD
      ensures i == Ring.HEAD <==> !Readable(old(s), b)
      ensures i == Ring.HEAD ==> s == old(s) && run == old(run) && cache.buf[..] == old(cache.buf[..])
      ensures i < Ring.HEAD ==> cache.buf[i].Key() == (dev, b) && cache.buf[i].refcnt > 0 && Got(old(s), b, s)
      ensures forall j :: 0 <= j < NBUF && old(cache.buf[j]).refcnt > 0 ==>
        cache.buf[j].Key() == old(cache.buf[j]).Key()
    {
      ghost var bs := cache.buf[..];
      TiedFound(dev, bs, cache.disk, s.disk, s.cached, s.pins, s.held, b);
      AllInUse(dev, bs, cache.disk, s.disk, s.cached, s.pins, s.held);
      assert Referred(s.cached, s.pins, s.held) == Busy(s);
      assert |Busy(s)| <= NBUF by { Counts(); assert Open(LOG_COUNTED, 0); }
      i := cache.Bread(dev, b);
      if i == Ring.HEAD {
        ExtendsSelf(run);
        return;
      }
      if bs[i].Key() == (dev, b) {
        TiedAt(dev, bs, cache.disk, s.disk, s.cached, s.pins, s.held, i);
        assert cache.buf[..] == bs[i := bs[i].(refcnt := bs[i].refcnt + 1)];
        ExtendsSelf(run);
        ExtendsStep(run, run, Hold(b));
        TakeHit(bs, i, b);
      } else {
        TiedDisk(dev, bs, cache.disk, s.disk, s.cached, s.pins, s.held, b);
        TakeMiss(bs, i, b);
      }
    }

    /** brelse of a buffer whose changes, if any, have been logged. */
    method Brelse(i: nat)
      requires Valid() && i < NBUF && cache.buf[i].dev == dev
      requires cache.buf[i].blockno in s.held && cache.buf[i].blockno !in s.changed
      modifies this`s, this`run, cache`order, cache.buf, cache.next, cache.prev
      ensures Valid() && Extends(old(run), run)
      ensures s == old(s).(held := old(s.held) - multiset{old(cache.buf[i].blockno)})
      ensures forall j :: 0 <= j < NBUF ==> cache.buf[j].Key() == old(cache.buf[j]).Key()
    {
      ghost var bs, b := cache.buf[..], cache.buf[i].blockno;
      TiedAt(dev, bs, cache.disk, s.disk, s.cached, s.pins, s.held, i);
      Drops(s.held, b);
      cache.Brelse(i);
      ExtendsSelf(run);
      ExtendsStep(run, run, Release(b));
      Take(Release(b));
      TiedHold(dev, bs, cache.buf[..], cache.disk, old(s), s, i, -1);
    }

    /** memmove into a held buffer, and bwrite. */
    method Put(i: nat, data: Block)
      requires Valid() && i < NBUF && cache.buf[i].dev == dev && cache.buf[i].blockno in s.held
      requires cache.buf[i].blockno < |s.disk|
      modifies cache`disk, cache.buf
      ensures cache.Valid() && cache.buf[..] == old(cache.buf[..])[i := old(cache.buf[i]).(data := data)]
      ensures TiedTo(dev, cache.buf[..], cache.disk, PutBlock(s, cache.buf[i].blockno, data))
    {
      ghost var bs, image, b := cache.buf[..], cache.disk, cache.buf[i].blockno;
      TiedAt(dev, bs, image, s.disk, s.cached, s.pins, s.held, i);
      cache.Change(i, data);
      cache.Bwrite(i);
      TiedData(dev, bs, image, s.disk, s.cached, s.pins, s.held, i, cache.buf[..], s.cached[b := data]);
      TiedWrite(dev, cache.buf[..], image, s.disk, s.cached[b := data], s.pins, s.held, b, data);
    }

    /** The two brelse calls at the end of a turn. */
    method Release2(ghost r0: seq<Event>, ghost held: multiset<nat>, i: nat, j: nat)
      requires Valid() && i < NBUF && j < NBUF && i != j && cache.buf[i].dev == cache.buf[j].dev == dev
      requires cache.buf[i].blockno in s.held && cache.buf[j].blockno in s.held && s.changed == map[]
      requires Extends(r0, run)
      requires cache.buf[i].blockno != cache.buf[j].blockno
      requires s.held - multiset{cache.buf[i].blockno} - multiset{cache.buf[j].blockno} == held
      modifies this`s, this`run, cache`order, cache.buf, cache.next, cache.prev
      ensures Valid() && Extends(r0, run) && s == old(s).(held := held)
    {
      Brelse(i);
      ExtendsMore(r0, old(run), run);
      label A:
      Brelse(j);
      ExtendsMore(r0, old@A(run), run);
    }

    /** A log block and a home block, both held. */
    method BreadPair(slot: nat, home: nat) returns (ok: bool, i: nat, j: nat)
      requires Valid() && slot < |s.disk| && home < |s.disk| && slot != home
      modifies this`s, this`run, cache.buf
      ensures Valid() && Extends(old(run), run)
      ensures s == old(s).(cached := s.cached, held := s.held)
      ensures !Readable(old(s), slot) ==> !ok && s == old(s)
      ensures Readable(old(s), slot) && home in old(s.pins) ==> ok
      ensures |Busy(old(s))| + 2 <= NBUF ==> ok
      ensures ok ==>
        && i < NBUF && j < NBUF && i != j && cache.buf[i].Key() == (dev, slot) && cache.buf[j].Key() == (dev, home)
                     && BothHeld(old(s.held), s.held, slot, home) && Has(s, slot) && Has(s, home)
    {
      Counts();
      PinsCached();
      j := 0;
      i := Bread(slot);
      if i == Ring.HEAD { return false, 0, 0; }
      BusyAfter(old(s), slot);
      ghost var mid, midrun := s, run;
      j := Bread(home);
      ok := j != Ring.HEAD;
      ExtendsMore(old(run), midrun, run);
      assert Got(old(s), slot, mid) && (ok ==> Got(mid, home, s));
    }

    lemma PinsCached()
      requires Valid()
      ensures forall b :: b in s.pins ==> b in s.cached
    {
      Shape();
    }

    // ----- Commit -----

    /** memmove from a cached block into a log block, and bwrite. */
    method PutSlot(tail: nat, to: nat, from: nat)
      requires Valid() && s.phase == Logging(tail) && tail < n && layout.Slot(tail) < |s.disk| && to < NBUF
      requires from < NBUF
      requires cache.buf[to].Key() == (dev, layout.Slot(tail)) && cache.buf[from].Key() == (dev, block[tail])
      requires Has(s, layout.Slot(tail)) && Has(s, block[tail])
      modifies this`s, this`run, cache`disk, cache.buf
      ensures Valid() && run == old(run) + [WriteSlot]
      ensures Enabled(layout, old(s), WriteSlot) && s == DoWriteSlot(layout, old(s))
      ensures forall j :: 0 <= j < NBUF ==> cache.buf[j].Key() == old(cache.buf[j]).Key()
    {
      assert s.lh[tail] == block[tail];
      TiedAt(dev, cache.buf[..], cache.disk, s.disk, s.cached, s.pins, s.held, from);
      Put(to, cache.buf[from].data);
      Take(WriteSlot);
    }

    method CopyToLog(tail: nat) returns (ok: bool)
      requires Valid() && s.phase == Logging(tail) && tail < n && s.changed == map[]
      modifies this`s, this`run, cache`disk, cache`order, cache.buf, cache.next, cache.prev
      ensures Valid() && Extends(old(run), run) && SameLog(old(s), s) && s.pins == old(s.pins)
      ensures ok <==> Readable(old(s), layout.Slot(tail))
      ensures ok ==> s.phase == Logging(tail + 1)
    {
      TurnShape(tail);
      var to, from;
      ok, to, from := BreadPair(layout.Slot(tail), block[tail]);
      if ok { SlotTurn(tail, to, from, old(run), old(s.held)); }
    }

    method SlotTurn(tail: nat, to: nat, from: nat, ghost r0: seq<Event>, ghost held: multiset<nat>)
      requires Valid() && s.phase == Logging(tail) && tail < n && layout.Slot(tail) < |s.disk| && to < NBUF
      requires from < NBUF
      requires cache.buf[to].Key() == (dev, layout.Slot(tail)) && cache.buf[from].Key() == (dev, block[tail])
      requires Has(s, layout.Slot(tail)) && Has(s, block[tail]) && layout.Slot(tail) != block[tail]
      requires Extends(r0, run) && s.changed == map[] && BothHeld(held, s.held, layout.Slot(tail), block[tail])
      modifies this`s, this`run, cache`disk, cache`order, cache.buf, cache.next, cache.prev
      ensures Valid() && Extends(r0, run) && Enabled(layout, old(s), WriteSlot)
      ensures s == DoWriteSlot(layout, old(s)).(held := held)
    {
      ExtendsStep(r0, run, WriteSlot);
      PutSlot(tail, to, from);
      BothBack(held, s.held, layout.Slot(tail), block[tail]);
      Release2(r0, held, from, to);
    }

    lemma TurnShape(tail: nat)
      requires Valid() && tail < n
      ensures layout.Slot(tail) < |s.disk| && block[tail] < |s.disk| && block[tail] != layout.Slot(tail)
      ensures block[..n][tail] == block[tail]
      ensures s.phase.Logging? ==> block[tail] in s.pins
    {
      Shape();
      if s.phase.Logging? { PinnedAt(block[..n], tail); }
    }

    /** write_log: copy the logged blocks from the cache to the log. */
    method WriteLog() returns (ok: bool)
      requires Valid() && s.phase == Logging(0)
      modifies this`s, this`run, cache`disk, cache`order, cache.buf, cache.next, cache.prev
      ensures Valid() && Extends(old(run), run) && SameLog(old(s), s) && s.pins == old(s.pins)
      ensures ok <==> CanWriteLog(layout, old(s))
      ensures ok ==> s.phase == Logging(n)
    {
      NoChanges();
      Counts();
      ExtendsSelf(run);
      var tail := 0;
      ok := true;
      while tail < n
        invariant Valid() && tail <= n && s.phase == Logging(tail) && ok && Extends(old(run), run)
        invariant SameLog(old(s), s) && s.pins == old(s.pins)
        invariant forall i: nat :: i < tail ==> Readable(old(s), layout.Slot(i))
      {
        Counts();
        SameReadable(old(s), s, layout.Slot(tail));
        label A:
        ok := CopyToLog(tail);
        ExtendsMore(old(run), old@A(run), run);
        if !ok { return; }
        tail := tail + 1;
      }
    }

    /** The header block with the in-memory header copied into it. */
    method FillHead(h: Block) returns (r: Block)
      requires block.Length == LOGSIZE && n <= LOGSIZE
      ensures r == EncodeHead(h, block[..n])
    {
      var words := h.words[0 := n];
      for i := 0 to n
        invariant |words| == WORDS && words == [n] + block[..i] + h.words[1 + i..]
      {
        words := words[1 + i := block[i]];
        assert block[..i + 1] == block[..i] + [block[i]];
      }
      r := Block(words);
    }

    method PutCommit(i: nat)
      requires Valid() && s.phase == Logging(n) && i < NBUF && layout.start < |s.disk|
      requires cache.buf[i].Key() == (dev, layout.start) && Has(s, layout.start)
      modifies this`s, this`run, cache`disk, cache.buf
      ensures Valid() && run == old(run) + [WriteCommit]
      ensures Enabled(layout, old(s), WriteCommit) && s == DoWriteCommit(layout, old(s))
      ensures cache.buf[i].Key() == old(cache.buf[i]).Key()
    {
      TiedAt(dev, cache.buf[..], cache.disk, s.disk, s.cached, s.pins, s.held, i);
      var head := FillHead(cache.buf[i].data);
      Put(i, head);
      Take(WriteCommit);
    }

    /** write_head during a commit: the point at which the transaction takes effect. */
    method WriteHead() returns (ok: bool)
      requires Valid() && s.phase == Logging(n)
      modifies this`s, this`run, cache`disk, cache`order, cache.buf, cache.next, cache.prev
      ensures Valid() && Extends(old(run), run) && s.lh == old(s.lh) && s.held == old(s.held) && s.pins == old(s.pins)
      ensures s.changed == map[] && (ok <==> Readable(old(s), layout.start))
      ensures ok ==> s.phase == Installing(0) && s.done == old(s.done + s.pending) && s.pending == []
    {
      NoChanges();
      Shape();
      OneBack(s.held, layout.start);
      var i := Bread(layout.start);
      if i == Ring.HEAD { return false; }
      ExtendsStep(old(run), run, WriteCommit);
      PutCommit(i);
      label A:
      Brelse(i);
      ExtendsMore(old(run), old@A(run), run);
      ok := true;
    }

    /** log.lh.n = 0 and write_head: erase the transaction from the log. */
    method ClearLog() returns (ok: bool)
      requires Valid() && (s.phase.Installing? || s.phase.Recovering?) && s.phase.k == n
      modifies this`s, this`run, this`n, cache`disk, cache`order, cache.buf, cache.next, cache.prev
      ensures Valid() && Extends(old(run), run) && s.done == old(s.done) && s.pending == old(s.pending)
      ensures s.held == old(s.held) && s.changed == map[] && (ok <==> Readable(old(s), layout.start))
      ensures ok ==> n == 0 && s.phase == if old(s.phase).Installing? then Finishing else Running
    {
      NoChanges();
      Shape();
      OneBack(s.held, layout.start);
      var i := Bread(layout.start);
      if i == Ring.HEAD { return false; }
      ExtendsStep(old(run), run, ClearHead);
      EraseHead(i);
      label A:
      Brelse(i);
      ExtendsMore(old(run), old@A(run), run);
      ok := true;
    }

    method EraseHead(i: nat)
      requires Valid() && (s.phase.Installing? || s.phase.Recovering?) && s.phase.k == n && i < NBUF
      requires cache.buf[i].Key() == (dev, layout.start) && Has(s, layout.start) && layout.start < |s.disk|
      modifies this`s, this`run, this`n, cache`disk, cache.buf
      ensures Valid() && n == 0 && s == DoClearHead(layout, old(s)) && run == old(run) + [ClearHead]
      ensures cache.buf[i].Key() == old(cache.buf[i]).Key()
    {
      TiedAt(dev, cache.buf[..], cache.disk, s.disk, s.cached, s.pins, s.held, i);
      var data := cache.buf[i].data;
      var words := data.words[0 := 0];
      Put(i, Block(words));
      assert Block(words) == EncodeHead(data, []);
      Take(ClearHead);
      n := 0;
      assert block[..0] == [];
    }

    /** memmove from a log block into a home block, bwrite, and bunpin unless recovering. */
    method PutHome(recovering: bool, tail: nat, from: nat, to: nat)
      requires Valid() && tail < n && s.phase == InstallPhase(recovering, tail) && to < NBUF && from < NBUF
      requires cache.buf[from].Key() == (dev, layout.Slot(tail)) && cache.buf[to].Key() == (dev, block[tail])
      requires Has(s, layout.Slot(tail)) && Has(s, block[tail]) && block[tail] < |s.disk|
      requires !recovering ==> block[tail] in s.pins
      modifies this`s, this`run, cache`disk, cache.buf
      ensures Valid() && run == old(run) + [InstallOne]
      ensures Enabled(layout, old(s), InstallOne) && s == DoInstallOne(layout, old(s))
      ensures forall j :: 0 <= j < NBUF ==> cache.buf[j].Key() == old(cache.buf[j]).Key()
    {
      assert s.lh[tail] == block[tail];
      TiedAt(dev, cache.buf[..], cache.disk, s.disk, s.cached, s.pins, s.held, from);
      ghost var put := PutBlock(s, block[tail], cache.buf[from].data);
      Put(to, cache.buf[from].data);
      if !recovering { Unpin(put, to); }
      Take(InstallOne);
    }

    /** bunpin, with `put` as the state that the buffers are in. */
    method Unpin(ghost put: State, i: nat)
      requires cache.Valid() && TiedTo(dev, cache.buf[..], cache.disk, put) && i < NBUF
      requires cache.buf[i].dev == dev && cache.buf[i].blockno in put.pins
      modifies cache.buf
      ensures cache.Valid() && forall j :: 0 <= j < NBUF ==> cache.buf[j].Key() == old(cache.buf[j]).Key()
      ensures TiedTo(dev, cache.buf[..], cache.disk, put.(pins := put.pins - multiset{old(cache.buf[i].blockno)}))
    {
      ghost var bs := cache.buf[..];
      TiedAt(dev, bs, cache.disk, put.disk, put.cached, put.pins, put.held, i);
      Drops(put.pins, bs[i].blockno);
      cache.Bunpin(i);
      TiedPin(dev, bs, cache.buf[..], cache.disk, put, put.(pins := put.pins - multiset{bs[i].blockno}), i, -1);
    }

    method CopyHome(recovering: bool, tail: nat) returns (ok: bool)
      requires Valid() && tail < n && s.phase == InstallPhase(recovering, tail) && s.changed == map[]
      modifies this`s, this`run, cache`disk, cache`order, cache.buf, cache.next, cache.prev
      ensures Valid() && Extends(old(run), run) && (ok ==> SameLog(old(s), s))
      ensures s.changed == map[]
      ensures !recovering ==> (ok <==> Readable(old(s), layout.Slot(tail)))
      ensures recovering && |Busy(old(s))| + 2 <= NBUF ==> ok
      ensures ok ==> s.phase == InstallPhase(recovering, tail + 1)
    {
      TurnShape(tail);
      InstallShape(recovering, tail);
      var from, to;
      ok, from, to := BreadPair(layout.Slot(tail), block[tail]);
      if ok { HomeTurn(recovering, tail, from, to, old(run), old(s.held)); }
    }

    method HomeTurn(recovering: bool, tail: nat, from: nat, to: nat, ghost r0: seq<Event>, ghost held: multiset<nat>)
      requires Valid() && tail < n && s.phase == InstallPhase(recovering, tail) && to < NBUF && from < NBUF
      requires cache.buf[from].Key() == (dev, layout.Slot(tail)) && cache.buf[to].Key() == (dev, block[tail])
      requires Has(s, layout.Slot(tail)) && Has(s, block[tail]) && block[tail] < |s.disk|
      requires layout.Slot(tail) != block[tail]
      requires !recovering ==> block[tail] in s.pins
      requires Extends(r0, run) && s.changed == map[] && BothHeld(held, s.held, layout.Slot(tail), block[tail])
      modifies this`s, this`run, cache`disk, cache`order, cache.buf, cache.next, cache.prev
      ensures Valid() && Extends(r0, run) && Enabled(layout, old(s), InstallOne)
      ensures s == DoInstallOne(layout, old(s)).(held := held)
    {
      ExtendsStep(r0, run, InstallOne);
      PutHome(recovering, tail, from, to);
      BothBack(held, s.held, layout.Slot(tail), block[tail]);
      Release2(r0, held, from, to);
    }

    /** One more holder makes at most one more block busy. */
    lemma BusyAfter(was: State, b: nat)
      requires Valid() && Counted(was) && Got(was, b, s)
      ensures |Busy(s)| <= |Busy(was)| + 1
    {
      Counts();
      assert Open(LOG_COUNTED, 0);
      assert Busy(s) == Busy(was) + {b};
    }

    lemma InstallShape(recovering: bool, tail: nat)
      requires Valid() && tail < n && s.phase == InstallPhase(recovering, tail)
      ensures layout.Slot(tail) < |s.disk| && block[tail] < |s.disk| && Counted(s)
      ensures !recovering ==> block[tail] in s.pins && block[tail] in s.cached
    {
      OnRunInv();
      Shape();
      assert block[..n][tail] == block[tail];
      if !recovering { PinnedAt(block[..n][tail..], 0); }
    }

    /** install_trans: copy the logged blocks from the log to their home locations. */
    method InstallTrans(recovering: bool) returns (ok: bool)
      requires Valid() && s.phase == InstallPhase(recovering, 0)
      modifies this`s, this`run, cache`disk, cache`order, cache.buf, cache.next, cache.prev
      ensures Valid() && Extends(old(run), run) && s.changed == map[] && (ok ==> SameLog(old(s), s))
      ensures !recovering ==> (ok <==> CanInstall(layout, old(s)))
      ensures recovering && |Busy(old(s))| + 2 <= NBUF ==> ok
      ensures ok ==> s.phase == InstallPhase(recovering, n)
    {
      NoChanges();
      var tail := 0;
      ok := true;
      Counts();
      ExtendsSelf(run);
      InstallStart(recovering);
      while tail < n
        invariant Valid() && tail <= n && ok && Extends(old(run), run) && SameLog(old(s), s) && s.changed == map[]
        invariant s.phase == InstallPhase(recovering, tail)
        invariant !recovering ==> forall i: nat :: i < tail ==>
                    Readable(old(s), layout.Slot(i)) || exists j: nat :: j < i && old(s).lh[j] !in old(s).held
      {
        InstallTurn(old(s), recovering, tail);
        label A:
        ok := CopyHome(recovering, tail);
        ExtendsMore(old(run), old@A(run), run);
        if !ok { return; }
        tail := tail + 1;
      }
    }

    lemma InstallStart(recovering: bool)
      requires Valid() && s.phase == InstallPhase(recovering, 0)
      ensures Distinct(s.lh) && s.pins == if recovering then multiset{} else multiset(s.lh)
    {
      Shape();
      assert block[..n][0..] == block[..n];
    }

    lemma InstallTurn(was: State, recovering: bool, tail: nat)
      requires Valid() && tail < n && s.phase == InstallPhase(recovering, tail) && SameLog(was, s)
      requires Counted(was) && Distinct(was.lh) && was.pins == if recovering then multiset{} else multiset(was.lh)
      ensures recovering ==> Busy(s) == Busy(was)
      ensures !recovering ==>
                (Readable(s, layout.Slot(tail))
                 <==> Readable(was, layout.Slot(tail)) || exists j: nat :: j < tail && was.lh[j] !in was.held)
    {
      Counts();
      Shape();
      if recovering { SameBusy(was, s); } else { InstallReadable(was, s, tail, layout.Slot(tail)); }
    }

    /** With no transaction in the log, the disk is the committed history. */
    lemma Settled()
      requires Valid() && (s.phase == Finishing || (s.phase == Running && n == 0))
      ensures layout.Ok() && |s.disk| == layout.blocks == |first.disk|
      ensures Holds(layout, s.disk, Playback(first.disk, s.done))
    {
      OnRunInv();
      assert Open(LOG_REPLAYS, 0);
    }

    /** The rest of commit, after write_log has found its buffers. */
    method FinishCommit() returns (ok: bool)
      requires Valid() && s.phase == Logging(n) && n > 0 && s.changed == map[] && CanWriteLog(layout, s)
      modifies this`s, this`run, this`n, cache`disk, cache`order, cache.buf, cache.next, cache.prev
      ensures Valid() && Extends(old(run), run)
      ensures ok <==> Readable(old(s), layout.start)
      ensures ok ==> n == 0 && s.phase == Finishing && s.done == old(s.done + s.pending) && s.pending == []
    {
      Counts();
      Shape();
      ok := WriteHead();
      if !ok { return; }
      Counts();
      StillInstallable(layout, old(s), s);
      label A:
      ok := InstallTrans(false);
      ExtendsMore(old(run), old@A(run), run);
      label B:
      StillClearable(old(s));
      ok := ClearLog();
      ExtendsMore(old(run), old@B(run), run);
    }

    lemma StillClearable(was: State)
      requires Valid() && s.phase == Installing(n) && was.phase.Logging? && s.lh == was.lh && s.held == was.held
      requires Counted(was) && was.pins == multiset(was.lh) && Readable(was, layout.start)
      ensures Readable(s, layout.start)
    {
      Counts();
      Shape();
      InstallReadable(was, s, n, layout.start);
    }

    /** commit: afterwards the disk holds, for every home block, what bread gave before. */
    method Commit() returns (ok: bool)
      requires Valid() && s.phase == if n > 0 then Logging(0) else Finishing
      modifies this`s, this`run, this`n, cache`disk, cache`order, cache.buf, cache.next, cache.prev
      ensures Valid() && Extends(old(run), run)
      ensures ok <==> CanCommit(layout, old(s))
      ensures ok ==> n == 0 && s.phase == Finishing && s.done == old(s.done + s.pending) && s.pending == []
      ensures ok ==> forall b: nat :: layout.Home(b) ==>
                Buffers.DiskAt(cache.disk, (dev, b)) == old(Buffers.Logical(cache.buf[..], cache.disk, (dev, b)))
      ensures old(n) == 0 ==> ok && cache.disk == old(cache.disk)
    {
      NoChanges();
      Showing();
      ExtendsSelf(run);
      ok := true;
      if n > 0 { ok := CommitBlocks(); } else { NothingPending(); }
      if ok { Stored(); }
    }

    method CommitBlocks() returns (ok: bool)
      requires Valid() && n > 0 && s.phase == Logging(0) && s.changed == map[]
      modifies this`s, this`run, this`n, cache`disk, cache`order, cache.buf, cache.next, cache.prev
      ensures Valid() && Extends(old(run), run)
      ensures ok <==> CanCommit(layout, old(s))
      ensures ok ==> n == 0 && s.phase == Finishing && s.done == old(s.done + s.pending) && s.pending == []
    {
      Counts();
      ok := WriteLog();
      if !ok { return; }
      Counts();
      StillWritable(layout, old(s), s);
      label A:
      ok := FinishCommit();
      ExtendsMore(old(run), old@A(run), run);
    }

    lemma NothingPending()
      requires Valid() && s.phase == Finishing
      ensures s.pending == [] && s.done + s.pending == s.done
    {
      OnRunInv();
    }

    /** While no recovery is pending, bread gives the whole history, uncommitted writes included. */
    lemma Showing()
      requires Valid() && (s.phase == Finishing || s.phase == Running || s.phase.Logging?)
      ensures layout.Ok() && |s.disk| == layout.blocks == |first.disk|
      ensures forall b: nat :: layout.Home(b) && b !in s.changed ==>
                Buffers.Logical(cache.buf[..], cache.disk, (dev, b)) == Playback(first.disk, s.done + s.pending)[b]
    {
      OnRunInv();
      assert Open(CACHE_SHOWS, 0);
      forall b: nat | layout.Home(b) ensures Buffers.Logical(cache.buf[..], cache.disk, (dev, b)) == Logical(s, b) {
        TiedLogical(dev, cache.buf[..], cache.disk, s.disk, s.cached, s.pins, s.held, b);
      }
    }

    /** After a commit, the disk has the history. */
    lemma Stored()
      requires Valid() && s.phase == Finishing
      ensures layout.Ok() && |s.disk| == layout.blocks == |first.disk|
      ensures forall b: nat :: layout.Home(b) ==>
        Buffers.DiskAt(cache.disk, (dev, b)) == Playback(first.disk, s.done)[b]
    {
      Settled();
      forall b: nat | layout.Home(b) ensures Buffers.DiskAt(cache.disk, (dev, b)) == s.disk[b] {
        TiedDisk(dev, cache.buf[..], cache.disk, s.disk, s.cached, s.pins, s.held, b);
      }
    }

    // ----- Recovery -----

    /** The power fails: memory is gone, and binit makes a new cache over the same disk. */
    method Crash()
      requires Valid()
      modifies this`s, this`run, this`n, this`outstanding, this`committing, this`cache
      ensures Valid() && run == old(run) + [Event.Crash] && s == DoCrash(old(s))
      ensures cache.disk == old(cache.disk) && n == 0
      ensures fresh(cache) && fresh(cache.buf) && fresh(cache.next) && fresh(cache.prev)
    {
      ghost var bs := cache.buf[..];
      cache := new BufferCache.Cache(cache.disk);
      n, outstanding, committing := 0, 0, false;
      Rebooted(bs);
      Take(Event.Crash);
    }

    lemma Rebooted(bs: seq<Buffers.Buf>)
      requires dev != 0 && TiedTo(dev, bs, cache.disk, s) && cache.buf.Length == NBUF
      requires forall i :: 0 <= i < NBUF ==> cache.buf[i] == Buffers.Buf(0, 0, false, 0, Buffers.Blank())
      ensures Tied(dev, cache.buf[..], cache.disk, s.disk, map[], multiset{}, multiset{})
    {
      assert Open(CACHE_TIED, 0);
      TiedFresh(dev, cache.buf[..], cache.disk, s.disk);
    }

    /** The count in a header that the log itself wrote is never out of range. */
    lemma OwnHead()
      requires Valid() && s.phase == Down && layout.start in s.cached
      ensures s.cached[layout.start].words[0] <= LOGSIZE
    {
      OnRunInv();
      assert Open(LOG_REPLAYS, 0) && Open(CACHE_COHERENT, 0);
      NothingChanged(s);
    }

    /** The loop of read_head: copy the on-disk header into memory. */
    method CopyHead(i: nat)
      requires Valid() && s.phase == Down && Has(s, layout.start) && i < NBUF
      requires cache.buf[i].Key() == (dev, layout.start)
      modifies this`n, this`s, this`run, block
      ensures Valid() && run == old(run) + [Event.ReadHead] && cache.buf[..] == old(cache.buf[..])
      ensures s == old(s).(lh := HeadBlocks(old(s).cached[layout.start]), phase := Recovering(0))
    {
      TiedAt(dev, cache.buf[..], cache.disk, s.disk, s.cached, s.pins, s.held, i);
      var words := cache.buf[i].data.words;
      OwnHead();
      n := words[0];
      for k := 0 to n
        modifies block
        invariant n == words[0] <= LOGSIZE && block[..k] == words[1..1 + k]
      {
        block[k] := words[1 + k];
        assert block[..k + 1] == block[..k] + [block[k]];
      }
      assert block[..n] == HeadBlocks(s.cached[layout.start]);
      Take(Event.ReadHead);
    }

    /** read_head. */
    method ReadHead() returns (ok: bool)
      requires Valid() && s.phase == Down
      modifies this`n, this`s, this`run, block, cache`order, cache.buf, cache.next, cache.prev
      ensures Valid() && Extends(old(run), run) && s.held == old(s.held) && s.done == old(s.done)
      ensures ok <==> Readable(old(s), layout.start)
      ensures ok ==> s.phase == Recovering(0) && s.changed == map[] && s.pins == old(s.pins)
    {
      Shape();
      OneBack(s.held, layout.start);
      var i := Bread(layout.start);
      if i == Ring.HEAD { return false; }
      ExtendsStep(old(run), run, Event.ReadHead);
      CopyHead(i);
      NoChanges();
      label A:
      Brelse(i);
      ExtendsMore(old(run), old@A(run), run);
      ok := true;
    }

    lemma NoChanges()
      requires Valid() && s.phase != Running
      ensures s.changed == map[]
    {
      OnRunInv();
      NothingChanged(s);
    }

    /** recover_from_log: whatever the crash left, the disk becomes the committed history.  After a
        crash nobody holds a buffer, so the buffers suffice. */
    method Recover() returns (ok: bool)
      requires Valid() && s.phase == Down
      modifies this`s, this`run, this`n, block, cache`disk, cache`order, cache.buf, cache.next, cache.prev
      ensures Valid() && Extends(old(run), run)
      ensures ok ==> n == 0 && s.phase == Running && s.done == old(s.done)
      ensures ok ==>
        |s.disk| == layout.blocks == |first.disk| && layout.Ok() && Holds(layout, s.disk, Playback(first.disk, s.done))
      ensures |Busy(old(s))| + 2 <= NBUF ==> ok
    {
      Counts();
      Unpinned();
      ok := ReadHead();
      if !ok { return; }
      Counts();
      SameBusy(old(s), s);
      label A:
      ok := InstallAndClear();
      ExtendsMore(old(run), old@A(run), run);
    }

    lemma Unpinned()
      requires Valid() && (s.phase == Down || s.phase.Recovering?)
      ensures s.pins == multiset{}
    {
      Shape();
    }

    /** The rest of recover_from_log. */
    method InstallAndClear() returns (ok: bool)
      requires Valid() && s.phase == Recovering(0) && s.changed == map[]
      modifies this`s, this`run, this`n, cache`disk, cache`order, cache.buf, cache.next, cache.prev
      ensures Valid() && Extends(old(run), run)
      ensures ok ==> n == 0 && s.phase == Running && s.done == old(s.done)
      ensures ok ==>
        |s.disk| == layout.blocks == |first.disk| && layout.Ok() && Holds(layout, s.disk, Playback(first.disk, s.done))
      ensures |Busy(old(s))| + 2 <= NBUF ==> ok
    {
      Counts();
      Unpinned();
      ok := InstallTrans(true);
      if !ok { return; }
      Counts();
      Unpinned();
      SameBusy(old(s), s);
      label A:
      ok := ClearLog();
      ExtendsMore(old(run), old@A(run), run);
      if ok { Settled(); }
    }

    // ----- Operations -----

    /** One pass of begin_op's loop: false means that it sleeps and tries again. */
    method BeginOp() returns (granted: bool)
      requires Valid() && !s.phase.Down? && !s.phase.Recovering?
      modifies this`outstanding, this`s, this`run
      ensures Valid() && granted == MayBegin(old(s))
      ensures var e := if granted then Begin else Event.Sleep;
              Enabled(layout, old(s), e) && s == Do(layout, old(s), e) && run == old(run) + [e]
    {
      if committing {
        granted := false;
        Take(Event.Sleep);
      } else if n + (outstanding + 1) * MAXOPBLOCKS > LOGSIZE {
        granted := false;
        Take(Event.Sleep);
      } else {
        Idling();
        outstanding := outstanding + 1;
        Take(Begin);
        granted := true;
      }
    }

    lemma Idling()
      requires Valid() && !committing && !s.phase.Down? && !s.phase.Recovering?
      ensures s.phase == Running
    {
      OnRunInv();
    }

    lemma LiveOperation(op: nat)
      requires Valid() && op < |s.ops| && s.ops[op].live
      ensures outstanding >= 1 && !committing && s.phase == Running
    {
      OnRunInv();
      LiveMeansRunning(s, op);
      LiveWitnessed(s.ops, op);
    }

    /** An operation changes a buffer that it holds. */
    method Modify(ghost op: nat, i: nat, data: Block)
      requires Valid() && op < |s.ops| && s.ops[op].live && i < NBUF && cache.buf[i].dev == dev
      requires layout.Home(cache.buf[i].blockno) && cache.buf[i].blockno in s.held
      requires MayChange(s, op, cache.buf[i].blockno)
      modifies this`s, this`run, cache.buf
      ensures Valid() && run == old(run) + [Event.Modify(op, cache.buf[i].blockno, data)]
      ensures cache.buf[..] == old(cache.buf[..])[i := old(cache.buf[i]).(data := data)]
      ensures var b := cache.buf[i].blockno;
              s == old(s).(cached := old(s.cached)[b := data], changed := old(s.changed)[b := op])
    {
      TiedAt(dev, cache.buf[..], cache.disk, s.disk, s.cached, s.pins, s.held, i);
      ghost var bs := cache.buf[..];
      cache.Change(i, data);
      Take(Event.Modify(op, cache.buf[i].blockno, data));
      TiedData(dev, bs, cache.disk, s.disk, old(s.cached), s.pins, s.held, i, cache.buf[..], s.cached);
    }

    /** log_write of a held buffer; false is the panic on a full log. */
    method LogWrite(ghost op: nat, i: nat) returns (ok: bool)
      requires Valid() && op < |s.ops| && s.ops[op].live && i < NBUF && cache.buf[i].dev == dev
      requires layout.Home(cache.buf[i].blockno) && cache.buf[i].blockno in s.held
      requires MayChange(s, op, cache.buf[i].blockno)
      modifies this`s, this`run, this`n, block, cache.buf
      ensures Valid() && ok == !TooBig(layout, old(s))
      ensures var b := old(cache.buf[i].blockno); var data := old(cache.buf[i].data);
              if ok then s == DoLogWrite(old(s), op, b, data) && run == old(run) + [Event.LogWrite(op, b, data)]
              else s == old(s) && run == old(run)
    {
      LiveOperation(op);
      if n >= LOGSIZE || n >= layout.size - 1 { return false; }
      if outstanding < 1 { return false; }
      var b := cache.buf[i].blockno;
      var k := 0;
      while k < n && block[k] != b
        invariant k <= n && b !in block[..k]
      {
        k := k + 1;
      }
      Absorb(op, i, k);
      ok := true;
    }

    /** The rest of log_write, with k the place of the block in the header. */
    method Absorb(ghost op: nat, i: nat, k: nat)
      requires Valid() && op < |s.ops| && s.ops[op].live && i < NBUF && cache.buf[i].dev == dev
      requires layout.Home(cache.buf[i].blockno) && cache.buf[i].blockno in s.held
      requires MayChange(s, op, cache.buf[i].blockno)
      requires s.outstanding >= 1 && !TooBig(layout, s)
      requires k <= n && cache.buf[i].blockno !in block[..k] && (k < n ==> block[k] == cache.buf[i].blockno)
      modifies this`s, this`run, this`n, block, cache.buf
      ensures Valid()
      ensures var b := old(cache.buf[i].blockno); var data := old(cache.buf[i].data);
              s == DoLogWrite(old(s), op, b, data) && run == old(run) + [Event.LogWrite(op, b, data)]
    {
      ghost var b, data := cache.buf[i].blockno, cache.buf[i].data;
      assert k < n ==> block[..n][k] == b;
      TiedAt(dev, cache.buf[..], cache.disk, s.disk, s.cached, s.pins, s.held, i);
      ghost var t := DoLogWrite(s, op, b, data);
      block[k] := cache.buf[i].blockno;
      if k == n {
        Pin(i);
        n := n + 1;
        assert block[..n] == old(block[..n]) + [b];
      } else {
        assert block[..n] == old(block[..n]);
      }
      assert TiedTo(dev, cache.buf[..], cache.disk, t);
      Take(Event.LogWrite(op, b, data));
    }

    /** bpin. */
    method Pin(i: nat)
      requires cache.Valid() && TiedTo(dev, cache.buf[..], cache.disk, s) && i < NBUF && cache.buf[i].dev == dev
      modifies cache.buf
      ensures cache.Valid() && forall j :: 0 <= j < NBUF ==> cache.buf[j].Key() == old(cache.buf[j]).Key()
      ensures TiedTo(dev, cache.buf[..], cache.disk, s.(pins := s.pins + multiset{old(cache.buf[i].blockno)}))
    {
      ghost var bs := cache.buf[..];
      Adds(s.pins, bs[i].blockno);
      cache.Bpin(i);
      TiedPin(dev, bs, cache.buf[..], cache.disk, s, s.(pins := s.pins + multiset{bs[i].blockno}), i, 1);
    }

    /** end_op: the last operation out commits.  Its panic is unreachable, so false can only be a
        commit that ran out of buffers. */
    method EndOp(ghost op: nat) returns (ok: bool)
      requires Valid() && op < |s.ops| && s.ops[op].live && op !in s.changed.Values
      modifies this`s, this`run, this`n, this`outstanding, this`committing, cache`disk, cache`order, cache.buf
      modifies cache.next, cache.prev
      ensures Valid()
      ensures old(outstanding) > 1 ==> ok && s == DoEnd(old(s), op) && cache.disk == old(cache.disk)
      ensures old(outstanding) == 1 ==> (ok <==> CanCommit(layout, old(s)))
      ensures old(outstanding) == 1 && ok ==>
                && s.phase == Running && n == 0 && !committing && outstanding == 0 && s.asleep == 0
                && s.done == old(s.done + s.pending) && s.pending == []
      ensures old(n) == 0 ==> ok && cache.disk == old(cache.disk)
    {
      LiveOperation(op);
      outstanding := outstanding - 1;
      if committing { return false; }
      committing := outstanding == 0;
      Take(End(op));
      if outstanding > 0 { return true; }
      NoChanges();
      assert Busy(s) == Busy(old(s));
      ok := Commit();
      if ok {
        committing := false;
        Take(Finish);
      }
    }
  }

  lemma StillInstallable(L: Layout, s: State, t: State)
    requires Counted(s) && Counted(t) && s.pins == t.pins && s.held == t.held && s.lh == t.lh && CanWriteLog(L, s)
    ensures CanInstall(L, t)
  {
    forall i: nat | i < |t.lh| ensures Readable(t, L.Slot(i)) { SameReadable(s, t, L.Slot(i)); }
  }

  lemma StillWritable(L: Layout, s: State, t: State)
    requires Counted(s) && Counted(t) && s.pins == t.pins && s.held == t.held && s.lh == t.lh && CanWriteLog(L, s)
    ensures CanWriteLog(L, t) && (Readable(t, L.start) <==> Readable(s, L.start))
  {
    SameReadable(s, t, L.start);
    forall i: nat | i < |t.lh| ensures Readable(t, L.Slot(i)) { SameReadable(s, t, L.Slot(i)); }
  }

  /** What commit and recovery leave alone while blocks move. */
  ghost predicate SameLog(s: State, t: State) {
    && t.lh == s.lh && t.held == s.held && t.changed == s.changed
    && t.done == s.done && t.pending == s.pending
  }

  lemma PinnedAt(bs: seq<nat>, i: nat)
    requires i < |bs|
    ensures bs[i] in multiset(bs)
  {
  }
}
