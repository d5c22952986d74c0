/**
 The buffers of kernel/bio.c as the cache of the log's state machine: each buffer of the log's device
 holds a cached block with as many references as there are pins and holders, and each cached block
 has its buffer.  Every call of the cache that the log makes keeps the two together.
 */
module CacheTie {
  import opened Folding
  import opened Params
  import opened DiskBlocks
  import opened Buffers
  import LogMachine
  import LogSafety

  /** A buffer is unused since binit, or it is the one of a cached block. */
  predicate BufTied(dev: nat, x: Buf, cached: map<nat, Block>, pins: multiset<nat>, held: multiset<nat>) {
    || (x.dev == 0 && !x.valid && x.refcnt == 0)
    || (x.dev == dev && x.valid && x.blockno in cached && x.data == cached[x.blockno]
         && x.refcnt == pins[x.blockno] + held[x.blockno])
  }

  ghost predicate TiedParts(dev: nat, bs: seq<Buf>, image: map<Key, Block>, disk: seq<Block>,
                      cached: map<nat, Block>, pins: multiset<nat>, held: multiset<nat>)
  {
    && dev != 0 && |bs| == NBUF && Unique(bs)
    && (forall i :: 0 <= i < NBUF ==> BufTied(dev, bs[i], cached, pins, held))
    && (forall b :: b in cached ==> Find(bs, (dev, b)) < NBUF)
    && (forall b :: b in pins || b in held ==> b in cached)
    && (forall b: nat :: b < |disk| ==> DiskAt(image, (dev, b)) == disk[b])
  }

  ghost predicate Tied(dev: nat, bs: seq<Buf>, image: map<Key, Block>, disk: seq<Block>,
                       cached: map<nat, Block>, pins: multiset<nat>, held: multiset<nat>)
  {
    forall k: nat :: Open(CACHE_TIED, k) ==> TiedParts(dev, bs, image, disk, cached, pins, held)
  }

  lemma TiedFresh(dev: nat, bs: seq<Buf>, image: map<Key, Block>, disk: seq<Block>)
    requires dev != 0 && |bs| == NBUF && forall i :: 0 <= i < NBUF ==> bs[i] == Buf(0, 0, false, 0, Blank())
    requires forall b: nat :: b < |disk| ==> DiskAt(image, (dev, b)) == disk[b]
    ensures Tied(dev, bs, image, disk, map[], multiset{}, multiset{})
  {
  }

  /** The buffer of the log's device is the one of its block. */
  lemma TiedAt(dev: nat, bs: seq<Buf>, image: map<Key, Block>, disk: seq<Block>,
               cached: map<nat, Block>, pins: multiset<nat>, held: multiset<nat>, i: nat)
    requires Tied(dev, bs, image, disk, cached, pins, held) && i < |bs| && bs[i].dev == dev
    ensures bs[i].valid && bs[i].blockno in cached && bs[i].data == cached[bs[i].blockno]
    ensures bs[i].refcnt == pins[bs[i].blockno] + held[bs[i].blockno]
  {
    assert Open(CACHE_TIED, 0);
  }

  /** bget finds a block exactly if it is cached. */
  lemma TiedFound(dev: nat, bs: seq<Buf>, image: map<Key, Block>, disk: seq<Block>,
                  cached: map<nat, Block>, pins: multiset<nat>, held: multiset<nat>, b: nat)
    requires Tied(dev, bs, image, disk, cached, pins, held)
    ensures dev != 0 && |bs| == NBUF
    ensures b in cached <==> exists i :: 0 <= i < NBUF && bs[i].Key() == (dev, b)
  {
    assert Open(CACHE_TIED, 0);
  }

  lemma TiedDisk(dev: nat, bs: seq<Buf>, image: map<Key, Block>, disk: seq<Block>,
                 cached: map<nat, Block>, pins: multiset<nat>, held: multiset<nat>, b: nat)
    requires Tied(dev, bs, image, disk, cached, pins, held) && b < |disk|
    ensures DiskAt(image, (dev, b)) == disk[b]
  {
    assert Open(CACHE_TIED, 0);
  }

  /** What bread returns is the cached copy, or what the disk has. */
  lemma TiedLogical(dev: nat, bs: seq<Buf>, image: map<Key, Block>, disk: seq<Block>,
                    cached: map<nat, Block>, pins: multiset<nat>, held: multiset<nat>, b: nat)
    requires Tied(dev, bs, image, disk, cached, pins, held) && b < |disk|
    ensures Logical(bs, image, (dev, b)) == if b in cached then cached[b] else disk[b]
  {
    assert Open(CACHE_TIED, 0);
    var i := Find(bs, (dev, b));
    if i < NBUF { assert BufTied(dev, bs[i], cached, pins, held); }
  }

  lemma FoundStill(dev: nat, bs: seq<Buf>, bs': seq<Buf>, cached: map<nat, Block>)
    requires |bs| == |bs'| == NBUF && forall b :: b in cached ==> Find(bs, (dev, b)) < NBUF
    requires forall j :: 0 <= j < NBUF ==> bs'[j].valid == bs[j].valid && bs'[j].Key() == bs[j].Key()
    ensures forall b :: b in cached ==> Find(bs', (dev, b)) < NBUF
  {
    forall b | b in cached ensures Find(bs', (dev, b)) < NBUF {
      assert bs'[Find(bs, (dev, b))].Key() == (dev, b);
    }
  }

  lemma OthersTied(dev: nat, bs: seq<Buf>, bs': seq<Buf>, cached: map<nat, Block>, pins: multiset<nat>,
                   held: multiset<nat>,
                   i: nat, cached': map<nat, Block>, pins': multiset<nat>, held': multiset<nat>)
    requires |bs| == |bs'| == NBUF && i < NBUF && bs' == bs[i := bs'[i]] && Unique(bs) && bs[i].dev == dev != 0
    requires forall j :: 0 <= j < NBUF ==> BufTied(dev, bs[j], cached, pins, held)
    requires cached'.Keys == cached.Keys && BufTied(dev, bs'[i], cached', pins', held')
    requires forall b :: b in cached && b != bs[i].blockno ==>
      cached'[b] == cached[b] && pins'[b] == pins[b] && held'[b] == held[b]
    ensures forall j :: 0 <= j < NBUF ==> BufTied(dev, bs'[j], cached', pins', held')
  {
    forall j | 0 <= j < NBUF && j != i ensures BufTied(dev, bs'[j], cached', pins', held') {
      assert BufTied(dev, bs[j], cached, pins, held);
      assert bs[j].dev != 0 ==> bs[j].Key() != bs[i].Key();
    }
  }

  /** One buffer changes its count or content, together with its block. */
  lemma TiedUpdate(dev: nat, bs: seq<Buf>, image: map<Key, Block>, disk: seq<Block>, cached: map<nat, Block>,
                   pins: multiset<nat>, held: multiset<nat>, i: nat, bs': seq<Buf>, cached': map<nat, Block>,
                   pins': multiset<nat>, held': multiset<nat>)
    requires Tied(dev, bs, image, disk, cached, pins, held) && i < |bs| == NBUF && bs[i].dev == dev
    requires |bs'| == NBUF && bs' == bs[i := bs'[i]] && bs'[i].valid && bs'[i].Key() == bs[i].Key()
    requires cached'.Keys == cached.Keys && BufTied(dev, bs'[i], cached', pins', held')
    requires forall b :: b != bs[i].blockno ==>
      pins'[b] == pins[b] && held'[b] == held[b] && (b in cached ==> cached'[b] == cached[b])
    ensures Tied(dev, bs', image, disk, cached', pins', held')
  {
    assert Open(CACHE_TIED, 0);
    assert BufTied(dev, bs[i], cached, pins, held);
    FoundStill(dev, bs, bs', cached);
    OthersTied(dev, bs, bs', cached, pins, held, i, cached', pins', held');
    assert Unique(bs');
    assert forall b :: (b in pins' || b in held') && b != bs[i].blockno ==> b in pins || b in held;
  }

  /** The count of a buffer moves with the pins and holders of its block. */
  lemma TiedCount(dev: nat, bs: seq<Buf>, image: map<Key, Block>, disk: seq<Block>, cached: map<nat, Block>,
                  pins: multiset<nat>, held: multiset<nat>, i: nat, bs': seq<Buf>, pins': multiset<nat>,
                  held': multiset<nat>)
    requires Tied(dev, bs, image, disk, cached, pins, held) && i < |bs| == |bs'| && bs[i].dev == dev
    requires bs' == bs[i := bs'[i]] && bs'[i] == bs[i].(refcnt := bs'[i].refcnt)
    requires bs'[i].refcnt == pins'[bs[i].blockno] + held'[bs[i].blockno]
    requires forall b :: b != bs[i].blockno ==> pins'[b] == pins[b] && held'[b] == held[b]
    ensures Tied(dev, bs', image, disk, cached, pins', held')
  {
    TiedFound(dev, bs, image, disk, cached, pins, held, 0);
    TiedAt(dev, bs, image, disk, cached, pins, held, i);
    TiedUpdate(dev, bs, image, disk, cached, pins, held, i, bs', cached, pins', held');
  }

  lemma TiedData(dev: nat, bs: seq<Buf>, image: map<Key, Block>, disk: seq<Block>, cached: map<nat, Block>,
                 pins: multiset<nat>, held: multiset<nat>, i: nat, bs': seq<Buf>, cached': map<nat, Block>)
    requires Tied(dev, bs, image, disk, cached, pins, held) && i < |bs| == |bs'| && bs[i].dev == dev
    requires bs' == bs[i := bs'[i]] && bs'[i] == bs[i].(data := bs'[i].data)
    requires cached' == cached[bs[i].blockno := bs'[i].data]
    ensures Tied(dev, bs', image, disk, cached', pins, held)
  {
    TiedFound(dev, bs, image, disk, cached, pins, held, 0);
    TiedAt(dev, bs, image, disk, cached, pins, held, i);
    TiedUpdate(dev, bs, image, disk, cached, pins, held, i, bs', cached', pins, held);
  }

  lemma TiedWrite(dev: nat, bs: seq<Buf>, image: map<Key, Block>, disk: seq<Block>,
                  cached: map<nat, Block>, pins: multiset<nat>, held: multiset<nat>, b: nat, d: Block)
    requires Tied(dev, bs, image, disk, cached, pins, held) && b < |disk|
    ensures Tied(dev, bs, image[(dev, b) := d], disk[b := d], cached, pins, held)
  {
    assert Open(CACHE_TIED, 0);
  }

  /** What stays cached when buffer x is given up. */
  function Without(cached: map<nat, Block>, x: Buf): map<nat, Block> {
    if x.dev == 0 then cached else cached - {x.blockno}
  }

  /** A block b that is not cached is read into the unused buffer i, and the block that was there
      leaves the cache. */
  ghost predicate Loads(dev: nat, bs: seq<Buf>, disk: seq<Block>, cached: map<nat, Block>, i: nat, b: nat,
                        bs': seq<Buf>, cached': map<nat, Block>)
  {
    && dev != 0 && i < |bs| == NBUF && bs[i].refcnt == 0 && b < |disk| && b !in cached
    && bs' == bs[i := Buf(dev, b, true, 1, disk[b])]
    && cached' == Without(cached, bs[i])[b := disk[b]]
  }

  lemma TiedLoad(dev: nat, bs: seq<Buf>, image: map<Key, Block>, disk: seq<Block>, cached: map<nat, Block>,
                 pins: multiset<nat>, held: multiset<nat>, i: nat, b: nat,
                 bs': seq<Buf>, cached': map<nat, Block>, held': multiset<nat>)
    requires Tied(dev, bs, image, disk, cached, pins, held) && Loads(dev, bs, disk, cached, i, b, bs', cached')
    requires held' == held + multiset{b}
    ensures Tied(dev, bs', image, disk, cached', pins, held')
  {
    LoadedUnique(dev, bs, image, disk, cached, pins, held, i, b, bs', cached');
    LoadedFound(dev, bs, image, disk, cached, pins, held, i, b, bs', cached');
    LoadedBufs(dev, bs, image, disk, cached, pins, held, i, b, bs', cached', held');
    LoadedCached(dev, bs, image, disk, cached, pins, held, i, b, bs', cached', held');
    forall x: nat | x < |disk| ensures DiskAt(image, (dev, x)) == disk[x] {
      TiedDisk(dev, bs, image, disk, cached, pins, held, x);
    }
  }

  lemma LoadedUnique(dev: nat, bs: seq<Buf>, image: map<Key, Block>, disk: seq<Block>, cached: map<nat, Block>,
                     pins: multiset<nat>, held: multiset<nat>, i: nat, b: nat, bs': seq<Buf>, cached': map<nat, Block>)
    requires Tied(dev, bs, image, disk, cached, pins, held) && Loads(dev, bs, disk, cached, i, b, bs', cached')
    ensures Unique(bs')
  {
    assert Unique(bs) by { assert Open(CACHE_TIED, 0); }
    TiedFound(dev, bs, image, disk, cached, pins, held, b);
  }

  lemma LoadedFound(dev: nat, bs: seq<Buf>, image: map<Key, Block>, disk: seq<Block>, cached: map<nat, Block>,
                    pins: multiset<nat>, held: multiset<nat>, i: nat, b: nat, bs': seq<Buf>, cached': map<nat, Block>)
    requires Tied(dev, bs, image, disk, cached, pins, held) && Loads(dev, bs, disk, cached, i, b, bs', cached')
    ensures forall x :: x in cached' ==> Find(bs', (dev, x)) < NBUF
  {
    forall x | x in cached' ensures Find(bs', (dev, x)) < NBUF {
      if x == b {
        assert bs'[i].Key() == (dev, x);
      } else {
        assert Find(bs, (dev, x)) < NBUF by { assert Open(CACHE_TIED, 0); }
        assert bs'[Find(bs, (dev, x))].Key() == (dev, x);
      }
    }
  }

  lemma LoadedBufs(dev: nat, bs: seq<Buf>, image: map<Key, Block>, disk: seq<Block>, cached: map<nat, Block>,
                   pins: multiset<nat>, held: multiset<nat>, i: nat, b: nat,
                   bs': seq<Buf>, cached': map<nat, Block>, held': multiset<nat>)
    requires Tied(dev, bs, image, disk, cached, pins, held) && Loads(dev, bs, disk, cached, i, b, bs', cached')
    requires held' == held + multiset{b}
    ensures forall j :: 0 <= j < NBUF ==> BufTied(dev, bs'[j], cached', pins, held')
  {
    assert b !in pins && b !in held by { assert Open(CACHE_TIED, 0); }
    forall j | 0 <= j < NBUF && j != i ensures BufTied(dev, bs'[j], cached', pins, held') {
      assert BufTied(dev, bs[j], cached, pins, held) && BufTied(dev, bs[i], cached, pins, held)
             && (bs[j].dev != 0 ==> bs[j].Key() != bs[i].Key()) by { assert Open(CACHE_TIED, 0); }
    }
  }

  lemma LoadedCached(dev: nat, bs: seq<Buf>, image: map<Key, Block>, disk: seq<Block>, cached: map<nat, Block>,
                     pins: multiset<nat>, held: multiset<nat>, i: nat, b: nat,
                     bs': seq<Buf>, cached': map<nat, Block>, held': multiset<nat>)
    requires Tied(dev, bs, image, disk, cached, pins, held) && Loads(dev, bs, disk, cached, i, b, bs', cached')
    requires held' == held + multiset{b}
    ensures forall x :: x in pins || x in held' ==> x in cached'
  {
    forall x | x in pins || x in held' ensures x in cached' {
      if x != b {
        assert x in cached && BufTied(dev, bs[i], cached, pins, held) by { assert Open(CACHE_TIED, 0); }
      }
    }
  }

  /** The victim of a recycling is neither pinned nor held. */
  lemma TiedVictim(dev: nat, bs: seq<Buf>, image: map<Key, Block>, disk: seq<Block>,
                   cached: map<nat, Block>, pins: multiset<nat>, held: multiset<nat>, i: nat)
    requires Tied(dev, bs, image, disk, cached, pins, held) && i < |bs| && bs[i].refcnt == 0
    ensures bs[i].dev == 0 ==> |cached| < NBUF
    ensures bs[i].dev != 0 ==> bs[i].blockno in cached && bs[i].blockno !in pins && bs[i].blockno !in held
  {
    CachedCount(dev, bs, image, disk, cached, pins, held);
    InUseBound(dev, bs);
    assert dev != 0 && |bs| == NBUF && BufTied(dev, bs[i], cached, pins, held) by { assert Open(CACHE_TIED, 0); }
  }

  // ----- Counting -----

  function InUse(dev: nat, bs: seq<Buf>): set<nat> {
    set i: nat | i < |bs| && bs[i].dev == dev
  }

  lemma {:induction false} InUseBound(dev: nat, bs: seq<Buf>)
    ensures |InUse(dev, bs)| <= |bs|
    ensures |InUse(dev, bs)| == |bs| <==> forall i :: 0 <= i < |bs| ==> bs[i].dev == dev
  {
    if bs != [] {
      var n := |bs| - 1;
      InUseBound(dev, bs[..n]);
      assert InUse(dev, bs) == InUse(dev, bs[..n]) + if bs[n].dev == dev then {n} else {};
      assert (forall i :: 0 <= i < |bs| ==> bs[i].dev == dev)
             <==> (forall i :: 0 <= i < n ==> bs[..n][i].dev == dev) && bs[n].dev == dev;
    }
  }

  function Numbers(bs: seq<Buf>, at: set<nat>): set<nat> {
    set i | i in at && i < |bs| :: bs[i].blockno
  }

  lemma {:induction false} NumbersCount(dev: nat, bs: seq<Buf>, at: set<nat>)
    requires dev != 0 && Unique(bs) && forall i :: i in at ==> i < |bs| && bs[i].dev == dev
    ensures |Numbers(bs, at)| == |at|
    decreases |at|
  {
    if at != {} {
      var i :| i in at;
      NumbersCount(dev, bs, at - {i});
      assert bs[i].blockno !in Numbers(bs, at - {i}) by {
        assert forall j :: j in at - {i} ==> bs[j].Key() != bs[i].Key();
      }
      assert Numbers(bs, at) == Numbers(bs, at - {i}) + {bs[i].blockno};
    }
  }

  /** There are as many cached blocks as buffers of the device. */
  lemma CachedCount(dev: nat, bs: seq<Buf>, image: map<Key, Block>, disk: seq<Block>,
                    cached: map<nat, Block>, pins: multiset<nat>, held: multiset<nat>)
    requires Tied(dev, bs, image, disk, cached, pins, held)
    ensures |cached| == |InUse(dev, bs)|
  {
    assert Open(CACHE_TIED, 0);
    NumbersCount(dev, bs, InUse(dev, bs));
    assert Numbers(bs, InUse(dev, bs)) == cached.Keys by {
      forall b | b in cached ensures b in Numbers(bs, InUse(dev, bs)) {
        assert Find(bs, (dev, b)) in InUse(dev, bs);
      }
    }
  }

  lemma SubsetCount(a: set<nat>, b: set<nat>)
    requires a <= b
    ensures |a| <= |b| && (|a| == |b| <==> a == b)
  {
    assert |b - a| == |b| - |a|;
  }

  function Referred(cached: map<nat, Block>, pins: multiset<nat>, held: multiset<nat>): set<nat> {
    set b | b in cached.Keys && (b in pins || b in held)
  }

  /** Every buffer is in use if and only if the pinned and held blocks are NBUF. */
  lemma AllInUse(dev: nat, bs: seq<Buf>, image: map<Key, Block>, disk: seq<Block>,
                 cached: map<nat, Block>, pins: multiset<nat>, held: multiset<nat>)
    requires Tied(dev, bs, image, disk, cached, pins, held)
    ensures |bs| == NBUF && |cached| <= NBUF
    ensures (forall i :: 0 <= i < NBUF ==> bs[i].refcnt > 0) <==> |Referred(cached, pins, held)| == NBUF
  {
    CachedCount(dev, bs, image, disk, cached, pins, held);
    InUseBound(dev, bs);
    SubsetCount(Referred(cached, pins, held), cached.Keys);
    assert |bs| == NBUF && dev != 0 by { assert Open(CACHE_TIED, 0); }
    if forall i :: 0 <= i < NBUF ==> bs[i].refcnt > 0 {
      EveryBufferUsed(dev, bs, image, disk, cached, pins, held);
    }
    if |Referred(cached, pins, held)| == NBUF {
      EveryBlockReferred(dev, bs, image, disk, cached, pins, held);
    }
  }

  lemma EveryBufferUsed(dev: nat, bs: seq<Buf>, image: map<Key, Block>, disk: seq<Block>,
                        cached: map<nat, Block>, pins: multiset<nat>, held: multiset<nat>)
    requires Tied(dev, bs, image, disk, cached, pins, held) && |bs| == NBUF
    requires forall i :: 0 <= i < NBUF ==> bs[i].refcnt > 0
    ensures (forall i :: 0 <= i < NBUF ==> bs[i].dev == dev) && Referred(cached, pins, held) == cached.Keys
  {
    assert Open(CACHE_TIED, 0);
    assert forall i :: 0 <= i < NBUF ==> BufTied(dev, bs[i], cached, pins, held);
    forall b | b in cached ensures b in pins || b in held {
      assert bs[Find(bs, (dev, b))].refcnt > 0;
    }
  }

  lemma EveryBlockReferred(dev: nat, bs: seq<Buf>, image: map<Key, Block>, disk: seq<Block>,
                           cached: map<nat, Block>, pins: multiset<nat>, held: multiset<nat>)
    requires Tied(dev, bs, image, disk, cached, pins, held) && |bs| == NBUF
    requires Referred(cached, pins, held) == cached.Keys
    requires forall i :: 0 <= i < NBUF ==> bs[i].dev == dev
    ensures forall i :: 0 <= i < NBUF ==> bs[i].refcnt > 0
  {
    assert Open(CACHE_TIED, 0);
    forall i | 0 <= i < NBUF ensures bs[i].refcnt > 0 {
      assert BufTied(dev, bs[i], cached, pins, held);
      assert bs[i].blockno in Referred(cached, pins, held);
    }
  }

  // ----- Clean -----

  /** Where a buffer differs from the disk only while pinned or held by its changer, the buffers that
      nobody uses agree with the disk. */
  lemma TiedClean(L: LogMachine.Layout, dev: nat, bs: seq<Buf>, image: map<Key, Block>, disk: seq<Block>,
                  cached: map<nat, Block>, pins: multiset<nat>, held: multiset<nat>, dirty: set<nat>)
    requires Tied(dev, bs, image, disk, cached, pins, held)
    requires LogSafety.Coherent(disk, cached, pins, dirty) && LogSafety.Holding(L, cached, held, dirty)
    ensures Clean(bs, image)
  {
    assert Open(CACHE_TIED, 0) && Open(CACHE_COHERENT, 0) && Open(CACHE_HELD, 0);
    forall i | 0 <= i < |bs| && bs[i].refcnt == 0 ensures Saved(bs[i], image) {
      assert BufTied(dev, bs[i], cached, pins, held);
    }
  }
}
