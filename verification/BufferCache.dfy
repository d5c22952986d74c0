/** What the buffers of kernel/bio.c hold, and what bread returns for a block, as values. */
module Buffers {
  import opened DiskBlocks
  import opened Folding

  type Data = Block
  type Key = (nat, nat)  // device and block number

  datatype Buf = Buf(dev: nat, blockno: nat, valid: bool, refcnt: nat, data: Data) {
    function Key(): Key {
      (dev, blockno)
    }
  }

  function Blank(): Data {
    Block(seq(WORDS, _ => 0))
  }

  function DiskAt(disk: map<Key, Data>, k: Key): Data {
    if k in disk then disk[k] else Blank()
  }

  /** The first buffer that holds block k, or |bs|. */
  function Find(bs: seq<Buf>, k: Key): (i: nat)
    ensures i <= |bs| && (i < |bs| ==> bs[i].valid && bs[i].Key() == k)
    ensures i == |bs| ==> forall j :: 0 <= j < |bs| && bs[j].valid ==> bs[j].Key() != k
  {
    if bs == [] then 0
    else if bs[0].valid && bs[0].Key() == k then 0
    else 1 + Find(bs[1..], k)
  }

  /** The content of block k as bread returns it: the cached copy if there is one, else the disk's. */
  function Logical(bs: seq<Buf>, disk: map<Key, Data>, k: Key): Data {
    var i := Find(bs, k);
    if i < |bs| then bs[i].data else DiskAt(disk, k)
  }

  /** At most one buffer stands for a block of a real device, and only such blocks are ever read. */
  predicate Unique(bs: seq<Buf>) {
    && (forall i, j :: 0 <= i < j < |bs| && bs[i].dev != 0 ==> bs[i].Key() != bs[j].Key())
    && (forall i :: 0 <= i < |bs| && bs[i].valid ==> bs[i].dev != 0)
  }

  /** The disk has what buffer x holds. */
  predicate Saved(x: Buf, disk: map<Key, Data>) {
    x.valid ==> x.data == DiskAt(disk, x.Key())
  }

  /** Buffers that nobody uses agree with the disk. */
  ghost predicate Clean(bs: seq<Buf>, disk: map<Key, Data>) {
    forall k: nat :: Open(CACHE_CLEAN, k) ==> forall i :: 0 <= i < |bs| && bs[i].refcnt == 0 ==> Saved(bs[i], disk)
  }

  /** Only buffer i changed: the cache is clean if it was and buffer i is in use or saved. */
  lemma CleanStill(bs: seq<Buf>, disk: map<Key, Data>, bs': seq<Buf>, i: nat)
    requires Clean(bs, disk) && i < |bs| == |bs'| && (forall j :: 0 <= j < |bs| && j != i ==> bs'[j] == bs[j])
    requires bs'[i].refcnt > 0 || Saved(bs'[i], disk)
    ensures Clean(bs', disk)
  {
    assert Open(CACHE_CLEAN, 0);
  }

  lemma CleanAt(bs: seq<Buf>, disk: map<Key, Data>, i: nat)
    requires i < |bs| && bs[i].refcnt == 0
    ensures Clean(bs, disk) ==> Saved(bs[i], disk)
  {
    assert Open(CACHE_CLEAN, 0);
  }

  /** bread cannot tell the two states apart, except perhaps on block k. */
  ghost predicate SameBut(bs: seq<Buf>, disk: map<Key, Data>, bs': seq<Buf>, disk': map<Key, Data>, k: Key) {
    forall q: Key :: q.0 != 0 && q != k ==> Logical(bs', disk', q) == Logical(bs, disk, q)
  }

  ghost predicate Same(bs: seq<Buf>, disk: map<Key, Data>, bs': seq<Buf>, disk': map<Key, Data>) {
    forall q: Key :: q.0 != 0 ==> Logical(bs', disk', q) == Logical(bs, disk, q)
  }

  lemma LogicalOf(bs: seq<Buf>, disk: map<Key, Data>, i: nat)
    requires Unique(bs) && i < |bs| && bs[i].valid && bs[i].dev != 0
    ensures Logical(bs, disk, bs[i].Key()) == bs[i].data
  {
    var j := Find(bs, bs[i].Key());
    assert j < |bs|;
  }

  /** Content of a block none of whose buffers changed. */
  lemma LogicalElsewhere(bs: seq<Buf>, disk: map<Key, Data>, bs': seq<Buf>, disk': map<Key, Data>, q: Key)
    requires Unique(bs) && Unique(bs') && |bs| == |bs'| && q.0 != 0 && DiskAt(disk, q) == DiskAt(disk', q)
    requires forall j :: 0 <= j < |bs| && bs[j].Key() == q && bs[j].valid ==> bs'[j] == bs[j].(refcnt := bs'[j].refcnt)
    requires forall j :: 0 <= j < |bs| && bs'[j].Key() == q && bs'[j].valid ==>
      bs'[j] == bs[j].(refcnt := bs'[j].refcnt)
    ensures Logical(bs', disk', q) == Logical(bs, disk, q)
  {
    var i, i' := Find(bs, q), Find(bs', q);
    if i < |bs| { LogicalOf(bs', disk', i); }
    if i' < |bs'| { LogicalOf(bs, disk, i'); }
  }

  /** Reference counts are not visible to bread.  Dropping the last reference leaves the cache clean
      exactly if the disk has the content. */
  lemma CountIsInvisible(bs: seq<Buf>, disk: map<Key, Data>, i: nat, n: nat)
    requires Unique(bs) && i < |bs| && bs[i].refcnt > 0
    ensures var bs' := bs[i := bs[i].(refcnt := n)];
            && Unique(bs') && Same(bs, disk, bs', disk)
            && (Clean(bs', disk) <==> Clean(bs, disk) && (n == 0 ==> Saved(bs[i], disk)))
  {
    CountsAreInvisible(bs, disk, i, n);
    var bs' := bs[i := bs[i].(refcnt := n)];
    if Clean(bs', disk) {
      CleanStill(bs', disk, bs, i);
      if n == 0 { CleanAt(bs', disk, i); }
    } else if Clean(bs, disk) && (n == 0 ==> Saved(bs[i], disk)) {
      CleanStill(bs, disk, bs', i);
    }
  }

  lemma CountsAreInvisible(bs: seq<Buf>, disk: map<Key, Data>, i: nat, n: nat)
    requires Unique(bs) && i < |bs|
    ensures var bs' := bs[i := bs[i].(refcnt := n)];
            Unique(bs') && Same(bs, disk, bs', disk) && (n > 0 && Clean(bs, disk) ==> Clean(bs', disk))
  {
    var bs' := bs[i := bs[i].(refcnt := n)];
    assert Unique(bs');
    forall q: Key | q.0 != 0 ensures Logical(bs', disk, q) == Logical(bs, disk, q) {
      LogicalElsewhere(bs, disk, bs', disk, q);
    }
    if n > 0 && Clean(bs, disk) { CleanStill(bs, disk, bs', i); }
  }

  /** Recycling an unused buffer for a block that is not cached is invisible to bread exactly when the
      disk has what the buffer holds. */
  lemma RecycleInvisibleIff(bs: seq<Buf>, disk: map<Key, Data>, i: nat, k: Key)
    requires Unique(bs) && i < |bs| && bs[i].refcnt == 0 && k.0 != 0
    requires forall j :: 0 <= j < |bs| ==> bs[j].Key() != k
    ensures var bs' := bs[i := Buf(k.0, k.1, false, 1, bs[i].data)];
            && Unique(bs') && (Same(bs, disk, bs', disk) <==> Saved(bs[i], disk))
            && (Clean(bs, disk) ==> Clean(bs', disk) && Saved(bs[i], disk))
  {
    var bs' := bs[i := Buf(k.0, k.1, false, 1, bs[i].data)];
    assert Unique(bs');
    forall q: Key | q.0 != 0 && !(bs[i].valid && q == bs[i].Key())
      ensures Logical(bs', disk, q) == Logical(bs, disk, q) {
      LogicalElsewhere(bs, disk, bs', disk, q);
    }
    if bs[i].valid {
      var q := bs[i].Key();
      LogicalOf(bs, disk, i);
      assert forall j :: 0 <= j < |bs'| && bs'[j].valid ==> bs'[j].Key() != q;
      assert Logical(bs', disk, q) == DiskAt(disk, q);
    }
    if Clean(bs, disk) {
      CleanAt(bs, disk, i);
      CleanStill(bs, disk, bs', i);
    }
  }

  /** A buffer changed and released without a log_write, as writei does when its copy from user space
      fails: bread gives the change until the buffer is recycled, and then what the disk has. */
  lemma UnloggedChangeIsLost(bs: seq<Buf>, disk: map<Key, Data>, i: nat, d: Data, k: Key)
    requires Unique(bs) && i < |bs| && bs[i].valid && bs[i].refcnt == 1 && k.0 != 0
    requires forall j :: 0 <= j < |bs| ==> bs[j].Key() != k
    requires d != DiskAt(disk, bs[i].Key())
    ensures var released := bs[i := bs[i].(data := d, refcnt := 0)];
            && !Clean(released, disk) && Logical(released, disk, bs[i].Key()) == d
            && Logical(released[i := Buf(k.0, k.1, false, 1, d)], disk, bs[i].Key()) == DiskAt(disk, bs[i].Key()) != d
  {
    var released := bs[i := bs[i].(data := d, refcnt := 0)];
    assert Unique(released) && !Saved(released[i], disk);
    CleanAt(released, disk, i);
    LogicalOf(released, disk, i);
    var recycled := released[i := Buf(k.0, k.1, false, 1, d)];
    assert forall j :: 0 <= j < |recycled| && recycled[j].valid ==> recycled[j].Key() != bs[i].Key();
  }

  /** The block that bget was asked for reads the same afterwards, whatever the recycled buffer held. */
  lemma SameAfterBget(bs: seq<Buf>, disk: map<Key, Data>, bs': seq<Buf>, i: nat, k: Key)
    requires Unique(bs) && Unique(bs') && |bs| == |bs'| && i < |bs| && k.0 != 0
    requires forall j :: 0 <= j < |bs| && j != i ==> bs'[j] == bs[j]
    requires || bs'[i] == bs[i].(refcnt := bs'[i].refcnt)
             || (!bs'[i].valid && bs'[i].Key() == k && forall j :: 0 <= j < |bs| ==> bs[j].Key() != k)
    ensures Logical(bs', disk, k) == Logical(bs, disk, k)
  {
    LogicalElsewhere(bs, disk, bs', disk, k);
  }

  /** Loading a buffer from the disk changes nothing that bread returns. */
  lemma LoadIsInvisible(bs: seq<Buf>, disk: map<Key, Data>, i: nat)
    requires Unique(bs) && i < |bs| && !bs[i].valid && bs[i].dev != 0
    ensures var bs' := bs[i := bs[i].(valid := true, data := DiskAt(disk, bs[i].Key()))];
            Unique(bs') && Same(bs, disk, bs', disk) && (Clean(bs, disk) ==> Clean(bs', disk))
  {
    var bs' := bs[i := bs[i].(valid := true, data := DiskAt(disk, bs[i].Key()))];
    assert Unique(bs');
    forall q: Key | q.0 != 0 ensures Logical(bs', disk, q) == Logical(bs, disk, q) {
      if q == bs[i].Key() {
        LogicalOf(bs', disk, i);
        assert forall j :: 0 <= j < |bs| && bs[j].valid ==> bs[j].Key() != q;
      } else {
        LogicalElsewhere(bs, disk, bs', disk, q);
      }
    }
    if Clean(bs, disk) { CleanStill(bs, disk, bs', i); }
  }

  /** A holder's change to its buffer is a change of that block and no other. */
  lemma ChangeIsLocal(bs: seq<Buf>, disk: map<Key, Data>, i: nat, d: Data)
    requires Unique(bs) && i < |bs| && bs[i].valid && bs[i].refcnt > 0
    ensures var bs' := bs[i := bs[i].(data := d)];
            && Unique(bs') && Logical(bs', disk, bs[i].Key()) == d && (Clean(bs, disk) ==> Clean(bs', disk))
            && SameBut(bs, disk, bs', disk, bs[i].Key())
  {
    var bs' := bs[i := bs[i].(data := d)];
    assert Unique(bs');
    LogicalOf(bs', disk, i);
    forall q: Key | q.0 != 0 && q != bs[i].Key() ensures Logical(bs', disk, q) == Logical(bs, disk, q) {
      LogicalElsewhere(bs, disk, bs', disk, q);
    }
    if Clean(bs, disk) { CleanStill(bs, disk, bs', i); }
  }

  /** Writing a buffer to the disk changes nothing that bread returns. */
  lemma WriteIsInvisible(bs: seq<Buf>, disk: map<Key, Data>, i: nat)
    requires Unique(bs) && i < |bs| && bs[i].valid
    ensures var disk' := disk[bs[i].Key() := bs[i].data];
            Same(bs, disk, bs, disk') && (Clean(bs, disk) ==> Clean(bs, disk'))
  {
    var disk' := disk[bs[i].Key() := bs[i].data];
    forall q: Key | q.0 != 0 ensures Logical(bs, disk', q) == Logical(bs, disk, q) {
      if q == bs[i].Key() {
        LogicalOf(bs, disk', i);
        LogicalOf(bs, disk, i);
      } else {
        LogicalElsewhere(bs, disk, bs, disk', q);
      }
    }
   if Clean(bs, disk) { CleanWritten(bs, disk, i); }
  }

  lemma CleanWritten(bs: seq<Buf>, disk: map<Key, Data>, i: nat)
    requires Unique(bs) && i < |bs| && bs[i].valid && Clean(bs, disk)
    ensures Clean(bs, disk[bs[i].Key() := bs[i].data])
  {
    assert Open(CACHE_CLEAN, 0);
    assert forall j :: 0 <= j < |bs| && j != i && bs[j].valid ==> bs[j].Key() != bs[i].Key();
  }
}

/** kernel/bio.c: the cache whose links, counts and contents are updated in place. */
module BufferCache {
  import opened Folding
  import opened Params
  import opened Ring
  import opened Buffers

  /** The list is a permutation of all buffers in both directions, and no block has two buffers. */
  ghost predicate Sound(nx: seq<nat>, pv: seq<nat>, order: seq<nat>, bs: seq<Buf>) {
    forall k: nat :: Open(CACHE_SOUND, k) ==> Linked(nx, pv, order) && Unique(bs)
  }

  /** Buffer b is unused, and every less recently used buffer is in use. */
  ghost predicate LeastRecent(order: seq<nat>, bs: seq<Buf>, b: nat) {
    && b < |bs| && bs[b].refcnt == 0
    && exists i :: 0 <= i < |order| && order[i] == b
                   && forall j :: i < j < |order| ==> order[j] < |bs| && bs[order[j]].refcnt > 0
  }

  /** Buffer b has become the most recently used one, and the others keep their order. */
  ghost predicate Fronted(was: seq<nat>, now: seq<nat>, b: nat) {
    exists i :: 0 <= i < |was| && was[i] == b && now == [b] + Without(was, i)
  }

  /** The orders that a history of last releases goes through. */
  ghost predicate Orders(os: seq<seq<nat>>, h: seq<nat>) {
    && |os| == |h| + 1 && Distinct(os[0])
    && forall k :: 0 <= k < |h| ==> Fronted(os[k], os[k + 1], h[k])
  }

  /** When b was last released, or -1 if it never was. */
  function LastTime(h: seq<nat>, b: nat): (t: int)
    ensures -1 <= t < |h| && (t >= 0 ==> h[t] == b) && forall k :: t < k < |h| ==> h[k] != b
  {
    if h == [] then -1 else if h[|h| - 1] == b then |h| - 1 else LastTime(h[..|h| - 1], b)
  }

  /** Where the buffer at place k was before place i moved to the front. */
  function Place(i: nat, k: nat): nat
    requires k > 0
  {
    if k <= i then k - 1 else k
  }

  lemma FrontedAt(was: seq<nat>, now: seq<nat>, b: nat) returns (i: nat)
    requires Fronted(was, now, b)
    ensures |now| == |was| && i < |was| && was[i] == b == now[0]
    ensures forall k: nat :: 0 < k < |now| ==> now[k] == was[Place(i, k)]
  {
    i :| 0 <= i < |was| && was[i] == b && now == [b] + Without(was, i);
  }

  lemma OrderKept(was: seq<nat>, now: seq<nat>, b: nat)
    requires Fronted(was, now, b) && Distinct(was)
    ensures Distinct(now)
  {
    var i := FrontedAt(was, now, b);
    forall k, m | 0 <= k < m < |now| ensures now[k] != now[m] {
      assert now[m] == was[Place(i, m)];
      if k > 0 { assert now[k] == was[Place(i, k)]; }
    }
    forall k | 0 <= k < |now| ensures now[k] < NBUF {
      if k > 0 { assert now[k] == was[Place(i, k)]; }
    }
  }

  lemma {:induction false} OrderIsRecency(os: seq<seq<nat>>, h: seq<nat>, i: nat, j: nat)
    requires Orders(os, h) && i < j < |os[|h|]|
    ensures LastTime(h, os[|h|][i]) >= LastTime(h, os[|h|][j])
    decreases |h|
  {
    if h != [] {
      var m := |h| - 1;
      var was, now := os[m], os[m + 1];
      DistinctAt(os, h);
      var from := FrontedAt(was, now, h[m]);
      assert now[j] == was[Place(from, j)];
      if i > 0 {
        assert now[i] == was[Place(from, i)];
        OrderIsRecency(os[..m + 1], h[..m], Place(from, i), Place(from, j));
      }
    }
  }

  lemma {:induction false} DistinctAt(os: seq<seq<nat>>, h: seq<nat>)
    requires Orders(os, h)
    ensures Distinct(os[|h|])
    decreases |h|
  {
    if h != [] {
      DistinctAt(os[..|h|], h[..|h| - 1]);
      OrderKept(os[|h| - 1], os[|h|], h[|h| - 1]);
    }
  }

  /** The list is in the order of the last releases, so the buffer that bget recycles is, of all unused
      buffers, the one whose last release is longest ago. */
  lemma VictimIsOldest(os: seq<seq<nat>>, h: seq<nat>, bs: seq<Buf>, b: nat, j: nat)
    requires Orders(os, h) && LeastRecent(os[|h|], bs, b) && j in os[|h|] && j < |bs| && bs[j].refcnt == 0
    ensures LastTime(h, b) <= LastTime(h, j)
  {
    var order := os[|h|];
    var i, k: nat :| 0 <= i < |order| && order[i] == b
                && (forall n :: i < n < |order| ==> order[n] < |bs| && bs[order[n]].refcnt > 0)
                && k < |order| && order[k] == j;
    if k < i { OrderIsRecency(os, h, k, i); }
  }

  class Cache {
    const next: array<nat>
    const prev: array<nat>
    const buf: array<Buf>
    var disk: map<Key, Data>
    ghost var order: seq<nat>  // the buffers, most recently used first

    ghost predicate Valid()
      reads this, next, prev, buf
    {
      && next != prev && next.Length == prev.Length == NBUF + 1 && buf.Length == NBUF
      && |order| == NBUF && Sound(next[..], prev[..], order, buf[..])
    }

    /** binit over a zeroed bcache: every buffer is linked in and stands for (0, 0). */
    constructor (image: map<Key, Data>)
      ensures Valid() && disk == image && fresh(next) && fresh(prev) && fresh(buf)
      ensures forall q: Key :: Logical(buf[..], disk, q) == DiskAt(image, q)
      ensures Clean(buf[..], disk) && forall i :: 0 <= i < NBUF ==> buf[i] == Buf(0, 0, false, 0, Blank())
    {
      next := new nat[NBUF + 1](_ => HEAD);
      prev := new nat[NBUF + 1](_ => HEAD);
      buf := new Buf[NBUF](_ => Buf(0, 0, false, 0, Blank()));
      disk := image;
      order := [];
      new;
      var b := 0;
      while b < NBUF
        invariant 0 <= b <= NBUF && |order| == b && forall i :: 0 <= i < b ==> order[i] < b
        invariant next != prev && next.Length == prev.Length == NBUF + 1
        invariant Linked(next[..], prev[..], order) && disk == image
        invariant forall i :: 0 <= i < NBUF ==> buf[i] == Buf(0, 0, false, 0, Blank())
      {
        LinkFront(b);
        b := b + 1;
      }
    }

    /** Links a buffer in as the most recently used one. */
    method LinkFront(b: nat)
      requires next != prev && next.Length == prev.Length == NBUF + 1
      requires Linked(next[..], prev[..], order) && b < NBUF && b !in order
      modifies next, prev, this`order
      ensures Linked(next[..], prev[..], order) && order == [b] + old(order)
    {
      FirstInRange(next[..], prev[..], order);
      LinkedIn(next[..], prev[..], order, b);
      next[b] := next[HEAD];
      prev[b] := HEAD;
      prev[next[HEAD]] := b;
      next[HEAD] := b;
      order := [b] + order;
      assert next[..] == LinkNext(old(next[..]), b);
      assert prev[..] == LinkPrev(old(next[..]), old(prev[..]), b);
    }

    /** Unlinks the buffer at place i of the order. */
    method Unlink(b: nat, ghost i: nat)
      requires next != prev && next.Length == prev.Length == NBUF + 1
      requires Linked(next[..], prev[..], order) && i < |order| && order[i] == b
      modifies next, prev, this`order
      ensures Linked(next[..], prev[..], order) && order == Without(old(order), i)
    {
      InRange(next[..], prev[..], order, i);
      Unlinked(next[..], prev[..], order, i);
      prev[next[b]] := prev[b];
      next[prev[b]] := next[b];
      order := Without(order, i);
      assert next[..] == UnlinkNext(old(next[..]), old(prev[..]), b);
      assert prev[..] == UnlinkPrev(old(next[..]), old(prev[..]), b);
    }

    method MoveToFront(b: nat)
      requires next != prev && next.Length == prev.Length == NBUF + 1
      requires Linked(next[..], prev[..], order) && |order| == NBUF && b < NBUF
      modifies next, prev, this`order
      ensures Linked(next[..], prev[..], order) && |order| == NBUF
      ensures Fronted(old(order), order, b)
    {
      Permutation(order, b);
      ghost var i :| 0 <= i < NBUF && order[i] == b;
      Unlink(b, i);
      LinkFront(b);
    }

    /** The first loop of bget: the buffer that stands for the block, or the head if there is none. */
    method FindCached(dev: nat, blockno: nat) returns (b: nat)
      requires Valid()
      ensures b < NBUF ==> buf[b].Key() == (dev, blockno)
      ensures b >= NBUF ==> b == HEAD && forall j :: 0 <= j < NBUF ==> buf[j].Key() != (dev, blockno)
    {
      assert Open(CACHE_SOUND, 0);
      FirstInRange(next[..], prev[..], order);
      b := next[HEAD];
      ghost var k := 1;
      while b != HEAD
        invariant 1 <= k <= NBUF + 1 && b == At(order, k) <= NBUF
        invariant forall j :: 0 <= j < k - 1 ==> buf[order[j]].Key() != (dev, blockno)
        decreases NBUF + 1 - k
      {
        if buf[b].dev == dev && buf[b].blockno == blockno { return; }
        InRange(next[..], prev[..], order, k - 1);
        b := next[b];
        k := k + 1;
      }
      forall j | 0 <= j < NBUF ensures buf[j].Key() != (dev, blockno) {
        Permutation(order, j);
      }
    }

    /** The second loop of bget: the least recently used buffer with no references, or the head. */
    method FindUnused() returns (b: nat)
      requires Valid()
      ensures b < NBUF ==> LeastRecent(order, buf[..], b)
      ensures b >= NBUF ==> b == HEAD && forall j :: 0 <= j < NBUF ==> buf[j].refcnt > 0
    {
      assert Open(CACHE_SOUND, 0);
      FirstInRange(next[..], prev[..], order);
      b := prev[HEAD];
      ghost var k := NBUF;
      while b != HEAD
        invariant 0 <= k <= NBUF && b == At(order, k) <= NBUF
        invariant forall j :: k <= j < NBUF ==> buf[order[j]].refcnt > 0
        decreases k
      {
        if buf[b].refcnt == 0 {
          assert order[k - 1] == b;
          return;
        }
        InRange(next[..], prev[..], order, k - 1);
        b := prev[b];
        k := k - 1;
      }
      forall j | 0 <= j < NBUF ensures buf[j].refcnt > 0 {
        Permutation(order, j);
      }
    }

    /** bget: the cached buffer with one more reference, or the least recently used unused buffer for
        the new block, or HEAD where the source panics.  What bread returns stays the same exactly if the
        disk has what the recycled buffer held, as it does in a clean cache. */
    method Bget(dev: nat, blockno: nat) returns (b: nat)
      requires Valid() && dev != 0
      modifies buf
      ensures Valid() && order == old(order) && b <= HEAD
      ensures b == HEAD <==> && (forall j :: 0 <= j < NBUF ==> old(buf[j]).Key() != (dev, blockno))
                             && (forall j :: 0 <= j < NBUF ==> old(buf[j]).refcnt > 0)
      ensures Logical(buf[..], disk, (dev, blockno)) == old(Logical(buf[..], disk, (dev, blockno)))
      ensures b == HEAD ==> buf[..] == old(buf[..])
      ensures b < HEAD && old(buf[b]).Key() == (dev, blockno) ==>
                && buf[..] == old(buf[..])[b := old(buf[b]).(refcnt := old(buf[b]).refcnt + 1)]
                && Same(old(buf[..]), disk, buf[..], disk)
      ensures b < HEAD && old(buf[b]).Key() != (dev, blockno) ==>
                && LeastRecent(order, old(buf[..]), b)
                && (forall j :: 0 <= j < NBUF ==> old(buf[j]).Key() != (dev, blockno))
                && buf[..] == old(buf[..])[b := Buf(dev, blockno, false, 1, old(buf[b]).data)]
                && (Same(old(buf[..]), disk, buf[..], disk) <==> Saved(old(buf[b]), disk))
      ensures old(Clean(buf[..], disk)) ==> Clean(buf[..], disk) && Same(old(buf[..]), disk, buf[..], disk)
    {
      assert Open(CACHE_SOUND, 0);
      b := FindCached(dev, blockno);
      if b != HEAD {
        CountsAreInvisible(buf[..], disk, b, buf[b].refcnt + 1);
        buf[b] := buf[b].(refcnt := buf[b].refcnt + 1);
        assert buf[..] == old(buf[..])[b := old(buf[b]).(refcnt := old(buf[b]).refcnt + 1)];
        return;
      }
      b := FindUnused();
      if b != HEAD {
        RecycleInvisibleIff(buf[..], disk, b, (dev, blockno));
        buf[b] := Buf(dev, blockno, false, 1, buf[b].data);
        assert buf[..] == old(buf[..])[b := Buf(dev, blockno, false, 1, old(buf[b]).data)];
        SameAfterBget(old(buf[..]), disk, buf[..], b, (dev, blockno));
      }
    }

    /** The read of bread, if the buffer has not been read before. */
    method Fill(b: nat)
      requires Valid() && b < NBUF && buf[b].dev != 0 && buf[b].refcnt > 0
      modifies buf
      ensures Valid() && Same(old(buf[..]), disk, buf[..], disk)
      ensures buf[b].data == old(Logical(buf[..], disk, buf[b].Key()))
      ensures buf[..] == old(buf[..])[b := if old(buf[b]).valid then old(buf[b])
                                           else old(buf[b]).(valid := true, data := DiskAt(disk, buf[b].Key()))]
      ensures old(Clean(buf[..], disk)) ==> Clean(buf[..], disk)
    {
      assert Open(CACHE_SOUND, 0);
      ghost var key := buf[b].Key();
      if !buf[b].valid {
        LoadIsInvisible(buf[..], disk, b);
        buf[b] := buf[b].(valid := true, data := DiskAt(disk, buf[b].Key()));
        assert buf[..] == old(buf[..])[b := old(buf[b]).(valid := true, data := DiskAt(disk, key))];
      }
      LogicalOf(buf[..], disk, b);
    }

    /** bread: the buffer holds the block's content. */
    method Bread(dev: nat, blockno: nat) returns (b: nat)
      requires Valid() && dev != 0
      modifies buf
      ensures Valid() && order == old(order) && b <= HEAD
      ensures b == HEAD <==> && (forall j :: 0 <= j < NBUF ==> old(buf[j]).Key() != (dev, blockno))
                             && (forall j :: 0 <= j < NBUF ==> old(buf[j]).refcnt > 0)
      ensures b == HEAD ==> buf[..] == old(buf[..])
      ensures b < HEAD ==> buf[b].data == Logical(old(buf[..]), disk, (dev, blockno))
      ensures b < HEAD && old(buf[b]).Key() == (dev, blockno) ==>
                buf[..] == old(buf[..])[b := Buf(dev, blockno, true, old(buf[b]).refcnt + 1,
                                                 if old(buf[b]).valid then old(buf[b]).data
                                                 else DiskAt(disk, (dev, blockno)))]
      ensures b < HEAD && old(buf[b]).Key() != (dev, blockno) ==>
                && old(buf[b]).refcnt == 0
                && (forall j :: 0 <= j < NBUF ==> old(buf[j]).Key() != (dev, blockno))
                && buf[..] == old(buf[..])[b := Buf(dev, blockno, true, 1, DiskAt(disk, (dev, blockno)))]
      ensures old(Clean(buf[..], disk)) ==> Clean(buf[..], disk) && Same(old(buf[..]), disk, buf[..], disk)
    {
      b := Bget(dev, blockno);
      if b == HEAD { return; }
      Fill(b);
    }

    /** A holder changes the content of its buffer. */
    method Change(b: nat, d: Data)
      requires Valid() && b < NBUF && buf[b].valid && buf[b].refcnt > 0
      modifies buf
      ensures Valid() && order == old(order) && buf[..] == old(buf[..])[b := old(buf[b]).(data := d)]
      ensures Logical(buf[..], disk, buf[b].Key()) == d
      ensures SameBut(old(buf[..]), disk, buf[..], disk, buf[b].Key())
      ensures old(Clean(buf[..], disk)) ==> Clean(buf[..], disk)
    {
      assert Open(CACHE_SOUND, 0);
      ChangeIsLocal(buf[..], disk, b, d);
      buf[b] := buf[b].(data := d);
      assert buf[..] == old(buf[..])[b := old(buf[b]).(data := d)];
    }

    /** bwrite of a held buffer. */
    method Bwrite(b: nat)
      requires Valid() && b < NBUF && buf[b].valid && buf[b].refcnt > 0
      modifies this`disk
      ensures Valid() && disk == old(disk)[buf[b].Key() := buf[b].data]
      ensures Same(buf[..], old(disk), buf[..], disk) && Saved(buf[b], disk)
      ensures old(Clean(buf[..], disk)) ==> Clean(buf[..], disk)
    {
      assert Open(CACHE_SOUND, 0);
      WriteIsInvisible(buf[..], disk, b);
      disk := disk[buf[b].Key() := buf[b].data];
    }

    /** brelse: nothing that bread returns changes, and the cache stays clean exactly if other users
        remain or the disk has the content.  A buffer nobody uses any more becomes the most recently
        used one. */
    method Brelse(b: nat)
      requires Valid() && b < NBUF && buf[b].refcnt > 0
      modifies buf, next, prev, this`order
      ensures Valid() && buf[..] == old(buf[..])[b := old(buf[b]).(refcnt := old(buf[b]).refcnt - 1)]
      ensures Same(old(buf[..]), disk, buf[..], disk)
      ensures Clean(buf[..], disk) <==> old(Clean(buf[..], disk) && (buf[b].refcnt == 1 ==> Saved(buf[b], disk)))
      ensures old(buf[b]).refcnt > 1 ==> order == old(order)
      ensures old(buf[b]).refcnt == 1 ==> Fronted(old(order), order, b)
    {
      assert Open(CACHE_SOUND, 0);
      Uncount(b);
      if buf[b].refcnt == 0 {
        MoveToFront(b);
      }
    }

    /** b->refcnt-- */
    method Uncount(b: nat)
      requires Valid() && b < NBUF && buf[b].refcnt > 0
      modifies buf
      ensures Valid() && buf[..] == old(buf[..])[b := old(buf[b]).(refcnt := old(buf[b]).refcnt - 1)]
      ensures order == old(order) && Same(old(buf[..]), disk, buf[..], disk)
      ensures Clean(buf[..], disk) <==> old(Clean(buf[..], disk) && (buf[b].refcnt == 1 ==> Saved(buf[b], disk)))
    {
      assert Open(CACHE_SOUND, 0);
      ghost var bs := buf[..];
      CountIsInvisible(bs, disk, b, bs[b].refcnt - 1);
      buf[b] := buf[b].(refcnt := buf[b].refcnt - 1);
      assert buf[..] == bs[b := bs[b].(refcnt := bs[b].refcnt - 1)];
    }

    method Bpin(b: nat)
      requires Valid() && b < NBUF
      modifies buf
      ensures Valid() && buf[..] == old(buf[..])[b := old(buf[b]).(refcnt := old(buf[b]).refcnt + 1)]
      ensures order == old(order) && Same(old(buf[..]), disk, buf[..], disk)
      ensures old(Clean(buf[..], disk)) ==> Clean(buf[..], disk)
    {
      assert Open(CACHE_SOUND, 0);
      CountsAreInvisible(buf[..], disk, b, buf[b].refcnt + 1);
      buf[b] := buf[b].(refcnt := buf[b].refcnt + 1);
      assert buf[..] == old(buf[..])[b := old(buf[b]).(refcnt := old(buf[b]).refcnt + 1)];
    }

    /** bunpin. */
    method Bunpin(b: nat)
      requires Valid() && b < NBUF && buf[b].refcnt > 0
      modifies buf
      ensures Valid() && buf[..] == old(buf[..])[b := old(buf[b]).(refcnt := old(buf[b]).refcnt - 1)]
      ensures order == old(order) && Same(old(buf[..]), disk, buf[..], disk)
      ensures Clean(buf[..], disk) <==> old(Clean(buf[..], disk) && (buf[b].refcnt == 1 ==> Saved(buf[b], disk)))
    {
      Uncount(b);
    }
  }
}
