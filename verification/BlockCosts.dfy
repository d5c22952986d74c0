/** How many blocks a write takes: one for every place of the file that it reaches and that has none. */
module BlockCosts {
  import opened Folding
  import opened Params
  import opened FileBlocks

  /** The places that have a block. */
  ghost function Placed(owner: map<nat, Place>): set<Place> {
    set b | b in owner :: owner[b]
  }

  /** The places that bmap of place bn needs: its own, and the indirect block's beyond the direct ones. */
  function Needs(inum: nat, bn: nat): set<Place> {
    if bn < NDIRECT then {Place(inum, bn)} else {Place(inum, MAXFILE), Place(inum, bn)}
  }

  /** What the n places from lo on need. */
  function NeedsAll(inum: nat, lo: nat, n: nat): set<Place> {
    if n == 0 then {} else NeedsAll(inum, lo, n - 1) + Needs(inum, lo + n - 1)
  }

  ghost function Free(used: set<nat>, size: nat): set<nat> {
    set b: nat | b < size && b !in used
  }

  lemma {:induction false} NeedsAre(inum: nat, lo: nat, m: nat, p: Place)
    requires lo + m <= MAXFILE
    ensures p in NeedsAll(inum, lo, m) <==>
              p.inum == inum && (lo <= p.k < lo + m || (p.k == MAXFILE && m > 0 && lo + m > NDIRECT))
  {
    if m > 0 { NeedsAre(inum, lo, m - 1, p); }
  }

  ghost predicate EnoughParts(owner: map<nat, Place>, used: set<nat>, size: nat, ns: set<Place>) {
    |ns - Placed(owner)| <= |Free(used, size)|
  }

  /** There are enough free blocks for those of the given places that have none. */
  ghost predicate Enough(owner: map<nat, Place>, used: set<nat>, size: nat, ns: set<Place>) {
    forall i: nat :: Open(BLOCKS_ENOUGH, i) ==> EnoughParts(owner, used, size, ns)
  }

  lemma EnoughMeans(owner: map<nat, Place>, used: set<nat>, size: nat, ns: set<Place>)
    ensures Enough(owner, used, size, ns) <==> |ns - Placed(owner)| <= |Free(used, size)|
  {
    assert Open(BLOCKS_ENOUGH, 0);
  }

  ghost predicate GrownParts(owner0: map<nat, Place>, owner: map<nat, Place>, ns: set<Place>) {
    Placed(owner) == Placed(owner0) + ns
  }

  /** Since then, exactly the given places have got blocks, as far as they had none. */
  ghost predicate Grown(owner0: map<nat, Place>, owner: map<nat, Place>, ns: set<Place>) {
    forall i: nat :: Open(PLACES_GROWN, i) ==> GrownParts(owner0, owner, ns)
  }

  ghost predicate ShortParts(owner0: map<nat, Place>, owner: map<nat, Place>, ns: set<Place>) {
    Placed(owner0) <= Placed(owner) <= Placed(owner0) + ns && exists n :: n in ns && n !in Placed(owner)
  }

  /** Since then, some of the given places have got blocks, but not all. */
  ghost predicate Short(owner0: map<nat, Place>, owner: map<nat, Place>, ns: set<Place>) {
    forall i: nat :: Open(PLACES_SHORT, i) ==> ShortParts(owner0, owner, ns)
  }

  /** A place has a block exactly if it has an address. */
  lemma PlacedHasAddr(blocks: seq<Block>, inodes: seq<Inode>, owner: map<nat, Place>, used: set<nat>, meta: nat, i: nat,
                      k: nat)
    requires Sound(blocks, inodes, owner, used, meta, {}) && i < |inodes| && k <= MAXFILE
    ensures Place(i, k) in Placed(owner) <==> Addr(blocks, inodes[i], k) != 0
  {
    assert Open(BLOCKS_SOUND, 0);
    PlaceFacts(blocks, inodes, owner, used, meta, {}, i, k);
  }

  lemma GrownNone(owner: map<nat, Place>)
    ensures Grown(owner, owner, {})
  {
  }

  lemma GrownThere(owner: map<nat, Place>, b: nat, n: Place)
    requires b in owner && owner[b] == n
    ensures Grown(owner, owner, {n})
  {
    assert n in Placed(owner);
  }

  lemma GrownNew(owner: map<nat, Place>, b: nat, n: Place)
    requires b !in owner
    ensures Grown(owner, owner[b := n], {n})
  {
    var owner' := owner[b := n];
    forall m | m in Placed(owner) ensures m in Placed(owner') {
      var p :| p in owner && owner[p] == m;
      assert p in owner' && owner'[p] == m;
    }
    assert owner'[b] == n;
  }

  lemma GrownMore(owner0: map<nat, Place>, owner1: map<nat, Place>, owner2: map<nat, Place>, a: set<Place>,
                  b: set<Place>,
                  all: set<Place>)
    requires Grown(owner0, owner1, a) && Grown(owner1, owner2, b) && all == a + b
    ensures Grown(owner0, owner2, all)
  {
    assert Open(PLACES_GROWN, 0);
  }

  lemma ShortNow(owner: map<nat, Place>, n: Place)
    requires n !in Placed(owner)
    ensures Short(owner, owner, {n})
  {
  }

  lemma ShortMore(owner0: map<nat, Place>, owner1: map<nat, Place>, owner2: map<nat, Place>, a: set<Place>,
                  b: set<Place>,
                  all: set<Place>)
    requires Grown(owner0, owner1, a) && Short(owner1, owner2, b) && a + b <= all
    ensures Short(owner0, owner2, all)
  {
    assert Open(PLACES_GROWN, 0) && Open(PLACES_SHORT, 0);
    var n :| n in b && n !in Placed(owner2);
    assert n in all;
  }

  lemma {:induction false} NeedsGrow(inum: nat, lo: nat, n: nat, m: nat)
    requires n <= m
    ensures NeedsAll(inum, lo, n) <= NeedsAll(inum, lo, m)
    decreases m
  {
    if n < m { NeedsGrow(inum, lo, n, m - 1); }
  }

  lemma NeedsNext(inum: nat, lo: nat, bn: nat, m: nat)
    requires lo <= bn < lo + m
    ensures NeedsAll(inum, lo, bn + 1 - lo) == NeedsAll(inum, lo, bn - lo) + Needs(inum, bn)
    ensures NeedsAll(inum, lo, bn - lo) + Needs(inum, bn) <= NeedsAll(inum, lo, m)
  {
    assert lo + (bn + 1 - lo) - 1 == bn;
    NeedsGrow(inum, lo, bn + 1 - lo, m);
  }

  /** The place that a write of n bytes at off reaches after tot of them. */
  function NextPlace(off: nat, tot: nat, n: nat): nat {
    if tot < n then (off + tot) / BSIZE else EndPlace(off, n)
  }

  lemma NextPlaceBound(off: nat, tot: nat, n: nat)
    requires tot < n
    ensures off / BSIZE <= NextPlace(off, tot, n) < EndPlace(off, n)
  {
  }

  lemma NextPlaceStep(off: nat, tot: nat, next: nat, n: nat)
    requires tot < next <= n && (off + next - 1) / BSIZE == (off + tot) / BSIZE
    requires next == n || (off + next) / BSIZE == (off + tot) / BSIZE + 1
    ensures NextPlace(off, next, n) == NextPlace(off, tot, n) + 1 <= EndPlace(off, n)
  {
  }

  /** There are enough free blocks for the places that n bytes at off reach and that have none. */
  ghost predicate Fits(owner: map<nat, Place>, used: set<nat>, size: nat, inum: nat, off: nat, n: nat) {
    Enough(owner, used, size, NeedsAll(inum, off / BSIZE, EndPlace(off, n) - off / BSIZE))
  }

  // ----- Counting -----

  predicate IsData(meta: nat, b: nat) {
    b >= meta
  }

  ghost function DataBlocks(meta: nat, size: nat): set<nat> {
    set b: nat | b < size && IsData(meta, b)
  }

  ghost function PlacesOf(owner: map<nat, Place>, keys: set<nat>): set<Place>
    requires keys <= owner.Keys
  {
    set b | b in keys :: owner[b]
  }

  lemma {:induction false} SameCount(owner: map<nat, Place>, keys: set<nat>)
    requires keys <= owner.Keys && forall b, c :: b in keys && c in keys && owner[b] == owner[c] ==> b == c
    ensures |PlacesOf(owner, keys)| == |keys|
    decreases keys
  {
    if keys == {} {
      assert PlacesOf(owner, keys) == {};
    } else {
      var c :| c in keys;
      var rest := keys - {c};
      SameCount(owner, rest);
      assert PlacesOf(owner, keys) == PlacesOf(owner, rest) + {owner[c]};
      assert owner[c] !in PlacesOf(owner, rest);
    }
  }

  lemma OnePlace(blocks: seq<Block>, inodes: seq<Inode>, owner: map<nat, Place>)
    requires Owned(blocks, inodes, owner)
    ensures |Placed(owner)| == |owner.Keys|
  {
    forall b, c | b in owner.Keys && c in owner.Keys && owner[b] == owner[c] ensures b == c {}
    SameCount(owner, owner.Keys);
    assert Placed(owner) == PlacesOf(owner, owner.Keys);
  }

  lemma DataSplits(owner: map<nat, Place>, used: set<nat>, meta: nat, size: nat)
    requires forall b: nat :: b < size ==> (b in used <==> b < meta || b in owner)
    requires forall b :: b in owner ==> meta <= b < size
    ensures |Free(used, size)| + |owner.Keys| == |DataBlocks(meta, size)|
  {
    assert Free(used, size) !! owner.Keys;
    assert DataBlocks(meta, size) == Free(used, size) + owner.Keys;
  }

  /** Data blocks are free or placed, each in one place. */
  lemma FreeOrPlaced(blocks: seq<Block>, inodes: seq<Inode>, owner: map<nat, Place>, used: set<nat>, meta: nat)
    requires Sound(blocks, inodes, owner, used, meta, {})
    ensures |Free(used, |blocks|)| + |Placed(owner)| == |DataBlocks(meta, |blocks|)|
  {
    assert Open(BLOCKS_SOUND, 0);
    OnePlace(blocks, inodes, owner);
    DataSplits(owner, used, meta, |blocks|);
  }

  lemma Counted(t0: set<Place>, t: set<Place>, ns: set<Place>)
    requires t0 <= t <= t0 + ns
    ensures |t| - |t0| == |(ns - t0) * t| <= |ns - t0|
    ensures |t| - |t0| == |ns - t0| <==> ns <= t
  {
    assert t == t0 + (ns - t0) * t;
    assert ns - t0 == (ns - t0) * t + (ns - t);
    assert |ns - t| == 0 <==> ns <= t by { if |ns - t| == 0 { assert ns - t == {}; } else { assert ns - t != {}; } }
  }

  /** All places that a write needs have blocks at the end exactly if there were enough at the start. */
  lemma WholeMeansEnough(blocks0: seq<Block>, inodes0: seq<Inode>, owner0: map<nat, Place>, used0: set<nat>,
                         blocks: seq<Block>, inodes: seq<Inode>, owner: map<nat, Place>, used: set<nat>, meta: nat,
                         ns: set<Place>)
    requires Sound(blocks0, inodes0, owner0, used0, meta, {}) && Sound(blocks, inodes, owner, used, meta, {})
    requires |blocks| == |blocks0| && Grown(owner0, owner, ns)
    ensures Enough(owner0, used0, |blocks0|, ns)
  {
    FreeOrPlaced(blocks0, inodes0, owner0, used0, meta);
    FreeOrPlaced(blocks, inodes, owner, used, meta);
    assert Open(PLACES_GROWN, 0);
    Counted(Placed(owner0), Placed(owner), ns);
    EnoughMeans(owner0, used0, |blocks0|, ns);
  }

  lemma ShortMeansTooFew(blocks0: seq<Block>, inodes0: seq<Inode>, owner0: map<nat, Place>, used0: set<nat>,
                         blocks: seq<Block>, inodes: seq<Inode>, owner: map<nat, Place>, used: set<nat>, meta: nat,
                         ns: set<Place>)
    requires Sound(blocks0, inodes0, owner0, used0, meta, {}) && Sound(blocks, inodes, owner, used, meta, {})
    requires |blocks| == |blocks0| && Short(owner0, owner, ns) && forall c: nat :: c < |blocks| ==> c in used
    ensures !Enough(owner0, used0, |blocks0|, ns)
  {
    FreeOrPlaced(blocks0, inodes0, owner0, used0, meta);
    FreeOrPlaced(blocks, inodes, owner, used, meta);
    assert Free(used, |blocks|) == {};
    assert Open(PLACES_SHORT, 0);
    Counted(Placed(owner0), Placed(owner), ns);
    EnoughMeans(owner0, used0, |blocks0|, ns);
  }

  // ----- The condition in the inode's own terms -----

  /** n bytes at off reach place k: it holds some of them, or it is the indirect block and one of them
      lies beyond the direct blocks. */
  predicate Reaches(off: nat, n: nat, k: nat) {
    n > 0 && (off / BSIZE <= k <= (off + n - 1) / BSIZE || (k == MAXFILE && (off + n - 1) / BSIZE >= NDIRECT))
  }

  /** The places they reach that have no address. */
  ghost function Lacking(blocks: seq<Block>, ip: Inode, off: nat, n: nat): set<nat>
    requires ip.Ok()
  {
    set k: nat | k <= MAXFILE && Reaches(off, n, k) && Addr(blocks, ip, k) == 0
  }

  ghost function PlacesIn(inum: nat, ks: set<nat>): set<Place> {
    set k | k in ks :: Place(inum, k)
  }

  lemma {:induction false} PlacesCount(inum: nat, ks: set<nat>)
    ensures |PlacesIn(inum, ks)| == |ks|
    decreases ks
  {
    if ks == {} {
      assert PlacesIn(inum, ks) == {};
    } else {
      var k :| k in ks;
      PlacesCount(inum, ks - {k});
      assert PlacesIn(inum, ks) == PlacesIn(inum, ks - {k}) + {Place(inum, k)};
    }
  }

  lemma LackingIs(blocks: seq<Block>, inodes: seq<Inode>, owner: map<nat, Place>, used: set<nat>, meta: nat, inum: nat,
                  off: nat, n: nat, p: Place)
    requires Sound(blocks, inodes, owner, used, meta, {}) && inum < |inodes| && off + n <= MAXFILE * BSIZE
    ensures p in NeedsAll(inum, off / BSIZE, EndPlace(off, n) - off / BSIZE) && p !in Placed(owner)
            <==> p.inum == inum && p.k in Lacking(blocks, inodes[inum], off, n)
  {
    EndPlaceBounds(off, n);
    NeedsAre(inum, off / BSIZE, EndPlace(off, n) - off / BSIZE, p);
    if p.inum == inum && p.k <= MAXFILE { PlacedHasAddr(blocks, inodes, owner, used, meta, inum, p.k); }
  }

  /** A write of n bytes at off fits exactly if there are as many free blocks as it reaches places
      without an address. */
  lemma FitsMeans(blocks: seq<Block>, inodes: seq<Inode>, owner: map<nat, Place>, used: set<nat>, meta: nat, inum: nat,
                  off: nat, n: nat)
    requires Sound(blocks, inodes, owner, used, meta, {}) && inum < |inodes| && off + n <= MAXFILE * BSIZE
    ensures Fits(owner, used, |blocks|, inum, off, n)
            <==> |Lacking(blocks, inodes[inum], off, n)| <= |set b: nat | b < |blocks| && b !in used|
  {
    var all := NeedsAll(inum, off / BSIZE, EndPlace(off, n) - off / BSIZE);
    var lacking := Lacking(blocks, inodes[inum], off, n);
    forall p ensures p in all && p !in Placed(owner) <==> p.inum == inum && p.k in lacking {
      LackingIs(blocks, inodes, owner, used, meta, inum, off, n, p);
    }
    assert all - Placed(owner) == PlacesIn(inum, lacking);
    PlacesCount(inum, lacking);
    EnoughMeans(owner, used, |blocks|, all);
  }
}
