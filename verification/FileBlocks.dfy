/**
 Which disk block holds which part of which file (kernel/fs.c), as values: the block map of an
 inode with its direct and indirect blocks, who owns each block, and the bytes of a file.
 */
module FileBlocks {
  import opened Folding
  import opened Params

  const BSIZE := 1024
  const NDIRECT := 12
  const NINDIRECT := 256
  const MAXFILE := NDIRECT + NINDIRECT
  const WORD := 0x1_0000_0000

  type Bytes = b: seq<byte> | |b| == BSIZE witness seq(BSIZE, _ => 0)

  datatype Block = Block(bytes: Bytes)

  const ZERO: Block := Block(seq(BSIZE, _ => 0))

  function Join(b0: int, b1: int, b2: int, b3: int): (w: nat)
    requires b0 >= 0 && b1 >= 0 && b2 >= 0 && b3 >= 0
  {
    b0 + 256 * b1 + 65536 * b2 + 16777216 * b3
  }

  lemma SplitJoin(v: nat)
    requires v < WORD
    ensures v / 16777216 < 256
    ensures Join(v % 256, v / 256 % 256, v / 65536 % 256, v / 16777216) == v
  {
    assert v == 256 * (v / 256) + v % 256;
    assert v / 256 == 256 * (v / 65536) + v / 256 % 256;
    assert v / 65536 == 256 * (v / 16777216) + v / 65536 % 256;
  }

  /** Entry i of a block read as an array of 32-bit words, low byte first. */
  function Word(b: Block, i: nat): (w: nat)
    requires i < NINDIRECT
  {
    Join(b.bytes[4 * i], b.bytes[4 * i + 1], b.bytes[4 * i + 2], b.bytes[4 * i + 3])
  }

  function SetWord(b: Block, i: nat, v: nat): (r: Block)
    requires i < NINDIRECT && v < WORD
  {
    Block(b.bytes[4 * i := v % 256][4 * i + 1 := v / 256 % 256]
            [4 * i + 2 := v / 65536 % 256][4 * i + 3 := v / 16777216])
  }

  lemma WordRoundTrip(b: Block, i: nat, v: nat, j: nat)
    requires i < NINDIRECT && j < NINDIRECT && v < WORD
    ensures Word(SetWord(b, i, v), j) == if j == i then v else Word(b, j)
  {
    SplitJoin(v);
    var r := SetWord(b, i, v);
    if j == i {
      assert r.bytes[4 * i] == v % 256 && r.bytes[4 * i + 1] == v / 256 % 256;
      assert r.bytes[4 * i + 2] == v / 65536 % 256 && r.bytes[4 * i + 3] == v / 16777216;
    } else {
      assert r.bytes[4 * j] == b.bytes[4 * j] && r.bytes[4 * j + 1] == b.bytes[4 * j + 1];
      assert r.bytes[4 * j + 2] == b.bytes[4 * j + 2] && r.bytes[4 * j + 3] == b.bytes[4 * j + 3];
    }
  }

  /** a[i] = v */
  method StoreWord(b: Block, i: nat, v: nat) returns (r: Block)
    requires i < NINDIRECT && v < WORD
    ensures EntrySet(b, r, i, v)
  {
    r := SetWord(b, i, v);
    forall x: nat | x < NINDIRECT ensures Word(r, x) == if x == i then v else Word(b, x) {
      WordRoundTrip(b, i, v, x);
    }
  }

  lemma ZeroWords(i: nat)
    requires i < NINDIRECT
    ensures Word(ZERO, i) == 0
  {
  }

  datatype Inode = Inode(addrs: seq<nat>, size: nat) {
    predicate Ok() {
      |addrs| == NDIRECT + 1 && size <= MAXFILE * BSIZE
    }
  }

  /** Where block k of the file is, 0 if nowhere; place MAXFILE is the indirect block itself. */
  function Addr(blocks: seq<Block>, ip: Inode, k: nat): nat
    requires ip.Ok() && k <= MAXFILE
  {
    if k == MAXFILE then ip.addrs[NDIRECT]
    else if k < NDIRECT then ip.addrs[k]
    else if 0 < ip.addrs[NDIRECT] < |blocks| then Word(blocks[ip.addrs[NDIRECT]], k - NDIRECT)
    else 0
  }

  /** A place in a file. */
  datatype Place = Place(inum: nat, k: nat)

  ghost predicate AllOk(inodes: seq<Inode>) {
    forall i :: 0 <= i < |inodes| ==> inodes[i].Ok()
  }

  /** Each block number in an inode or indirect block names a block that belongs to that place alone,
      and `owner` lists exactly those blocks. */
  ghost predicate Owned(blocks: seq<Block>, inodes: seq<Inode>, owner: map<nat, Place>) {
    && AllOk(inodes)
    && (forall i: nat, k: nat :: i < |inodes| && k <= MAXFILE && Addr(blocks, inodes[i], k) != 0 ==>
          Addr(blocks, inodes[i], k) in owner && owner[Addr(blocks, inodes[i], k)] == Place(i, k))
    && (forall b :: b in owner ==>
          && 0 < b < |blocks| && owner[b].inum < |inodes| && owner[b].k <= MAXFILE
          && Addr(blocks, inodes[owner[b].inum], owner[b].k) == b)
  }

  /** Changing a block that is no inode's indirect block moves nothing. */
  lemma AddrSame(blocks: seq<Block>, inodes: seq<Inode>, owner: map<nat, Place>, b: nat, d: Block, i: nat, k: nat)
    requires Owned(blocks, inodes, owner) && b < |blocks| && (b in owner ==> owner[b].k != MAXFILE)
    requires i < |inodes| && k <= MAXFILE
    ensures Addr(blocks[b := d], inodes[i], k) == Addr(blocks, inodes[i], k)
  {
    assert Addr(blocks, inodes[i], MAXFILE) == inodes[i].addrs[NDIRECT];
  }

  lemma WriteKeepsOwned(blocks: seq<Block>, inodes: seq<Inode>, owner: map<nat, Place>, b: nat, d: Block)
    requires Owned(blocks, inodes, owner) && b < |blocks| && (b in owner ==> owner[b].k != MAXFILE)
    ensures Owned(blocks[b := d], inodes, owner)
  {
    var blocks' := blocks[b := d];
    forall i: nat, k: nat | i < |inodes| && k <= MAXFILE && Addr(blocks', inodes[i], k) != 0
      ensures Addr(blocks', inodes[i], k) in owner && owner[Addr(blocks', inodes[i], k)] == Place(i, k)
    {
      AddrSame(blocks, inodes, owner, b, d, i, k);
      assert Addr(blocks, inodes[i], k) != 0;
    }
    forall c | c in owner ensures Addr(blocks', inodes[owner[c].inum], owner[c].k) == c {
      AddrSame(blocks, inodes, owner, b, d, owner[c].inum, owner[c].k);
    }
  }

  // ----- Linking a free block into a file -----

  /** The new block map has the one new entry and is otherwise the old one. */
  ghost predicate Extends(blocks: seq<Block>, inodes: seq<Inode>, blocks': seq<Block>, inodes': seq<Inode>, at: Place,
                          b: nat) {
    && |blocks'| == |blocks| && |inodes'| == |inodes| && AllOk(inodes) && AllOk(inodes') && at.inum < |inodes|
    && at.k <= MAXFILE
    && (forall i: nat, k: nat :: i < |inodes| && k <= MAXFILE ==>
          Addr(blocks', inodes'[i], k) == if Place(i, k) == at then b else Addr(blocks, inodes[i], k))
  }

  lemma ExtendKeepsOwned(blocks: seq<Block>, inodes: seq<Inode>, owner: map<nat, Place>,
                         blocks': seq<Block>, inodes': seq<Inode>, at: Place, b: nat)
    requires Owned(blocks, inodes, owner) && Extends(blocks, inodes, blocks', inodes', at, b)
    requires 0 < b < |blocks| && b !in owner && Addr(blocks, inodes[at.inum], at.k) == 0
    ensures Owned(blocks', inodes', owner[b := at])
  {
    var owner' := owner[b := at];
    forall i: nat, k: nat | i < |inodes'| && k <= MAXFILE && Addr(blocks', inodes'[i], k) != 0
      ensures Addr(blocks', inodes'[i], k) in owner' && owner'[Addr(blocks', inodes'[i], k)] == Place(i, k)
    {
      assert Addr(blocks', inodes'[i], k) == if Place(i, k) == at then b else Addr(blocks, inodes[i], k);
    }
    forall c | c in owner'
      ensures && 0 < c < |blocks'| && owner'[c].inum < |inodes'| && owner'[c].k <= MAXFILE
              && Addr(blocks', inodes'[owner'[c].inum], owner'[c].k) == c
    {
      if c != b {
        assert owner[c] != at;
        assert Place(owner[c].inum, owner[c].k) == owner[c];
      }
    }
  }

  /** ip->addrs[k] = b for a direct block. */
  lemma LinkDirect(blocks: seq<Block>, inodes: seq<Inode>, i: nat, k: nat, b: nat)
    requires AllOk(inodes) && i < |inodes| && k < NDIRECT
    ensures var ip := inodes[i].(addrs := inodes[i].addrs[k := b]);
            ip.Ok() && Extends(blocks, inodes, blocks, inodes[i := ip], Place(i, k), b)
  {
  }

  /** ip->addrs[NDIRECT] = b for a zeroed block b. */
  lemma LinkIndirect(blocks: seq<Block>, inodes: seq<Inode>, i: nat, b: nat)
    requires AllOk(inodes) && i < |inodes| && inodes[i].addrs[NDIRECT] == 0 && 0 < b < |blocks| && blocks[b] == ZERO
    ensures var ip := inodes[i].(addrs := inodes[i].addrs[NDIRECT := b]);
            ip.Ok() && Extends(blocks, inodes, blocks, inodes[i := ip], Place(i, MAXFILE), b)
  {
    forall j: nat | j < NINDIRECT ensures Word(ZERO, j) == 0 { ZeroWords(j); }
  }

  /** nb is the indirect block with entry j set to v. */
  ghost predicate EntrySet(b: Block, nb: Block, j: nat, v: nat) {
    forall x: nat :: x < NINDIRECT ==> Word(nb, x) == if x == j then v else Word(b, x)
  }

  /** a[j] = b in the indirect block. */
  lemma LinkEntry(blocks: seq<Block>, inodes: seq<Inode>, owner: map<nat, Place>, i: nat, j: nat, b: nat, nb: Block)
    requires Owned(blocks, inodes, owner) && i < |inodes| && j < NINDIRECT
    requires 0 < inodes[i].addrs[NDIRECT] < |blocks| && EntrySet(blocks[inodes[i].addrs[NDIRECT]], nb, j, b)
    ensures Extends(blocks, inodes, blocks[inodes[i].addrs[NDIRECT] := nb], inodes, Place(i, NDIRECT + j), b)
  {
    var ind := inodes[i].addrs[NDIRECT];
    assert Addr(blocks, inodes[i], MAXFILE) == ind;
    forall x: nat, k: nat | x < |inodes| && k <= MAXFILE
      ensures Addr(blocks[ind := nb], inodes[x], k)
              == if Place(x, k) == Place(i, NDIRECT + j) then b else Addr(blocks, inodes[x], k)
    {
      assert Addr(blocks, inodes[x], MAXFILE) == inodes[x].addrs[NDIRECT];
    }
  }

  // ----- The bytes of a file -----

  function ByteAt(blocks: seq<Block>, ip: Inode, o: nat): byte
    requires ip.Ok()
  {
    if o < MAXFILE * BSIZE && Addr(blocks, ip, o / BSIZE) < |blocks|
    then blocks[Addr(blocks, ip, o / BSIZE)].bytes[o % BSIZE]
    else 0
  }

  function Content(blocks: seq<Block>, ip: Inode): (s: seq<byte>)
    requires ip.Ok()
    ensures |s| == ip.size
  {
    seq(ip.size, o requires 0 <= o < ip.size => ByteAt(blocks, ip, o))
  }

  /** Every block below the file's size exists, so reading never has to allocate. */
  ghost predicate NoHoles(blocks: seq<Block>, ip: Inode) {
    ip.Ok() && forall k: nat :: k < MAXFILE && k * BSIZE < ip.size ==> Addr(blocks, ip, k) != 0
  }

  lemma OffsetInFile(ip: Inode, o: nat)
    requires ip.Ok() && o < ip.size
    ensures o / BSIZE < MAXFILE && (o / BSIZE) * BSIZE < ip.size
  {
  }

  /** Bitmap, owners and files agree; `loose` blocks are allocated but not yet part of a file. */
  ghost predicate SoundParts(blocks: seq<Block>, inodes: seq<Inode>, owner: map<nat, Place>, used: set<nat>, meta: nat,
                             loose: set<nat>) {
    && 0 < meta && |blocks| <= WORD && Owned(blocks, inodes, owner)
    && (forall b: nat :: b < |blocks| ==> (b in used <==> b < meta || b in owner || b in loose))
    && (forall b :: b in owner ==> b >= meta)
    && (forall b :: b in loose ==> meta <= b < |blocks| && b !in owner)
    && (forall i :: 0 <= i < |inodes| ==> NoHoles(blocks, inodes[i]))
  }

  ghost predicate Sound(blocks: seq<Block>, inodes: seq<Inode>, owner: map<nat, Place>, used: set<nat>, meta: nat,
                        loose: set<nat>) {
    AllOk(inodes) && forall n: nat :: Open(BLOCKS_SOUND, n) ==> SoundParts(blocks, inodes, owner, used, meta, loose)
  }

  /** What soundness says about one place. */
  lemma PlaceFacts(blocks: seq<Block>, inodes: seq<Inode>, owner: map<nat, Place>, used: set<nat>, meta: nat,
                   loose: set<nat>, i: nat, k: nat)
    requires Sound(blocks, inodes, owner, used, meta, loose) && i < |inodes| && k <= MAXFILE
    ensures 0 < meta && |blocks| <= WORD && NoHoles(blocks, inodes[i])
    ensures var a := Addr(blocks, inodes[i], k);
            a != 0 ==> meta <= a < |blocks| && a in used && a in owner && owner[a] == Place(i, k)
  {
    assert Open(BLOCKS_SOUND, 0);
  }

  /** Everything that was in a file is still there, with the same bytes. */
  ghost predicate KeepsParts(blocks: seq<Block>, inodes: seq<Inode>, owner: map<nat, Place>, blocks': seq<Block>,
                             inodes': seq<Inode>) {
    && |blocks'| == |blocks| && |inodes'| == |inodes| && AllOk(inodes) && AllOk(inodes')
    && (forall i :: 0 <= i < |inodes| ==> inodes'[i].size == inodes[i].size)
    && (forall i: nat, k: nat :: i < |inodes| && k <= MAXFILE && Addr(blocks, inodes[i], k) != 0 ==>
          Addr(blocks', inodes'[i], k) == Addr(blocks, inodes[i], k))
    && (forall b :: b in owner && owner[b].k != MAXFILE && b < |blocks| ==> blocks'[b] == blocks[b])
  }

  ghost predicate Keeps(blocks: seq<Block>, inodes: seq<Inode>, owner: map<nat, Place>, blocks': seq<Block>,
                        inodes': seq<Inode>) {
    forall n: nat :: Open(BLOCKS_KEPT, n) ==> KeepsParts(blocks, inodes, owner, blocks', inodes')
  }

  lemma KeepsTrans(blocks: seq<Block>, inodes: seq<Inode>, owner: map<nat, Place>, blocks1: seq<Block>,
                   inodes1: seq<Inode>,
                   owner1: map<nat, Place>, blocks2: seq<Block>, inodes2: seq<Inode>)
    requires Keeps(blocks, inodes, owner, blocks1, inodes1) && Keeps(blocks1, inodes1, owner1, blocks2, inodes2)
    requires forall b :: b in owner ==> b in owner1 && owner1[b] == owner[b]
    ensures Keeps(blocks, inodes, owner, blocks2, inodes2)
  {
    assert Open(BLOCKS_KEPT, 0);
    forall i: nat, k: nat | i < |inodes| && k <= MAXFILE && Addr(blocks, inodes[i], k) != 0
      ensures Addr(blocks2, inodes2[i], k) == Addr(blocks, inodes[i], k)
    {
      assert Addr(blocks1, inodes1[i], k) == Addr(blocks, inodes[i], k);
    }
  }

  lemma MetaInUse(blocks: seq<Block>, inodes: seq<Inode>, owner: map<nat, Place>, used: set<nat>, meta: nat,
                  loose: set<nat>)
    requires Sound(blocks, inodes, owner, used, meta, loose)
    ensures 0 < meta && |blocks| <= WORD && forall b: nat :: b < meta && b < |blocks| ==> b in used
  {
    assert Open(BLOCKS_SOUND, 0);
  }

  lemma AllocAddr(blocks: seq<Block>, inodes: seq<Inode>, owner: map<nat, Place>, used: set<nat>, meta: nat, b: nat,
                  i: nat, k: nat)
    requires Sound(blocks, inodes, owner, used, meta, {}) && b < |blocks| && b !in used && i < |inodes| && k <= MAXFILE
    ensures Addr(blocks[b := ZERO], inodes[i], k) == Addr(blocks, inodes[i], k)
  {
    assert Open(BLOCKS_SOUND, 0);
    AddrSame(blocks, inodes, owner, b, ZERO, i, k);
  }

  /** Allocating and zeroing a free block. */
  lemma AllocKeepsSound(blocks: seq<Block>, inodes: seq<Inode>, owner: map<nat, Place>, used: set<nat>, meta: nat,
                        b: nat)
    requires Sound(blocks, inodes, owner, used, meta, {}) && b < |blocks| && b !in used
    ensures Sound(blocks[b := ZERO], inodes, owner, used + {b}, meta, {b}) && b !in owner
    ensures Keeps(blocks, inodes, owner, blocks[b := ZERO], inodes)
  {
    assert Open(BLOCKS_SOUND, 0) && Open(BLOCKS_KEPT, 0);
    var blocks' := blocks[b := ZERO];
    WriteKeepsOwned(blocks, inodes, owner, b, ZERO);
    forall i: nat, k: nat | i < |inodes| && k <= MAXFILE && Addr(blocks, inodes[i], k) != 0
      ensures Addr(blocks', inodes[i], k) == Addr(blocks, inodes[i], k)
    {
      AddrSame(blocks, inodes, owner, b, ZERO, i, k);
    }
    KeepNoHoles(blocks, inodes, owner, blocks', inodes);
  }

  lemma KeepNoHoles(blocks: seq<Block>, inodes: seq<Inode>, owner: map<nat, Place>, blocks': seq<Block>,
                    inodes': seq<Inode>)
    requires Keeps(blocks, inodes, owner, blocks', inodes')
    requires forall i :: 0 <= i < |inodes| ==> NoHoles(blocks, inodes[i])
    ensures forall i :: 0 <= i < |inodes'| ==> NoHoles(blocks', inodes'[i])
  {
    assert Open(BLOCKS_KEPT, 0);
    forall i: nat | i < |inodes'| ensures NoHoles(blocks', inodes'[i]) {
      forall k: nat | k < MAXFILE && k * BSIZE < inodes'[i].size ensures Addr(blocks', inodes'[i], k) != 0 {
        assert Addr(blocks, inodes[i], k) != 0;
      }
    }
  }

  /** Linking a loose block into a place that was empty. */
  lemma LinkKeepsSound(blocks: seq<Block>, inodes: seq<Inode>, owner: map<nat, Place>, used: set<nat>, meta: nat,
                       blocks': seq<Block>, inodes': seq<Inode>, at: Place, b: nat)
    requires Sound(blocks, inodes, owner, used, meta, {b}) && Extends(blocks, inodes, blocks', inodes', at, b)
    requires Addr(blocks, inodes[at.inum], at.k) == 0
    requires forall i :: 0 <= i < |inodes| ==> inodes'[i].size == inodes[i].size
    requires forall c :: c in owner && owner[c].k != MAXFILE && c < |blocks| ==> blocks'[c] == blocks[c]
    ensures Sound(blocks', inodes', owner[b := at], used, meta, {})
    ensures Keeps(blocks, inodes, owner, blocks', inodes')
  {
    assert Open(BLOCKS_SOUND, 0) && Open(BLOCKS_KEPT, 0);
    ExtendKeepsOwned(blocks, inodes, owner, blocks', inodes', at, b);
    forall i: nat, k: nat | i < |inodes| && k <= MAXFILE && Addr(blocks, inodes[i], k) != 0
      ensures Addr(blocks', inodes'[i], k) == Addr(blocks, inodes[i], k)
    {
      assert Place(i, k) != at;
    }
    KeepNoHoles(blocks, inodes, owner, blocks', inodes');
  }

  /** A loose block becomes direct block k of inode i. */
  lemma LinkDirectSound(blocks: seq<Block>, inodes: seq<Inode>, owner: map<nat, Place>, used: set<nat>, meta: nat,
                        i: nat, k: nat, b: nat)
    requires Sound(blocks, inodes, owner, used, meta, {b}) && i < |inodes| && k < NDIRECT && inodes[i].addrs[k] == 0
    ensures var inodes' := inodes[i := inodes[i].(addrs := inodes[i].addrs[k := b])];
            && Sound(blocks, inodes', owner[b := Place(i, k)], used, meta, {})
            && Keeps(blocks, inodes, owner, blocks, inodes')
            && Addr(blocks, inodes'[i], k) == b
  {
    assert Open(BLOCKS_SOUND, 0) && Open(BLOCKS_KEPT, 0);
    LinkDirect(blocks, inodes, i, k, b);
    LinkKeepsSound(blocks, inodes, owner, used, meta, blocks, inodes[i := inodes[i].(addrs := inodes[i].addrs[k := b])],
                   Place(i, k), b);
  }

  /** A loose, zeroed block becomes the indirect block of inode i. */
  lemma LinkIndirectSound(blocks: seq<Block>, inodes: seq<Inode>, owner: map<nat, Place>, used: set<nat>, meta: nat,
                          i: nat, b: nat)
    requires Sound(blocks, inodes, owner, used, meta, {b}) && i < |inodes| && inodes[i].addrs[NDIRECT] == 0
    requires b < |blocks| && blocks[b] == ZERO
    ensures var inodes' := inodes[i := inodes[i].(addrs := inodes[i].addrs[NDIRECT := b])];
            && Sound(blocks, inodes', owner[b := Place(i, MAXFILE)], used, meta, {})
            && Keeps(blocks, inodes, owner, blocks, inodes')
            && Addr(blocks, inodes'[i], MAXFILE) == b
  {
    assert Open(BLOCKS_SOUND, 0) && Open(BLOCKS_KEPT, 0);
    LinkIndirect(blocks, inodes, i, b);
    LinkKeepsSound(blocks, inodes, owner, used, meta, blocks,
                   inodes[i := inodes[i].(addrs := inodes[i].addrs[NDIRECT := b])], Place(i, MAXFILE), b);
  }

  /** A loose block becomes entry j of the indirect block of inode i. */
  lemma LinkEntrySound(blocks: seq<Block>, inodes: seq<Inode>, owner: map<nat, Place>, used: set<nat>, meta: nat,
                       i: nat, j: nat, b: nat, nb: Block)
    requires Sound(blocks, inodes, owner, used, meta, {b}) && i < |inodes| && j < NINDIRECT
    requires 0 < inodes[i].addrs[NDIRECT] < |blocks| && Addr(blocks, inodes[i], NDIRECT + j) == 0
    requires EntrySet(blocks[inodes[i].addrs[NDIRECT]], nb, j, b)
    ensures var blocks' := blocks[inodes[i].addrs[NDIRECT] := nb];
            && Sound(blocks', inodes, owner[b := Place(i, NDIRECT + j)], used, meta, {})
            && Keeps(blocks, inodes, owner, blocks', inodes) && Addr(blocks', inodes[i], NDIRECT + j) == b
  {
    assert Open(BLOCKS_SOUND, 0) && Open(BLOCKS_KEPT, 0);
    LinkEntry(blocks, inodes, owner, i, j, b, nb);
    var ind := inodes[i].addrs[NDIRECT];
    assert Addr(blocks, inodes[i], MAXFILE) == ind;
    LinkKeepsSound(blocks, inodes, owner, used, meta, blocks[ind := nb], inodes, Place(i, NDIRECT + j), b);
  }

  // ----- Writing into a file -----

  function Splice(c: seq<byte>, off: nat, d: seq<byte>): (r: seq<byte>)
    requires off <= |c|
    ensures |r| == if off + |d| > |c| then off + |d| else |c|
  {
    c[..off] + d + if off + |d| <= |c| then c[off + |d|..] else []
  }

  /** Reading back what was written gives it, and every byte outside it is the old one. */
  lemma SpliceReads(c: seq<byte>, off: nat, d: seq<byte>)
    requires off <= |c|
    ensures Splice(c, off, d)[off..off + |d|] == d
    ensures forall o :: 0 <= o < |c| && !(off <= o < off + |d|) ==> Splice(c, off, d)[o] == c[o]
  {
  }

  /** Splicing in two steps, one after the other. */
  lemma SpliceTwice(c: seq<byte>, off: nat, d: seq<byte>, e: seq<byte>)
    requires off <= |c|
    ensures Splice(Splice(c, off, d), off + |d|, e) == Splice(c, off, d + e)
  {
  }

  /** All files after d was written at offset off of file i. */
  ghost function Rewritten(files: seq<seq<byte>>, i: nat, off: nat, d: seq<byte>): (r: seq<seq<byte>>)
    requires i < |files| && off <= |files[i]|
    ensures |r| == |files| && |r[i]| == if off + |d| > |files[i]| then off + |d| else |files[i]|
    ensures forall j :: 0 <= j < |files| && j != i ==> r[j] == files[j]
  {
    files[i := Splice(files[i], off, d)]
  }

  lemma RewrittenNothing(files: seq<seq<byte>>, i: nat, off: nat, src: seq<byte>)
    requires i < |files| && off <= |files[i]|
    ensures Rewritten(files, i, off, src[..0]) == files
  {
    assert Splice(files[i], off, src[..0]) == files[i];
  }

  /** Writing the first m bytes of what is left after t. */
  lemma RewrittenMore(files: seq<seq<byte>>, i: nat, off: nat, src: seq<byte>, t: nat, m: nat)
    requires i < |files| && off <= |files[i]| && t + m <= |src|
    ensures Rewritten(Rewritten(files, i, off, src[..t]), i, off + t, src[t..][..m])
            == Rewritten(files, i, off, src[..t + m])
  {
    SpliceTwice(files[i], off, src[..t], src[t..][..m]);
    assert src[..t] + src[t..][..m] == src[..t + m];
  }

  /** The file's blocks hold v from offset 0 on, whatever its size says. */
  ghost predicate Written(blocks: seq<Block>, ip: Inode, v: seq<byte>) {
    && ip.Ok() && |v| <= MAXFILE * BSIZE
    && forall o: nat :: o < |v| ==> Addr(blocks, ip, o / BSIZE) != 0 && ByteAt(blocks, ip, o) == v[o]
  }

  lemma WrittenIsContent(blocks: seq<Block>, ip: Inode)
    requires NoHoles(blocks, ip)
    ensures Written(blocks, ip, Content(blocks, ip))
  {
    forall o: nat | o < ip.size ensures Addr(blocks, ip, o / BSIZE) != 0 { OffsetInFile(ip, o); }
  }

  lemma ContentIsWritten(blocks: seq<Block>, ip: Inode, v: seq<byte>)
    requires Written(blocks, ip, v) && ip.size == |v|
    ensures NoHoles(blocks, ip) && Content(blocks, ip) == v
  {
    forall k: nat | k < MAXFILE && k * BSIZE < ip.size ensures Addr(blocks, ip, k) != 0 {
      assert (k * BSIZE) / BSIZE == k;
    }
  }

  lemma KeepWritten(blocks: seq<Block>, inodes: seq<Inode>, owner: map<nat, Place>,
                    blocks': seq<Block>, inodes': seq<Inode>, i: nat, v: seq<byte>)
    requires Owned(blocks, inodes, owner) && Keeps(blocks, inodes, owner, blocks', inodes') && i < |inodes| == |inodes'|
    requires Written(blocks, inodes[i], v)
    ensures Written(blocks', inodes'[i], v)
  {
    assert Open(BLOCKS_KEPT, 0);
    forall o: nat | o < |v|
      ensures Addr(blocks', inodes'[i], o / BSIZE) != 0 && ByteAt(blocks', inodes'[i], o) == v[o] {
      var a := Addr(blocks, inodes[i], o / BSIZE);
      assert a != 0 && a in owner && owner[a] == Place(i, o / BSIZE);
    }
  }

  /** A data block with bytes p.. replaced by d. */
  function Patch(b: Block, p: nat, d: seq<byte>): Block
    requires p + |d| <= BSIZE
  {
    Block(b.bytes[..p] + d + b.bytes[p + |d|..])
  }

  lemma PatchBytes(b: Block, p: nat, d: seq<byte>, x: nat)
    requires p + |d| <= BSIZE && x < BSIZE
    ensures Patch(b, p, d).bytes[x] == if p <= x < p + |d| then d[x - p] else b.bytes[x]
  {
  }

  /** memmove into one data block of file i writes the bytes at offset off of that file. */
  lemma PatchWrites(blocks: seq<Block>, inodes: seq<Inode>, owner: map<nat, Place>, i: nat, v: seq<byte>, off: nat,
                    d: seq<byte>)
    requires Owned(blocks, inodes, owner) && i < |inodes| && Written(blocks, inodes[i], v)
    requires off <= |v| && off + |d| <= MAXFILE * BSIZE && 0 < |d| && off % BSIZE + |d| <= BSIZE
    requires Addr(blocks, inodes[i], off / BSIZE) != 0
    ensures var a := Addr(blocks, inodes[i], off / BSIZE);
            a < |blocks| && Written(blocks[a := Patch(blocks[a], off % BSIZE, d)], inodes[i], Splice(v, off, d))
  {
    var a := Addr(blocks, inodes[i], off / BSIZE);
    assert a in owner && owner[a] == Place(i, off / BSIZE);
    var b := Patch(blocks[a], off % BSIZE, d);
    var v' := Splice(v, off, d);
    forall o: nat | o < |v'|
      ensures Addr(blocks[a := b], inodes[i], o / BSIZE) != 0 && ByteAt(blocks[a := b], inodes[i], o) == v'[o] {
      AddrSame(blocks, inodes, owner, a, b, i, o / BSIZE);
      PatchedByte(blocks, inodes, owner, i, v, off, d, o);
    }
  }

  lemma PatchedByte(blocks: seq<Block>, inodes: seq<Inode>, owner: map<nat, Place>, i: nat, v: seq<byte>, off: nat,
                    d: seq<byte>, o: nat)
    requires Owned(blocks, inodes, owner) && i < |inodes| && Written(blocks, inodes[i], v)
    requires off <= |v| && off + |d| <= MAXFILE * BSIZE && 0 < |d| && off % BSIZE + |d| <= BSIZE
    requires Addr(blocks, inodes[i], off / BSIZE) != 0 && o < |Splice(v, off, d)|
    ensures Addr(blocks, inodes[i], o / BSIZE) != 0 && Addr(blocks, inodes[i], o / BSIZE) < |blocks|
    ensures var a := Addr(blocks, inodes[i], off / BSIZE);
            a < |blocks| && Splice(v, off, d)[o] ==
            blocks[a := Patch(blocks[a], off % BSIZE, d)][Addr(blocks, inodes[i], o / BSIZE)].bytes[o % BSIZE]
  {
    var a := Addr(blocks, inodes[i], off / BSIZE);
    assert a in owner && owner[a] == Place(i, off / BSIZE);
    if o / BSIZE == off / BSIZE {
      PatchBytes(blocks[a], off % BSIZE, d, o % BSIZE);
      if !(off <= o < off + |d|) { assert ByteAt(blocks, inodes[i], o) == v[o]; }
    } else {
      assert ByteAt(blocks, inodes[i], o) == v[o];
      var c := Addr(blocks, inodes[i], o / BSIZE);
      assert c in owner && owner[c] == Place(i, o / BSIZE);
    }
  }

  /** ... and changes no other file. */
  lemma PatchKeepsOthers(blocks: seq<Block>, inodes: seq<Inode>, owner: map<nat, Place>, i: nat, a: nat, b: Block,
                         j: nat, v: seq<byte>)
    requires Owned(blocks, inodes, owner) && i < |inodes| && j < |inodes| && j != i
    requires a in owner && owner[a].inum == i && owner[a].k != MAXFILE && Written(blocks, inodes[j], v)
    ensures Written(blocks[a := b], inodes[j], v)
  {
    var blocks' := blocks[a := b];
    forall o: nat | o < |v| ensures Addr(blocks', inodes[j], o / BSIZE) != 0 && ByteAt(blocks', inodes[j], o) == v[o] {
      AddrSame(blocks, inodes, owner, a, b, j, o / BSIZE);
      var c := Addr(blocks, inodes[j], o / BSIZE);
      assert c != 0 && c in owner && owner[c] == Place(j, o / BSIZE);
    }
  }

  /** A change to the data block of one place keeps the file system sound. */
  lemma PatchSound(blocks: seq<Block>, inodes: seq<Inode>, owner: map<nat, Place>, used: set<nat>, meta: nat, i: nat,
                   k: nat, d: Block)
    requires Sound(blocks, inodes, owner, used, meta, {}) && i < |inodes| && k < MAXFILE
    requires Addr(blocks, inodes[i], k) != 0
    ensures var a := Addr(blocks, inodes[i], k);
            a < |blocks| && Sound(blocks[a := d], inodes, owner, used, meta, {})
    ensures forall j: nat, l: nat :: j < |inodes| && l <= MAXFILE ==>
              Addr(blocks[Addr(blocks, inodes[i], k) := d], inodes[j], l) == Addr(blocks, inodes[j], l)
  {
    assert Open(BLOCKS_SOUND, 0);
    var a := Addr(blocks, inodes[i], k);
    assert a in owner && owner[a] == Place(i, k);
    WriteKeepsOwned(blocks, inodes, owner, a, d);
    var blocks' := blocks[a := d];
    forall j: nat, l: nat | j < |inodes| && l <= MAXFILE
      ensures Addr(blocks', inodes[j], l) == Addr(blocks, inodes[j], l) {
      AddrSame(blocks, inodes, owner, a, d, j, l);
    }
    forall j: nat | j < |inodes| ensures NoHoles(blocks', inodes[j]) {
      forall l: nat | l < MAXFILE && l * BSIZE < inodes[j].size ensures Addr(blocks', inodes[j], l) != 0 {
        assert Addr(blocks, inodes[j], l) != 0;
      }
    }
  }

  /** ip->size = |v| once the blocks hold v. */
  lemma ResizeSound(blocks: seq<Block>, inodes: seq<Inode>, owner: map<nat, Place>, used: set<nat>, meta: nat, i: nat,
                    v: seq<byte>)
    requires Sound(blocks, inodes, owner, used, meta, {}) && i < |inodes| && Written(blocks, inodes[i], v)
    ensures var inodes' := inodes[i := inodes[i].(size := |v|)];
            && inodes'[i].Ok() && Sound(blocks, inodes', owner, used, meta, {}) && Content(blocks, inodes'[i]) == v
  {
    assert Open(BLOCKS_SOUND, 0);
    var ip := inodes[i].(size := |v|);
    var inodes' := inodes[i := ip];
    forall k: nat | k <= MAXFILE ensures Addr(blocks, ip, k) == Addr(blocks, inodes[i], k) {}
    forall o: nat | o < |v| ensures Addr(blocks, ip, o / BSIZE) != 0 && ByteAt(blocks, ip, o) == v[o] {
      assert Addr(blocks, inodes[i], o / BSIZE) != 0;
    }
    ContentIsWritten(blocks, ip, v);
    forall j: nat, k: nat | j < |inodes'| && k <= MAXFILE
      ensures Addr(blocks, inodes'[j], k) == Addr(blocks, inodes[j], k) {}
    assert Owned(blocks, inodes', owner);
  }

  /** The bytes of one block's part of a file. */
  lemma ReadChunk(blocks: seq<Block>, inodes: seq<Inode>, owner: map<nat, Place>, used: set<nat>, meta: nat, i: nat,
                  off: nat, m: nat)
    requires Sound(blocks, inodes, owner, used, meta, {}) && i < |inodes| && off + m <= inodes[i].size
    requires off % BSIZE + m <= BSIZE && 0 < m
    ensures off / BSIZE < MAXFILE
    ensures var a := Addr(blocks, inodes[i], off / BSIZE);
            a != 0 && a < |blocks|
            && blocks[a].bytes[off % BSIZE..off % BSIZE + m] == Content(blocks, inodes[i])[off..off + m]
  {
    OffsetInFile(inodes[i], off);
    PlaceFacts(blocks, inodes, owner, used, meta, {}, i, off / BSIZE);
    var a := Addr(blocks, inodes[i], off / BSIZE);
    var here, there := blocks[a].bytes[off % BSIZE..off % BSIZE + m], Content(blocks, inodes[i])[off..off + m];
    forall x: nat | x < m ensures here[x] == there[x] {
      assert (off + x) / BSIZE == off / BSIZE && (off + x) % BSIZE == off % BSIZE + x;
    }
  }

  // ----- All files at once -----

  /** The blocks of every file hold these bytes. */
  ghost predicate Files(blocks: seq<Block>, inodes: seq<Inode>, files: seq<seq<byte>>) {
    |files| == |inodes| && forall n: nat :: Open(FILES_HELD, n) ==> forall j :: 0 <= j < |inodes| ==>
        Written(blocks, inodes[j], files[j])
  }

  ghost function FilesOf(blocks: seq<Block>, inodes: seq<Inode>): (files: seq<seq<byte>>)
    requires AllOk(inodes)
    ensures |files| == |inodes|
  {
    seq(|inodes|, j requires 0 <= j < |inodes| => Content(blocks, inodes[j]))
  }

  lemma FilesStart(blocks: seq<Block>, inodes: seq<Inode>, owner: map<nat, Place>, used: set<nat>, meta: nat)
    requires Sound(blocks, inodes, owner, used, meta, {})
    ensures Files(blocks, inodes, FilesOf(blocks, inodes))
  {
    assert Open(BLOCKS_SOUND, 0) && Open(FILES_HELD, 0);
    forall j: nat | j < |inodes| ensures Written(blocks, inodes[j], FilesOf(blocks, inodes)[j]) {
      WrittenIsContent(blocks, inodes[j]);
    }
  }

  lemma FilesKept(blocks: seq<Block>, inodes: seq<Inode>, owner: map<nat, Place>, used: set<nat>, meta: nat,
                  blocks': seq<Block>, inodes': seq<Inode>, files: seq<seq<byte>>)
    requires Sound(blocks, inodes, owner, used, meta, {}) && Keeps(blocks, inodes, owner, blocks', inodes')
    requires Files(blocks, inodes, files) && |inodes'| == |inodes|
    ensures Files(blocks', inodes', files) && forall j :: 0 <= j < |inodes| ==> inodes'[j].size == inodes[j].size
  {
    assert Open(BLOCKS_SOUND, 0) && Open(BLOCKS_KEPT, 0) && Open(FILES_HELD, 0);
    forall j: nat | j < |inodes| ensures Written(blocks', inodes'[j], files[j]) {
      KeepWritten(blocks, inodes, owner, blocks', inodes', j, files[j]);
    }
  }

  /** Keeping everything keeps the bytes of every file. */
  lemma FilesSame(blocks: seq<Block>, inodes: seq<Inode>, owner: map<nat, Place>, used: set<nat>, meta: nat,
                  blocks': seq<Block>, inodes': seq<Inode>)
    requires Sound(blocks, inodes, owner, used, meta, {}) && Keeps(blocks, inodes, owner, blocks', inodes')
    requires |inodes'| == |inodes| && AllOk(inodes')
    ensures FilesOf(blocks', inodes') == FilesOf(blocks, inodes)
  {
    var files := FilesOf(blocks, inodes);
    FilesStart(blocks, inodes, owner, used, meta);
    FilesKept(blocks, inodes, owner, used, meta, blocks', inodes', files);
    assert Open(FILES_HELD, 0);
    forall j: nat | j < |inodes'| ensures Content(blocks', inodes'[j]) == files[j] {
      ContentIsWritten(blocks', inodes'[j], files[j]);
    }
  }

  lemma FilesPatched(blocks: seq<Block>, inodes: seq<Inode>, owner: map<nat, Place>, used: set<nat>, meta: nat,
                     files: seq<seq<byte>>, i: nat, off: nat, d: seq<byte>)
    requires Sound(blocks, inodes, owner, used, meta, {}) && Files(blocks, inodes, files) && i < |inodes|
    requires off <= |files[i]| && 0 < |d| && off + |d| <= MAXFILE * BSIZE && off % BSIZE + |d| <= BSIZE
    requires Addr(blocks, inodes[i], off / BSIZE) != 0
    ensures var a := Addr(blocks, inodes[i], off / BSIZE);
            a < |blocks| && Files(blocks[a := Patch(blocks[a], off % BSIZE, d)], inodes, Rewritten(files, i, off, d))
  {
    assert Open(BLOCKS_SOUND, 0) && Open(FILES_HELD, 0);
    var a := Addr(blocks, inodes[i], off / BSIZE);
    assert a in owner && owner[a] == Place(i, off / BSIZE);
    var b := Patch(blocks[a], off % BSIZE, d);
    var files' := Rewritten(files, i, off, d);
    PatchWrites(blocks, inodes, owner, i, files[i], off, d);
    forall j: nat | j < |inodes| ensures Written(blocks[a := b], inodes[j], files'[j]) {
      if j != i { PatchKeepsOthers(blocks, inodes, owner, i, a, b, j, files[j]); }
    }
  }

  /** At the end the sizes are set to match, and the files are what their blocks hold. */
  lemma FilesEnd(blocks: seq<Block>, inodes: seq<Inode>, owner: map<nat, Place>, used: set<nat>, meta: nat,
                 files: seq<seq<byte>>, i: nat)
    requires Sound(blocks, inodes, owner, used, meta, {}) && Files(blocks, inodes, files) && i < |inodes|
    requires forall j :: 0 <= j < |inodes| && j != i ==> inodes[j].size == |files[j]|
    ensures var inodes' := inodes[i := inodes[i].(size := |files[i]|)];
            && AllOk(inodes') && Sound(blocks, inodes', owner, used, meta, {}) && FilesOf(blocks, inodes') == files
  {
    assert Open(BLOCKS_SOUND, 0) && Open(FILES_HELD, 0);
    ResizeSound(blocks, inodes, owner, used, meta, i, files[i]);
    var inodes' := inodes[i := inodes[i].(size := |files[i]|)];
    forall j: nat | j < |inodes'| ensures Content(blocks, inodes'[j]) == files[j] {
      if j != i { ContentIsWritten(blocks, inodes[j], files[j]); }
    }
  }

  // ----- Which blocks a write touches -----

  /** The data blocks in places lo to hi - 1 of a file, and its indirect block. */
  function Touched(blocks: seq<Block>, ip: Inode, lo: nat, hi: nat): (t: set<nat>)
    requires ip.Ok() && lo <= hi <= MAXFILE
  {
    if lo == hi then (if ip.addrs[NDIRECT] == 0 then {} else {ip.addrs[NDIRECT]})
    else Touched(blocks, ip, lo, hi - 1) + if Addr(blocks, ip, hi - 1) == 0 then {} else {Addr(blocks, ip, hi - 1)}
  }

  lemma {:induction false} TouchedFew(blocks: seq<Block>, ip: Inode, lo: nat, hi: nat)
    requires ip.Ok() && lo <= hi <= MAXFILE
    ensures |Touched(blocks, ip, lo, hi)| <= hi - lo + 1
  {
    if lo < hi { TouchedFew(blocks, ip, lo, hi - 1); }
  }

  lemma {:induction false} TouchedHas(blocks: seq<Block>, ip: Inode, lo: nat, hi: nat)
    requires ip.Ok() && lo <= hi <= MAXFILE
    ensures ip.addrs[NDIRECT] != 0 ==> ip.addrs[NDIRECT] in Touched(blocks, ip, lo, hi)
  {
    if lo < hi { TouchedHas(blocks, ip, lo, hi - 1); }
  }

  lemma {:induction false} TouchedGrows(blocks: seq<Block>, inodes: seq<Inode>, owner: map<nat, Place>,
                                        blocks': seq<Block>, inodes': seq<Inode>, i: nat, lo: nat, mid: nat, hi: nat)
    requires Keeps(blocks, inodes, owner, blocks', inodes') && AllOk(inodes) && AllOk(inodes')
    requires i < |inodes| == |inodes'|
    requires lo <= mid <= hi <= MAXFILE
    ensures Touched(blocks, inodes[i], lo, mid) <= Touched(blocks', inodes'[i], lo, hi)
  {
    assert Open(BLOCKS_KEPT, 0);
    if mid < hi {
      TouchedGrows(blocks, inodes, owner, blocks', inodes', i, lo, mid, hi - 1);
    } else if lo < mid {
      TouchedGrows(blocks, inodes, owner, blocks', inodes', i, lo, mid - 1, hi - 1);
      assert Addr(blocks, inodes[i], mid - 1) != 0 ==>
        Addr(blocks', inodes'[i], mid - 1) == Addr(blocks, inodes[i], mid - 1);
    } else {
      assert Addr(blocks, inodes[i], MAXFILE) == inodes[i].addrs[NDIRECT];
      assert Addr(blocks', inodes'[i], MAXFILE) == inodes'[i].addrs[NDIRECT];
    }
  }

  lemma {:induction false} TouchedMore(blocks: seq<Block>, ip: Inode, lo: nat, mid: nat, hi: nat)
    requires ip.Ok() && lo <= mid <= hi <= MAXFILE
    ensures Touched(blocks, ip, lo, mid) <= Touched(blocks, ip, lo, hi)
  {
    if mid < hi { TouchedMore(blocks, ip, lo, mid, hi - 1); }
  }

  /** One past the last place that n bytes at offset off reach. */
  function EndPlace(off: nat, n: nat): (hi: nat)
    ensures off / BSIZE <= hi
  {
    if n == 0 then off / BSIZE else (off + n - 1) / BSIZE + 1
  }

  lemma EndPlaceBounds(off: nat, n: nat)
    requires off + n <= MAXFILE * BSIZE
    ensures EndPlace(off, n) <= MAXFILE
  {
  }

  lemma {:induction false} TouchedSame(blocks: seq<Block>, ip: Inode, blocks': seq<Block>, ip': Inode, lo: nat, hi: nat)
    requires ip.Ok() && ip'.Ok() && lo <= hi <= MAXFILE
    requires forall k: nat :: k <= MAXFILE ==> Addr(blocks', ip', k) == Addr(blocks, ip, k)
    ensures Touched(blocks', ip', lo, hi) == Touched(blocks, ip, lo, hi)
  {
    assert Addr(blocks', ip', MAXFILE) == Addr(blocks, ip, MAXFILE);
    if lo < hi { TouchedSame(blocks, ip, blocks', ip', lo, hi - 1); }
  }

  // ----- Truncating a file -----

  function EmptyInode(): (ip: Inode)
    ensures ip.Ok() && ip.size == 0 && forall k :: 0 <= k <= NDIRECT ==> ip.addrs[k] == 0
  {
    Inode(seq(NDIRECT + 1, _ => 0), 0)
  }

  ghost function BlocksOf(owner: map<nat, Place>, i: nat): set<nat> {
    set b | b in owner && owner[b].inum == i
  }

  /** Emptying inode i and releasing exactly its blocks leaves a sound file system. */
  lemma TruncKeepsSound(blocks: seq<Block>, inodes: seq<Inode>, owner: map<nat, Place>, used: set<nat>, meta: nat,
                        i: nat)
    requires Sound(blocks, inodes, owner, used, meta, {}) && i < |inodes|
    ensures Sound(blocks, inodes[i := EmptyInode()], owner - BlocksOf(owner, i), used - BlocksOf(owner, i), meta, {})
  {
    assert Open(BLOCKS_SOUND, 0);
    var inodes', owner' := inodes[i := EmptyInode()], owner - BlocksOf(owner, i);
    forall j: nat, k: nat | j < |inodes'| && k <= MAXFILE && Addr(blocks, inodes'[j], k) != 0
      ensures Addr(blocks, inodes'[j], k) in owner' && owner'[Addr(blocks, inodes'[j], k)] == Place(j, k)
    {
      assert j != i;
      assert Addr(blocks, inodes[j], k) != 0;
    }
    forall j: nat | j < |inodes'| ensures NoHoles(blocks, inodes'[j]) {
      if j == i { assert EmptyInode().size == 0; }
    }
  }

  /** The blocks in the first n places of a file; place MAXFILE, the indirect block, comes last. */
  ghost function Held(blocks: seq<Block>, ip: Inode, n: nat): (h: set<nat>)
    requires ip.Ok() && n <= MAXFILE + 1
  {
    if n == 0 then {}
    else Held(blocks, ip, n - 1) + if Addr(blocks, ip, n - 1) == 0 then {} else {Addr(blocks, ip, n - 1)}
  }

  lemma {:induction false} HeldExactly(blocks: seq<Block>, inodes: seq<Inode>, owner: map<nat, Place>, i: nat, n: nat)
    requires Owned(blocks, inodes, owner) && i < |inodes| && n <= MAXFILE + 1
    ensures forall b :: b in Held(blocks, inodes[i], n) <==> b in owner && owner[b].inum == i && owner[b].k < n
  {
    if n > 0 {
      HeldExactly(blocks, inodes, owner, i, n - 1);
      var a := Addr(blocks, inodes[i], n - 1);
      assert a != 0 ==> a in owner && owner[a] == Place(i, n - 1);
    }
  }

  /** The block in the next place is still in use after the earlier ones were freed. */
  lemma HeldNext(blocks: seq<Block>, inodes: seq<Inode>, owner: map<nat, Place>, used: set<nat>, meta: nat, i: nat,
                 n: nat)
    requires Sound(blocks, inodes, owner, used, meta, {}) && i < |inodes| && n <= MAXFILE
    ensures var a := Addr(blocks, inodes[i], n);
            a != 0 ==> a < |blocks| && a in used && a !in Held(blocks, inodes[i], n)
  {
    assert Open(BLOCKS_SOUND, 0);
    HeldExactly(blocks, inodes, owner, i, n);
    PlaceFacts(blocks, inodes, owner, used, meta, {}, i, n);
  }

  lemma HeldAll(blocks: seq<Block>, inodes: seq<Inode>, owner: map<nat, Place>, used: set<nat>, meta: nat, i: nat)
    requires Sound(blocks, inodes, owner, used, meta, {}) && i < |inodes|
    ensures Held(blocks, inodes[i], MAXFILE + 1) == BlocksOf(owner, i)
  {
    assert Open(BLOCKS_SOUND, 0);
    HeldExactly(blocks, inodes, owner, i, MAXFILE + 1);
  }

  /** Without an indirect block there are no further blocks. */
  lemma {:induction false} HeldDirect(blocks: seq<Block>, ip: Inode, n: nat)
    requires ip.Ok() && ip.addrs[NDIRECT] == 0 && NDIRECT <= n <= MAXFILE + 1
    ensures Held(blocks, ip, n) == Held(blocks, ip, NDIRECT)
  {
    if n > NDIRECT { HeldDirect(blocks, ip, n - 1); }
  }

  /** Truncation empties one file and leaves the bytes of the others alone. */
  lemma TruncFiles(blocks: seq<Block>, inodes: seq<Inode>, i: nat)
    requires AllOk(inodes) && i < |inodes|
    ensures FilesOf(blocks, inodes[i := EmptyInode()]) == FilesOf(blocks, inodes)[i := []]
  {
    assert Content(blocks, EmptyInode()) == [];
  }
}
