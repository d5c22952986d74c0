/**
 balloc, bfree, bmap, itrunc, readi and writei of kernel/fs.c, and the chunking loop of filewrite
 (kernel/file.c), over the state they update in place.  `logged` collects the numbers of the blocks
 handed to log_write.
 */
module FileSystem {
  import opened Folding
  import opened Bitmap
  import opened BlockCosts
  import opened FileBlocks
  import opened Params

  const IPB := 16  // inodes per block

  /** Every block that changed was logged, and so was the bitmap block of every bit that changed. */
  ghost predicate ChangesLogged(bmapstart: nat, blocks0: seq<Block>, used0: set<nat>, blocks: seq<Block>,
                                used: set<nat>,
                                logged: set<nat>)
  {
    forall k: nat :: Open(CHANGES_LOGGED, k) ==>
      && |blocks| == |blocks0|
      && (forall c: nat :: c < |blocks| && blocks[c] != blocks0[c] ==> c in logged)
      && (forall c: nat :: c in used && c !in used0 ==> c / BPB + bmapstart in logged)
      && (forall c: nat :: c in used0 && c !in used ==> c / BPB + bmapstart in logged)
  }

  lemma LoggedNone(bmapstart: nat, blocks: seq<Block>, used: set<nat>, logged: set<nat>)
    ensures ChangesLogged(bmapstart, blocks, used, blocks, used, logged)
  {
  }

  lemma LoggedThen(bmapstart: nat, blocks0: seq<Block>, used0: set<nat>, blocks1: seq<Block>, used1: set<nat>,
                   logged1: set<nat>, blocks2: seq<Block>, used2: set<nat>, logged2: set<nat>)
    requires ChangesLogged(bmapstart, blocks0, used0, blocks1, used1, logged1)
    requires ChangesLogged(bmapstart, blocks1, used1, blocks2, used2, logged2) && logged1 <= logged2
    ensures ChangesLogged(bmapstart, blocks0, used0, blocks2, used2, logged2)
  {
    assert Open(CHANGES_LOGGED, 0);
  }

  lemma LoggedPut(bmapstart: nat, blocks: seq<Block>, used: set<nat>, c: nat, d: Block, logged: set<nat>)
    requires c < |blocks| && c in logged
    ensures ChangesLogged(bmapstart, blocks, used, blocks[c := d], used, logged)
  {
  }

  lemma LoggedMark(bmapstart: nat, blocks: seq<Block>, used: set<nat>, c: nat, logged: set<nat>)
    requires c / BPB + bmapstart in logged
    ensures ChangesLogged(bmapstart, blocks, used, blocks, used + {c}, logged)
    ensures ChangesLogged(bmapstart, blocks, used, blocks, used - {c}, logged)
  {
  }

  /** What the changed blocks are in the log, written out. */
  lemma LoggedMeans(bmapstart: nat, blocks0: seq<Block>, used0: set<nat>, blocks: seq<Block>, used: set<nat>,
                    logged: set<nat>, c: nat)
    requires ChangesLogged(bmapstart, blocks0, used0, blocks, used, logged)
    ensures |blocks| == |blocks0| && (c < |blocks| && blocks[c] != blocks0[c] ==> c in logged)
    ensures (c in used) != (c in used0) ==> c / BPB + bmapstart in logged
  {
    assert Open(CHANGES_LOGGED, 0);
  }

  class Volume {
    const bitmap: FreeMap
    const meta: nat        // blocks below this one are not data blocks
    const bmapstart: nat
    const inodestart: nat
    var blocks: seq<Block>
    var inodes: seq<Inode>
    ghost var owner: map<nat, Place>
    ghost var logged: set<nat>

    ghost predicate Valid()
      reads this, bitmap, bitmap.bytes
    {
      bitmap.Valid() && bitmap.size == |blocks| && Sound(blocks, inodes, owner, bitmap.used, meta, {})
    }

    function BBlock(b: nat): nat
      reads this
    {
      b / BPB + bmapstart
    }

    /** A block and the bitmap block of its bit, as far as there is one. */
    function LogOf(b: nat): set<nat>
      reads this
    {
      if b == 0 then {} else {b, BBlock(b)}
    }

    function IBlock(inum: nat): nat
      reads this
    {
      inum / IPB + inodestart
    }

    constructor (bits: FreeMap, first: nat, bstart: nat, istart: nat, image: seq<Block>, table: seq<Inode>,
                 ghost own: map<nat, Place>)
      requires bits.Valid() && bits.size == |image| && Sound(image, table, own, bits.used, first, {})
      ensures Valid() && blocks == image && inodes == table && bitmap == bits && meta == first && logged == {}
    {
      bitmap, meta, bmapstart, inodestart := bits, first, bstart, istart;
      blocks, inodes, owner, logged := image, table, own, {};
    }

    /** Nothing has left the log, and every change since then is in it. */
    ghost predicate Recorded(blocks0: seq<Block>, used0: set<nat>, logged0: set<nat>)
      reads this, bitmap
    {
      logged0 <= logged && ChangesLogged(bmapstart, blocks0, used0, blocks, bitmap.used, logged)
    }

    lemma RecordedNone()
      ensures Recorded(blocks, bitmap.used, logged)
    {
      LoggedNone(bmapstart, blocks, bitmap.used, logged);
    }

    lemma RecordedThen(blocks0: seq<Block>, used0: set<nat>, logged0: set<nat>,
                       blocks1: seq<Block>, used1: set<nat>, logged1: set<nat>)
      requires logged0 <= logged1 && ChangesLogged(bmapstart, blocks0, used0, blocks1, used1, logged1)
      requires Recorded(blocks1, used1, logged1)
      ensures Recorded(blocks0, used0, logged0)
    {
      LoggedThen(bmapstart, blocks0, used0, blocks1, used1, logged1, blocks, bitmap.used, logged);
    }

    /** balloc: a zeroed block that was free, or 0 if every block is in use. */
    method Balloc() returns (b: nat)
      requires Valid()
      modifies this`blocks, this`logged, bitmap`used, bitmap.bytes
      ensures bitmap.Valid() && |blocks| == |old(blocks)|
      ensures b == 0 <==> forall c: nat :: c < |blocks| ==> c in old(bitmap.used)
      ensures b == 0 ==> blocks == old(blocks) && bitmap.used == old(bitmap.used) && logged == old(logged) && Valid()
      ensures b != 0 ==>
        && meta <= b < |blocks| && b !in owner && b !in old(bitmap.used) && bitmap.used == old(bitmap.used) + {b}
                         && blocks == old(blocks)[b := ZERO] && logged == old(logged) + {BBlock(b), b}
                         && Sound(blocks, inodes, owner, bitmap.used, meta, {b})
                         && Keeps(old(blocks), inodes, owner, blocks, inodes)
      ensures b != 0 ==> forall c: nat :: c < b ==> c in old(bitmap.used)
      ensures Recorded(old(blocks), old(bitmap.used), old(logged))
    {
      ghost var used := bitmap.used;
      MetaInUse(blocks, inodes, owner, used, meta, {});
      b := bitmap.Take();
      if b == bitmap.size {
        RecordedNone();
        return 0;
      }
      AllocKeepsSound(blocks, inodes, owner, used, meta, b);
      logged := logged + {BBlock(b), b};
      LoggedMark(bmapstart, blocks, used, b, logged);
      LoggedPut(bmapstart, blocks, bitmap.used, b, ZERO, logged);
      LoggedThen(bmapstart, blocks, used, blocks, bitmap.used, logged, blocks[b := ZERO], bitmap.used, logged);
      blocks := blocks[b := ZERO];
    }

    /** The conditions that every step of bmap keeps: nothing that was in a file moves or changes, and
        only inode inum may gain blocks. */
    twostate predicate Grows(inum: nat)
      reads this, bitmap, bitmap.bytes
    {
      && Valid() && |inodes| == |old(inodes)| && |blocks| == |old(blocks)| && inum < |inodes|
      && Keeps(old(blocks), old(inodes), old(owner), blocks, inodes)
      && (forall b :: b in old(owner) ==> b in owner && owner[b] == old(owner)[b])
      && (forall b :: b in owner && b !in old(owner) ==> owner[b].inum == inum)
    }

    /** Exactly the given places have got blocks, or, without an address, not all of them. */
    ghost predicate Took(owner0: map<nat, Place>, ns: set<Place>, addr: nat)
      reads this
    {
      if addr != 0 then Grown(owner0, owner, ns) else Short(owner0, owner, ns)
    }

    lemma TookNot(inum: nat, bn: nat)
      requires Valid() && inum < |inodes| && bn <= MAXFILE
      ensures Took(owner, {Place(inum, bn)}, Addr(blocks, inodes[inum], bn))
    {
      PlaceFacts(blocks, inodes, owner, bitmap.used, meta, {}, inum, bn);
      PlacedHasAddr(blocks, inodes, owner, bitmap.used, meta, inum, bn);
      if Addr(blocks, inodes[inum], bn) != 0 {
        GrownThere(owner, Addr(blocks, inodes[inum], bn), Place(inum, bn));
      } else {
        ShortNow(owner, Place(inum, bn));
      }
    }

    /** bmap for a direct block. */
    method BmapDirect(inum: nat, bn: nat) returns (addr: nat)
      requires Valid() && inum < |inodes| && bn < NDIRECT
      modifies this`blocks, this`inodes, this`owner, this`logged, bitmap`used, bitmap.bytes
      ensures Grows(inum) && addr == Addr(blocks, inodes[inum], bn)
      ensures addr == 0 ==> forall c: nat :: c < |blocks| ==> c in bitmap.used
      ensures old(Addr(blocks, inodes[inum], bn)) != 0 ==>
                blocks == old(blocks) && inodes == old(inodes) && bitmap.used == old(bitmap.used) && owner == old(owner)
      ensures logged <= old(logged) + LogOf(addr)
      ensures (old(Addr(blocks, inodes[inum], bn)) != 0 ==> logged == old(logged))
      ensures Recorded(old(blocks), old(bitmap.used), old(logged)) && inodes == old(inodes)[inum := inodes[inum]]
      ensures Took(old(owner), {Place(inum, bn)}, addr)
    {
      RecordedNone();
      addr := inodes[inum].addrs[bn];
      assert addr == Addr(blocks, inodes[inum], bn);
      TookNot(inum, bn);
      if addr == 0 {
        addr := Balloc();
        if addr == 0 { return; }
        var ip := inodes[inum].(addrs := inodes[inum].addrs[bn := addr]);
        LinkDirectSound(blocks, inodes, owner, bitmap.used, meta, inum, bn, addr);
        KeepsTrans(old(blocks), inodes, owner, blocks, inodes, owner, blocks, inodes[inum := ip]);
        inodes := inodes[inum := ip];
        GrownNew(owner, addr, Place(inum, bn));
        owner := owner[addr := Place(inum, bn)];
      }
    }

    /** The first half of bmap for an indirect block: load the indirect block, allocating if necessary. */
    method BmapPointer(inum: nat) returns (ind: nat)
      requires Valid() && inum < |inodes|
      modifies this`blocks, this`inodes, this`owner, this`logged, bitmap`used, bitmap.bytes
      ensures Grows(inum) && ind == Addr(blocks, inodes[inum], MAXFILE)
      ensures ind == 0 ==> forall c: nat :: c < |blocks| ==> c in bitmap.used
      ensures old(inodes[inum].addrs[NDIRECT]) != 0 ==>
        blocks == old(blocks) && inodes == old(inodes) && bitmap.used == old(bitmap.used) && owner == old(owner)
      ensures logged <= old(logged) + LogOf(ind) && (old(inodes[inum].addrs[NDIRECT]) != 0 ==> logged == old(logged))
      ensures Recorded(old(blocks), old(bitmap.used), old(logged)) && inodes == old(inodes)[inum := inodes[inum]]
      ensures Took(old(owner), {Place(inum, MAXFILE)}, ind)
    {
      RecordedNone();
      ind := inodes[inum].addrs[NDIRECT];
      assert ind == Addr(blocks, inodes[inum], MAXFILE);
      TookNot(inum, MAXFILE);
      if ind == 0 {
        ind := Balloc();
        if ind == 0 { return; }
        var ip := inodes[inum].(addrs := inodes[inum].addrs[NDIRECT := ind]);
        LinkIndirectSound(blocks, inodes, owner, bitmap.used, meta, inum, ind);
        KeepsTrans(old(blocks), inodes, owner, blocks, inodes, owner, blocks, inodes[inum := ip]);
        inodes := inodes[inum := ip];
        GrownNew(owner, ind, Place(inum, MAXFILE));
        owner := owner[ind := Place(inum, MAXFILE)];
      }
    }

    /** The second half: the entry of the indirect block, allocating if necessary. */
    method BmapEntry(inum: nat, j: nat) returns (addr: nat)
      requires Valid() && inum < |inodes| && j < NINDIRECT && inodes[inum].addrs[NDIRECT] != 0
      modifies this`blocks, this`owner, this`logged, bitmap`used, bitmap.bytes
      ensures Grows(inum) && addr == Addr(blocks, inodes[inum], NDIRECT + j)
      ensures addr == 0 ==> forall c: nat :: c < |blocks| ==> c in bitmap.used
      ensures old(Addr(blocks, inodes[inum], NDIRECT + j)) != 0 ==>
        blocks == old(blocks) && bitmap.used == old(bitmap.used) && owner == old(owner)
      ensures logged <= old(logged) + LogOf(addr) + LogOf(inodes[inum].addrs[NDIRECT])
      ensures old(Addr(blocks, inodes[inum], NDIRECT + j)) != 0 ==> logged == old(logged)
      ensures Recorded(old(blocks), old(bitmap.used), old(logged))
      ensures Took(old(owner), {Place(inum, NDIRECT + j)}, addr)
    {
      RecordedNone();
      var ind := inodes[inum].addrs[NDIRECT];
      TookNot(inum, NDIRECT + j);
      PlaceFacts(blocks, inodes, owner, bitmap.used, meta, {}, inum, MAXFILE);
      addr := Word(blocks[ind], j);
      assert addr == Addr(blocks, inodes[inum], NDIRECT + j);
      if addr == 0 {
        addr := Balloc();
        if addr == 0 { return; }
        AllocAddr(old(blocks), inodes, owner, old(bitmap.used), meta, addr, inum, NDIRECT + j);
        var nb := StoreWord(blocks[ind], j, addr);
        LinkEntrySound(blocks, inodes, owner, bitmap.used, meta, inum, j, addr, nb);
        ghost var blocks1 := blocks;
        blocks := blocks[ind := nb];
        KeepsTrans(old(blocks), inodes, owner, blocks1, inodes, owner, blocks, inodes);
        GrownNew(owner, addr, Place(inum, NDIRECT + j));
        owner := owner[addr := Place(inum, NDIRECT + j)];
        ghost var logged1 := logged;
        logged := logged + {ind};
        LoggedPut(bmapstart, blocks1, bitmap.used, ind, nb, logged);
        RecordedThen(old(blocks), old(bitmap.used), old(logged), blocks1, bitmap.used, logged1);
      }
    }

    /** The blocks that bmap of place bn may log: the block, the indirect block, and their bitmap blocks. */
    ghost function BmapLog(inum: nat, bn: nat): set<nat>
      requires inum < |inodes| && inodes[inum].Ok() && bn < MAXFILE
      reads this
    {
      LogOf(Addr(blocks, inodes[inum], bn)) + LogOf(inodes[inum].addrs[NDIRECT])
    }

    lemma TookBoth(owner0: map<nat, Place>, owner1: map<nat, Place>, inum: nat, bn: nat, addr: nat)
      requires bn >= NDIRECT && Grown(owner0, owner1, {Place(inum, MAXFILE)}) && Took(owner1, {Place(inum, bn)}, addr)
      ensures Took(owner0, Needs(inum, bn), addr)
    {
      if addr != 0 {
        GrownMore(owner0, owner1, owner, {Place(inum, MAXFILE)}, {Place(inum, bn)}, Needs(inum, bn));
      } else {
        ShortMore(owner0, owner1, owner, {Place(inum, MAXFILE)}, {Place(inum, bn)}, Needs(inum, bn));
      }
    }

    /** bmap: where block bn of the file is, allocated now if it was nowhere; 0 only if the disk is
        full.  Nothing that was in any file moves or changes. */
    method Bmap(inum: nat, bn: nat) returns (addr: nat)
      requires Valid() && inum < |inodes| && bn < MAXFILE
      modifies this`blocks, this`inodes, this`owner, this`logged, bitmap`used, bitmap.bytes
      ensures Grows(inum) && addr == Addr(blocks, inodes[inum], bn)
      ensures FilesOf(blocks, inodes) == old(FilesOf(blocks, inodes))
      ensures addr == 0 ==> forall c: nat :: c < |blocks| ==> c in bitmap.used
      ensures old(Addr(blocks, inodes[inum], bn)) != 0 ==>
                blocks == old(blocks) && inodes == old(inodes) && bitmap.used == old(bitmap.used) && owner == old(owner)
      ensures logged <= old(logged) + BmapLog(inum, bn)
      ensures (old(Addr(blocks, inodes[inum], bn)) != 0 ==> logged == old(logged))
      ensures Recorded(old(blocks), old(bitmap.used), old(logged)) && inodes == old(inodes)[inum := inodes[inum]]
      ensures Took(old(owner), Needs(inum, bn), addr)
    {
      if bn < NDIRECT {
        addr := BmapDirect(inum, bn);
        FilesSame(old(blocks), old(inodes), old(owner), old(bitmap.used), meta, blocks, inodes);
        return;
      }
      var ind := BmapPointer(inum);
      FilesSame(old(blocks), old(inodes), old(owner), old(bitmap.used), meta, blocks, inodes);
      GrownNone(old(owner));
      if ind == 0 {
        ShortMore(old(owner), old(owner), owner, {}, {Place(inum, MAXFILE)}, Needs(inum, bn));
        return 0;
      }
      ghost var blocks1, inodes1, owner1, used1, logged1 := blocks, inodes, owner, bitmap.used, logged;
      addr := BmapEntry(inum, bn - NDIRECT);
      TookBoth(old(owner), owner1, inum, bn, addr);
      RecordedThen(old(blocks), old(bitmap.used), old(logged), blocks1, used1, logged1);
      KeepsTrans(old(blocks), old(inodes), old(owner), blocks1, inodes1, owner1, blocks, inodes);
      FilesSame(old(blocks), old(inodes), old(owner), old(bitmap.used), meta, blocks, inodes);
    }

    /** readi: the bytes of the file from off on, as many as asked for and present.  off + n is 32-bit
        arithmetic, and a sum that wraps around reads nothing.  Reading changes nothing. */
    method Readi(inum: nat, off: nat, n: nat) returns (data: seq<byte>)
      requires Valid() && inum < |inodes| && off < WORD && n < WORD
      modifies this`blocks, this`inodes, this`owner, this`logged, bitmap`used, bitmap.bytes
      ensures Valid() && blocks == old(blocks) && inodes == old(inodes) && owner == old(owner)
      ensures bitmap.used == old(bitmap.used) && logged == old(logged)
      ensures var c := Content(blocks, inodes[inum]);
              data == if off > |c| || (off + n) % WORD < off then []
                      else if off + n > |c| then c[off..] else c[off..off + n]
    {
      data := [];
      if off > inodes[inum].size || (off + n) % WORD < off { return; }
      var m := if off + n > inodes[inum].size then inodes[inum].size - off else n;
      ghost var c := Content(blocks, inodes[inum]);
      var tot := 0;
      while tot < m
        invariant 0 <= tot <= m && off + m <= |c|
        invariant Valid() && blocks == old(blocks) && inodes == old(inodes) && owner == old(owner)
        invariant bitmap.used == old(bitmap.used) && logged == old(logged)
        invariant data == c[off..off + tot]
      {
        var some := ReadOne(inum, off + tot, m - tot);
        data := data + some;
        tot := tot + |some|;
      }
    }

    /** One turn of readi's loop. */
    method ReadOne(inum: nat, off: nat, left: nat) returns (some: seq<byte>)
      requires Valid() && inum < |inodes| && 0 < left && off + left <= inodes[inum].size
      modifies this`blocks, this`inodes, this`owner, this`logged, bitmap`used, bitmap.bytes
      ensures Valid() && blocks == old(blocks) && inodes == old(inodes) && owner == old(owner)
      ensures bitmap.used == old(bitmap.used) && logged == old(logged)
      ensures 0 < |some| <= left && some == Content(blocks, inodes[inum])[off..off + |some|]
    {
      var m := if left < BSIZE - off % BSIZE then left else BSIZE - off % BSIZE;
      ReadChunk(blocks, inodes, owner, bitmap.used, meta, inum, off, m);
      var addr := Bmap(inum, off / BSIZE);
      some := blocks[addr].bytes[off % BSIZE..off % BSIZE + m];
    }

    /** With a one-block bitmap, the log has got nothing but that block and the touched ones. */
    ghost predicate LogsOnly(inum: nat, lo: nat, hi: nat, before: set<nat>)
      requires inum < |inodes| && inodes[inum].Ok() && lo <= hi <= MAXFILE
      reads this
    {
      |blocks| <= BPB ==> logged <= before + Touched(blocks, inodes[inum], lo, hi) + {bmapstart}
    }

    /** bmap with its effect on the log. */
    method BmapLogged(inum: nat, bn: nat, ghost lo: nat, ghost before: set<nat>) returns (addr: nat)
      requires Valid() && inum < |inodes| && bn < MAXFILE && lo <= bn && LogsOnly(inum, lo, bn, before)
      modifies this`blocks, this`inodes, this`owner, this`logged, bitmap`used, bitmap.bytes
      ensures Grows(inum) && addr == Addr(blocks, inodes[inum], bn)
      ensures addr == 0 ==> forall c: nat :: c < |blocks| ==> c in bitmap.used
      ensures LogsOnly(inum, lo, bn + 1, before)
      ensures Recorded(old(blocks), old(bitmap.used), old(logged)) && inodes == old(inodes)[inum := inodes[inum]]
      ensures Took(old(owner), Needs(inum, bn), addr)
    {
      addr := Bmap(inum, bn);
      TouchedGrows(old(blocks), old(inodes), old(owner), blocks, inodes, inum, lo, bn, bn + 1);
      TouchedHas(blocks, inodes[inum], lo, bn + 1);
      PlaceFacts(blocks, inodes, owner, bitmap.used, meta, {}, inum, bn);
      PlaceFacts(blocks, inodes, owner, bitmap.used, meta, {}, inum, MAXFILE);
    }

    /** memmove into the data block and log_write. */
    method PutData(inum: nat, off: nat, d: seq<byte>, ghost files: seq<seq<byte>>, ghost lo: nat,
                   ghost before: set<nat>)
      requires Valid() && inum < |inodes| && Files(blocks, inodes, files)
      requires 0 < |d| && off <= |files[inum]| && off + |d| <= MAXFILE * BSIZE && off % BSIZE + |d| <= BSIZE
      requires Addr(blocks, inodes[inum], off / BSIZE) != 0 && lo <= off / BSIZE
      requires LogsOnly(inum, lo, off / BSIZE + 1, before)
      modifies this`blocks, this`logged
      ensures Valid() && Files(blocks, inodes, Rewritten(files, inum, off, d))
      ensures LogsOnly(inum, lo, off / BSIZE + 1, before)
      ensures Recorded(old(blocks), old(bitmap.used), old(logged))
    {
      var addr := Addr(blocks, inodes[inum], off / BSIZE);
      PlaceFacts(blocks, inodes, owner, bitmap.used, meta, {}, inum, off / BSIZE);
      var b := Patch(blocks[addr], off % BSIZE, d);
      FilesPatched(blocks, inodes, owner, bitmap.used, meta, files, inum, off, d);
      PatchSound(blocks, inodes, owner, bitmap.used, meta, inum, off / BSIZE, b);
      TouchedSame(blocks, inodes[inum], blocks[addr := b], inodes[inum], lo, off / BSIZE + 1);
      logged := logged + {addr};
      LoggedPut(bmapstart, blocks, bitmap.used, addr, b, logged);
      blocks := blocks[addr := b];
    }

    /** One turn of writei's loop: 0 bytes only if the disk is full. */
    method WriteOne(inum: nat, off: nat, left: seq<byte>, ghost files: seq<seq<byte>>, ghost lo: nat,
                    ghost before: set<nat>) returns (m: nat)
      requires Valid() && inum < |inodes| && Files(blocks, inodes, files)
      requires left != [] && off <= |files[inum]| && off + |left| <= MAXFILE * BSIZE
      requires lo <= off / BSIZE && LogsOnly(inum, lo, off / BSIZE, before)
      modifies this`blocks, this`inodes, this`owner, this`logged, bitmap`used, bitmap.bytes
      ensures Valid() && |inodes| == |old(inodes)| && |blocks| == |old(blocks)| && m <= |left|
      ensures m == 0 ==> Files(blocks, inodes, files) && forall c: nat :: c < |blocks| ==> c in bitmap.used
      ensures m == 0 ==> Addr(blocks, inodes[inum], off / BSIZE) == 0
      ensures m != 0 ==> Files(blocks, inodes, Rewritten(files, inum, off, left[..m]))
      ensures m != 0 ==> m == |left| || ((off + m) % BSIZE == 0 && (off + m) / BSIZE == off / BSIZE + 1)
      ensures m != 0 ==> (off + m - 1) / BSIZE == off / BSIZE
      ensures Took(old(owner), Needs(inum, off / BSIZE), m)
      ensures forall j :: 0 <= j < |inodes| ==> inodes[j].size == old(inodes)[j].size
      ensures LogsOnly(inum, lo, off / BSIZE + 1, before)
      ensures Recorded(old(blocks), old(bitmap.used), old(logged)) && inodes == old(inodes)[inum := inodes[inum]]
    {
      var addr := BmapLogged(inum, off / BSIZE, lo, before);
      FilesKept(old(blocks), old(inodes), old(owner), old(bitmap.used), meta, blocks, inodes, files);
      if addr == 0 { return 0; }
      m := if |left| < BSIZE - off % BSIZE then |left| else BSIZE - off % BSIZE;
      ghost var blocks1, used1, logged1 := blocks, bitmap.used, logged;
      PutData(inum, off, left[..m], files, lo, before);
      RecordedThen(old(blocks), old(bitmap.used), old(logged), blocks1, used1, logged1);
    }

    /** tot bytes have been written, and the log holds no block past place hi. */
    ghost predicate Writing(inum: nat, off: nat, src: seq<byte>, tot: nat, files: seq<seq<byte>>, hi: nat,
                            before: set<nat>)
      reads this, bitmap, bitmap.bytes
    {
      && Valid() && inum < |inodes| == |files| && off <= |files[inum]| && off / BSIZE <= hi <= MAXFILE
      && tot <= |src| && off + |src| <= MAXFILE * BSIZE
      && Files(blocks, inodes, Rewritten(files, inum, off, src[..tot])) && LogsOnly(inum, off / BSIZE, hi, before)
    }

    /** One turn of writei's loop and the bookkeeping around it. */
    method WriteTurn(inum: nat, off: nat, src: seq<byte>, tot: nat, ghost files: seq<seq<byte>>,
                     ghost before: set<nat>) returns (next: nat)
      requires Writing(inum, off, src, tot, files, (off + tot) / BSIZE, before) && tot < |src|
      modifies this`blocks, this`inodes, this`owner, this`logged, bitmap`used, bitmap.bytes
      ensures |inodes| == |old(inodes)| && |blocks| == |old(blocks)| && tot <= next
      ensures Writing(inum, off, src, next, files, (off + tot) / BSIZE + 1, before)
      ensures next == tot ==> forall c: nat :: c < |blocks| ==> c in bitmap.used
      ensures next == tot ==> Addr(blocks, inodes[inum], (off + tot) / BSIZE) == 0
      ensures next != tot ==> next == |src| || (off + next) / BSIZE == (off + tot) / BSIZE + 1
      ensures next != tot ==> (off + next - 1) / BSIZE == (off + tot) / BSIZE
      ensures Took(old(owner), Needs(inum, (off + tot) / BSIZE), next - tot)
      ensures forall j :: 0 <= j < |inodes| ==> inodes[j].size == old(inodes)[j].size
      ensures Recorded(old(blocks), old(bitmap.used), old(logged)) && inodes == old(inodes)[inum := inodes[inum]]
    {
      ghost var now := Rewritten(files, inum, off, src[..tot]);
      var m := WriteOne(inum, off + tot, src[tot..], now, off / BSIZE, before);
      RewrittenMore(files, inum, off, src, tot, m);
      next := tot + m;
    }

    /** The places from off's up to hi have got their blocks. */
    ghost predicate Reached(owner0: map<nat, Place>, inum: nat, off: nat, hi: nat)
      reads this
    {
      off / BSIZE <= hi && Grown(owner0, owner, NeedsAll(inum, off / BSIZE, hi - off / BSIZE))
    }

    /** All places that n bytes at off reach have got their blocks, or not all of them. */
    ghost predicate Ended(owner0: map<nat, Place>, inum: nat, off: nat, n: nat, whole: bool)
      reads this
    {
      var all := NeedsAll(inum, off / BSIZE, EndPlace(off, n) - off / BSIZE);
      if whole then Grown(owner0, owner, all) else Short(owner0, owner, all)
    }

    lemma ReachedNone(inum: nat, off: nat)
      ensures Reached(owner, inum, off, off / BSIZE)
    {
      GrownNone(owner);
    }

    lemma ReachedAll(owner0: map<nat, Place>, inum: nat, off: nat, n: nat)
      requires Reached(owner0, inum, off, EndPlace(off, n))
      ensures Ended(owner0, inum, off, n, true)
    {
    }

    /** One more place, or too few blocks. */
    lemma ReachedNext(owner0: map<nat, Place>, owner1: map<nat, Place>, inum: nat, off: nat, bn: nat, n: nat, m: nat)
      requires off / BSIZE <= bn < EndPlace(off, n)
      requires Grown(owner0, owner1, NeedsAll(inum, off / BSIZE, bn - off / BSIZE)) && Took(owner1, Needs(inum, bn), m)
      ensures if m != 0 then Reached(owner0, inum, off, bn + 1) else Ended(owner0, inum, off, n, false)
    {
      ghost var lo := off / BSIZE;
      ghost var hi := EndPlace(off, n);
      NeedsNext(inum, lo, bn, hi - lo);
      if m != 0 {
        GrownMore(owner0, owner1, owner, NeedsAll(inum, lo, bn - lo), Needs(inum, bn), NeedsAll(inum, lo, bn + 1 - lo));
      } else {
        ShortMore(owner0, owner1, owner, NeedsAll(inum, lo, bn - lo), Needs(inum, bn), NeedsAll(inum, lo, hi - lo));
      }
    }

    /** One turn with what all turns so far have taken and logged. */
    method WriteStep(inum: nat, off: nat, src: seq<byte>, tot: nat, ghost files: seq<seq<byte>>, ghost before: set<nat>,
                     ghost blocks0: seq<Block>, ghost used0: set<nat>, ghost owner0: map<nat, Place>)
      returns (next: nat)
      requires Writing(inum, off, src, tot, files, NextPlace(off, tot, |src|), before) && tot < |src|
      requires Recorded(blocks0, used0, before) && Reached(owner0, inum, off, NextPlace(off, tot, |src|))
      modifies this`blocks, this`inodes, this`owner, this`logged, bitmap`used, bitmap.bytes
      ensures |inodes| == |old(inodes)| && |blocks| == |old(blocks)| && tot <= next
      ensures Recorded(blocks0, used0, before) && inodes == old(inodes)[inum := inodes[inum]]
      ensures forall j :: 0 <= j < |inodes| ==> inodes[j].size == old(inodes)[j].size
      ensures next != tot ==> && Writing(inum, off, src, next, files, NextPlace(off, next, |src|), before)
                              && Reached(owner0, inum, off, NextPlace(off, next, |src|))
      ensures next == tot ==> && Writing(inum, off, src, tot, files, EndPlace(off, |src|), before)
                              && Ended(owner0, inum, off, |src|, false)
                              && Addr(blocks, inodes[inum], (off + tot) / BSIZE) == 0
      ensures next == tot ==> forall c: nat :: c < |blocks| ==> c in bitmap.used
    {
      ghost var hi := NextPlace(off, tot, |src|);
      EndPlaceBounds(off, |src|);
      NextPlaceBound(off, tot, |src|);
      next := WriteTurn(inum, off, src, tot, files, before);
      RecordedThen(blocks0, used0, before, old(blocks), old(bitmap.used), old(logged));
      ReachedNext(owner0, old(owner), inum, off, hi, |src|, next - tot);
      if next != tot {
        NextPlaceStep(off, tot, next, |src|);
      } else {
        TouchedMore(blocks, inodes[inum], off / BSIZE, hi + 1, EndPlace(off, |src|));
      }
    }

    /** writei's loop: afterwards the blocks hold the written prefix; short only if the disk is full. */
    method WriteAll(inum: nat, off: nat, src: seq<byte>, ghost files: seq<seq<byte>>) returns (tot: nat)
      requires Writing(inum, off, src, 0, files, off / BSIZE, logged)
      modifies this`blocks, this`inodes, this`owner, this`logged, bitmap`used, bitmap.bytes
      ensures |inodes| == |old(inodes)| && |blocks| == |old(blocks)|
      ensures Writing(inum, off, src, tot, files, EndPlace(off, |src|), old(logged))
      ensures tot < |src| ==> forall c: nat :: c < |blocks| ==> c in bitmap.used
      ensures tot < |src| ==> Addr(blocks, inodes[inum], (off + tot) / BSIZE) == 0
      ensures tot == |src| <==> Fits(old(owner), old(bitmap.used), |old(blocks)|, inum, off, |src|)
      ensures forall j :: 0 <= j < |inodes| ==> inodes[j].size == old(inodes)[j].size
      ensures Recorded(old(blocks), old(bitmap.used), old(logged)) && inodes == old(inodes)[inum := inodes[inum]]
    {
      RecordedNone();
      ReachedNone(inum, off);
      tot := 0;
      while tot < |src|
        invariant 0 <= tot <= |src| && |inodes| == |old(inodes)| && |blocks| == |old(blocks)|
        invariant Writing(inum, off, src, tot, files, NextPlace(off, tot, |src|), old(logged))
        invariant Reached(old(owner), inum, off, NextPlace(off, tot, |src|))
        invariant forall j :: 0 <= j < |inodes| ==> inodes[j].size == old(inodes)[j].size
        invariant Recorded(old(blocks), old(bitmap.used), old(logged)) && inodes == old(inodes)[inum := inodes[inum]]
      {
        var next := WriteStep(inum, off, src, tot, files, old(logged), old(blocks), old(bitmap.used), old(owner));
        if next == tot {
          WholeIff(old(blocks), old(inodes), old(owner), old(bitmap.used), inum, off, |src|, false);
          return;
        }
        tot := next;
      }
      ReachedAll(old(owner), inum, off, |src|);
      WholeIff(old(blocks), old(inodes), old(owner), old(bitmap.used), inum, off, |src|, true);
    }

    /** writei from kernel memory: -1 exactly for an offset past the end, a sum that wraps around or a
        file that would be too large; otherwise the written prefix is spliced into the file at off and
        no other byte of any file changes. */
    method Writei(inum: nat, off: nat, src: seq<byte>) returns (tot: int)
      requires Valid() && inum < |inodes| && off < WORD && |src| < WORD
      modifies this`blocks, this`inodes, this`owner, this`logged, bitmap`used, bitmap.bytes
      ensures Valid() && |inodes| == |old(inodes)| && |blocks| == |old(blocks)|
      ensures tot == -1 <==> off > old(inodes)[inum].size || (off + |src|) % WORD < off || off + |src| > MAXFILE * BSIZE
      ensures tot == -1 ==>
        blocks == old(blocks) && inodes == old(inodes) && bitmap.used == old(bitmap.used) && logged == old(logged)
      ensures tot != -1 ==> 0 <= tot <= |src| && old(off <= inodes[inum].size)
      ensures tot != -1 ==> FilesOf(blocks, inodes) == Rewritten(old(FilesOf(blocks, inodes)), inum, off, src[..tot])
      ensures 0 <= tot < |src| ==> forall c: nat :: c < |blocks| ==> c in bitmap.used
      ensures 0 <= tot < |src| ==> Addr(blocks, inodes[inum], (off + tot) / BSIZE) == 0
      ensures tot != -1 && |blocks| <= BPB ==>
                EndPlace(off, |src|) <= MAXFILE
                && logged <= old(logged) + Touched(blocks, inodes[inum], off / BSIZE, EndPlace(off, |src|))
                     + {bmapstart, IBlock(inum)}
      ensures Recorded(old(blocks), old(bitmap.used), old(logged)) && inodes == old(inodes)[inum := inodes[inum]]
      ensures tot != -1 ==> IBlock(inum) in logged
      ensures tot != -1 ==> (tot == |src| <==> Fits(old(owner), old(bitmap.used), |old(blocks)|, inum, off, |src|))
    {
      RecordedNone();
      if off > inodes[inum].size || (off + |src|) % WORD < off { return -1; }
      if off + |src| > MAXFILE * BSIZE { return -1; }
      ghost var files := FilesOf(blocks, inodes);
      FilesStart(blocks, inodes, owner, bitmap.used, meta);
      RewrittenNothing(files, inum, off, src);
      tot := WriteAll(inum, off, src, files);
      ghost var logged1 := logged;
      LoggedNone(bmapstart, blocks, bitmap.used, logged1 + {IBlock(inum)});
      Resize(inum, off + tot, Rewritten(files, inum, off, src[..tot]));
      RecordedThen(old(blocks), old(bitmap.used), old(logged), blocks, bitmap.used, logged1);
    }

    lemma WholeIff(blocks0: seq<Block>, inodes0: seq<Inode>, owner0: map<nat, Place>, used0: set<nat>, inum: nat,
                   off: nat, n: nat, whole: bool)
      requires Valid() && Sound(blocks0, inodes0, owner0, used0, meta, {}) && |blocks| == |blocks0|
      requires Ended(owner0, inum, off, n, whole) && (!whole ==> forall c: nat :: c < |blocks| ==> c in bitmap.used)
      ensures whole <==> Fits(owner0, used0, |blocks0|, inum, off, n)
    {
      var all := NeedsAll(inum, off / BSIZE, EndPlace(off, n) - off / BSIZE);
      if whole {
        WholeMeansEnough(blocks0, inodes0, owner0, used0, blocks, inodes, owner, bitmap.used, meta, all);
      } else {
        ShortMeansTooFew(blocks0, inodes0, owner0, used0, blocks, inodes, owner, bitmap.used, meta, all);
      }
    }

    /** if(off > ip->size) ip->size = off, and iupdate. */
    method Resize(inum: nat, off: nat, ghost files: seq<seq<byte>>)
      requires Valid() && inum < |inodes| && Files(blocks, inodes, files)
      requires |files[inum]| == if off > inodes[inum].size then off else inodes[inum].size
      requires forall j :: 0 <= j < |inodes| && j != inum ==> inodes[j].size == |files[j]|
      modifies this`inodes, this`logged
      ensures Valid() && |inodes| == |old(inodes)| && FilesOf(blocks, inodes) == files
      ensures logged == old(logged) + {IBlock(inum)} && inodes == old(inodes)[inum := inodes[inum]]
      ensures inodes[inum].addrs == old(inodes[inum].addrs)
      ensures forall lo: nat, hi: nat :: lo <= hi <= MAXFILE ==>
                Touched(blocks, inodes[inum], lo, hi) == old(Touched(blocks, inodes[inum], lo, hi))
    {
      FilesEnd(blocks, inodes, owner, bitmap.used, meta, files, inum);
      assert inodes[inum].(size := inodes[inum].size) == inodes[inum];
      var ip := if off > inodes[inum].size then inodes[inum].(size := off) else inodes[inum];
      assert ip == inodes[inum].(size := |files[inum]|);
      forall lo: nat, hi: nat | lo <= hi <= MAXFILE
        ensures Touched(blocks, ip, lo, hi) == Touched(blocks, inodes[inum], lo, hi) {
        TouchedSame(blocks, inodes[inum], blocks, ip, lo, hi);
      }
      inodes := inodes[inum := ip];
      logged := logged + {IBlock(inum)};
    }

    /** bfree of the block in one place, as far as there is one. */
    method Bfree(b: nat)
      requires bitmap.Valid() && (b != 0 ==> b < bitmap.size && b in bitmap.used)
      modifies this`logged, bitmap`used, bitmap.bytes
      ensures bitmap.Valid() && bitmap.used == old(bitmap.used) - (if b == 0 then {} else {b})
      ensures logged == old(logged) + if b == 0 then {} else {BBlock(b)}
      ensures Recorded(old(blocks), old(bitmap.used), old(logged))
    {
      RecordedNone();
      if b != 0 {
        bitmap.Give(b);
        logged := logged + {BBlock(b)};
        LoggedMark(bmapstart, blocks, old(bitmap.used), b, logged);
      }
    }

    /** itrunc's first loop: the direct blocks are free and their entries cleared. */
    method FreeDirect(inum: nat)
      requires Valid() && inum < |inodes|
      modifies this`inodes, this`logged, bitmap`used, bitmap.bytes
      ensures bitmap.Valid() && bitmap.used == old(bitmap.used) - Held(blocks, old(inodes)[inum], NDIRECT)
      ensures |inodes| == |old(inodes)| && inodes == old(inodes)[inum := inodes[inum]]
      ensures |inodes[inum].addrs| == NDIRECT + 1 && inodes[inum].addrs[NDIRECT] == old(inodes)[inum].addrs[NDIRECT]
      ensures forall k :: 0 <= k < NDIRECT ==> inodes[inum].addrs[k] == 0
      ensures |blocks| <= BPB ==> logged <= old(logged) + {bmapstart}
      ensures Recorded(old(blocks), old(bitmap.used), old(logged))
    {
      RecordedNone();
      ghost var ip := inodes[inum];
      var i := 0;
      while i < NDIRECT
        invariant 0 <= i <= NDIRECT && bitmap.Valid() && bitmap.used == old(bitmap.used) - Held(blocks, ip, i)
        invariant |inodes| == |old(inodes)| && inodes == old(inodes)[inum := inodes[inum]]
        invariant |inodes[inum].addrs| == NDIRECT + 1
        invariant forall k :: 0 <= k <= NDIRECT ==> inodes[inum].addrs[k] == if k < i then 0 else ip.addrs[k]
        invariant |blocks| <= BPB ==> logged <= old(logged) + {bmapstart}
        invariant Recorded(blocks, old(bitmap.used), old(logged))
      {
        HeldNext(blocks, old(inodes), owner, old(bitmap.used), meta, inum, i);
        ghost var used1, logged1 := bitmap.used, logged;
        Bfree(inodes[inum].addrs[i]);
        RecordedThen(blocks, old(bitmap.used), old(logged), blocks, used1, logged1);
        inodes := inodes[inum := inodes[inum].(addrs := inodes[inum].addrs[i := 0])];
        i := i + 1;
      }
    }

    /** itrunc's second loop: the blocks that the indirect block names are free. */
    method FreeEntries(ind: nat, ghost table: seq<Inode>, ghost inum: nat, ghost used: set<nat>)
      requires Sound(blocks, table, owner, used, meta, {}) && inum < |table| && ind == table[inum].addrs[NDIRECT] != 0
      requires bitmap.Valid() && bitmap.size == |blocks| && bitmap.used == used - Held(blocks, table[inum], NDIRECT)
      modifies this`logged, bitmap`used, bitmap.bytes
      ensures bitmap.Valid() && bitmap.used == used - Held(blocks, table[inum], MAXFILE)
      ensures |blocks| <= BPB ==> logged <= old(logged) + {bmapstart}
      ensures Recorded(old(blocks), old(bitmap.used), old(logged))
    {
      RecordedNone();
      PlaceFacts(blocks, table, owner, used, meta, {}, inum, MAXFILE);
      var j := 0;
      while j < NINDIRECT
        invariant 0 <= j <= NINDIRECT && bitmap.Valid() && bitmap.used == used - Held(blocks, table[inum], NDIRECT + j)
        invariant |blocks| <= BPB ==> logged <= old(logged) + {bmapstart}
        invariant Recorded(blocks, old(bitmap.used), old(logged))
      {
        ghost var used1, logged1 := bitmap.used, logged;
        FreeEntry(ind, j, table, inum, used);
        RecordedThen(blocks, old(bitmap.used), old(logged), blocks, used1, logged1);
        j := j + 1;
      }
    }

    method FreeEntry(ind: nat, j: nat, ghost table: seq<Inode>, ghost inum: nat, ghost used: set<nat>)
      requires Sound(blocks, table, owner, used, meta, {}) && inum < |table| && ind == table[inum].addrs[NDIRECT] != 0
      requires bitmap.Valid() && bitmap.size == |blocks| && j < NINDIRECT && ind < |blocks|
      requires bitmap.used == used - Held(blocks, table[inum], NDIRECT + j)
      modifies this`logged, bitmap`used, bitmap.bytes
      ensures bitmap.Valid() && bitmap.used == used - Held(blocks, table[inum], NDIRECT + j + 1)
      ensures |blocks| <= BPB ==> logged <= old(logged) + {bmapstart}
      ensures Recorded(old(blocks), old(bitmap.used), old(logged))
    {
      HeldNext(blocks, table, owner, used, meta, inum, NDIRECT + j);
      Bfree(Word(blocks[ind], j));
    }

    /** The indirect part of itrunc. */
    method FreeIndirect(ind: nat, ghost table: seq<Inode>, ghost inum: nat, ghost used: set<nat>)
      requires Sound(blocks, table, owner, used, meta, {}) && inum < |table| && ind == table[inum].addrs[NDIRECT]
      requires bitmap.Valid() && bitmap.size == |blocks| && bitmap.used == used - Held(blocks, table[inum], NDIRECT)
      modifies this`logged, bitmap`used, bitmap.bytes
      ensures bitmap.Valid() && bitmap.used == used - BlocksOf(owner, inum)
      ensures |blocks| <= BPB ==> logged <= old(logged) + {bmapstart}
      ensures Recorded(old(blocks), old(bitmap.used), old(logged))
    {
      RecordedNone();
      HeldAll(blocks, table, owner, used, meta, inum);
      if ind != 0 {
        FreeEntries(ind, table, inum, used);
        HeldNext(blocks, table, owner, used, meta, inum, MAXFILE);
        ghost var used1, logged1 := bitmap.used, logged;
        Bfree(ind);
        RecordedThen(blocks, old(bitmap.used), old(logged), blocks, used1, logged1);
      } else {
        HeldDirect(blocks, table[inum], MAXFILE + 1);
      }
    }

    /** itrunc: exactly the blocks of this inode become free, the file becomes empty, and no other file
        changes.  Every bfree finds its bit set, so its panic is not reached. */
    method Itrunc(inum: nat)
      requires Valid() && inum < |inodes|
      modifies this`inodes, this`owner, this`logged, bitmap`used, bitmap.bytes
      ensures Valid() && inodes == old(inodes)[inum := EmptyInode()]
      ensures owner == old(owner) - BlocksOf(old(owner), inum)
      ensures bitmap.used == old(bitmap.used) - BlocksOf(old(owner), inum)
      ensures FilesOf(blocks, inodes) == old(FilesOf(blocks, inodes))[inum := []]
      ensures |blocks| <= BPB ==> logged <= old(logged) + {bmapstart, IBlock(inum)}
      ensures Recorded(old(blocks), old(bitmap.used), old(logged)) && IBlock(inum) in logged
    {
      ghost var table, used, logged0 := inodes, bitmap.used, logged;
      FreeDirect(inum);
      ghost var used1, logged1 := bitmap.used, logged;
      FreeIndirect(inodes[inum].addrs[NDIRECT], table, inum, used);
      RecordedThen(blocks, used, logged0, blocks, used1, logged1);
      ghost var logged2 := logged;
      var addrs := inodes[inum].addrs[NDIRECT := 0];
      assert Inode(addrs, 0) == EmptyInode() by { assert addrs == EmptyInode().addrs; }
      inodes := inodes[inum := Inode(addrs, 0)];
      assert inodes == table[inum := EmptyInode()];
      TruncKeepsSound(blocks, table, owner, used, meta, inum);
      TruncFiles(blocks, table, inum);
      owner := owner - BlocksOf(owner, inum);
      logged := logged + {IBlock(inum)};
      LoggedNone(bmapstart, blocks, bitmap.used, logged);
      RecordedThen(blocks, used, logged0, blocks, bitmap.used, logged2);
    }
  }

  const CHUNK := (MAXOPBLOCKS - 1 - 1 - 2) / 2 * BSIZE

  /** A chunk reaches at most four data blocks; with the indirect, bitmap and inode blocks that is seven. */
  lemma FewBlocks(blocks: seq<Block>, ip: Inode, off: nat, n: nat, logged: set<nat>, x: nat, y: nat)
    requires ip.Ok() && n <= CHUNK && EndPlace(off, n) <= MAXFILE
    requires logged <= Touched(blocks, ip, off / BSIZE, EndPlace(off, n)) + {x, y}
    ensures |logged| <= 7
  {
    var t := Touched(blocks, ip, off / BSIZE, EndPlace(off, n));
    TouchedFew(blocks, ip, off / BSIZE, EndPlace(off, n));
    assert |t + {x} + {y}| <= |t| + 2;
    assert t + {x, y} == t + {x} + {y};
    SubsetSize(logged, t + {x, y});
  }

  lemma {:induction false} SubsetSize(a: set<nat>, b: set<nat>)
    requires a <= b
    ensures |a| <= |b|
  {
    if x :| x in a { SubsetSize(a - {x}, b - {x}); }
  }

  function Union(ops: seq<set<nat>>): set<nat> {
    if ops == [] then {} else Union(ops[..|ops| - 1]) + ops[|ops| - 1]
  }

  lemma UnionSnoc(ops: seq<set<nat>>, op: set<nat>)
    ensures Union(ops + [op]) == Union(ops) + op
  {
    assert (ops + [op])[..|ops|] == ops;
  }

  lemma LoggedMore(bmapstart: nat, blocks0: seq<Block>, used0: set<nat>, blocks: seq<Block>, used: set<nat>,
                   logged: set<nat>, more: set<nat>)
    requires ChangesLogged(bmapstart, blocks0, used0, blocks, used, logged) && logged <= more
    ensures ChangesLogged(bmapstart, blocks0, used0, blocks, used, more)
  {
    assert Open(CHANGES_LOGGED, 0);
  }

  ghost predicate CoveredParts(v: Volume, inum: nat, blocks0: seq<Block>, used0: set<nat>, inodes0: seq<Inode>,
                               blocks: seq<Block>, used: set<nat>, inodes: seq<Inode>, ops: seq<set<nat>>)
    reads v
  {
    forall k: nat :: Open(OPS_COVERED, k) ==>
      && ChangesLogged(v.bmapstart, blocks0, used0, blocks, used, Union(ops))
      && inum < |inodes0| == |inodes| && inodes == inodes0[inum := inodes[inum]]
      && (inodes != inodes0 ==> v.IBlock(inum) in Union(ops))
  }

  /** An open file of type FD_INODE. */
  class OpenFile {
    const volume: Volume
    const inum: nat
    var off: nat

    constructor (v: Volume, i: nat, start: nat)
      ensures volume == v && inum == i && off == start
    {
      volume, inum, off := v, i, start;
    }

    ghost predicate Valid()
      reads this, volume, volume.bitmap, volume.bitmap.bytes
    {
      volume.Valid() && inum < |volume.inodes| && off < WORD
    }

    /** One begin_op..end_op section of filewrite: the blocks it logs fit in one operation's share. */
    method WriteChunk(src: seq<byte>) returns (r: int)
      requires Valid() && |src| <= CHUNK
      modifies this`off, volume`blocks, volume`inodes, volume`owner, volume`logged, volume.bitmap`used
      modifies volume.bitmap.bytes
      ensures Valid() && |volume.inodes| == |old(volume.inodes)| && |volume.blocks| == |old(volume.blocks)|
      ensures -1 <= r <= |src|
      ensures r == -1 <==> old(off > volume.inodes[inum].size) || old(off) + |src| > MAXFILE * BSIZE
      ensures off == old(off) + if r > 0 then r else 0
      ensures FilesOf(volume.blocks, volume.inodes)
              == if r == -1 then old(FilesOf(volume.blocks, volume.inodes))
                 else Rewritten(old(FilesOf(volume.blocks, volume.inodes)), inum, old(off), src[..r])
      ensures 0 <= r < |src| ==> forall c: nat :: c < |volume.blocks| ==> c in volume.bitmap.used
      ensures |volume.blocks| <= BPB ==> |volume.logged| <= 7 <= MAXOPBLOCKS
      ensures volume.Recorded(old(volume.blocks), old(volume.bitmap.used), {})
      ensures r != -1 ==> volume.IBlock(inum) in volume.logged
      ensures volume.inodes == if r == -1 then old(volume.inodes) else old(volume.inodes)[inum := volume.inodes[inum]]
    {
      volume.logged := {};
      r := volume.Writei(inum, off, src);
      if r != -1 && |volume.blocks| <= BPB {
        FewBlocks(volume.blocks, volume.inodes[inum], off, |src|, volume.logged, volume.bmapstart, volume.IBlock(inum));
      }
      if r > 0 { off := off + r; }
    }

    /** The first w bytes of src have reached the file at offset start; none do past its end. */
    ghost predicate Moved(files: seq<seq<byte>>, start: nat, src: seq<byte>, w: nat)
      requires w <= |src| && AllOk(volume.inodes)
      reads this, volume
    {
      && |files| == |volume.inodes| && inum < |files|
      && forall k: nat :: Open(FILES_MOVED, k) ==>
           && FilesOf(volume.blocks, volume.inodes)
              == (if start <= |files[inum]| then Rewritten(files, inum, start, src[..w]) else files)
           && (start > |files[inum]| ==> w == 0)
    }

    /** Every change since then, the inode's included, was logged by one of the operations. */
    ghost predicate Covered(blocks0: seq<Block>, used0: set<nat>, inodes0: seq<Inode>, ops: seq<set<nat>>)
      reads this, volume, volume.bitmap
    {
      CoveredParts(volume, inum, blocks0, used0, inodes0, volume.blocks, volume.bitmap.used, volume.inodes, ops)
    }

    lemma CoveredNone()
      requires inum < |volume.inodes|
      ensures Covered(volume.blocks, volume.bitmap.used, volume.inodes, [])
    {
      LoggedNone(volume.bmapstart, volume.blocks, volume.bitmap.used, {});
    }

    lemma CoveredMore(blocks0: seq<Block>, used0: set<nat>, inodes0: seq<Inode>, ops: seq<set<nat>>,
                      blocks1: seq<Block>, used1: set<nat>, inodes1: seq<Inode>)
      requires CoveredParts(volume, inum, blocks0, used0, inodes0, blocks1, used1, inodes1, ops)
      requires inum < |inodes1| == |volume.inodes|
      requires ChangesLogged(volume.bmapstart, blocks1, used1, volume.blocks, volume.bitmap.used, volume.logged)
      requires volume.inodes == inodes1[inum := volume.inodes[inum]]
      requires volume.inodes != inodes1 ==> volume.IBlock(inum) in volume.logged
      ensures Covered(blocks0, used0, inodes0, ops + [volume.logged])
    {
      assert Open(OPS_COVERED, 0);
      var all := Union(ops + [volume.logged]);
      UnionSnoc(ops, volume.logged);
      LoggedMore(volume.bmapstart, blocks1, used1, volume.blocks, volume.bitmap.used, volume.logged, all);
      LoggedThen(volume.bmapstart, blocks0, used0, blocks1, used1, Union(ops), volume.blocks, volume.bitmap.used, all);
    }

    /** One turn of filewrite's loop. */
    method WriteTurn(src: seq<byte>, i: nat, ghost files: seq<seq<byte>>, ghost start: nat) returns (n1: nat, r: int)
      requires Valid() && i < |src| && off == start + i && Moved(files, start, src, i)
      requires (i > 0 ==> off <= MAXFILE * BSIZE)
      modifies this`off, volume`blocks, volume`inodes, volume`owner, volume`logged, volume.bitmap`used
      modifies volume.bitmap.bytes
      ensures Valid() && |volume.blocks| == |old(volume.blocks)| && 0 < n1 <= |src| - i && -1 <= r <= n1
      ensures off == old(off) + (if r > 0 then r else 0) && Moved(files, start, src, off - start)
      ensures r == -1 <==> (i == 0 && start > |files[inum]|) || old(off) + n1 > MAXFILE * BSIZE
      ensures 0 <= r < n1 ==> forall c: nat :: c < |volume.blocks| ==> c in volume.bitmap.used
      ensures |volume.blocks| <= BPB ==> |volume.logged| <= 7 <= MAXOPBLOCKS
      ensures n1 == if |src| - i < 3072 then |src| - i else 3072
      ensures volume.Recorded(old(volume.blocks), old(volume.bitmap.used), {})
      ensures |volume.inodes| == |old(volume.inodes)|
      ensures volume.inodes == old(volume.inodes)[inum := volume.inodes[inum]]
      ensures volume.inodes != old(volume.inodes) ==> volume.IBlock(inum) in volume.logged
    {
      assert Open(FILES_MOVED, 0);
      n1 := if |src| - i > CHUNK then CHUNK else |src| - i;
      ghost var before := FilesOf(volume.blocks, volume.inodes);
      assert |before[inum]| == volume.inodes[inum].size;
      r := WriteChunk(src[i..i + n1]);
      if r != -1 {
        RewrittenMore(files, inum, start, src, i, r);
        assert src[i..][..r] == src[i..i + n1][..r];
      }
    }

    /** ... and what it adds to the operations so far. */
    method WriteOp(src: seq<byte>, i: nat, ghost files: seq<seq<byte>>, ghost start: nat, ghost blocks0: seq<Block>,
                   ghost used0: set<nat>, ghost inodes0: seq<Inode>, ghost ops: seq<set<nat>>) returns (n1: nat, r: int)
      requires Valid() && i < |src| && off == start + i && Moved(files, start, src, i)
      requires (i > 0 ==> off <= MAXFILE * BSIZE) && Covered(blocks0, used0, inodes0, ops)
      modifies this`off, volume`blocks, volume`inodes, volume`owner, volume`logged, volume.bitmap`used
      modifies volume.bitmap.bytes
      ensures Valid() && |volume.blocks| == |old(volume.blocks)| && 0 < n1 <= |src| - i && -1 <= r <= n1
      ensures off == old(off) + (if r > 0 then r else 0) && Moved(files, start, src, off - start)
      ensures r == -1 <==> (i == 0 && start > |files[inum]|) || old(off) + n1 > MAXFILE * BSIZE
      ensures 0 <= r < n1 ==> forall c: nat :: c < |volume.blocks| ==> c in volume.bitmap.used
      ensures |volume.blocks| <= BPB ==> |volume.logged| <= 7 <= MAXOPBLOCKS
      ensures n1 == if |src| - i < 3072 then |src| - i else 3072
      ensures Covered(blocks0, used0, inodes0, ops + [volume.logged])
    {
      n1, r := WriteTurn(src, i, files, start);
      CoveredMore(blocks0, used0, inodes0, ops, old(volume.blocks), old(volume.bitmap.used), old(volume.inodes));
    }

    /** filewrite for an inode: -1 exactly if not everything was written.  What was written is spliced
        in at the old offset, the offset moves past it, and each operation logs at most seven blocks. */
    method Write(src: seq<byte>) returns (ret: int, ghost ops: seq<set<nat>>)
      requires Valid()
      modifies this`off, volume`blocks, volume`inodes, volume`owner, volume`logged, volume.bitmap`used
      modifies volume.bitmap.bytes
      ensures Valid() && |volume.inodes| == |old(volume.inodes)| && old(off) <= off <= old(off) + |src|
      ensures ret == if off == old(off) + |src| then |src| else -1
      ensures Moved(old(FilesOf(volume.blocks, volume.inodes)), old(off), src, off - old(off))
      ensures ret == -1 ==> || old(off > volume.inodes[inum].size) || old(off) + |src| > MAXFILE * BSIZE
                            || forall c: nat :: c < |volume.blocks| ==> c in volume.bitmap.used
      ensures src != [] && (old(off > volume.inodes[inum].size) || old(off) + |src| > MAXFILE * BSIZE) ==> ret == -1
      ensures |volume.blocks| <= BPB ==> forall op :: op in ops ==> |op| <= 7 <= MAXOPBLOCKS
      ensures Covered(old(volume.blocks), old(volume.bitmap.used), old(volume.inodes), ops)
      ensures ret == |src| ==> 3072 * (|ops| - 1) < |src| <= 3072 * |ops|
    {
      ghost var files, start := FilesOf(volume.blocks, volume.inodes), off;
      ops := [];
      CoveredNone();
      var i := 0;
      if off <= |files[inum]| { RewrittenNothing(files, inum, off, src); }
      ghost var done := 0;
      while i < |src|
        invariant 0 <= i <= |src| && Valid() && |volume.blocks| == |old(volume.blocks)|
        invariant off == start + done && done == i && Moved(files, start, src, done)
        invariant (i > 0 ==> off <= MAXFILE * BSIZE) && (start > |files[inum]| ==> i == 0)
        invariant |volume.blocks| <= BPB ==> forall op :: op in ops ==> |op| <= 7 <= MAXOPBLOCKS
        invariant Covered(old(volume.blocks), old(volume.bitmap.used), old(volume.inodes), ops)
        invariant 3072 * (|ops| - 1) < i <= 3072 * |ops| && (i < |src| ==> i == 3072 * |ops|)
      {
        var n1, r := WriteOp(src, i, files, start, old(volume.blocks), old(volume.bitmap.used), old(volume.inodes),
                             ops);
        ops := ops + [volume.logged];
        done := off - start;
        if r != n1 { break; }
        i := i + r;
      }
      ret := if i == |src| then |src| else -1;
    }
  }
}
