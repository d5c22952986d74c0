/** The bytes that a user sees through a page table. */
module UserBytes {
  import opened Folding
  import opened Params
  import opened PageTree

  const MAXVPN := 0x400_0000  // MAXVA / PGSIZE

  function ByteAt(mem: seq<Page>, space: Space, va: nat): byte {
    if va / PGSIZE in space && space[va / PGSIZE].ppn < |mem| && mem[space[va / PGSIZE].ppn].Data?
    then mem[space[va / PGSIZE].ppn].bytes[va % PGSIZE]
    else 0
  }

  function Bytes(mem: seq<Page>, space: Space, va: nat, n: nat): (s: seq<byte>)
    ensures |s| == n
  {
    seq<byte>(n, o requires 0 <= o < n => ByteAt(mem, space, va + o))
  }

  predicate Readable(space: Space, v: nat) {
    v < MAXVPN && v in space && space[v].flags.u
  }

  predicate Writable(space: Space, v: nat) {
    Readable(space, v) && space[v].flags.w
  }

  function Vpn(va: nat): nat {
    va / PGSIZE
  }

  ghost predicate AllReadable(space: Space, va: nat, n: nat) {
    forall a: nat :: va <= a < va + n ==> Readable(space, Vpn(a))
  }

  ghost predicate AllWritable(space: Space, va: nat, n: nat) {
    forall a: nat :: va <= a < va + n ==> Writable(space, Vpn(a))
  }

  ghost predicate WroteParts(mem: seq<Page>, mem': seq<Page>, flat: map<nat, Space>, lent: set<Node>, r: nat, va: nat,
                             d: seq<byte>) {
    forall s, a: nat :: s in flat && a / PGSIZE in flat[s] && Node(s, LEAF, a / PGSIZE) !in lent ==>
      ByteAt(mem', flat[s], a) == if s == r && va <= a < va + |d| then d[a - va] else ByteAt(mem, flat[s], a)
  }

  /** The bytes d have been written from va on in space r; in every space all other bytes of its own
      pages are as before. */
  ghost predicate Wrote(mem: seq<Page>, mem': seq<Page>, flat: map<nat, Space>, lent: set<Node>, r: nat, va: nat,
                        d: seq<byte>) {
    forall k: nat :: Open(BYTES_WROTE, k) ==> WroteParts(mem, mem', flat, lent, r, va, d)
  }

  lemma WroteNone(mem: seq<Page>, flat: map<nat, Space>, lent: set<Node>, r: nat, va: nat)
    ensures Wrote(mem, mem, flat, lent, r, va, [])
  {
  }

  lemma WroteMore(mem: seq<Page>, mem1: seq<Page>, mem2: seq<Page>, flat: map<nat, Space>, lent: set<Node>, r: nat,
                  va: nat, d: seq<byte>, e: seq<byte>)
    requires Wrote(mem, mem1, flat, lent, r, va, d) && Wrote(mem1, mem2, flat, lent, r, va + |d|, e)
    ensures Wrote(mem, mem2, flat, lent, r, va, d + e)
  {
    assert Open(BYTES_WROTE, 0);
  }

  /** What was written is what is read back, over all the pages it crosses. */
  lemma WroteReads(mem: seq<Page>, mem': seq<Page>, flat: map<nat, Space>, owner: map<nat, Node>, lent: set<Node>,
                   r: nat, va: nat, d: seq<byte>)
    requires Sound(mem', flat, owner, lent) && Wrote(mem, mem', flat, lent, r, va, d) && r in flat
    requires AllReadable(flat[r], va, |d|)
    ensures Bytes(mem', flat[r], va, |d|) == d
  {
    assert Open(BYTES_WROTE, 0);
    forall o: nat | o < |d| ensures Bytes(mem', flat[r], va, |d|)[o] == d[o] {
      assert Readable(flat[r], Vpn(va + o));
      SlotFacts(mem', flat, owner, lent, r, Vpn(va + o));
      assert ByteAt(mem', flat[r], va + o) == d[o];
    }
  }

  /** The bytes of one more page. */
  lemma BytesMore(mem: seq<Page>, space: Space, va: nat, dst: seq<byte>, n: nat)
    requires dst == Bytes(mem, space, va, |dst|) && (va + |dst|) % PGSIZE + n <= PGSIZE
    requires var v := (va + |dst|) / PGSIZE; v in space && space[v].ppn < |mem| && mem[space[v].ppn].Data?
    ensures var at := (va + |dst|) % PGSIZE;
            dst + mem[space[(va + |dst|) / PGSIZE].ppn].bytes[at..at + n] == Bytes(mem, space, va, |dst| + n)
  {
    var v, at := (va + |dst|) / PGSIZE, (va + |dst|) % PGSIZE;
    var more, all := mem[space[v].ppn].bytes[at..at + n], Bytes(mem, space, va, |dst| + n);
    forall o: nat | o < |dst| + n ensures (dst + more)[o] == all[o] {
      if o < |dst| {
        assert dst[o] == ByteAt(mem, space, va + o);
      } else {
        assert (va + o) / PGSIZE == v && (va + o) % PGSIZE == at + (o - |dst|);
      }
    }
  }

  function PatchPage(p: Page, at: nat, d: seq<byte>): Page
    requires p.Data? && at + |d| <= PGSIZE
  {
    Data(p.bytes[..at] + d + p.bytes[at + |d|..])
  }

  /** memmove into one page of a space writes those bytes there and no others. */
  lemma PatchWrote(mem: seq<Page>, flat: map<nat, Space>, owner: map<nat, Node>, lent: set<Node>, r: nat, va: nat,
                   d: seq<byte>)
    requires Sound(mem, flat, owner, lent) && r in flat && va / PGSIZE < NVPN && va / PGSIZE in flat[r]
    requires Node(r, LEAF, va / PGSIZE) !in lent
    requires va % PGSIZE + |d| <= PGSIZE
    ensures var pa := flat[r][va / PGSIZE].ppn;
            && pa < |mem| && mem[pa].Data? && pa in owner && owner[pa].d == LEAF
            && Wrote(mem, mem[pa := PatchPage(mem[pa], va % PGSIZE, d)], flat, lent, r, va, d)
  {
    var pa := flat[r][va / PGSIZE].ppn;
    SlotFacts(mem, flat, owner, lent, r, va / PGSIZE);
    OwnedBy(mem, flat.Keys, owner, lent, pa);
    var mem' := mem[pa := PatchPage(mem[pa], va % PGSIZE, d)];
    forall s, a: nat | s in flat && a / PGSIZE in flat[s] && Node(s, LEAF, a / PGSIZE) !in lent
      ensures ByteAt(mem', flat[s], a) == if s == r && va <= a < va + |d| then d[a - va] else ByteAt(mem, flat[s], a)
    {
      VpnBound(mem, flat, lent, s, a / PGSIZE);
      SlotFacts(mem, flat, owner, lent, s, a / PGSIZE);
      OwnedBy(mem, flat.Keys, owner, lent, flat[s][a / PGSIZE].ppn);
      if s == r && a / PGSIZE == va / PGSIZE {
        assert va <= a < va + |d| <==> va % PGSIZE <= a % PGSIZE < va % PGSIZE + |d|;
      } else {
        assert flat[s][a / PGSIZE].ppn != pa;
      }
    }
  }

  lemma VpnBound(mem: seq<Page>, flat: map<nat, Space>, lent: set<Node>, r: nat, v: nat)
    requires Agrees(mem, flat, lent) && r in flat && v in flat[r]
    ensures v < NVPN
  {
    assert Open(SPACES_AGREE, 0);
  }
}
