/**
 The page allocator of kernel/kalloc.c and the page-table operations of kernel/vm.c over one physical
 memory.  The ghost fields say who has each page: the free list, a node of some page table, or a
 caller of kalloc who has not passed it on yet.
 */
module PhysMem {
  import opened Folding
  import opened Params
  import opened UserBytes
  import opened Taking
  import opened Filling
  import opened Shrinking
  import opened Growth
  import opened Costs
  import opened PageTree
  import opened Pool

  const JUNK: Page := Data(seq(PGSIZE, _ => 5))
  const ZEROS: Page := Data(seq(PGSIZE, _ => 0))

  class Memory {
    const lo: nat
    const hi: nat
    var mem: seq<Page>
    var freelist: nat
    ghost var free: seq<nat>
    ghost var owner: map<nat, Node>
    ghost var lent: set<Node>
    ghost var loose: set<nat>
    ghost var flat: map<nat, Space>

    ghost predicate Valid()
      reads this
    {
      && 0 < lo && hi <= |mem| && Chain(mem, freelist, free) && Share(lo, hi, free, owner, loose)
      && Sound(mem, flat, owner, lent)
    }

    /** kinit and freerange: every whole page of the range is free, and no other. */
    constructor (image: seq<Page>, start: nat, end: nat)
      requires 0 < start <= end <= |image| * PGSIZE
      ensures Valid() && flat == map[] && owner == map[] && lent == {} && loose == {}
      ensures forall p: nat :: p in free <==> start <= p * PGSIZE && p * PGSIZE + PGSIZE <= end
    {
      lo := RoundUp(start);
      hi := if end / PGSIZE < RoundUp(start) then RoundUp(start) else end / PGSIZE;
      mem, freelist := image, 0;
      free, owner, lent, loose, flat := [], map[], {}, {}, map[];
      new;
      var p := lo;
      while p * PGSIZE + PGSIZE <= end
        invariant lo <= p <= hi <= |mem| && Chain(mem, freelist, free) && forall x: nat :: x in free <==> lo <= x < p
        invariant flat == map[] && owner == map[] && lent == {} && loose == {}
      {
        Kfree(p);
        p := p + 1;
      }
      EmptySound(mem);
    }

    /** kfree: the page becomes the head of the free list. */
    method Kfree(p: nat)
      requires Chain(mem, freelist, free) && p !in free && 0 < p < |mem| && lo <= p < hi
      modifies this`mem, this`freelist, this`free
      ensures Chain(mem, freelist, free) && free == [p] + old(free) && mem == old(mem)[p := Run(old(freelist))]
    {
      Push(mem, freelist, free, p);
      mem := mem[p := Run(freelist)];
      freelist := p;
      free := [p] + free;
    }

    /** kfree of a page that the caller got from kalloc. */
    method Release(p: nat)
      requires Valid() && p in loose
      modifies this`mem, this`freelist, this`free, this`loose
      ensures Valid() && free == [p] + old(free) && loose == old(loose) - {p} && p < |old(mem)|
      ensures mem == old(mem)[p := Run(old(freelist))]
    {
      ShareFacts(lo, hi, free, owner, loose, p);
      GivePage(lo, hi, free, owner, loose, p);
      LooseKeepsSound(p, Run(freelist));
      Kfree(p);
      loose := loose - {p};
    }

    lemma LooseKeepsSound(p: nat, d: Page)
      requires Valid() && p in loose
      ensures p < |mem| && Sound(mem[p := d], flat, owner, lent)
    {
      ShareFacts(lo, hi, free, owner, loose, p);
      OtherKeepsSound(mem, flat, owner, lent, p, d);
    }

    /** kalloc: the first free page, filled with junk, or 0 if there is none. */
    method Kalloc() returns (r: nat)
      requires Valid()
      modifies this`mem, this`freelist, this`free, this`loose
      ensures Valid() && (r == 0 <==> old(free) == [])
      ensures r == 0 ==> mem == old(mem) && free == old(free) && loose == old(loose)
      ensures r != 0 ==> && r < |old(mem)| && mem == old(mem)[r := JUNK] && old(free) == [r] + free
                         && r !in old(loose) && r !in owner && loose == old(loose) + {r}
    {
      Pop(mem, freelist, free);
      r := freelist;
      if r != 0 {
        ShareFacts(lo, hi, free, owner, loose, r);
        TakePage(lo, hi, free, owner, loose);
        freelist := mem[r].next;
        free := free[1..];
        loose := loose + {r};
        Fill(r, JUNK);
      }
    }

    /** memset or memmove over a whole page that the caller holds. */
    method Fill(p: nat, d: Page)
      requires 0 < lo && hi <= |mem| && Chain(mem, freelist, free) && Share(lo, hi, free, owner, loose)
      requires Sound(mem, flat, owner, lent) && p in loose
      modifies this`mem
      ensures Valid() && p < |old(mem)| && mem == old(mem)[p := d]
    {
      ShareFacts(lo, hi, free, owner, loose, p);
      LooseKeepsSound(p, d);
      FreeSame(mem, mem[p := d], freelist, free);
      mem := mem[p := d];
    }

    /** One turn of walk's loop: the table below entry i, allocated if asked for and missing. */
    method WalkStep(q: nat, i: nat, alloc: bool) returns (next: nat)
      requires Valid() && q in owner && owner[q].d < 2 && i < NPTE
      modifies this`mem, this`freelist, this`free, this`owner, this`loose
      ensures Valid() && loose == old(loose) && Grew(old(mem), old(owner), old(free), mem, owner, free, loose)
      ensures next == PageOf(mem, Below(old(owner)[q], i))
      ensures next != 0 ==> next in owner && owner[next] == Below(old(owner)[q], i)
      ensures next == 0 && alloc ==> free == []
      ensures next == 0 || !alloc ==> mem == old(mem) && owner == old(owner) && free == old(free)
      ensures if next == 0 then NoTable(owner, Below(owner[q], i))
              else Added(old(owner), old(free), owner, free, {Below(old(owner)[q], i)})
    {
      StepFacts(mem, flat, owner, lent, q, i);
      TableThere(mem, flat, owner, lent, Below(owner[q], i));
      if Entry(mem, q, i).flags.v { AddedThere(owner, free, Below(owner[q], i)); }
      GrewNot(mem, owner, free, loose);
      var e := mem[q].ptes[i];
      if e.flags.v {
        next := e.ppn;
      } else if alloc {
        next := NewTable(q, i);
      } else {
        next := 0;
      }
    }

    /** The allocating branch of that turn. */
    method NewTable(q: nat, i: nat) returns (b: nat)
      requires Valid() && q in owner && owner[q].d < 2 && i < NPTE
      requires 0 < q < |mem| && mem[q].Table? && !Entry(mem, q, i).flags.v
      modifies this`mem, this`freelist, this`free, this`owner, this`loose
      ensures Valid() && loose == old(loose) && Grew(old(mem), old(owner), old(free), mem, owner, free, loose)
      ensures b != 0 ==> b == PageOf(mem, Below(old(owner)[q], i)) && b in owner && owner[b] == Below(old(owner)[q], i)
      ensures b == 0 ==> free == [] && mem == old(mem) && owner == old(owner) && free == old(free)
      ensures b != 0 ==> Added(old(owner), old(free), owner, free, {Below(old(owner)[q], i)})
    {
      StepFacts(mem, flat, owner, lent, q, i);
      TableThere(mem, flat, owner, lent, Below(owner[q], i));
      ShareFacts(lo, hi, free, owner, loose, q);
      b := Kalloc();
      if b == 0 {
        GrewNot(mem, owner, free, loose);
        return;
      }
      Fill(b, EMPTY);
      assert mem == old(mem)[b := EMPTY];
      LinkNew(q, i, b);
      AddedNew(old(owner), old(free), b, Below(old(owner)[q], i), free);
      GrewOne(old(mem), old(owner), old(free), old(loose), q, mem[q], b, Below(old(owner)[q], i), mem);
      assert old(free)[1..] == free;
      assert loose == old(loose);
    }

    /** *pte = PA2PTE(pagetable) | PTE_V */
    method LinkNew(q: nat, i: nat, b: nat)
      requires Valid() && q in owner && owner[q].d < 2 && i < NPTE && b in loose && b < |mem| && mem[b] == EMPTY
      requires q < |mem| && mem[q].Table? && !Entry(mem, q, i).flags.v
      modifies this`mem, this`owner, this`loose
      ensures Valid() && loose == old(loose) - {b} && owner == old(owner)[b := Below(old(owner)[q], i)]
      ensures b !in old(owner)
      ensures mem == SetEntry(old(mem), q, i, Pte(b, VALIDONLY)) && PageOf(mem, Below(old(owner)[q], i)) == b
    {
      ShareFacts(lo, hi, free, owner, loose, b);
      ShareFacts(lo, hi, free, owner, loose, q);
      LinkTable(mem, flat, owner, lent, q, i, b);
      OwnPage(lo, hi, free, owner, loose, b, Below(owner[q], i));
      FreeSame(mem, SetEntry(mem, q, i, Pte(b, VALIDONLY)), freelist, free);
      mem := SetEntry(mem, q, i, Pte(b, VALIDONLY));
      owner := owner[b := Below(owner[q], i)];
      loose := loose - {b};
    }

    /** walk: the last-level table for virtual page v.  No translation changes, and without alloc
        nothing does; with alloc the result is 0 only if memory ran out. */
    method Walk(root: nat, v: nat, alloc: bool) returns (q: nat)
      requires Valid() && root in flat && v < MAXVPN
      modifies this`mem, this`freelist, this`free, this`owner, this`loose
      ensures Valid() && loose == old(loose) && Grew(old(mem), old(owner), old(free), mem, owner, free, loose)
      ensures q == PageOf(mem, TableNode(root, v))
      ensures q == 0 && alloc ==> free == [] && !Enough(old(owner), old(free), root, v, 1, 0)
      ensures q != 0 && alloc ==> Spent(old(owner), old(free), owner, free, root, v, 1, 0)
      ensures !alloc ==> mem == old(mem) && owner == old(owner) && free == old(free)
    {
      OwnerOf(mem, flat.Keys, owner, lent, Node(root, 0, 0));
      GrewNot(mem, owner, free, loose);
      PathStep(root, v, 0);
      PathStep(root, v, 1);
      AddedNone(owner, free);
      q := root;
      var level := 2;
      while level > 0
        invariant 0 <= level <= 2 && Valid() && loose == old(loose)
        invariant Grew(old(mem), old(owner), old(free), mem, owner, free, loose)
        invariant q in owner && owner[q] == Path(root, v, 2 - level)
        invariant !alloc ==> mem == old(mem) && owner == old(owner) && free == old(free)
        invariant Added(old(owner), old(free), owner, free, Prefix(root, v, 2 - level))
      {
        ghost var mem1, owner1, free1 := mem, owner, free;
        var next := WalkStep(q, PX(level, v), alloc);
        GrewTwice(old(mem), old(owner), old(free), mem1, owner1, free1, mem, owner, free, loose);
        if next == 0 {
          if alloc { WalkShort(old(owner), old(free), owner, root, v, 2 - level); }
          return 0;
        }
        AddedStep(old(owner), old(free), owner1, free1, owner, free, root, v, 2 - level,
                  Below(owner1[q], PX(level, v)));
        q := next;
        level := level - 1;
      }
      AddedAll(old(owner), old(free), owner, free, root, v);
      OwnedBy(mem, flat.Keys, owner, lent, q);
    }

    /** walkaddr: the physical page of a virtual page that the user may access, 0 if there is none. */
    method Walkaddr(root: nat, v: nat) returns (pa: nat)
      requires Valid() && root in flat
      modifies this`mem, this`freelist, this`free, this`owner, this`loose
      ensures Valid() && mem == old(mem) && owner == old(owner) && free == old(free) && loose == old(loose)
      ensures pa != 0 <==> Readable(flat[root], v)
      ensures pa != 0 <==> v < MAXVPN && v in flat[root] && flat[root][v].flags.u
      ensures pa != 0 ==> pa == flat[root][v].ppn && pa in owner && owner[pa] == Node(root, LEAF, v)
    {
      if v >= MAXVPN { return 0; }
      var q := Walk(root, v, false);
      SlotFacts(mem, flat, owner, lent, root, v);
      if q == 0 { return 0; }
      var e := mem[q].ptes[v % NPTE];
      if !e.flags.v { return 0; }
      if !e.flags.u { return 0; }
      pa := e.ppn;
    }

    lemma EntryKeepsChain(q: nat, i: nat, e: Pte)
      requires Valid() && q in owner && q < |mem| && mem[q].Table? && i < NPTE
      ensures Chain(SetEntry(mem, q, i, e), freelist, free)
    {
      ShareFacts(lo, hi, free, owner, loose, q);
      FreeSame(mem, SetEntry(mem, q, i, e), freelist, free);
    }

    /** *pte = PA2PTE(pa) | perm | PTE_V */
    method StoreLeaf(q: nat, root: nat, v: nat, e: Pte, ghost own: bool)
      requires Valid() && root in flat && v < NVPN && v !in flat[root] && e.flags.v && 0 < e.ppn
      requires if own then e.ppn in loose && e.ppn < |mem| && mem[e.ppn].Data? else !e.flags.u
      requires q in owner && owner[q] == TableNode(root, v)
      modifies this`mem, this`owner, this`loose, this`lent, this`flat
      ensures Valid() && flat == WithEntry(old(flat), root, v, e)
      ensures q < |old(mem)| && old(mem)[q].Table? && mem == SetEntry(old(mem), q, v % NPTE, e)
      ensures own ==>
        loose == old(loose) - {e.ppn} && lent == old(lent) && owner == old(owner)[e.ppn := Node(root, LEAF, v)]
            && e.ppn !in old(owner)
      ensures !own ==> loose == old(loose) && lent == old(lent) + {Node(root, LEAF, v)} && owner == old(owner)
    {
      ghost var at, flat1 := Node(root, LEAF, v), WithEntry(flat, root, v, e);
      if own { StoreOwn(q, root, v, e); } else { StoreLent(q, root, v, e); }
      mem := SetEntry(mem, q, v % NPTE, e);
      flat := flat1;
      if own {
        owner, loose := owner[e.ppn := at], loose - {e.ppn};
      } else {
        lent := lent + {at};
      }
    }

    lemma StoreOwn(q: nat, root: nat, v: nat, e: Pte)
      requires Valid() && root in flat && v < NVPN && v !in flat[root] && e.flags.v && 0 < e.ppn
      requires e.ppn in loose && e.ppn < |mem| && mem[e.ppn].Data? && q in owner && owner[q] == TableNode(root, v)
      ensures q < |mem| && mem[q].Table? && Chain(SetEntry(mem, q, v % NPTE, e), freelist, free) && e.ppn !in owner
      ensures Share(lo, hi, free, owner[e.ppn := Node(root, LEAF, v)], loose - {e.ppn})
      ensures Sound(SetEntry(mem, q, v % NPTE, e), WithEntry(flat, root, v, e), owner[e.ppn := Node(root, LEAF, v)],
              lent)
    {
      OwnedBy(mem, flat.Keys, owner, lent, q);
      EntryKeepsChain(q, v % NPTE, e);
      OwnPage(lo, hi, free, owner, loose, e.ppn, Node(root, LEAF, v));
      MapOwn(mem, flat, owner, lent, root, v, e, q);
    }

    lemma StoreLent(q: nat, root: nat, v: nat, e: Pte)
      requires Valid() && root in flat && v < NVPN && v !in flat[root] && e.flags.v && 0 < e.ppn
      requires !e.flags.u && q in owner && owner[q] == TableNode(root, v)
      ensures q < |mem| && mem[q].Table? && Chain(SetEntry(mem, q, v % NPTE, e), freelist, free)
      ensures Sound(SetEntry(mem, q, v % NPTE, e), WithEntry(flat, root, v, e), owner, lent + {Node(root, LEAF, v)})
    {
      OwnedBy(mem, flat.Keys, owner, lent, q);
      EntryKeepsChain(q, v % NPTE, e);
      MapLent(mem, flat, owner, lent, root, v, e, q);
    }

    /** One turn of mappages: adds exactly the one translation, or none if memory ran out. */
    method MapOne(root: nat, v: nat, ppn: nat, perm: Flags, ghost own: bool) returns (ok: bool)
      requires Valid() && root in flat && v < MAXVPN && v !in flat[root] && 0 < ppn
      requires if own then ppn in loose && ppn < |mem| && mem[ppn].Data? else !perm.u
      modifies this`mem, this`freelist, this`free, this`owner, this`loose, this`lent, this`flat
      ensures Valid() && (ok || free == [])
      ensures flat == if ok then WithEntry(old(flat), root, v, Pte(ppn, perm.(v := true))) else old(flat)
      ensures loose == if ok && own then old(loose) - {ppn} else old(loose)
      ensures lent == if ok && !own then old(lent) + {Node(root, LEAF, v)} else old(lent)
      ensures ok && own ==>
        ppn in owner && owner[ppn] == Node(root, LEAF, v) && ppn < |mem| && mem[ppn] == old(mem)[ppn]
      ensures Grew(old(mem), old(owner), old(free), mem, if ok && own then owner - {ppn} else owner, free, loose)
      ensures if ok then Spent(old(owner), old(free), owner, free, root, v, 1, 0)
              else !Enough(old(owner), old(free), root, v, 1, 0)
    {
      var q := Walk(root, v, true);
      if q == 0 { return false; }
      GrewFacts(old(mem), old(owner), old(free), mem, owner, free, loose, ppn);
      StoreIn(q, root, v, ppn, perm, own, old(mem), old(owner), old(free));
      ok := true;
    }

    /** The part of that turn after the walk. */
    method StoreIn(q: nat, root: nat, v: nat, ppn: nat, perm: Flags, ghost own: bool, ghost mem0: seq<Page>,
                   ghost owner0: map<nat, Node>, ghost free0: seq<nat>)
      requires Valid() && root in flat && v < MAXVPN && v !in flat[root] && 0 < ppn && q != 0
      requires if own then ppn in loose && ppn < |mem| && mem[ppn].Data? else !perm.u
      requires q == PageOf(mem, TableNode(root, v)) && Grew(mem0, owner0, free0, mem, owner, free, loose)
      requires Spent(owner0, free0, owner, free, root, v, 1, 0)
      modifies this`mem, this`owner, this`loose, this`lent, this`flat
      ensures Valid() && flat == WithEntry(old(flat), root, v, Pte(ppn, perm.(v := true)))
      ensures loose == if own then old(loose) - {ppn} else old(loose)
      ensures lent == if !own then old(lent) + {Node(root, LEAF, v)} else old(lent)
      ensures own ==> ppn in owner && owner[ppn] == Node(root, LEAF, v) && ppn < |mem| && mem[ppn] == old(mem)[ppn]
      ensures Grew(mem0, owner0, free0, mem, if own then owner - {ppn} else owner, free, loose)
      ensures Spent(owner0, free0, owner, free, root, v, 1, 0)
    {
      SlotFacts(mem, flat, owner, lent, root, v);
      ShareFacts(lo, hi, free, owner, loose, q);
      StoreLeaf(q, root, v, Pte(ppn, perm.(v := true)), own);
      SpentLeaf(owner0, free0, old(owner), free, owner, ppn, Node(root, LEAF, v), root, v, 1, 0);
      GrewLeaf(mem0, owner0, free0, old(mem), old(owner), mem, if own then owner - {ppn} else owner, free,
               old(loose), loose, q);
    }

    /** mappages: n consecutive pages, or a shorter prefix and -1 if memory ran out.  For one page that
        means exactly one new translation or none. */
    method Mappages(root: nat, v: nat, n: nat, ppn: nat, perm: Flags, ghost own: bool) returns (r: int, ghost done: nat)
      requires Valid() && root in flat && 0 < n && v + n <= MAXVPN && 0 < ppn
      requires forall u: nat :: v <= u < v + n ==> u !in flat[root]
      requires if own then n == 1 && ppn in loose && ppn < |mem| && mem[ppn].Data? else !perm.u
      modifies this`mem, this`freelist, this`free, this`owner, this`loose, this`lent, this`flat
      ensures Valid() && ((r == 0 && done == n) || (r == -1 && done < n && free == []))
      ensures flat == old(flat)[root := MapRange(old(flat)[root], v, ppn, perm.(v := true), done)]
      ensures if own then lent == old(lent) && loose == (if r == 0 then old(loose) - {ppn} else old(loose))
              else lent == old(lent) + Leaves(root, v, done) && loose == old(loose)
      ensures own && r == 0 ==>
        ppn in owner && owner[ppn] == Node(root, LEAF, v) && ppn < |mem| && mem[ppn] == old(mem)[ppn]
      ensures Grew(old(mem), old(owner), old(free), mem, if own && r == 0 then owner - {ppn} else owner, free, loose)
      ensures r == 0 <==> Enough(old(owner), old(free), root, v, n, 0)
      ensures r == 0 ==> Spent(old(owner), old(free), owner, free, root, v, n, 0)
    {
      GrewNot(mem, owner, free, loose);
      SpentNone(owner, free, root, v);
      assert flat == flat[root := MapRange(flat[root], v, ppn, perm.(v := true), 0)];
      done := 0;
      var a := v;
      while true
        invariant 0 <= done < n && a == v + done && (own ==> done == 0) && Valid()
        invariant flat == old(flat)[root := MapRange(old(flat)[root], v, ppn, perm.(v := true), done)]
        invariant lent == old(lent) + Leaves(root, v, done) && loose == old(loose)
        invariant own ==> ppn < |mem| && mem[ppn] == old(mem)[ppn]
        invariant Grew(old(mem), old(owner), old(free), mem, owner, free, loose)
        invariant Spent(old(owner), old(free), owner, free, root, v, done, 0)
        decreases n - done
      {
        MapRangeNext(old(flat), flat, root, v, a, ppn, perm.(v := true), done);
        var ok := MapTurn(root, v, a, done, n, ppn + (a - v), perm, own, old(mem), old(owner), old(free));
        if !ok { return -1, done; }
        done := done + 1;
        if a == v + n - 1 { return 0, done; }
        a := a + 1;
      }
    }

    /** One turn of mappages, with what all turns so far have taken. */
    method MapTurn(root: nat, v: nat, a: nat, ghost done: nat, ghost n: nat, ppn: nat, perm: Flags, ghost own: bool,
                   ghost mem0: seq<Page>, ghost owner0: map<nat, Node>, ghost free0: seq<nat>) returns (ok: bool)
      requires Valid() && root in flat && a < MAXVPN && a !in flat[root] && 0 < ppn && a == v + done && done < n
      requires if own then ppn in loose && ppn < |mem| && mem[ppn].Data? else !perm.u
      requires Grew(mem0, owner0, free0, mem, owner, free, loose)
      requires Spent(owner0, free0, owner, free, root, v, done, 0)
      modifies this`mem, this`freelist, this`free, this`owner, this`loose, this`lent, this`flat
      ensures Valid() && (ok || free == [])
      ensures flat == if ok then WithEntry(old(flat), root, a, Pte(ppn, perm.(v := true))) else old(flat)
      ensures loose == if ok && own then old(loose) - {ppn} else old(loose)
      ensures lent == if ok && !own then old(lent) + {Node(root, LEAF, a)} else old(lent)
      ensures ok && own ==>
        ppn in owner && owner[ppn] == Node(root, LEAF, a) && ppn < |mem| && mem[ppn] == old(mem)[ppn]
      ensures Grew(mem0, owner0, free0, mem, if ok && own then owner - {ppn} else owner, free, loose)
      ensures !ok ==> !Enough(owner0, free0, root, v, n, 0)
      ensures ok ==> Spent(owner0, free0, owner, free, root, v, done + 1, 0)
      ensures ok && done + 1 == n ==> Enough(owner0, free0, root, v, n, 0)
    {
      ok := MapOne(root, a, ppn, perm, own);
      GrewMore(mem0, owner0, free0, old(mem), old(owner), old(free), mem, if ok && own then owner - {ppn} else owner,
               free, old(loose), loose);
      if ok {
        SpentMore(owner0, free0, old(owner), old(free), owner, free, root, v, a, done, done + 1, 0, 0, 0);
        if done + 1 == n { SpentEnough(owner0, free0, owner, free, root, v, n, 0); }
      } else {
        SpentShort(owner0, free0, old(owner), old(free), root, v, a, done, n, 0, 0, 0);
      }
    }

    /** One turn of uvmunmap: exactly the one translation goes, and its page, unless it was lent, is
        freed or handed to the caller. */
    method UnmapOne(root: nat, v: nat, doFree: bool)
      requires Valid() && root in flat && v < MAXVPN && v in flat[root] && flat[root][v].flags != VALIDONLY
      requires doFree ==> Node(root, LEAF, v) !in lent
      modifies this`mem, this`freelist, this`free, this`owner, this`loose, this`lent, this`flat
      ensures Valid() && flat == Without(old(flat), root, v) && lent == old(lent) - {Node(root, LEAF, v)}
      ensures Kept(old(mem), mem, owner, old(loose))
      ensures var pa := old(flat)[root][v].ppn;
              if Node(root, LEAF, v) in old(lent) then owner == old(owner) && free == old(free) && loose == old(loose)
              else && pa in old(owner) && old(owner)[pa] == Node(root, LEAF, v) && owner == old(owner) - {pa}
                   && free == (if doFree then [pa] + old(free) else old(free))
                   && loose == (if doFree then old(loose) else old(loose) + {pa})
    {
      var q := Walk(root, v, false);
      SlotFacts(mem, flat, owner, lent, root, v);
      ShareFacts(lo, hi, free, owner, loose, q);
      var e := mem[q].ptes[v % NPTE];
      if doFree {
        ReleaseLeaf(q, root, v, e.ppn);
      } else {
        DetachLeaf(q, root, v);
      }
    }

    /** kfree((void*)pa); *pte = 0 */
    method ReleaseLeaf(q: nat, root: nat, v: nat, pa: nat)
      requires Valid() && root in flat && v < NVPN && v in flat[root] && Node(root, LEAF, v) !in lent
      requires q == PageOf(mem, TableNode(root, v)) && pa == flat[root][v].ppn
      modifies this`mem, this`freelist, this`free, this`owner, this`flat
      ensures Valid() && flat == Without(old(flat), root, v) && Kept(old(mem), mem, owner, loose)
      ensures pa in old(owner) && owner == old(owner) - {pa} && free == [pa] + old(free)
    {
      FreeLeaf(mem, flat, owner, lent, root, v, q, Run(freelist));
      SlotFacts(mem, flat, owner, lent, root, v);
      ShareFacts(lo, hi, free, owner, loose, q);
      ShareFacts(lo, hi, free, owner, loose, pa);
      SwapPage(lo, hi, free, owner, loose, pa);
      Kfree(pa);
      FreeSame(mem, SetEntry(mem, q, v % NPTE, NONE), freelist, free);
      mem := SetEntry(mem, q, v % NPTE, NONE);
      flat, owner := Without(flat, root, v), owner - {pa};
    }

    /** *pte = 0 alone */
    method DetachLeaf(q: nat, root: nat, v: nat)
      requires Valid() && root in flat && v < NVPN && v in flat[root] && q == PageOf(mem, TableNode(root, v))
      modifies this`mem, this`owner, this`loose, this`lent, this`flat
      ensures Valid() && flat == Without(old(flat), root, v) && lent == old(lent) - {Node(root, LEAF, v)}
      ensures Kept(old(mem), mem, owner, old(loose))
      ensures var pa := old(flat)[root][v].ppn;
              if Node(root, LEAF, v) in old(lent) then owner == old(owner) && loose == old(loose)
              else pa in old(owner) && owner == old(owner) - {pa} && loose == old(loose) + {pa}
    {
      SlotFacts(mem, flat, owner, lent, root, v);
      UnmapLeaf(mem, flat, owner, lent, root, v, q);
      EntryKeepsChain(q, v % NPTE, NONE);
      ShareFacts(lo, hi, free, owner, loose, q);
      if Node(root, LEAF, v) !in lent {
        DisownPages(lo, hi, free, owner, loose, {flat[root][v].ppn});
        owner, loose := owner - {flat[root][v].ppn}, loose + {flat[root][v].ppn};
      }
      mem := SetEntry(mem, q, v % NPTE, NONE);
      flat, lent := Without(flat, root, v), lent - {Node(root, LEAF, v)};
    }

    /** uvmunmap: exactly the translations of its range go; with doFree exactly their pages join the
        free list, without it the caller gets those that were not lent. */
    method Uvmunmap(root: nat, v: nat, n: nat, doFree: bool)
      requires Valid() && root in flat && v + n <= MAXVPN
      requires forall u: nat :: v <= u < v + n ==> u in flat[root] && flat[root][u].flags != VALIDONLY
      requires doFree ==> forall u: nat :: v <= u < v + n ==> Node(root, LEAF, u) !in lent
      modifies this`mem, this`freelist, this`free, this`owner, this`loose, this`lent, this`flat
      ensures Valid() && Kept(old(mem), mem, owner, old(loose))
      ensures Unmapped(old(flat), old(owner), old(lent), old(free), old(loose), flat, owner, lent, free, loose, root,
              v, n, doFree)
    {
      var a := v;
      UnmappedNone(flat, owner, lent, free, loose, root, v, doFree);
      while a < v + n
        invariant v <= a <= v + n && Valid() && Kept(old(mem), mem, owner, old(loose)) && old(loose) <= loose
        invariant Unmapped(old(flat), old(owner), old(lent), old(free), old(loose), flat, owner, lent, free, loose,
                  root, v, a - v, doFree)
      {
        StillMapped(old(flat), old(owner), old(lent), old(free), old(loose), flat, owner, lent, free, loose, root, v,
                    a - v, doFree);
        ghost var flat1, owner1, lent1, free1, loose1 := flat, owner, lent, free, loose;
        UnmapOne(root, a, doFree);
        UnmappedNext(old(mem), old(flat), old(owner), old(lent), old(free), old(loose), flat1, owner1, lent1, free1,
                     loose1,
                     flat, owner, lent, free, loose, root, v, a - v, doFree, old(flat)[root][a].ppn);
        a := a + 1;
      }
    }

    /** uvmcreate: an empty page table, or 0 if memory ran out. */
    method Uvmcreate() returns (root: nat)
      requires Valid()
      modifies this`mem, this`freelist, this`free, this`owner, this`loose, this`flat
      ensures Valid() && loose == old(loose) && (root == 0 <==> old(free) == [])
      ensures root == 0 ==> mem == old(mem) && owner == old(owner) && flat == old(flat)
      ensures root != 0 ==> && root !in old(flat) && flat == old(flat)[root := map[]]
                            && owner == old(owner)[root := Node(root, 0, 0)] && old(free) == [root] + free
    {
      root := Kalloc();
      if root == 0 { return; }
      Fill(root, EMPTY);
      OwnPage(lo, hi, free, owner, loose, root, Node(root, 0, 0));
      NewRoot(mem, flat, owner, lent, root);
      flat, owner, loose := flat[root := map[]], owner[root := Node(root, 0, 0)], loose - {root};
      assert loose == old(loose);
    }

    /** kalloc, fill and mappages of one page, as uvmalloc and uvmcopy do them: the page, or 0 with
        nothing kept but page-table pages. */
    method AllocOne(root: nat, v: nat, perm: Flags, content: Page) returns (b: nat)
      requires Valid() && root in flat && v < MAXVPN && v !in flat[root] && content.Data?
      modifies this`mem, this`freelist, this`free, this`owner, this`loose, this`lent, this`flat
      ensures Valid() && loose == old(loose) && lent == old(lent)
      ensures flat == if b == 0 then old(flat) else WithEntry(old(flat), root, v, Pte(b, perm.(v := true)))
      ensures b != 0 ==>
        b !in old(owner) && b !in loose && b in owner && owner[b] == Node(root, LEAF, v) && b < |mem|
            && mem[b] == content
      ensures OnlyTables(old(mem), old(owner), mem, if b == 0 then owner else owner - {b}, loose)
      ensures b != 0 <==> Enough(old(owner), old(free), root, v, 1, 1)
      ensures b != 0 ==> Spent(old(owner), old(free), owner, free, root, v, 1, 1)
    {
      OnlyTablesNone(mem, owner, loose);
      b := Kalloc();
      if b == 0 {
        NotEnough(owner, free, root, v, 1, 1);
        return;
      }
      EnoughExtra(owner, old(free), free, root, v, 1, 0);
      Fill(b, content);
      assert mem == old(mem)[b := content];
      ghost var free1 := free;
      var ok := PlaceOne(root, v, b, perm, content, old(mem), old(loose));
      if !ok { return 0; }
      SpentExtra(old(owner), old(free), free1, owner, free, root, v, 1, 0);
    }

    /** mappages of the new page, or kfree if there is no memory for the tables. */
    method PlaceOne(root: nat, v: nat, b: nat, perm: Flags, content: Page,
                    ghost mem0: seq<Page>, ghost loose0: set<nat>) returns (ok: bool)
      requires Valid() && root in flat && v < MAXVPN && v !in flat[root] && content.Data? && 0 < b < |mem0|
      requires mem == mem0[b := content] && b !in loose0 && b !in owner && loose == loose0 + {b}
      modifies this`mem, this`freelist, this`free, this`owner, this`loose, this`lent, this`flat
      ensures Valid() && loose == loose0 && lent == old(lent)
      ensures flat == if !ok then old(flat) else WithEntry(old(flat), root, v, Pte(b, perm.(v := true)))
      ensures ok ==> b in owner && owner[b] == Node(root, LEAF, v) && b < |mem| && mem[b] == content
      ensures OnlyTables(mem0, old(owner), mem, if !ok then owner else owner - {b}, loose)
      ensures ok <==> Enough(old(owner), old(free), root, v, 1, 0)
      ensures ok ==> Spent(old(owner), old(free), owner, free, root, v, 1, 0)
    {
      var r, done := Mappages(root, v, 1, b, perm, true);
      ok := r == 0;
      if !ok {
        OnlyTablesPage(mem0, old(owner), old(free), loose0, b, content, mem, owner, free, loose);
        OnlyTablesThen(mem0, old(owner), mem, owner, loose0, b, Run(freelist));
        assert MapRange(old(flat)[root], v, b, perm.(v := true), 0) == old(flat)[root];
        Release(b);
        assert loose == loose0;
        return;
      }
      OnlyTablesPage(mem0, old(owner), old(free), loose0, b, content, mem, owner - {b}, free, loose);
      assert MapRange(old(flat)[root], v, b, perm.(v := true), 1) == old(flat)[root][v := Pte(b, perm.(v := true))];
      assert loose == loose0;
    }

    /** uvmdealloc: unmaps and frees exactly the pages between the two sizes. */
    method Uvmdealloc(root: nat, oldsz: nat, newsz: nat) returns (r: nat)
      requires Valid() && root in flat
      requires newsz < oldsz ==>
                 && RoundUp(oldsz) <= MAXVPN
                 && forall u: nat :: RoundUp(newsz) <= u < RoundUp(oldsz) ==>
                      u in flat[root] && flat[root][u].flags != VALIDONLY && Node(root, LEAF, u) !in lent
      modifies this`mem, this`freelist, this`free, this`owner, this`loose, this`lent, this`flat
      ensures Valid() && Kept(old(mem), mem, owner, old(loose))
      ensures r == if newsz >= oldsz then oldsz else newsz
      ensures Unmapped(old(flat), old(owner), old(lent), old(free), old(loose), flat, owner, lent, free, loose,
                       root, RoundUp(newsz), if newsz < oldsz then RoundUp(oldsz) - RoundUp(newsz) else 0, true)
    {
      UnmappedNone(flat, owner, lent, free, loose, root, RoundUp(newsz), true);
      if newsz >= oldsz { return oldsz; }
      if RoundUp(newsz) < RoundUp(oldsz) {
        var npages := RoundUp(oldsz) - RoundUp(newsz);
        Uvmunmap(root, RoundUp(newsz), npages, true);
      }
      r := newsz;
    }

    /** What uvmalloc does when memory runs out. */
    method UndoAlloc(root: nat, a: nat, base: nat, ghost mem0: seq<Page>, ghost flat0: map<nat, Space>,
                     ghost owner0: map<nat, Node>,
                     ghost ptes: seq<Pte>, ghost contents: seq<Page>)
      requires Valid() && Took(mem0, flat0, owner0, mem, flat, owner, loose, root, base, ptes, contents)
      requires a == base + |ptes| <= MAXVPN
      requires (forall u: nat :: base <= u < a ==> u !in flat0[root]) && forall e :: e in ptes ==> e.flags != VALIDONLY
      modifies this`mem, this`freelist, this`free, this`owner, this`loose, this`lent, this`flat
      ensures Valid() && flat == flat0 && lent == old(lent) && loose == old(loose)
      ensures OnlyTables(mem0, owner0, mem, owner, loose)
    {
      TookBack(mem0, flat0, owner0, mem, flat, owner, lent, loose, root, base, ptes, contents);
      var _ := Uvmdealloc(root, a * PGSIZE, base * PGSIZE);
      Undone(mem0, flat0, owner0, old(mem), old(flat), old(owner), old(lent), old(free), old(loose), mem, flat, owner,
             lent, free, loose,
             root, base, ptes, contents);
    }

    /** uvmalloc: zeroed pages for the virtual pages between the two sizes.  If memory runs out the
        spaces, the loose pages and the lent pages are as before and only page-table pages stay taken. */
    method Uvmalloc(root: nat, oldsz: nat, newsz: nat, xperm: Flags) returns (r: nat, ghost ptes: seq<Pte>)
      requires Valid() && root in flat && newsz <= MAXVPN * PGSIZE
      requires forall u: nat :: RoundUp(oldsz) <= u < RoundUp(newsz) ==> u !in flat[root]
      modifies this`mem, this`freelist, this`free, this`owner, this`loose, this`lent, this`flat
      ensures Valid() && loose == old(loose) && lent == old(lent)
      ensures newsz < oldsz ==> r == oldsz && flat == old(flat) && owner == old(owner) && mem == old(mem)
      ensures newsz >= oldsz ==>
                && RoundUp(oldsz) <= RoundUp(newsz)
                && r == if Enough(old(owner), old(free), root, RoundUp(oldsz), RoundUp(newsz) - RoundUp(oldsz),
                                  RoundUp(newsz) - RoundUp(oldsz)) then newsz else 0
      ensures newsz >= oldsz && r == newsz ==>
                && |ptes| == RoundUp(newsz) - RoundUp(oldsz)
                && Took(old(mem), old(flat), old(owner), mem, flat, owner, loose, root, RoundUp(oldsz), ptes,
                     seq(|ptes|, _ => ZEROS))
                && forall e :: e in ptes ==> e.flags == xperm.(v := true, r := true, u := true)
      ensures newsz >= oldsz && r != newsz ==> flat == old(flat) && OnlyTables(old(mem), old(owner), mem, owner, loose)
    {
      ptes := [];
      if newsz < oldsz { return oldsz, []; }
      var ok;
      ok, ptes := AllocPages(root, RoundUp(oldsz), newsz, xperm.(r := true, u := true),
                             RoundUp(newsz) - RoundUp(oldsz));
      r := if ok then newsz else 0;
    }

    /** The loop of uvmalloc: the n pages from base up to newsz. */
    method AllocPages(root: nat, base: nat, newsz: nat, perm: Flags, ghost n: nat)
      returns (ok: bool, ghost ptes: seq<Pte>)
      requires Valid() && root in flat && newsz <= MAXVPN * PGSIZE && base + n == RoundUp(newsz) && perm.u
      requires forall u: nat :: base <= u < base + n ==> u !in flat[root]
      modifies this`mem, this`freelist, this`free, this`owner, this`loose, this`lent, this`flat
      ensures Valid() && loose == old(loose) && lent == old(lent)
      ensures ok <==> Enough(old(owner), old(free), root, base, n, n)
      ensures ok ==> Took(old(mem), old(flat), old(owner), mem, flat, owner, loose, root, base, ptes,
                          seq(|ptes|, _ => ZEROS))
      ensures ok ==> |ptes| == n && forall e :: e in ptes ==> e.flags == perm.(v := true)
      ensures !ok ==> flat == old(flat) && OnlyTables(old(mem), old(owner), mem, owner, loose)
    {
      ptes := [];
      ghost var contents: seq<Page> := [];
      var a := base;
      TookNone(mem, flat, owner, loose, root, base);
      SpentNone(owner, free, root, base);
      while a * PGSIZE < newsz
        invariant a == base + |ptes| && |ptes| <= n
        invariant Valid() && loose == old(loose) && lent == old(lent)
        invariant Took(old(mem), old(flat), old(owner), mem, flat, owner, loose, root, base, ptes, contents)
        invariant contents == seq(|ptes|, _ => ZEROS) && forall e :: e in ptes ==> e.flags == perm.(v := true)
        invariant Spent(old(owner), old(free), owner, free, root, base, |ptes|, |ptes|)
      {
        AddAllAt(old(flat)[root], base, ptes);
        var b := AllocTurn(root, base, a, perm, n, old(mem), old(flat), old(owner), old(free), ptes, contents);
        if b == 0 {
          UndoAlloc(root, a, base, old(mem), old(flat), old(owner), ptes, contents);
          return false, ptes;
        }
        ptes, contents := ptes + [Pte(b, perm.(v := true))], contents + [ZEROS];
        a := a + 1;
      }
      assert |ptes| == n;
      SpentEnough(old(owner), old(free), owner, free, root, base, n, n);
      ok := true;
    }

    /** One turn of uvmalloc's loop, with what all turns so far have taken. */
    method AllocTurn(root: nat, base: nat, a: nat, perm: Flags, ghost n: nat, ghost mem0: seq<Page>,
                     ghost flat0: map<nat, Space>, ghost owner0: map<nat, Node>, ghost free0: seq<nat>,
                     ghost ptes: seq<Pte>, ghost contents: seq<Page>) returns (b: nat)
      requires Valid() && root in flat && a < MAXVPN && a !in flat[root] && a == base + |ptes| && |ptes| < n
      requires Took(mem0, flat0, owner0, mem, flat, owner, loose, root, base, ptes, contents)
      requires Spent(owner0, free0, owner, free, root, base, |ptes|, |ptes|)
      modifies this`mem, this`freelist, this`free, this`owner, this`loose, this`lent, this`flat
      ensures Valid() && loose == old(loose) && lent == old(lent)
      ensures b == 0 ==> Took(mem0, flat0, owner0, mem, flat, owner, loose, root, base, ptes, contents)
      ensures b == 0 ==> !Enough(owner0, free0, root, base, n, n)
      ensures b != 0 ==> Took(mem0, flat0, owner0, mem, flat, owner, loose, root, base,
                              ptes + [Pte(b, perm.(v := true))], contents + [ZEROS])
      ensures b != 0 ==> Spent(owner0, free0, owner, free, root, base, |ptes| + 1, |ptes| + 1)
    {
      b := AllocOne(root, a, perm, ZEROS);
      if b == 0 {
        SpentShort(owner0, free0, old(owner), old(free), root, base, a, |ptes|, n, |ptes|, 1, n);
        TookTables(mem0, flat0, owner0, old(mem), old(flat), old(owner), mem, owner, loose, root, base, ptes,
                   contents);
        return;
      }
      TookNext(mem0, flat0, owner0, old(mem), old(flat), old(owner), mem, flat, owner, loose, root, base, ptes,
               contents, Pte(b, perm.(v := true)), ZEROS);
      SpentMore(owner0, free0, old(owner), old(free), owner, free, root, base, a, |ptes|, |ptes| + 1, |ptes|, 1,
                |ptes| + 1);
    }

    /** What uvmcopy does when memory runs out. */
    method UndoCopy(root: nat, n: nat, ghost mem0: seq<Page>, ghost flat0: map<nat, Space>, ghost owner0: map<nat,
                    Node>,
                    ghost ptes: seq<Pte>, ghost contents: seq<Page>)
      requires Valid() && Took(mem0, flat0, owner0, mem, flat, owner, loose, root, 0, ptes, contents)
      requires n == |ptes| <= MAXVPN
      requires (forall u: nat :: u < n ==> u !in flat0[root]) && forall e :: e in ptes ==> e.flags != VALIDONLY
      modifies this`mem, this`freelist, this`free, this`owner, this`loose, this`lent, this`flat
      ensures Valid() && flat == flat0 && lent == old(lent) && loose == old(loose)
      ensures OnlyTables(mem0, owner0, mem, owner, loose)
    {
      TookBack(mem0, flat0, owner0, mem, flat, owner, lent, loose, root, 0, ptes, contents);
      Uvmunmap(root, 0, n, true);
      Undone(mem0, flat0, owner0, old(mem), old(flat), old(owner), old(lent), old(free), old(loose), mem, flat, owner,
             lent, free, loose,
             root, 0, ptes, contents);
    }

    /** The part of uvmcopy's loop that finds and copies one page. */
    method CopyOne(parent: nat, child: nat, v: nat) returns (b: nat, flags: Flags)
      requires Valid() && parent in flat && child in flat && v < MAXVPN && v in flat[parent] && v !in flat[child]
      requires Node(parent, LEAF, v) !in lent
      modifies this`mem, this`freelist, this`free, this`owner, this`loose, this`lent, this`flat
      ensures Valid() && loose == old(loose) && lent == old(lent)
      ensures flags == old(flat)[parent][v].flags && flags.v && old(flat)[parent][v].ppn in old(owner)
      ensures old(flat)[parent][v].ppn < |old(mem)|
      ensures flat == if b == 0 then old(flat) else WithEntry(old(flat), child, v, Pte(b, flags))
      ensures b != 0 ==> && b !in old(owner) && b !in loose && b in owner && owner[b] == Node(child, LEAF, v)
                         && b < |mem| && mem[b] == old(mem)[old(flat)[parent][v].ppn]
      ensures OnlyTables(old(mem), old(owner), mem, if b == 0 then owner else owner - {b}, loose)
      ensures b != 0 <==> Enough(old(owner), old(free), child, v, 1, 1)
      ensures b != 0 ==> Spent(old(owner), old(free), owner, free, child, v, 1, 1)
    {
      var q := Walk(parent, v, false);
      SlotFacts(mem, flat, owner, lent, parent, v);
      var e := mem[q].ptes[v % NPTE];
      OwnedBy(mem, flat.Keys, owner, lent, e.ppn);
      flags := e.flags;
      b := AllocOne(child, v, flags, mem[e.ppn]);
    }

    /** One turn of uvmcopy's loop, with what all turns so far have taken. */
    method CopyTurn(parent: nat, child: nat, i: nat, ghost n: nat, ghost mem0: seq<Page>, ghost flat0: map<nat, Space>,
                    ghost owner0: map<nat, Node>, ghost free0: seq<nat>, ghost ptes: seq<Pte>,
                    ghost contents: seq<Page>) returns (b: nat, flags: Flags)
      requires Valid() && parent in flat && child in flat && i < MAXVPN && i in flat[parent] && i !in flat[child]
      requires Node(parent, LEAF, i) !in lent && i == |ptes| < n
      requires Took(mem0, flat0, owner0, mem, flat, owner, loose, child, 0, ptes, contents)
      requires Spent(owner0, free0, owner, free, child, 0, i, i)
      modifies this`mem, this`freelist, this`free, this`owner, this`loose, this`lent, this`flat
      ensures Valid() && loose == old(loose) && lent == old(lent)
      ensures flags == old(flat)[parent][i].flags && old(flat)[parent][i].ppn < |old(mem)|
      ensures b == 0 ==> Took(mem0, flat0, owner0, mem, flat, owner, loose, child, 0, ptes, contents)
      ensures b == 0 ==> !Enough(owner0, free0, child, 0, n, n)
      ensures b != 0 ==> Took(mem0, flat0, owner0, mem, flat, owner, loose, child, 0, ptes + [Pte(b, flags)],
                              contents + [old(mem)[old(flat)[parent][i].ppn]])
      ensures b != 0 ==> Spent(owner0, free0, owner, free, child, 0, i + 1, i + 1)
    {
      b, flags := CopyOne(parent, child, i);
      if b == 0 {
        SpentShort(owner0, free0, old(owner), old(free), child, 0, i, i, n, i, 1, n);
        TookTables(mem0, flat0, owner0, old(mem), old(flat), old(owner), mem, owner, loose, child, 0, ptes, contents);
        return;
      }
      TookNext(mem0, flat0, owner0, old(mem), old(flat), old(owner), mem, flat, owner, loose, child, 0, ptes,
               contents, Pte(b, flags), old(mem)[old(flat)[parent][i].ppn]);
      SpentMore(owner0, free0, old(owner), old(free), owner, free, child, 0, i, i, i + 1, i, 1, i + 1);
    }

    /** uvmcopy: the child gets a copy of every page below sz with the same flags, and the parent keeps
        its own.  If memory runs out the spaces are as before and only page-table pages stay taken. */
    method Uvmcopy(parent: nat, child: nat, sz: nat) returns (r: int, ghost ptes: seq<Pte>, ghost contents: seq<Page>)
      requires Valid() && parent in flat && child in flat && sz <= MAXVPN * PGSIZE
      requires forall u: nat :: u < RoundUp(sz) ==>
                 && u in flat[parent] && flat[parent][u].flags != VALIDONLY && Node(parent, LEAF, u) !in lent
                 && u !in flat[child]
      modifies this`mem, this`freelist, this`free, this`owner, this`loose, this`lent, this`flat
      ensures Valid() && loose == old(loose) && lent == old(lent)
      ensures r == if Enough(old(owner), old(free), child, 0, RoundUp(sz), RoundUp(sz)) then 0 else -1
      ensures r == 0 ==>
                && |ptes| == |contents| == RoundUp(sz)
                && Took(old(mem), old(flat), old(owner), mem, flat, owner, loose, child, 0, ptes, contents)
                && Copies(old(mem), old(flat)[parent], ptes, contents)
      ensures r == -1 ==> flat == old(flat) && OnlyTables(old(mem), old(owner), mem, owner, loose)
    {
      ptes, contents := [], [];
      var i := 0;
      TookNone(mem, flat, owner, loose, child, 0);
      SpentNone(owner, free, child, 0);
      while i * PGSIZE < sz
        invariant 0 <= i == |ptes| == |contents| <= RoundUp(sz)
        invariant Valid() && loose == old(loose) && lent == old(lent)
        invariant Took(old(mem), old(flat), old(owner), mem, flat, owner, loose, child, 0, ptes, contents)
        invariant Copies(old(mem), old(flat)[parent], ptes, contents) && forall e :: e in ptes ==> e.flags != VALIDONLY
        invariant Spent(old(owner), old(free), owner, free, child, 0, i, i)
      {
        AddAllAt(old(flat)[child], 0, ptes);
        ghost var mem1, owner1, pa := mem, owner, flat[parent][i].ppn;
        var b, flags := CopyTurn(parent, child, i, RoundUp(sz), old(mem), old(flat), old(owner), old(free), ptes,
                                 contents);
        if b == 0 {
          UndoCopy(child, i, old(mem), old(flat), old(owner), ptes, contents);
          return -1, ptes, contents;
        }
        CopiesNext(old(mem), old(flat), old(owner), old(lent), mem1, owner1, loose, parent, ptes, contents, b);
        ptes, contents := ptes + [Pte(b, flags)], contents + [mem1[pa]];
        i := i + 1;
      }
      SpentEnough(old(owner), old(free), owner, free, child, 0, i, i);
      r := 0;
    }

    /** freewalk: with nothing mapped below, it frees exactly the table's page and the pages below it,
        and never meets a leaf.  The tree is described by the memory mem0 in which it was intact. */
    method Freewalk(p: nat, ghost mem0: seq<Page>, ghost flat0: map<nat, Space>, ghost own: map<nat, Node>,
                    ghost lent0: set<Node>)
      requires Sound(mem0, flat0, own, lent0) && p in own && own[p].d < LEAF && own[p].root in flat0
      requires flat0[own[p].root] == map[]
      requires Valid() && Doomed(mem0, mem, loose, Subtree(own, own[p]))
      modifies this`mem, this`freelist, this`free, this`loose
      ensures Valid() && loose == old(loose) - Subtree(own, own[p]) && Joined(old(free), free, Subtree(own, own[p]))
      ensures SameBut(old(mem), mem, Subtree(own, own[p]))
      decreases LEAF - own[p].d
    {
      ghost var n := own[p];
      AllBranches(mem0, flat0, own, lent0, p);
      NoLeaf(mem0, flat0, own, lent0, p, 0);
      var i := 0;
      while i < NPTE
        invariant 0 <= i <= NPTE && Valid() && loose == old(loose) - Branches(own, n, i)
        invariant Joined(old(free), free, Branches(own, n, i))
        invariant SameBut(old(mem), mem, Subtree(own, n))
        invariant Doomed(mem0, mem, loose, Subtree(own, n) - Branches(own, n, i) - {p})
        invariant p < |mem| == |mem0| && mem[p].Table? && mem0[p].Table? && p in loose
        invariant forall j :: i <= j < NPTE ==> mem[p].ptes[j] == mem0[p].ptes[j]
      {
        NoLeaf(mem0, flat0, own, lent0, p, i);
        NextBranch(own, n, i);
        FreeEntry(p, i, mem0, flat0, own, lent0);
        i := i + 1;
      }
      Release(p);
    }

    /** One turn of freewalk's loop. */
    method FreeEntry(p: nat, i: nat, ghost mem0: seq<Page>, ghost flat0: map<nat, Space>, ghost own: map<nat, Node>,
                     ghost lent0: set<Node>)
      requires Sound(mem0, flat0, own, lent0) && p in own && own[p].d < LEAF && own[p].root in flat0
      requires flat0[own[p].root] == map[] && i < NPTE
      requires Valid() && Doomed(mem0, mem, loose, Subtree(own, Below(own[p], i)))
      requires p !in Subtree(own, Below(own[p], i))
      requires p < |mem| == |mem0| && mem[p].Table? && mem0[p].Table? && p in loose && mem[p].ptes[i] == mem0[p].ptes[i]
      modifies this`mem, this`freelist, this`free, this`loose
      ensures Valid() && loose == old(loose) - Subtree(own, Below(own[p], i))
      ensures Joined(old(free), free, Subtree(own, Below(own[p], i)))
      ensures SameBut(old(mem), mem, Subtree(own, Below(own[p], i)) + {p})
      ensures mem[p].Table? && forall j :: i < j < NPTE ==> mem[p].ptes[j] == old(mem)[p].ptes[j]
      decreases LEAF - own[p].d, 0
    {
      NoLeaf(mem0, flat0, own, lent0, p, i);
      var pte := mem[p].ptes[i];
      if pte.flags.v && !pte.flags.r && !pte.flags.w && !pte.flags.x {
        Freewalk(pte.ppn, mem0, flat0, own, lent0);
        Fill(p, Table(mem[p].ptes[i := NONE]));
      } else {
        assert !pte.flags.v;  // so the panic is not reached
      }
    }

    /** uvmfree: every page of the tree, mapped pages and tables alike, joins the free list; nothing
        else changes hands. */
    method Uvmfree(root: nat, sz: nat)
      requires Valid() && root in flat && RoundUp(sz) <= MAXVPN
      requires forall u: nat :: u in flat[root] <==> u < RoundUp(sz)
      requires forall u: nat :: u < RoundUp(sz) ==> flat[root][u].flags != VALIDONLY && Node(root, LEAF, u) !in lent
      modifies this`mem, this`freelist, this`free, this`owner, this`loose, this`lent, this`flat
      ensures Valid() && flat == old(flat) - {root} && owner == old(owner) - PagesOf(old(owner), root)
      ensures Joined(old(free), free, PagesOf(old(owner), root)) && loose == old(loose) && lent == old(lent)
      ensures Kept(old(mem), mem, owner, loose)
    {
      UnmappedNone(flat, owner, lent, free, loose, root, 0, true);
      if sz > 0 { Uvmunmap(root, 0, RoundUp(sz), true); }
      UnmappedAll(old(flat), old(owner), old(lent), old(free), old(loose), flat, owner, lent, free, loose, root,
                  RoundUp(sz));
      FreeTree(root);
    }

    /** freewalk from the root of a space that maps nothing. */
    method FreeTree(root: nat)
      requires Valid() && root in flat && flat[root] == map[]
      modifies this`mem, this`freelist, this`free, this`owner, this`loose, this`flat
      ensures Valid() && flat == old(flat) - {root} && owner == old(owner) - PagesOf(old(owner), root)
      ensures Joined(old(free), free, PagesOf(old(owner), root)) && loose == old(loose)
      ensures SameBut(old(mem), mem, PagesOf(old(owner), root)) && loose !! PagesOf(old(owner), root)
    {
      ghost var gone := PagesOf(owner, root);
      WholeTree(mem, flat, owner, lent, root);
      DropRoot(mem, flat, owner, lent, root);
      DisownPages(lo, hi, free, owner, loose, gone);
      flat, owner, loose := flat - {root}, owner - gone, loose + gone;
      Freewalk(root, old(mem), old(flat), old(owner), old(lent));
      assert loose == old(loose);
    }

    /** memmove((void *)(pa0 + (dstva - va0)), src, n) */
    method PutBytes(root: nat, va: nat, pa: nat, d: seq<byte>)
      requires Valid() && root in flat && Writable(flat[root], va / PGSIZE) && pa == flat[root][va / PGSIZE].ppn
      requires va % PGSIZE + |d| <= PGSIZE
      modifies this`mem
      ensures Valid() && Wrote(old(mem), mem, flat, lent, root, va, d)
      ensures |mem| == |old(mem)| && forall p :: p in loose && p < |mem| ==> mem[p] == old(mem)[p]
    {
      SlotFacts(mem, flat, owner, lent, root, va / PGSIZE);
      PatchWrote(mem, flat, owner, lent, root, va, d);
      ShareFacts(lo, hi, free, owner, loose, pa);
      var page := PatchPage(mem[pa], va % PGSIZE, d);
      OtherKeepsSound(mem, flat, owner, lent, pa, page);
      FreeSame(mem, mem[pa := page], freelist, free);
      mem := mem[pa := page];
    }

    /** copyout: succeeds exactly if every page it needs is mapped for the user to write, and then the
        user sees src at dstva.  Otherwise only the bytes before the first bad page are written. */
    method Copyout(root: nat, dstva: nat, src: seq<byte>) returns (r: int, ghost done: nat)
      requires Valid() && root in flat
      modifies this`mem, this`freelist, this`free, this`owner, this`loose
      ensures Valid() && owner == old(owner) && free == old(free) && loose == old(loose) && |mem| == |old(mem)|
      ensures done <= |src| && Wrote(old(mem), mem, flat, lent, root, dstva, src[..done])
      ensures forall p :: p in loose && p < |mem| ==> mem[p] == old(mem)[p]
      ensures AllWritable(flat[root], dstva, done)
      ensures forall a: nat :: dstva <= a < dstva + done ==>
                Vpn(a) in flat[root] && flat[root][Vpn(a)].flags.u && flat[root][Vpn(a)].flags.w
      ensures (r == 0 && done == |src|) || (r == -1 && done < |src| && !Writable(flat[root], Vpn(dstva + done)))
      ensures r == 0 ==> Bytes(mem, flat[root], dstva, |src|) == src
    {
      done := 0;
      WroteNone(mem, flat, lent, root, dstva);
      assert src[..0] == [];
      var va, rest := dstva, src;
      while rest != []
        invariant 0 <= done <= |src| && rest == src[done..] && va == dstva + done
        invariant Valid() && owner == old(owner) && free == old(free) && loose == old(loose) && |mem| == |old(mem)|
        invariant Wrote(old(mem), mem, flat, lent, root, dstva, src[..done])
        invariant forall p :: p in loose && p < |mem| ==> mem[p] == old(mem)[p]
        invariant AllWritable(flat[root], dstva, done)
        decreases |rest|
      {
        var va0 := va / PGSIZE;
        if va0 >= MAXVPN { return -1, done; }
        var pte := Lookup(root, va0);
        if !pte.flags.v || !pte.flags.u || !pte.flags.w { return -1, done; }
        var n := if PGSIZE - va % PGSIZE > |rest| then |rest| else PGSIZE - va % PGSIZE;
        ghost var mem1 := mem;
        PutBytes(root, va, pte.ppn, rest[..n]);
        WroteMore(old(mem), mem1, mem, flat, lent, root, dstva, src[..done], rest[..n]);
        assert src[..done] + rest[..n] == src[..done + n];
        assert forall a: nat :: va <= a < va + n ==> Vpn(a) == va0;
        va, rest, done := va + n, rest[n..], done + n;
      }
      assert src[..done] == src;
      WroteReads(old(mem), mem, flat, owner, lent, root, dstva, src);
      r := 0;
    }

    /** *walk(pagetable, va0, 0), an absent entry standing for a null pointer. */
    method Lookup(root: nat, v: nat) returns (e: Pte)
      requires Valid() && root in flat && v < MAXVPN
      modifies this`mem, this`freelist, this`free, this`owner, this`loose
      ensures Valid() && mem == old(mem) && owner == old(owner) && free == old(free) && loose == old(loose)
      ensures if v in flat[root] then e == flat[root][v] && e.flags.v else !e.flags.v
    {
      var q := Walk(root, v, false);
      SlotFacts(mem, flat, owner, lent, root, v);
      if q == 0 { return NONE; }
      e := mem[q].ptes[v % NPTE];
    }

    /** copyin: succeeds exactly if every page it needs is mapped for the user, and then yields what the
        user sees at srcva. */
    method Copyin(root: nat, srcva: nat, len: nat) returns (r: int, dst: seq<byte>)
      requires Valid() && root in flat
      modifies this`mem, this`freelist, this`free, this`owner, this`loose
      ensures Valid() && mem == old(mem) && owner == old(owner) && free == old(free) && loose == old(loose)
      ensures |dst| <= len && dst == Bytes(mem, flat[root], srcva, |dst|)
      ensures AllReadable(flat[root], srcva, |dst|)
      ensures forall a: nat :: srcva <= a < srcva + |dst| ==> Vpn(a) in flat[root] && flat[root][Vpn(a)].flags.u
      ensures (r == 0 && |dst| == len) || (r == -1 && |dst| < len && !Readable(flat[root], Vpn(srcva + |dst|)))
    {
      dst := [];
      var va := srcva;
      while |dst| < len
        invariant |dst| <= len && va == srcva + |dst|
        invariant Valid() && mem == old(mem) && owner == old(owner) && free == old(free) && loose == old(loose)
        invariant dst == Bytes(mem, flat[root], srcva, |dst|)
        invariant AllReadable(flat[root], srcva, |dst|)
      {
        var va0 := va / PGSIZE;
        var pa := Walkaddr(root, va0);
        if pa == 0 {
          return -1, dst;
        }
        OwnedBy(mem, flat.Keys, owner, lent, pa);
        var n := if PGSIZE - va % PGSIZE > len - |dst| then len - |dst| else PGSIZE - va % PGSIZE;
        var some := mem[pa].bytes[va % PGSIZE..va % PGSIZE + n];
        BytesMore(mem, flat[root], srcva, dst, n);
        assert forall a: nat :: va <= a < va + n ==> Vpn(a) == va0;
        dst, va := dst + some, va + n;
      }
      r := 0;
    }

    /** copyout and then copyin of the same range: what went out comes back, across page boundaries. */
    method OutAndIn(root: nat, va: nat, src: seq<byte>) returns (out: int, back: int, dst: seq<byte>)
      requires Valid() && root in flat
      modifies this`mem, this`freelist, this`free, this`owner, this`loose
      ensures Valid() && (out == 0 ==> back == 0 && dst == src)
    {
      ghost var done;
      out, done := Copyout(root, va, src);
      back, dst := Copyin(root, va, |src|);
    }
  }

  /** Unmapping all of a space leaves it empty, its tables apart from what was freed. */
  lemma UnmappedAll(flat: map<nat, Space>, owner: map<nat, Node>, lent: set<Node>, free: seq<nat>, loose: set<nat>,
                    flat': map<nat, Space>, owner': map<nat, Node>, lent': set<Node>, free': seq<nat>, loose': set<nat>,
                    r: nat, n: nat)
    requires Unmapped(flat, owner, lent, free, loose, flat', owner', lent', free', loose', r, 0, n, true)
    requires r in flat && forall u: nat :: (u in flat[r] ==> u < n) && (u < n ==> Node(r, LEAF, u) !in lent)
    ensures r in flat' && flat'[r] == map[] && flat' - {r} == flat - {r} && lent' == lent && loose' == loose
    ensures owner' - PagesOf(owner', r) == owner - PagesOf(owner, r)
    ensures Joined(free, free', PagesOf(owner, r) - PagesOf(owner', r)) && PagesOf(owner', r) <= PagesOf(owner, r)
  {
    assert Open(UNMAPPED, 0);
    VpnsAre(0, n);
    LeavesAre(r, 0, n);
    assert forall u :: u !in flat'[r];
  }

  /** These pages wait to be freed and still hold what they held. */
  ghost predicate Doomed(mem0: seq<Page>, mem: seq<Page>, loose: set<nat>, pages: set<nat>) {
    |mem| == |mem0| && forall x :: x in pages ==> x in loose && x < |mem| && mem[x] == mem0[x]
  }

  ghost predicate Joined(free: seq<nat>, free': seq<nat>, pages: set<nat>) {
    forall x :: x in free' <==> x in free || x in pages
  }

  ghost predicate SameBut(mem: seq<Page>, mem': seq<Page>, pages: set<nat>) {
    |mem'| == |mem| && forall x: nat :: x < |mem| && x !in pages ==> mem'[x] == mem[x]
  }

  /** Entry by entry the same flags, and page by page the same bytes as in the space. */
  ghost predicate Copies(mem: seq<Page>, space: Space, ptes: seq<Pte>, contents: seq<Page>) {
    |ptes| == |contents| && forall i: nat :: i < |ptes| ==>
      && i in space && ptes[i].flags == space[i].flags && space[i].ppn < |mem| && contents[i] == mem[space[i].ppn]
  }

  lemma CopiesNext(mem: seq<Page>, flat: map<nat, Space>, owner: map<nat, Node>, lent: set<Node>, mem1: seq<Page>,
                   owner1: map<nat, Node>,
                   loose: set<nat>, r: nat, ptes: seq<Pte>, contents: seq<Page>, b: nat)
    requires Sound(mem, flat, owner, lent) && r in flat && |ptes| < NVPN && |ptes| in flat[r]
    requires Node(r, LEAF, |ptes|) !in lent
    requires OnlyTables(mem, owner, mem1, owner1 - PagesIn(ptes), loose) && Copies(mem, flat[r], ptes, contents)
    ensures var e := flat[r][|ptes|];
            e.ppn < |mem| == |mem1| && Copies(mem, flat[r], ptes + [Pte(b, e.flags)], contents + [mem1[e.ppn]])
  {
    var e := flat[r][|ptes|];
    SlotFacts(mem, flat, owner, lent, r, |ptes|);
    OwnedBy(mem, flat.Keys, owner, lent, e.ppn);
    OnlyTablesKeep(mem, owner, mem1, owner1 - PagesIn(ptes), loose, e.ppn);
  }

  /** PGROUNDUP(sz) / PGSIZE */
  function RoundUp(sz: nat): (n: nat)
    ensures (n * PGSIZE >= sz) && n * PGSIZE < sz + PGSIZE
  {
    (sz + PGSIZE - 1) / PGSIZE
  }
}
