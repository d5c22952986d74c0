/**
 malloc, free and morecore of user/umalloc.c over the headers they update in place.  sbrk is the
 parameter brk of malloc: the address of a region above all earlier ones, or 0 for a failure.
 */
module Malloc {
  import opened Folding
  import opened FreeBlocks

  const HEADER := 16   // sizeof(Header)
  const MINCORE := 4096

  /** Units for nbytes and a header. */
  function Units(nbytes: nat): (n: nat)
    ensures 1 <= n && (n - 1) * HEADER >= nbytes && (n - 1) * HEADER < nbytes + HEADER
  {
    (nbytes + HEADER - 1) / HEADER + 1
  }

  const WORD := 0x1_0000_0000

  /** A value passed as an int: the low 32 bits, signed. */
  function AsInt(x: nat): int {
    var r := x % WORD;
    if r < WORD / 2 then r else r - WORD
  }

  /** Units that malloc asks of sbrk when nothing free is large enough. */
  function CoreUnits(nbytes: nat): nat {
    if Units(nbytes) < MINCORE then MINCORE else Units(nbytes)
  }

  const MAXREQUEST := 0x7fff_ffe0  // 2^31 - 32

  /** The block lies below the break that sbrk sets, for a region at brk. */
  predicate BelowBreak(u: nat, brk: nat, nbytes: nat) {
    (u + 1 - brk) * HEADER <= AsInt(CoreUnits(nbytes) * HEADER)
  }

  /** sbrk takes an int: it gets the size that malloc means exactly up to 2^31 - 32 bytes, and a
      smaller one above. */
  lemma SbrkFits(nbytes: nat)
    requires nbytes < WORD
    ensures AsInt(CoreUnits(nbytes) * HEADER) == CoreUnits(nbytes) * HEADER <==> nbytes <= MAXREQUEST
    ensures nbytes > MAXREQUEST ==> AsInt(CoreUnits(nbytes) * HEADER) < CoreUnits(nbytes) * HEADER
  {
    var n := CoreUnits(nbytes);
    assert nbytes <= MAXREQUEST <==> n * HEADER < WORD / 2;
  }

  /** The largest request asks for 2^28 + 1 units and sbrk is passed 16 bytes, one unit. */
  lemma LargestRequest()
    ensures CoreUnits(WORD - 1) == 0x1000_0001 && AsInt(CoreUnits(WORD - 1) * HEADER) == HEADER
  {
  }

  /** The fresh units are all below the break exactly if the request fits an int. */
  lemma FreshBelowBreak(cell: map<nat, nat>, cell': map<nat, nat>, brk: nat, nbytes: nat)
    requires nbytes < WORD && (forall u :: u in cell ==> u < brk)
    requires cell'.Keys == Fresh(cell, brk, CoreUnits(nbytes)).Keys
    ensures (forall u :: u in cell' ==> BelowBreak(u, brk, nbytes)) <==> nbytes <= MAXREQUEST
  {
    SbrkFits(nbytes);
    var last := brk + CoreUnits(nbytes) - 1;
    assert last in cell';
    assert BelowBreak(last, brk, nbytes) <==> nbytes <= MAXREQUEST;
  }

  /** freep is the free block before the one that b was taken from: b itself, or the block that now ends
      at b. */
  ghost predicate Precedes(size: map<nat, nat>, fl: seq<nat>, freep: nat, b: nat) {
    freep in fl && exists p :: && freep < p <= b && (p == b || (p in fl && p in size && p + size[p] == b))
                               && forall a :: a in fl ==> a <= freep || a >= p
  }

  /** A request of up to 65520 bytes asks sbrk for 65536, and no request for less. */
  lemma SmallRequests(nbytes: nat)
    ensures CoreUnits(nbytes) * HEADER >= 65536
    ensures CoreUnits(nbytes) * HEADER == 65536 <==> nbytes <= 65520
  {
  }

  class Heap {
    const base: nat              // &base
    var ptr: map<nat, nat>       // p->s.ptr
    var size: map<nat, nat>      // p->s.size
    var freep: nat
    ghost var fl: seq<nat>
    ghost var live: map<nat, nat>
    ghost var cell: map<nat, nat>

    ghost predicate Ready()
      reads this
    {
      0 < base && freep in fl && Sane(ptr, size, base, fl, live, cell)
    }

    ghost predicate Valid()
      reads this
    {
      0 < base && if fl == [] then freep == 0 && live == map[] && cell == map[] else Ready()
    }

    constructor (b: nat)
      requires 0 < b
      ensures Valid() && freep == 0 && base == b
    {
      base, freep, ptr, size := b, 0, map[], map[];
      fl, live, cell := [], map[], map[];
    }

    /** free's search: the last free block below bp.  It ends, wherever it starts. */
    method FindSpot(bp: nat) returns (p: nat, ghost t: nat)
      requires Ready() && bp in live
      ensures p in fl && p < bp && forall a :: a in fl && a < bp ==> a <= p
      ensures t < |fl| && p == fl[t] && (t + 1 < |fl| ==> fl[t + 1] >= bp)
    {
      assert Open(LIST_SANE, 0) && Open(LIST_LINKED, 0);
      assert base < bp && bp !in fl by { assert Open(BLOCKS_LIVE, 0); }
      t := Spot(size, base, fl, bp, |fl|);
      p := freep;
      ghost var i: nat :| i < |fl| && fl[i] == p;
      assert Link(ptr, fl, i);
      StopsAtSpot(ptr, size, base, fl, bp, t, i);
      while !(bp > p && bp < ptr[p])
        invariant i < |fl| && p == fl[i] && Link(ptr, fl, i) && (Stops(p, ptr[p], bp) <==> i == t)
        decreases if i <= t then t - i else t + |fl| - i
      {
        if p >= ptr[p] && (bp > p || bp < ptr[p]) { break; }
        p := ptr[p];
        i := Next(fl, i);
        assert Link(ptr, fl, i);
        StopsAtSpot(ptr, size, base, fl, bp, t, i);
      }
      forall a | a in fl && a < bp ensures a <= p {
        var j: nat :| j < |fl| && fl[j] == a;
        if j < t { Before(size, base, fl, j, t); }
      }
    }

    /** The first half of free: the upper neighbour joins bp if they touch. */
    method JoinNext(bp: nat, p: nat, ghost t: nat)
      requires Ready() && bp in live && t < |fl| && p == fl[t] && p < bp && (t + 1 < |fl| ==> fl[t + 1] >= bp)
      modifies this`ptr, this`size, this`fl, this`live, this`cell
      ensures Joining(ptr[p := bp], size, base, fl, live, cell, t)
      ensures t + 1 < |fl| && fl[t] == p && fl[t + 1] == bp
      ensures live == old(live) - {bp} && cell.Keys == old(cell).Keys
      ensures bp in size && size[bp] >= old(live)[bp]
    {
      ghost var fl2, cell2 := JoinedUp(ptr, size, base, fl, live, cell, bp, t);
      var next: nat := ptr[p];
      if bp + size[bp] == next {
        size := size[bp := size[bp] + size[next]];
        ptr := ptr[bp := ptr[next]];
      } else {
        ptr := ptr[bp := next];
      }
      fl, live, cell := fl2, live - {bp}, cell2;
    }

    /** The second half of free: bp joins the lower neighbour if they touch. */
    method JoinPrev(bp: nat, p: nat, ghost t: nat)
      requires 0 < base && t + 1 < |fl| && fl[t] == p && fl[t + 1] == bp
      requires Joining(ptr[p := bp], size, base, fl, live, cell, t)
      modifies this`ptr, this`size, this`freep, this`fl, this`cell
      ensures Ready() && cell.Keys == old(cell).Keys && freep == p
      ensures bp in old(size) && HasBig(size, fl, old(size)[bp])
    {
      ghost var fl2, cell2 := JoinedDown(ptr, size, base, fl, live, cell, t);
      if p + size[p] == bp {
        size := size[p := size[p] + size[bp]];
        ptr := ptr[p := ptr[bp]];
      } else {
        ptr := ptr[p := bp];
      }
      freep := p;
      ghost var big := if p + old(size)[p] == bp then p else bp;
      fl, cell := fl2, cell2;
      assert big in fl && size[big] >= old(size)[bp];
    }

    /** free: the block's units become free again, joined with every free block they touch. */
    method Free(ap: nat)
      requires Ready() && 0 < ap && ap - 1 in live
      modifies this`ptr, this`size, this`freep, this`fl, this`live, this`cell
      ensures Ready() && freep != 0 && live == old(live) - {ap - 1} && cell.Keys == old(cell).Keys
      ensures HasBig(size, fl, old(live)[ap - 1])
      ensures freep in old(fl) && freep < ap - 1 && forall a :: a in old(fl) && a < ap - 1 ==> a <= freep
    {
      var bp := ap - 1;
      var p, t := FindSpot(bp);
      JoinNext(bp, p, t);
      JoinPrev(bp, p, t);
      FreePositive();
    }

    lemma FreePositive()
      requires Ready()
      ensures freep != 0
    {
      assert Open(LIST_SANE, 0);
      var i :| 0 <= i < |fl| && fl[i] == freep;
      if i > 0 { Before(size, base, fl, 0, i); }
    }

    /** morecore with a region from sbrk: at least MINCORE units join the free blocks. */
    method Morecore(nu: nat, brk: nat) returns (p: nat)
      requires Ready() && 0 < nu && base < brk && forall u :: u in cell ==> u < brk
      modifies this`ptr, this`size, this`freep, this`fl, this`live, this`cell
      ensures Ready() && p == freep != 0 && live == old(live)
      ensures cell.Keys == Fresh(old(cell), brk, if nu < MINCORE then MINCORE else nu).Keys
      ensures HasBig(size, fl, nu)
    {
      var n := if nu < MINCORE then MINCORE else nu;
      assert Open(LIST_SANE, 0);
      FreshBlock(ptr, size, base, fl, live, cell, brk, n);
      size := size[brk := n];
      live, cell := live[brk := n], Fresh(cell, brk, n);
      Free(brk + 1);
      assert live == old(live);
      p := freep;
    }

    /** The end of malloc: the block p after prevp, or its tail, is handed out. */
    method Take(prevp: nat, p: nat, nunits: nat, ghost i: nat) returns (ap: nat)
      requires Ready() && i + 1 < |fl| && prevp == fl[i] && p == fl[i + 1] && p in size && 0 < nunits <= size[p]
      modifies this`ptr, this`size, this`freep, this`fl, this`live, this`cell
      ensures Ready() && 0 < ap && ap - 1 !in old(live) && live == old(live)[ap - 1 := nunits]
      ensures cell.Keys == old(cell).Keys
      ensures ap - 1 == p + old(size)[p] - nunits && freep == prevp && Precedes(size, fl, freep, ap - 1)
    {
      Neighbours(i);
      if size[p] == nunits {
        TakeWhole(prevp, p, i);
        ap := p + 1;
        assert forall a :: a in fl ==> a in old(fl);
      } else {
        ap := TakeTail(p, nunits, i + 1);
        assert p in fl && p + size[p] == ap - 1;
      }
      freep := prevp;
    }

    /** No free block lies between two neighbours in the list. */
    lemma Neighbours(i: nat)
      requires Ready() && i + 1 < |fl|
      ensures fl[i] < fl[i + 1] && forall a :: a in fl ==> a <= fl[i] || a >= fl[i + 1]
    {
      assert Open(LIST_SANE, 0);
      Before(size, base, fl, i, i + 1);
      forall a | a in fl ensures a <= fl[i] || a >= fl[i + 1] {
        var j: nat :| j < |fl| && fl[j] == a;
        if j < i { Before(size, base, fl, j, i); }
        if j > i + 1 { Before(size, base, fl, i + 1, j); }
      }
    }

    /** prevp->s.ptr = p->s.ptr */
    method TakeWhole(prevp: nat, p: nat, ghost i: nat)
      requires Ready() && i + 1 < |fl| && prevp == fl[i] && p == fl[i + 1] && p in size
      modifies this`ptr, this`fl, this`live
      ensures Sane(ptr, size, base, fl, live, cell) && prevp in fl && fl == RemoveAt(old(fl), i + 1)
      ensures p !in old(live) && live == old(live)[p := size[p]]
    {
      TakenWhole(ptr, size, base, fl, live, cell, i);
      ptr := ptr[prevp := ptr[p]];
      fl, live := RemoveAt(fl, i + 1), live[p := size[p]];
      assert fl[i] == prevp;
    }

    /** p->s.size -= nunits; p += p->s.size; p->s.size = nunits */
    method TakeTail(p: nat, nunits: nat, ghost i: nat) returns (ap: nat)
      requires Ready() && 0 < i < |fl| && p == fl[i] && p in size && 0 < nunits < size[p]
      modifies this`size, this`live, this`cell
      ensures Ready() && 0 < ap && ap - 1 !in old(live) && live == old(live)[ap - 1 := nunits]
      ensures cell.Keys == old(cell).Keys
      ensures ap - 1 == p + old(size)[p] - nunits && p in size && size[p] == old(size)[p] - nunits
    {
      assert Open(LIST_SANE, 0);
      var q: nat := p + (size[p] - nunits);
      TakenTail(ptr, size, base, fl, live, cell, i, nunits, q, size[p := size[p] - nunits][q := nunits]);
      size := size[p := size[p] - nunits];
      size := size[q := nunits];
      live, cell := live[q := nunits], CutAt(cell, p, q);
      ap := q + 1;
    }

    /** malloc: the end of the first large enough free block after freep, or fresh units from sbrk.  It
        fails only if sbrk does and no free block is large enough; the search ends and asks for memory
        at most once. */
    method Malloc(nbytes: nat, brk: nat) returns (ap: nat)
      requires Valid() && nbytes < WORD && (brk != 0 ==> base < brk && forall u :: u in cell ==> u < brk)
      modifies this`ptr, this`size, this`freep, this`fl, this`live, this`cell
      ensures Valid() && (ap == 0 <==> brk == 0 && !HasBig(old(size), old(fl), Units(nbytes)))
      ensures live == if ap == 0 then old(live) else old(live)[ap - 1 := Units(nbytes)]
      ensures ap != 0 ==> ap - 1 !in old(live) && Precedes(size, fl, freep, ap - 1)
      ensures ap == 0 ==> freep == if old(freep) == 0 then base else old(freep)
      ensures HasBig(old(size), old(fl), Units(nbytes)) ==>
        FirstFit(old(size), old(fl), old(freep), Units(nbytes), ap - 1)
      ensures cell.Keys == if brk == 0 || HasBig(old(size), old(fl), Units(nbytes)) then old(cell).Keys
                           else Fresh(old(cell), brk, CoreUnits(nbytes)).Keys
      ensures brk != 0 && !HasBig(old(size), old(fl), Units(nbytes)) ==>
                ((forall u :: u in cell ==> BelowBreak(u, brk, nbytes)) <==> nbytes <= MAXREQUEST)
    {
      var nunits := Units(nbytes);
      Start(nunits);
      ghost var asked, big := false, HasBig(size, fl, nunits);
      ghost var fl1, size1, freep1 := fl, size, freep;
      var prevp := freep;
      var p, f, i := Step(prevp, nunits);
      while true
        invariant Ready() && live == old(live) && 0 <= f < |fl| && 0 <= i < |fl| && fl[f] == freep && fl[i] == p
        invariant (i > 0 ==> fl[i - 1] == prevp)
        invariant Searched(size, fl, f, i, nunits)
        invariant asked ==> HasBig(size, fl, nunits) && !big && brk != 0
        invariant !asked ==> cell == old(cell) && (big <==> HasBig(size, fl, nunits))
        invariant !asked ==> fl == fl1 && size == size1 && freep == freep1
        invariant asked ==> cell.Keys == Fresh(old(cell), brk, if nunits < MINCORE then MINCORE else nunits).Keys
        decreases if asked then 0 else 1, if i <= f then f - i else f + |fl| - i
      {
        ListedAt(i);
        if size[p] >= nunits {
          FitsHere(size, fl, f, i, nunits);
          ap := Take(prevp, p, nunits, i - 1);
          if asked { FreshBelowBreak(old(cell), cell, brk, nbytes); }
          return;
        }
        if p == freep {
          SameBlock(i, f);
          SearchedAll(size, fl, f, nunits);
          if brk == 0 { return 0; }
          p := Morecore(nunits, brk);
          asked := true;
          prevp := p;
          p, f, i := Step(prevp, nunits);
        } else {
          SearchedMore(size, fl, f, i, nunits);
          LinkAt(i);
          prevp, p, i := p, ptr[p], Next(fl, i);
        }
      }
    }

    /** On the first call the list is set up with base alone. */
    method Start(nunits: nat)
      requires Valid() && 0 < nunits
      modifies this`ptr, this`size, this`freep, this`fl
      ensures Ready() && HasBig(size, fl, nunits) == HasBig(old(size), old(fl), nunits)
      ensures HasBig(size, fl, nunits) ==> size == old(size) && fl == old(fl) && freep == old(freep)
      ensures freep == if old(freep) == 0 then base else old(freep)
    {
      if fl != [] { FreePositive(); }
      if freep == 0 {
        InitGood(base);
        ptr, size, freep := map[base := base], map[base := 0], base;
        fl := [base];
        assert base in fl;
      }
    }

    lemma LinkAt(i: nat)
      requires Ready() && i < |fl|
      ensures Link(ptr, fl, i)
    {
      assert Open(LIST_SANE, 0) && Open(LIST_LINKED, 0);
    }

    lemma SameBlock(i: nat, j: nat)
      requires Ready() && i < |fl| && j < |fl| && fl[i] == fl[j]
      ensures i == j
    {
      assert Open(LIST_SANE, 0);
      SameIndex(size, base, fl, i, j);
    }

    lemma ListedAt(i: nat)
      requires Ready() && i < |fl|
      ensures fl[i] in size && fl[i] in ptr && (size[fl[i]] > 0 ==> i > 0)
    {
      assert Open(LIST_SANE, 0) && Open(LIST_RISING, 0) && Open(LIST_LINKED, 0);
      assert Link(ptr, fl, i);
    }

    /** p = prevp->s.ptr */
    method Step(prevp: nat, ghost n: nat) returns (p: nat, ghost f: nat, ghost i: nat)
      requires Ready() && prevp == freep
      ensures prevp in ptr && p == ptr[prevp]
      ensures f < |fl| && i < |fl| && fl[f] == freep && fl[i] == p && i == Next(fl, f) && Searched(size, fl, f, i, n)
    {
      f :| f < |fl| && fl[f] == freep;
      LinkAt(f);
      i := Next(fl, f);
      SearchedNone(size, fl, f, n);
      p := ptr[prevp];
    }
  }

  lemma InitGood(base: nat)
    ensures Good(map[base := base], map[base := 0], base, [base], map[], map[]) && Apart(map[base := 0], [base])
  {
  }
}
