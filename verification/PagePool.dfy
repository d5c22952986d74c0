/**
 The free list of kernel/kalloc.c and the division of the page pool: every page is free, in a page
 table, or loose, that is, in the hands of a caller of kalloc.
 */
module Pool {
  import opened Folding
  import opened PageTree

  /** The pages on the free list from head on, each holding the link to the next. */
  ghost predicate FreeList(mem: seq<Page>, head: nat, free: seq<nat>)
    decreases free
  {
    if free == [] then head == 0
    else
      && head == free[0] && 0 < head < |mem| && mem[head].Run? && head !in free[1..]
      && FreeList(mem, mem[head].next, free[1..])
  }

  lemma {:induction false} ListSame(mem: seq<Page>, mem': seq<Page>, head: nat, free: seq<nat>)
    requires FreeList(mem, head, free) && |mem'| == |mem|
    requires forall p :: p in free && p < |mem| ==> mem'[p] == mem[p]
    ensures FreeList(mem', head, free)
    decreases free
  {
    if free != [] {
      assert free[0] in free;
      ListSame(mem, mem', mem[head].next, free[1..]);
    }
  }

  ghost predicate Chain(mem: seq<Page>, head: nat, free: seq<nat>) {
    forall n: nat :: Open(FREE_CHAIN, n) ==> FreeList(mem, head, free)
  }

  /** Changes to other pages leave the free list alone. */
  lemma FreeSame(mem: seq<Page>, mem': seq<Page>, head: nat, free: seq<nat>)
    requires Chain(mem, head, free) && |mem'| == |mem|
    requires forall p :: p in free && p < |mem| ==> mem'[p] == mem[p]
    ensures Chain(mem', head, free)
  {
    assert Open(FREE_CHAIN, 0);
    ListSame(mem, mem', head, free);
  }

  lemma Push(mem: seq<Page>, head: nat, free: seq<nat>, p: nat)
    requires Chain(mem, head, free) && p !in free && 0 < p < |mem|
    ensures Chain(mem[p := Run(head)], p, [p] + free)
  {
    assert Open(FREE_CHAIN, 0);
    ListSame(mem, mem[p := Run(head)], head, free);
    assert ([p] + free)[1..] == free;
  }

  lemma Pop(mem: seq<Page>, head: nat, free: seq<nat>)
    requires Chain(mem, head, free)
    ensures head == 0 <==> free == []
    ensures head != 0 ==> && free != [] && head == free[0] && head < |mem| && mem[head].Run? && head !in free[1..]
                          && Chain(mem, mem[head].next, free[1..])
  {
    assert Open(FREE_CHAIN, 0);
  }

  ghost predicate ShareParts(lo: nat, hi: nat, free: seq<nat>, owner: map<nat, Node>, loose: set<nat>) {
    && (forall p: nat :: lo <= p < hi <==> p in free || p in owner || p in loose)
    && (forall p :: p in free ==> p !in owner && p !in loose)
    && (forall p :: p in owner ==> p !in loose)
  }

  /** Free pages, pages in trees and loose pages partition the pool. */
  ghost predicate Share(lo: nat, hi: nat, free: seq<nat>, owner: map<nat, Node>, loose: set<nat>) {
    forall n: nat :: Open(POOL_SHARED, n) ==> ShareParts(lo, hi, free, owner, loose)
  }

  lemma ShareFacts(lo: nat, hi: nat, free: seq<nat>, owner: map<nat, Node>, loose: set<nat>, p: nat)
    requires Share(lo, hi, free, owner, loose)
    ensures lo <= p < hi <==> p in free || p in owner || p in loose
    ensures p in free ==> p !in owner && p !in loose
    ensures p in owner ==> p !in loose
  {
    assert Open(POOL_SHARED, 0);
  }

  lemma TakePage(lo: nat, hi: nat, free: seq<nat>, owner: map<nat, Node>, loose: set<nat>)
    requires Share(lo, hi, free, owner, loose) && free != [] && free[0] !in free[1..]
    ensures Share(lo, hi, free[1..], owner, loose + {free[0]})
  {
    assert Open(POOL_SHARED, 0);
    assert forall p :: p in free <==> p == free[0] || p in free[1..];
  }

  lemma GivePage(lo: nat, hi: nat, free: seq<nat>, owner: map<nat, Node>, loose: set<nat>, b: nat)
    requires Share(lo, hi, free, owner, loose) && b in loose
    ensures Share(lo, hi, [b] + free, owner, loose - {b}) && b !in free
  {
    assert Open(POOL_SHARED, 0);
  }

  lemma OwnPage(lo: nat, hi: nat, free: seq<nat>, owner: map<nat, Node>, loose: set<nat>, b: nat, n: Node)
    requires Share(lo, hi, free, owner, loose) && b in loose
    ensures Share(lo, hi, free, owner[b := n], loose - {b}) && b !in owner && b !in free
  {
    assert Open(POOL_SHARED, 0);
  }

  lemma SwapPage(lo: nat, hi: nat, free: seq<nat>, owner: map<nat, Node>, loose: set<nat>, b: nat)
    requires Share(lo, hi, free, owner, loose) && b in owner
    ensures Share(lo, hi, [b] + free, owner - {b}, loose) && b !in free
  {
    assert Open(POOL_SHARED, 0);
  }

  lemma DisownPages(lo: nat, hi: nat, free: seq<nat>, owner: map<nat, Node>, loose: set<nat>, gone: set<nat>)
    requires Share(lo, hi, free, owner, loose) && gone <= owner.Keys
    ensures Share(lo, hi, free, owner - gone, loose + gone) && gone !! loose
    ensures forall p :: p in gone ==> p !in free && lo <= p < hi
  {
    assert Open(POOL_SHARED, 0);
  }
}
