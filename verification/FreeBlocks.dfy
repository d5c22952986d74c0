/**
 The free list of user/umalloc.c (section 8.7 of The C Programming Language, 2nd ed.) as values.
 Addresses and sizes count in units of one header; `ptr` and `size` are the two fields of the headers.
 `fl` lists the free blocks in address order, starting with the static header base; `live` has the
 blocks handed out; `cell` says for every unit obtained from the system which block it is in.
 */
module FreeBlocks {
  import opened Folding

  function Next(fl: seq<nat>, i: nat): (j: nat)
    requires i < |fl|
    ensures j < |fl|
  {
    if i + 1 < |fl| then i + 1 else 0
  }

  /** The links go round in the order of the list. */
  ghost predicate Links(ptr: map<nat, nat>, fl: seq<nat>) {
    forall n: nat :: Open(LIST_LINKED, n) ==> forall i: nat :: i < |fl| ==> Link(ptr, fl, i)
  }

  ghost predicate Link(ptr: map<nat, nat>, fl: seq<nat>, i: nat) {
    i < |fl| && fl[i] in ptr && ptr[fl[i]] == fl[Next(fl, i)]
  }

  ghost predicate RisingParts(size: map<nat, nat>, fl: seq<nat>) {
    && (forall i: nat :: 0 < i < |fl| ==> fl[i] in size && size[fl[i]] > 0)
    && (forall i: nat :: i + 1 < |fl| ==> Follows(size, fl, i))
  }

  /** The list starts at base and goes up, and no block overlaps the next. */
  ghost predicate Rising(size: map<nat, nat>, base: nat, fl: seq<nat>) {
    && |fl| >= 1 && fl[0] == base && base in size && size[base] == 0
    && forall n: nat :: Open(LIST_RISING, n) ==> RisingParts(size, fl)
  }

  ghost predicate Follows(size: map<nat, nat>, fl: seq<nat>, i: nat) {
    i + 1 < |fl| && fl[i] in size && fl[i] + size[fl[i]] <= fl[i + 1] && fl[i] < fl[i + 1]
  }

  /** Free blocks i and i + 1 do not touch. */
  ghost predicate Gap(size: map<nat, nat>, fl: seq<nat>, i: nat) {
    i + 1 < |fl| && fl[i] in size && fl[i] + size[fl[i]] < fl[i + 1]
  }

  /** No two free blocks touch, except perhaps those in two places. */
  ghost predicate ApartBut(size: map<nat, nat>, fl: seq<nat>, x: int, y: int) {
    forall i: nat :: i + 1 < |fl| && i != x && i != y ==> Gap(size, fl, i)
  }

  lemma {:induction false} Before(size: map<nat, nat>, base: nat, fl: seq<nat>, i: nat, j: nat)
    requires Rising(size, base, fl) && i < j < |fl|
    ensures fl[i] in size && fl[j] in size && fl[i] + size[fl[i]] <= fl[j] && fl[i] < fl[j]
  {
    assert Open(LIST_RISING, 0);
    assert Follows(size, fl, j - 1);
    if i < j - 1 { Before(size, base, fl, i, j - 1); }
  }

  /** Block a holds unit u. */
  ghost predicate Holds(size: map<nat, nat>, a: nat, u: nat) {
    a in size && a <= u < a + size[a]
  }

  ghost predicate TilesParts(size: map<nat, nat>, blocks: set<nat>, cell: map<nat, nat>) {
    && (forall a :: a in blocks ==> a in size && size[a] > 0)
    && (forall u :: u in cell ==> cell[u] in blocks && Holds(size, cell[u], u))
    && (forall a, u: nat :: a in blocks && Holds(size, a, u) ==> u in cell && cell[u] == a)
  }

  /** The blocks partition the units. */
  ghost predicate Tiles(size: map<nat, nat>, blocks: set<nat>, cell: map<nat, nat>) {
    forall n: nat :: Open(UNITS_TILED, n) ==> TilesParts(size, blocks, cell)
  }

  ghost function FreeSet(base: nat, fl: seq<nat>): set<nat> {
    set a | a in fl && a != base
  }

  ghost predicate LiveParts(size: map<nat, nat>, base: nat, fl: seq<nat>, live: map<nat, nat>) {
    forall a :: a in live ==> a in size && size[a] == live[a] && live[a] > 0 && a !in fl && a > base
  }

  /** Live blocks have the size they were asked for, lie above base and are not free. */
  ghost predicate Live(size: map<nat, nat>, base: nat, fl: seq<nat>, live: map<nat, nat>) {
    forall n: nat :: Open(BLOCKS_LIVE, n) ==> LiveParts(size, base, fl, live)
  }

  /** Two different blocks hold different units. */
  lemma Disjoint(size: map<nat, nat>, blocks: set<nat>, cell: map<nat, nat>, a: nat, b: nat)
    requires Tiles(size, blocks, cell) && a in blocks && b in blocks && a < b
    ensures a in size && a + size[a] <= b
  {
    assert Open(UNITS_TILED, 0);
    if a + size[a] > b {
      assert Holds(size, a, b) && Holds(size, b, b);
    }
  }

  /** The last free block below address b. */
  lemma {:induction false} Spot(size: map<nat, nat>, base: nat, fl: seq<nat>, b: nat, n: nat) returns (t: nat)
    requires Rising(size, base, fl) && base < b && 0 < n <= |fl|
    ensures t < n && fl[t] < b && forall i :: t < i < n ==> fl[i] >= b
  {
    if fl[n - 1] < b {
      t := n - 1;
    } else {
      t := Spot(size, base, fl, b, n - 1);
    }
  }

  /** free's test for having found the place of b, at block p with successor next. */
  predicate Stops(p: nat, next: nat, b: nat) {
    (b > p && b < next) || (p >= next && (b > p || b < next))
  }

  /** The test holds at the last free block below b and nowhere else. */
  lemma StopsAtSpot(ptr: map<nat, nat>, size: map<nat, nat>, base: nat, fl: seq<nat>, b: nat, t: nat, i: nat)
    requires Links(ptr, fl) && Rising(size, base, fl) && base < b && b !in fl && Link(ptr, fl, i)
    requires t < |fl| && fl[t] < b && forall j :: t < j < |fl| ==> fl[j] >= b
    ensures Stops(fl[i], ptr[fl[i]], b) <==> i == t
  {
    if i + 1 < |fl| {
      Before(size, base, fl, i, i + 1);
      if i + 1 < t { Before(size, base, fl, i + 1, t); }
    } else if i > 0 {
      Before(size, base, fl, 0, i);
    }
  }

  // ----- Giving a block back -----

  /** A live block between free blocks t and t + 1 overlaps neither. */
  lemma LiveBetween(size: map<nat, nat>, base: nat, fl: seq<nat>, live: map<nat, nat>, cell: map<nat, nat>, b: nat,
                    t: nat)
    requires Rising(size, base, fl) && Tiles(size, FreeSet(base, fl) + live.Keys, cell) && Live(size, base, fl, live)
    requires b in live && t < |fl| && fl[t] < b && (t + 1 < |fl| ==> fl[t + 1] >= b)
    ensures b in size && size[b] == live[b] > 0 && b !in fl && fl[t] in size && fl[t] + size[fl[t]] <= b
    ensures t + 1 < |fl| ==> b + size[b] <= fl[t + 1]
  {
    assert Open(LIST_RISING, 0);
    assert Open(BLOCKS_LIVE, 0);
    if t > 0 {
      Before(size, base, fl, 0, t);
      Disjoint(size, FreeSet(base, fl) + live.Keys, cell, fl[t], b);
    }
    if t + 1 < |fl| {
      Before(size, base, fl, 0, t + 1);
      Disjoint(size, FreeSet(base, fl) + live.Keys, cell, b, fl[t + 1]);
    }
  }

  function InsertAt(fl: seq<nat>, t: nat, b: nat): (fl': seq<nat>)
    requires t < |fl|
    ensures |fl'| == |fl| + 1
    ensures forall i :: 0 <= i < |fl'| ==> fl'[i] == if i <= t then fl[i] else if i == t + 1 then b else fl[i - 1]
  {
    fl[..t + 1] + [b] + fl[t + 1..]
  }

  lemma InsertLinks(ptr: map<nat, nat>, size: map<nat, nat>, base: nat, fl: seq<nat>, b: nat, t: nat)
    requires Links(ptr, fl) && Rising(size, base, fl) && Link(ptr, fl, t) && b !in fl
    ensures Links(ptr[b := ptr[fl[t]]][fl[t] := b], InsertAt(fl, t, b))
  {
    assert Open(LIST_LINKED, 0);
    var ptr', fl' := ptr[b := ptr[fl[t]]][fl[t] := b], InsertAt(fl, t, b);
    forall i: nat | i < |fl'| ensures Link(ptr', fl', i) {
      if i < t {
        Before(size, base, fl, i, t);
        assert Link(ptr, fl, i);
      } else if i > t + 1 {
        Before(size, base, fl, t, i - 1);
        assert Link(ptr, fl, i - 1);
      }
    }
  }

  lemma InsertRising(size: map<nat, nat>, base: nat, fl: seq<nat>, b: nat, t: nat)
    requires Rising(size, base, fl) && t < |fl| && b in size && size[b] > 0
    requires fl[t] in size && fl[t] + size[fl[t]] <= b && fl[t] < b && (t + 1 < |fl| ==> b + size[b] <= fl[t + 1])
    ensures Rising(size, base, InsertAt(fl, t, b))
    ensures ApartBut(size, fl, -1, -1) ==> ApartBut(size, InsertAt(fl, t, b), t, t + 1)
  {
    assert Open(LIST_RISING, 0);
    var fl' := InsertAt(fl, t, b);
    forall i: nat | i + 1 < |fl'| ensures Follows(size, fl', i) {
      if i < t { assert Follows(size, fl, i); } else if i > t + 1 { assert Follows(size, fl, i - 1); }
    }
    if ApartBut(size, fl, -1, -1) {
      forall i: nat | i + 1 < |fl'| && i != t && i != t + 1 ensures Gap(size, fl', i) {
        assert if i < t then Gap(size, fl, i) else Gap(size, fl, i - 1);
      }
    }
  }

  /** A live block becomes a free one: the same blocks, hence the same tiling. */
  lemma InsertBlocks(size: map<nat, nat>, base: nat, fl: seq<nat>, live: map<nat, nat>, b: nat, t: nat)
    requires Live(size, base, fl, live) && b in live && t < |fl|
    ensures FreeSet(base, InsertAt(fl, t, b)) + (live - {b}).Keys == FreeSet(base, fl) + live.Keys
    ensures Live(size, base, InsertAt(fl, t, b), live - {b})
  {
    assert Open(BLOCKS_LIVE, 0);
    assert forall a :: a in InsertAt(fl, t, b) <==> a in fl || a == b by {
      assert fl == fl[..t + 1] + fl[t + 1..];
    }
  }

  // ----- Joining two blocks that touch -----

  function RemoveAt(fl: seq<nat>, i: nat): (fl': seq<nat>)
    requires i < |fl|
    ensures |fl'| == |fl| - 1 && forall j :: 0 <= j < |fl'| ==> fl'[j] == if j < i then fl[j] else fl[j + 1]
  {
    fl[..i] + fl[i + 1..]
  }

  /** p->s.ptr = p->s.ptr->s.ptr takes the next block off the list. */
  lemma RemoveLinks(ptr: map<nat, nat>, size: map<nat, nat>, base: nat, fl: seq<nat>, i: nat)
    requires Links(ptr, fl) && Rising(size, base, fl) && i + 1 < |fl| && Link(ptr, fl, i) && Link(ptr, fl, i + 1)
    ensures Links(ptr[fl[i] := ptr[fl[i + 1]]], RemoveAt(fl, i + 1))
  {
    assert Open(LIST_LINKED, 0);
    var ptr', fl' := ptr[fl[i] := ptr[fl[i + 1]]], RemoveAt(fl, i + 1);
    forall j: nat | j < |fl'| ensures Link(ptr', fl', j) {
      if j < i {
        Before(size, base, fl, j, i);
        assert Link(ptr, fl, j);
      } else if j > i {
        Before(size, base, fl, i, j + 1);
        assert Link(ptr, fl, j + 1);
      }
    }
  }

  /** Block i of the list grows over block i + 1. */
  lemma JoinRising(size: map<nat, nat>, base: nat, fl: seq<nat>, i: nat)
    requires Rising(size, base, fl) && 0 < i && i + 1 < |fl| && fl[i] in size && fl[i + 1] in size
    requires fl[i] + size[fl[i]] == fl[i + 1]
    ensures var size', fl' := size[fl[i] := size[fl[i]] + size[fl[i + 1]]], RemoveAt(fl, i + 1);
            && Rising(size', base, fl')
            && (forall j: nat :: j + 1 < |fl'| && j < i && Gap(size, fl, j) ==> Gap(size', fl', j))
            && (forall j: nat :: j + 1 < |fl'| && j >= i && Gap(size, fl, j + 1) ==> Gap(size', fl', j))
  {
    assert Open(LIST_RISING, 0);
    var size', fl' := size[fl[i] := size[fl[i]] + size[fl[i + 1]]], RemoveAt(fl, i + 1);
    Before(size, base, fl, 0, i);
    forall j: nat | j < |fl'| && j != i ensures fl'[j] != fl[i] {
      if j < i { Before(size, base, fl, j, i); } else { Before(size, base, fl, i, j + 1); }
    }
    forall j: nat | j + 1 < |fl'| ensures Follows(size', fl', j) {
      if j < i { assert Follows(size, fl, j); } else { assert Follows(size, fl, j + 1); }
    }
  }

  lemma JoinApart(size: map<nat, nat>, base: nat, fl: seq<nat>, i: nat, x: int)
    requires Rising(size, base, fl) && 0 < i && i + 1 < |fl| && fl[i] in size && fl[i + 1] in size
    requires fl[i] + size[fl[i]] == fl[i + 1]
    requires ApartBut(size, fl, x, i) && x < i
    ensures ApartBut(size[fl[i] := size[fl[i]] + size[fl[i + 1]]], RemoveAt(fl, i + 1), x, -1)
  {
    JoinRising(size, base, fl, i);
    var size', fl' := size[fl[i] := size[fl[i]] + size[fl[i + 1]]], RemoveAt(fl, i + 1);
    forall j: nat | j + 1 < |fl'| && j != x ensures Gap(size', fl', j) {
      assert if j < i then Gap(size, fl, j) else Gap(size, fl, j + 1);
    }
  }

  /** The units of block c now belong to block a. */
  ghost function Relabel(cell: map<nat, nat>, c: nat, a: nat): (cell': map<nat, nat>)
    ensures cell'.Keys == cell.Keys
  {
    map u | u in cell :: if cell[u] == c then a else cell[u]
  }

  lemma JoinTiles(size: map<nat, nat>, blocks: set<nat>, cell: map<nat, nat>, a: nat, c: nat)
    requires Tiles(size, blocks, cell) && a in blocks && c in blocks && a in size && c in size && a + size[a] == c
    ensures Tiles(size[a := size[a] + size[c]], blocks - {c}, Relabel(cell, c, a))
  {
    assert Open(UNITS_TILED, 0);
    var size', cell' := size[a := size[a] + size[c]], Relabel(cell, c, a);
    forall x, u: nat | x in blocks - {c} && Holds(size', x, u) ensures u in cell' && cell'[u] == x {
      if x == a && u >= c { assert Holds(size, c, u); } else { assert Holds(size, x, u); }
    }
    forall u | u in cell' ensures cell'[u] in blocks - {c} && Holds(size', cell'[u], u) {
      assert Holds(size, cell[u], u);
    }
  }

  lemma JoinBlocks(size: map<nat, nat>, base: nat, fl: seq<nat>, live: map<nat, nat>, i: nat, n: nat)
    requires Rising(size, base, fl) && Live(size, base, fl, live) && i + 1 < |fl|
    ensures FreeSet(base, RemoveAt(fl, i + 1)) + live.Keys == FreeSet(base, fl) + live.Keys - {fl[i + 1]}
    ensures Live(size[fl[i] := n], base, RemoveAt(fl, i + 1), live)
  {
    assert Open(BLOCKS_LIVE, 0);
    RemoveMembers(size, base, fl, i + 1);
  }

  lemma RemoveMembers(size: map<nat, nat>, base: nat, fl: seq<nat>, i: nat)
    requires Rising(size, base, fl) && i < |fl|
    ensures forall a :: a in RemoveAt(fl, i) <==> a in fl && a != fl[i]
  {
    forall j: nat | j < |fl| && j != i ensures fl[j] != fl[i] {
      if j < i { Before(size, base, fl, j, i); } else { Before(size, base, fl, i, j); }
    }
    var fl' := RemoveAt(fl, i);
    forall a | a in fl && a != fl[i] ensures a in fl' {
      var j :| 0 <= j < |fl| && fl[j] == a;
      assert fl'[if j < i then j else j - 1] == a;
    }
  }

  // ----- The whole invariant, and what each change does to it -----

  ghost predicate Good(ptr: map<nat, nat>, size: map<nat, nat>, base: nat, fl: seq<nat>, live: map<nat, nat>,
                       cell: map<nat, nat>) {
    && Links(ptr, fl) && Rising(size, base, fl) && Live(size, base, fl, live)
    && Tiles(size, FreeSet(base, fl) + live.Keys, cell)
  }

  ghost predicate Apart(size: map<nat, nat>, fl: seq<nat>) {
    ApartBut(size, fl, -1, -1)
  }

  /** All of it, with no two free blocks touching. */
  ghost predicate Sane(ptr: map<nat, nat>, size: map<nat, nat>, base: nat, fl: seq<nat>, live: map<nat, nat>,
                       cell: map<nat, nat>) {
    forall n: nat :: Open(LIST_SANE, n) ==> Good(ptr, size, base, fl, live, cell) && Apart(size, fl)
  }

  /** The same, except that blocks t and t + 1 may touch. */
  ghost predicate Joining(ptr: map<nat, nat>, size: map<nat, nat>, base: nat, fl: seq<nat>, live: map<nat, nat>,
                          cell: map<nat, nat>, t: nat) {
    forall n: nat :: Open(LIST_JOINING, n) ==> Good(ptr, size, base, fl, live, cell) && ApartBut(size, fl, t, -1)
  }

  /** bp->s.ptr = p->s.ptr; p->s.ptr = bp */
  lemma Inserted(ptr: map<nat, nat>, size: map<nat, nat>, base: nat, fl: seq<nat>, live: map<nat, nat>, cell: map<nat,
                 nat>, b: nat, t: nat)
    requires Good(ptr, size, base, fl, live, cell) && Apart(size, fl) && b in live && Link(ptr, fl, t)
    requires fl[t] < b && (t + 1 < |fl| ==> fl[t + 1] >= b)
    ensures Good(ptr[b := ptr[fl[t]]][fl[t] := b], size, base, InsertAt(fl, t, b), live - {b}, cell)
    ensures ApartBut(size, InsertAt(fl, t, b), t, t + 1)
    ensures b in size && b !in fl
  {
    LiveBetween(size, base, fl, live, cell, b, t);
    InsertLinks(ptr, size, base, fl, b, t);
    InsertRising(size, base, fl, b, t);
    InsertBlocks(size, base, fl, live, b, t);
  }

  /** p->s.size += p->s.ptr->s.size; p->s.ptr = p->s.ptr->s.ptr */
  lemma Coalesced(ptr: map<nat, nat>, size: map<nat, nat>, base: nat, fl: seq<nat>, live: map<nat, nat>, cell: map<nat,
                  nat>, i: nat)
    requires Good(ptr, size, base, fl, live, cell) && 0 < i && i + 1 < |fl| && Link(ptr, fl, i) && Link(ptr, fl, i + 1)
    requires fl[i] in size && fl[i + 1] in size && fl[i] + size[fl[i]] == fl[i + 1]
    ensures Good(ptr[fl[i] := ptr[fl[i + 1]]], size[fl[i] := size[fl[i]] + size[fl[i + 1]]], base, RemoveAt(fl, i + 1),
            live, Relabel(cell, fl[i + 1], fl[i]))
  {
    Before(size, base, fl, 0, i);
    Before(size, base, fl, 0, i + 1);
    var n := size[fl[i]] + size[fl[i + 1]];
    RemoveLinks(ptr, size, base, fl, i);
    JoinRising(size, base, fl, i);
    JoinTiles(size, FreeSet(base, fl) + live.Keys, cell, fl[i], fl[i + 1]);
    JoinBlocks(size, base, fl, live, i, n);
  }

  /** The first half of free, seen as if p->s.ptr already pointed to b: b joins the list after block t,
      and absorbs the block above if they touch. */
  lemma JoinedUp(ptr: map<nat, nat>, size: map<nat, nat>, base: nat, fl: seq<nat>, live: map<nat, nat>, cell: map<nat,
                 nat>, b: nat, t: nat)
    returns (fl2: seq<nat>, cell2: map<nat, nat>)
    requires Sane(ptr, size, base, fl, live, cell) && b in live && t < |fl| && fl[t] < b
    requires (t + 1 < |fl| ==> fl[t + 1] >= b)
    ensures fl[t] in ptr && fl[t] in size && b in size && size[b] == live[b]
    ensures var next := ptr[fl[t]];
            && next in size && next in ptr
            && if b + size[b] == next
               then Joining(ptr[b := ptr[next]][fl[t] := b], size[b := size[b] + size[next]], base, fl2, live - {b},
                   cell2, t)
               else Joining(ptr[b := next][fl[t] := b], size, base, fl2, live - {b}, cell2, t)
    ensures t + 1 < |fl2| && fl2[t] == fl[t] && fl2[t + 1] == b && cell2.Keys == cell.Keys
  {
    assert Open(LIST_LINKED, 0);
    assert Open(LIST_SANE, 0);
    assert Link(ptr, fl, t);
    var next := ptr[fl[t]];
    LiveBetween(size, base, fl, live, cell, b, t);
    Inserted(ptr, size, base, fl, live, cell, b, t);
    NextFacts(ptr, size, base, fl, t);
    fl2, cell2 := InsertAt(fl, t, b), cell;
    if b + size[b] == next {
      AbsorbNext(ptr, size, base, fl2, live - {b}, cell, b, t, next);
      fl2, cell2 := RemoveAt(fl2, t + 2), Relabel(cell, next, b);
    } else if t + 1 < |fl| {
      assert Gap(size, fl2, t + 1);
    }
  }

  lemma NextFacts(ptr: map<nat, nat>, size: map<nat, nat>, base: nat, fl: seq<nat>, t: nat)
    requires Links(ptr, fl) && Rising(size, base, fl) && Link(ptr, fl, t)
    ensures var next := ptr[fl[t]];
            next in size && next in ptr && fl[t] in size && if t + 1 < |fl| then next == fl[t + 1]
                && fl[t] < next else next == base <= fl[t]
  {
    assert Open(LIST_RISING, 0) && Open(LIST_LINKED, 0);
    if t > 0 { Before(size, base, fl, 0, t); }
    if t + 1 < |fl| { Before(size, base, fl, t, t + 1); }
    assert Link(ptr, fl, Next(fl, t));
  }

  lemma AbsorbNext(ptr: map<nat, nat>, size: map<nat, nat>, base: nat, fl1: seq<nat>, live: map<nat, nat>,
                   cell: map<nat, nat>,
                   b: nat, t: nat, next: nat)
    requires t + 2 < |fl1| && fl1[t + 1] == b && fl1[t + 2] == next && b in size && next in size && next in ptr
    requires b + size[b] == next
    requires fl1[t] != b && fl1[t] != next && b != next
    requires Good(ptr[b := next][fl1[t] := b], size, base, fl1, live, cell) && ApartBut(size, fl1, t, t + 1)
    ensures Good(ptr[b := ptr[next]][fl1[t] := b], size[b := size[b] + size[next]], base, RemoveAt(fl1, t + 2), live,
            Relabel(cell, next, b))
    ensures ApartBut(size[b := size[b] + size[next]], RemoveAt(fl1, t + 2), t, -1)
  {
    assert Open(LIST_LINKED, 0);
    var ptr1 := ptr[b := next][fl1[t] := b];
    assert Link(ptr1, fl1, t + 1) && Link(ptr1, fl1, t + 2);
    Coalesced(ptr1, size, base, fl1, live, cell, t + 1);
    JoinApart(size, base, fl1, t + 1, t);
    assert ptr[b := ptr[next]][fl1[t] := b] == ptr1[b := ptr1[next]];
  }

  /** The second half: block t absorbs b above it if they touch, and otherwise points to it. */
  lemma JoinedDown(ptr: map<nat, nat>, size: map<nat, nat>, base: nat, fl: seq<nat>, live: map<nat, nat>, cell: map<nat,
                   nat>, t: nat)
    returns (fl2: seq<nat>, cell2: map<nat, nat>)
    requires t + 1 < |fl| && Joining(ptr[fl[t] := fl[t + 1]], size, base, fl, live, cell, t)
    ensures var p, b := fl[t], fl[t + 1];
            && p in size && b in size && b in ptr
            && if p + size[p] == b
               then Sane(ptr[p := ptr[b]], size[p := size[p] + size[b]], base, fl2, live, cell2)
               else Sane(ptr[p := b], size, base, fl2, live, cell2) && fl2 == fl
    ensures t < |fl2| && fl2[t] == fl[t] && cell2.Keys == cell.Keys
  {
    assert Open(LIST_LINKED, 0);
    assert Open(LIST_JOINING, 0);
    var p, b := fl[t], fl[t + 1];
    var ptr1 := ptr[p := b];
    Before(size, base, fl, t, t + 1);
    Before(size, base, fl, 0, t + 1);
    assert Link(ptr1, fl, t) && Link(ptr1, fl, t + 1);
    fl2, cell2 := fl, cell;
    if p + size[p] == b {
      assert t > 0;
      Coalesced(ptr1, size, base, fl, live, cell, t);
      JoinApart(size, base, fl, t, -1);
      assert ptr[p := ptr[b]] == ptr1[p := ptr1[b]];
      fl2, cell2 := RemoveAt(fl, t + 1), Relabel(cell, b, p);
    } else {
      assert Gap(size, fl, t);
    }
  }

  lemma RemoveRising(size: map<nat, nat>, base: nat, fl: seq<nat>, i: nat)
    requires Rising(size, base, fl) && Apart(size, fl) && 0 < i < |fl|
    ensures Rising(size, base, RemoveAt(fl, i)) && Apart(size, RemoveAt(fl, i))
  {
    assert Open(LIST_RISING, 0);
    var fl' := RemoveAt(fl, i);
    forall j: nat | j + 1 < |fl'| ensures Follows(size, fl', j) && Gap(size, fl', j) {
      var k := if j < i then j else j + 1;
      assert Gap(size, fl, k) && Follows(size, fl, k);
      if j + 1 == i { assert Follows(size, fl, i); }
    }
  }

  lemma RemoveLive(size: map<nat, nat>, base: nat, fl: seq<nat>, live: map<nat, nat>, i: nat)
    requires Rising(size, base, fl) && Live(size, base, fl, live) && 0 < i < |fl|
    ensures fl[i] in size && fl[i] !in live && Live(size, base, RemoveAt(fl, i), live[fl[i] := size[fl[i]]])
    ensures FreeSet(base, RemoveAt(fl, i)) + live[fl[i] := size[fl[i]]].Keys == FreeSet(base, fl) + live.Keys
  {
    assert Open(BLOCKS_LIVE, 0) && Open(LIST_RISING, 0);
    Before(size, base, fl, 0, i);
    RemoveMembers(size, base, fl, i);
  }

  /** prevp->s.ptr = p->s.ptr hands out a whole free block. */
  lemma TakenWhole(ptr: map<nat, nat>, size: map<nat, nat>, base: nat, fl: seq<nat>, live: map<nat, nat>, cell: map<nat,
                   nat>, i: nat)
    requires Sane(ptr, size, base, fl, live, cell) && i + 1 < |fl|
    ensures Link(ptr, fl, i) && Link(ptr, fl, i + 1) && fl[i + 1] in size && fl[i + 1] !in live
    ensures Sane(ptr[fl[i] := ptr[fl[i + 1]]], size, base, RemoveAt(fl, i + 1), live[fl[i + 1] := size[fl[i + 1]]],
            cell)
  {
    assert Open(LIST_SANE, 0);
    assert Link(ptr, fl, i) && Link(ptr, fl, i + 1) by { assert Open(LIST_LINKED, 0); }
    RemoveLinks(ptr, size, base, fl, i);
    RemoveRising(size, base, fl, i + 1);
    RemoveLive(size, base, fl, live, i + 1);
  }

  /** The units of block p from q on now belong to block q. */
  ghost function CutAt(cell: map<nat, nat>, p: nat, q: nat): (cell': map<nat, nat>)
    ensures cell'.Keys == cell.Keys
  {
    map u | u in cell :: if cell[u] == p && u >= q then q else cell[u]
  }

  lemma CutTiles(size: map<nat, nat>, blocks: set<nat>, cell: map<nat, nat>, p: nat, n: nat)
    requires Tiles(size, blocks, cell) && p in blocks && p in size && 0 < n < size[p]
    ensures var q := p + size[p] - n;
            q !in blocks && Tiles(size[p := size[p] - n][q := n], blocks + {q}, CutAt(cell, p, q))
  {
    assert Open(UNITS_TILED, 0);
    var q := p + size[p] - n;
    var size', cell' := size[p := size[p] - n][q := n], CutAt(cell, p, q);
    assert Holds(size, p, q);
    assert q !in blocks by { if q in blocks { assert Holds(size, q, q); } }
    forall x, u: nat | x in blocks + {q} && Holds(size', x, u) ensures u in cell' && cell'[u] == x {
      if x == q || x == p { assert Holds(size, p, u); } else { assert Holds(size, x, u); }
    }
    forall u | u in cell' ensures cell'[u] in blocks + {q} && Holds(size', cell'[u], u) {
      assert Holds(size, cell[u], u);
    }
  }

  lemma TailRising(size: map<nat, nat>, base: nat, fl: seq<nat>, i: nat, n: nat, q: nat, size': map<nat, nat>)
    requires Rising(size, base, fl) && Apart(size, fl) && 0 < i < |fl| && fl[i] in size && 0 < n < size[fl[i]]
    requires q == fl[i] + size[fl[i]] - n && size' == size[fl[i] := size[fl[i]] - n][q := n]
    ensures Rising(size', base, fl) && Apart(size', fl) && q !in fl && base < fl[i]
  {
    assert Open(LIST_RISING, 0);
    Before(size, base, fl, 0, i);
    forall j: nat | j < |fl| && j != i ensures fl[j] != fl[i] && fl[j] != q {
      if j < i { Before(size, base, fl, j, i); } else { Before(size, base, fl, i, j); }
    }
    forall j: nat | j + 1 < |fl| ensures Follows(size', fl, j) && Gap(size', fl, j) {
      assert Follows(size, fl, j) && Gap(size, fl, j);
    }
  }

  lemma TailLive(size: map<nat, nat>, base: nat, fl: seq<nat>, live: map<nat, nat>, p: nat, n: nat, q: nat,
                 size': map<nat, nat>)
    requires Live(size, base, fl, live) && p in fl && p in size && 0 < n < size[p] && base <= p
    requires q == p + size[p] - n && size' == size[p := size[p] - n][q := n] && q !in live && q !in fl
    ensures Live(size', base, fl, live[q := n])
  {
    assert Open(BLOCKS_LIVE, 0);
  }

  /** p->s.size -= nunits; p += p->s.size; p->s.size = nunits hands out the tail q of a free block. */
  lemma TakenTail(ptr: map<nat, nat>, size: map<nat, nat>, base: nat, fl: seq<nat>, live: map<nat, nat>, cell: map<nat,
                  nat>,
                  i: nat, n: nat, q: nat, size': map<nat, nat>)
    requires Good(ptr, size, base, fl, live, cell) && Apart(size, fl) && 0 < i < |fl| && fl[i] in size
    requires 0 < n < size[fl[i]]
    requires q == fl[i] + size[fl[i]] - n && size' == size[fl[i] := size[fl[i]] - n][q := n]
    ensures Sane(ptr, size', base, fl, live[q := n], CutAt(cell, fl[i], q)) && q !in live
  {
    TailRising(size, base, fl, i, n, q, size');
    CutTiles(size, FreeSet(base, fl) + live.Keys, cell, fl[i], n);
    TailLive(size, base, fl, live, fl[i], n, q, size');
    assert FreeSet(base, fl) + live[q := n].Keys == FreeSet(base, fl) + live.Keys + {q};
    assert Good(ptr, size', base, fl, live[q := n], CutAt(cell, fl[i], q));
  }

  /** Units that nobody had, as one new block. */
  ghost function Fresh(cell: map<nat, nat>, b: nat, n: nat): (cell': map<nat, nat>)
    ensures forall u: nat :: u in cell' <==> u in cell || b <= u < b + n
    ensures forall u: nat :: u in cell' ==> cell'[u] == if b <= u < b + n then b else cell[u]
  {
    if n == 0 then cell else Fresh(cell, b, n - 1)[b + n - 1 := b]
  }

  lemma FreshTiles(size: map<nat, nat>, blocks: set<nat>, cell: map<nat, nat>, b: nat, n: nat)
    requires Tiles(size, blocks, cell) && 0 < n && forall u :: u in cell ==> u < b
    ensures b !in blocks && Tiles(size[b := n], blocks + {b}, Fresh(cell, b, n))
  {
    assert Open(UNITS_TILED, 0);
    assert b !in blocks by { if b in blocks { assert Holds(size, b, b); } }
    var size', cell' := size[b := n], Fresh(cell, b, n);
    forall x, u: nat | x in blocks + {b} && Holds(size', x, u) ensures u in cell' && cell'[u] == x {
      if x != b { assert Holds(size, x, u); }
    }
    forall u | u in cell' ensures Holds(size', cell'[u], u) && cell'[u] in blocks + {b} {
      if u in cell { assert Holds(size, cell[u], u); }
    }
  }

  lemma FreshApart(size: map<nat, nat>, base: nat, fl: seq<nat>, b: nat, n: nat)
    requires Rising(size, base, fl) && Apart(size, fl) && base < b && b !in fl
    ensures Rising(size[b := n], base, fl) && Apart(size[b := n], fl)
  {
    assert Open(LIST_RISING, 0);
    var size' := size[b := n];
    forall j: nat | j + 1 < |fl| ensures Follows(size', fl, j) && Gap(size', fl, j) {
      assert Follows(size, fl, j) && Gap(size, fl, j);
    }
  }

  /** A region above everything seen so far, as a block that is not on the list. */
  lemma FreshBlock(ptr: map<nat, nat>, size: map<nat, nat>, base: nat, fl: seq<nat>, live: map<nat, nat>, cell: map<nat,
                   nat>, b: nat, n: nat)
    requires Good(ptr, size, base, fl, live, cell) && Apart(size, fl) && base < b && 0 < n
    requires forall u :: u in cell ==> u < b
    ensures Good(ptr, size[b := n], base, fl, live[b := n], Fresh(cell, b, n)) && Apart(size[b := n], fl) && b !in live
    ensures b !in fl
  {
    FreshTiles(size, FreeSet(base, fl) + live.Keys, cell, b, n);
    FreshApart(size, base, fl, b, n);
    assert Live(size[b := n], base, fl, live[b := n]) by { assert Open(BLOCKS_LIVE, 0); }
    assert FreeSet(base, fl) + live[b := n].Keys == FreeSet(base, fl) + live.Keys + {b};
  }

  // ----- Looking for a block -----

  ghost predicate HasBig(size: map<nat, nat>, fl: seq<nat>, n: nat) {
    exists a :: a in fl && a in size && size[a] >= n
  }

  /** Strictly between f and i, going round the list. */
  ghost predicate Between(f: nat, x: nat, i: nat) {
    if f < i then f < x < i else x > f || x < i
  }

  /** The blocks strictly between f and i are too small. */
  ghost predicate Searched(size: map<nat, nat>, fl: seq<nat>, f: nat, i: nat, n: nat) {
    forall k: nat :: Open(LIST_SEARCHED, k) ==>
      forall x: nat :: x < |fl| && Between(f, x, i) && fl[x] in size ==> size[fl[x]] < n
  }

  /** b is the end of the first block after freep that has room for n units. */
  ghost predicate FirstFit(size: map<nat, nat>, fl: seq<nat>, freep: nat, n: nat, b: int) {
    exists f: nat, i: nat :: && f < |fl| && i < |fl| && fl[f] == freep && Searched(size, fl, f, i, n)
                             && fl[i] in size && size[fl[i]] >= n && b == fl[i] + size[fl[i]] - n
  }

  lemma FitsHere(size: map<nat, nat>, fl: seq<nat>, f: nat, i: nat, n: nat)
    requires f < |fl| && i < |fl| && Searched(size, fl, f, i, n) && fl[i] in size && size[fl[i]] >= n
    ensures FirstFit(size, fl, fl[f], n, fl[i] + size[fl[i]] - n)
  {
  }

  lemma SearchedNone(size: map<nat, nat>, fl: seq<nat>, f: nat, n: nat)
    requires f < |fl|
    ensures Searched(size, fl, f, Next(fl, f), n)
  {
  }

  lemma SearchedMore(size: map<nat, nat>, fl: seq<nat>, f: nat, i: nat, n: nat)
    requires f < |fl| && i < |fl| && i != f && Searched(size, fl, f, i, n) && (fl[i] in size ==> size[fl[i]] < n)
    ensures Searched(size, fl, f, Next(fl, i), n)
  {
    assert Open(LIST_SEARCHED, 0);
    forall x: nat | x < |fl| && Between(f, x, Next(fl, i)) && fl[x] in size ensures size[fl[x]] < n {
      assert x == i || Between(f, x, i);
    }
  }

  lemma SearchedAll(size: map<nat, nat>, fl: seq<nat>, f: nat, n: nat)
    requires f < |fl| && Searched(size, fl, f, f, n) && (fl[f] in size ==> size[fl[f]] < n)
    ensures !HasBig(size, fl, n)
  {
    assert Open(LIST_SEARCHED, 0);
    forall a | a in fl && a in size ensures size[a] < n {
      var x :| 0 <= x < |fl| && fl[x] == a;
      assert x == f || Between(f, x, f);
    }
  }

  lemma SameIndex(size: map<nat, nat>, base: nat, fl: seq<nat>, i: nat, j: nat)
    requires Rising(size, base, fl) && i < |fl| && j < |fl| && fl[i] == fl[j]
    ensures i == j
  {
    if i < j { Before(size, base, fl, i, j); } else if j < i { Before(size, base, fl, j, i); }
  }

  // ----- The list is determined by which units are free -----

  ghost predicate FreeUnit(size: map<nat, nat>, fl: seq<nat>, u: nat) {
    exists k: nat :: 0 < k < |fl| && Holds(size, fl[k], u)
  }

  ghost predicate LiveUnit(live: map<nat, nat>, u: nat) {
    exists a :: a in live && a <= u < a + live[a]
  }

  /** A unit is in a free block exactly if it was obtained and is in no live block. */
  lemma FreeOrLive(ptr: map<nat, nat>, size: map<nat, nat>, base: nat, fl: seq<nat>, live: map<nat, nat>, cell: map<nat,
                   nat>, u: nat)
    requires Good(ptr, size, base, fl, live, cell)
    ensures FreeUnit(size, fl, u) <==> u in cell && !LiveUnit(live, u)
  {
    assert Open(UNITS_TILED, 0) && Open(BLOCKS_LIVE, 0);
    if u in cell && !LiveUnit(live, u) {
      var a := cell[u];
      assert Holds(size, a, u);
      var k :| 0 <= k < |fl| && fl[k] == a;
      assert Holds(size, fl[k], u);
    }
    if FreeUnit(size, fl, u) {
      var k: nat :| 0 < k < |fl| && Holds(size, fl[k], u);
      Before(size, base, fl, 0, k);
      assert fl[k] in FreeSet(base, fl) + live.Keys;
      forall a | a in live ensures !Holds(size, a, u) {
        assert a in FreeSet(base, fl) + live.Keys && a != fl[k];
      }
    }
  }

  /** Both lists agree up to block i. */
  ghost predicate SameUpTo(size1: map<nat, nat>, fl1: seq<nat>, size2: map<nat, nat>, fl2: seq<nat>, i: nat) {
    i < |fl1| && i < |fl2| && forall j :: 0 <= j <= i ==>
      fl1[j] == fl2[j] && (fl1[j] in size1 && fl1[j] in size2 ==> size1[fl1[j]] == size2[fl1[j]])
  }

  lemma NextNotAfter(size1: map<nat, nat>, fl1: seq<nat>, size2: map<nat, nat>, fl2: seq<nat>, base: nat, i: nat)
    requires Rising(size1, base, fl1) && Rising(size2, base, fl2) && SameUpTo(size1, fl1, size2, fl2, i)
    requires i + 1 < |fl1|
    requires forall u: nat :: FreeUnit(size1, fl1, u) ==> FreeUnit(size2, fl2, u)
    ensures i + 1 < |fl2| && fl2[i + 1] <= fl1[i + 1]
  {
    assert Open(LIST_RISING, 0);
    var a := fl1[i + 1];
    assert Holds(size1, fl1[i + 1], a);
    assert FreeUnit(size2, fl2, a);
    var k: nat :| 0 < k < |fl2| && Holds(size2, fl2[k], a);
    if k <= i {
      Before(size1, base, fl1, k, i + 1);
    } else if i + 1 < k {
      Before(size2, base, fl2, i + 1, k);
    }
  }

  lemma NotLonger(size1: map<nat, nat>, fl1: seq<nat>, size2: map<nat, nat>, fl2: seq<nat>, base: nat, i: nat)
    requires Rising(size1, base, fl1) && Rising(size2, base, fl2) && Apart(size1, fl1)
    requires 0 < i < |fl1| && i < |fl2| && fl1[i] == fl2[i] && fl1[i] in size1 && fl1[i] in size2
    requires forall u: nat :: FreeUnit(size2, fl2, u) ==> FreeUnit(size1, fl1, u)
    ensures size2[fl1[i]] <= size1[fl1[i]]
  {
    assert Open(LIST_RISING, 0);
    var e := fl1[i] + size1[fl1[i]];
    if size2[fl1[i]] > size1[fl1[i]] {
      assert Holds(size2, fl2[i], e);
      assert FreeUnit(size1, fl1, e);
      var k: nat :| 0 < k < |fl1| && Holds(size1, fl1[k], e);
      if k < i {
        Before(size1, base, fl1, k, i);
      } else if k > i {
        assert Gap(size1, fl1, i);
        if i + 1 < k { Before(size1, base, fl1, i + 1, k); }
      }
    }
  }

  lemma {:induction false} SamePrefix(size1: map<nat, nat>, fl1: seq<nat>, size2: map<nat, nat>, fl2: seq<nat>,
                                      base: nat, i: nat)
    requires Rising(size1, base, fl1) && Rising(size2, base, fl2) && Apart(size1, fl1) && Apart(size2, fl2)
    requires forall u: nat :: FreeUnit(size1, fl1, u) <==> FreeUnit(size2, fl2, u)
    requires i < |fl1|
    ensures SameUpTo(size1, fl1, size2, fl2, i)
  {
    assert Open(LIST_RISING, 0);
    if i > 0 {
      SamePrefix(size1, fl1, size2, fl2, base, i - 1);
      NextNotAfter(size1, fl1, size2, fl2, base, i - 1);
      assert SameUpTo(size2, fl2, size1, fl1, i - 1);
      NextNotAfter(size2, fl2, size1, fl1, base, i - 1);
      NotLonger(size1, fl1, size2, fl2, base, i);
      NotLonger(size2, fl2, size1, fl1, base, i);
    }
  }

  /** Whatever the order of the calls that led there, the same units obtained and the same blocks live
      mean the same free list with the same sizes. */
  lemma Canonical(ptr1: map<nat, nat>, size1: map<nat, nat>, fl1: seq<nat>, cell1: map<nat, nat>,
                  ptr2: map<nat, nat>, size2: map<nat, nat>, fl2: seq<nat>, cell2: map<nat, nat>, base: nat,
                  live: map<nat, nat>)
    requires Good(ptr1, size1, base, fl1, live, cell1) && Apart(size1, fl1)
    requires Good(ptr2, size2, base, fl2, live, cell2) && Apart(size2, fl2) && cell1.Keys == cell2.Keys
    ensures fl1 == fl2 && forall a :: a in fl1 ==> a in size1 && a in size2 && size1[a] == size2[a]
  {
    assert Open(LIST_RISING, 0);
    forall u: nat ensures FreeUnit(size1, fl1, u) <==> FreeUnit(size2, fl2, u) {
      FreeOrLive(ptr1, size1, base, fl1, live, cell1, u);
      FreeOrLive(ptr2, size2, base, fl2, live, cell2, u);
    }
    SamePrefix(size1, fl1, size2, fl2, base, |fl1| - 1);
    SamePrefix(size2, fl2, size1, fl1, base, |fl2| - 1);
  }
}
