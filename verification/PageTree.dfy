/**
 The three-level page tables of kernel/vm.c (Sv39, section 4.4 of the RISC-V Privileged
 Architecture, version 20211203) as values: physical pages, the pages reached from a root, who owns
 each page, and the flat map from virtual page to page-table entry that a tree stands for.
 */
module PageTree {
  import opened Folding
  import opened Params

  const NPTE := 512
  const PGSIZE := 4096
  const LEAF := 3        // depth of the mapped pages; tables are at depths 0, 1 and 2
  const NVPN := 0x800_0000

  type PageBytes = b: seq<byte> | |b| == PGSIZE witness seq(PGSIZE, _ => 0)

  /** The low ten bits of an entry; rest stands for the five that the kernel ignores. */
  datatype Flags = Flags(v: bool, r: bool, w: bool, x: bool, u: bool, rest: nat)

  datatype Pte = Pte(ppn: nat, flags: Flags)

  const NOFLAGS := Flags(false, false, false, false, false, 0)
  const VALIDONLY := NOFLAGS.(v := true)
  const NONE := Pte(0, NOFLAGS)

  type Ptes = t: seq<Pte> | |t| == NPTE witness seq(NPTE, _ => NONE)

  /** What a physical page holds: a link of the free list, a page table or plain bytes. */
  datatype Page = Run(next: nat) | Table(ptes: Ptes) | Data(bytes: PageBytes)

  const EMPTY: Page := Table(seq(NPTE, _ => NONE))

  function Entry(mem: seq<Page>, p: nat, i: nat): Pte
    requires i < NPTE
  {
    if p < |mem| && mem[p].Table? then mem[p].ptes[i] else NONE
  }

  function Child(mem: seq<Page>, p: nat, i: nat): nat
    requires i < NPTE
  {
    if Entry(mem, p, i).flags.v then Entry(mem, p, i).ppn else 0
  }

  /** How many nodes a tree has room for at depth d. */
  function Span(d: nat): nat {
    if d == 0 then 1 else if d == 1 then NPTE else if d == 2 then NPTE * NPTE else NVPN
  }

  /** A place in the tree under a root: the k-th at depth d, the root itself being at depth 0. */
  datatype Node = Node(root: nat, d: nat, k: nat)

  predicate IsNode(n: Node, roots: set<nat>) {
    n.root in roots && n.d <= LEAF && n.k < Span(n.d)
  }

  function Up(n: Node): Node
    requires n.d > 0
  {
    Node(n.root, n.d - 1, n.k / NPTE)
  }

  /** The node below entry i of a node's table. */
  function Below(n: Node, i: nat): Node {
    Node(n.root, n.d + 1, n.k * NPTE + i)
  }

  lemma UpBelow(n: Node, i: nat, m: Node)
    requires i < NPTE && m.d > 0
    ensures m == Below(n, i) <==> Up(m) == n && m.k % NPTE == i
  {
  }

  lemma BelowIsNode(roots: set<nat>, n: Node, i: nat)
    requires IsNode(n, roots) && n.d < LEAF && i < NPTE
    ensures IsNode(Below(n, i), roots)
  {
  }

  lemma UpIsNode(roots: set<nat>, n: Node)
    requires IsNode(n, roots) && n.d > 0
    ensures IsNode(Up(n), roots)
  {
  }

  /** The page at a node, 0 if there is none. */
  function PageOf(mem: seq<Page>, n: Node): nat
    decreases n.d
  {
    if n.d == 0 then n.root
    else if PageOf(mem, Up(n)) == 0 then 0 else Child(mem, PageOf(mem, Up(n)), n.k % NPTE)
  }

  /** The node at depth d on the way to virtual page v. */
  function Path(r: nat, v: nat, d: nat): Node
    requires d <= LEAF
  {
    Node(r, d, v / Span(LEAF - d))
  }

  /** PX(level, va) */
  function PX(level: nat, v: nat): (i: nat)
    ensures i < NPTE
  {
    v / Span(level) % NPTE
  }

  /** The way down as walk takes it. */
  lemma PathStep(r: nat, v: nat, d: nat)
    requires d < LEAF && v < NVPN
    ensures Path(r, v, d + 1) == Below(Path(r, v, d), PX(2 - d, v)) && Up(Path(r, v, d + 1)) == Path(r, v, d)
    ensures Path(r, v, 0) == Node(r, 0, 0) && Path(r, v, 2) == TableNode(r, v)
  {
  }

  /** The table that holds the entry of virtual page v. */
  function TableNode(r: nat, v: nat): Node {
    Node(r, 2, v / NPTE)
  }

  /** The entry for a virtual page, as walk finds it. */
  function LeafEntry(mem: seq<Page>, r: nat, v: nat): Pte {
    if PageOf(mem, TableNode(r, v)) == 0 then NONE else Entry(mem, PageOf(mem, TableNode(r, v)), v % NPTE)
  }

  /** A user's view: the entry of each mapped virtual page. */
  type Space = map<nat, Pte>

  // ----- Who owns which page -----

  ghost predicate Held(mem: seq<Page>, roots: set<nat>, owner: map<nat, Node>, lent: set<Node>) {
    forall n :: IsNode(n, roots) && PageOf(mem, n) != 0 && n !in lent ==>
      PageOf(mem, n) in owner && owner[PageOf(mem, n)] == n
  }

  ghost predicate Listed(mem: seq<Page>, roots: set<nat>, owner: map<nat, Node>, lent: set<Node>) {
    forall p :: p in owner ==>
      && 0 < p < |mem| && IsNode(owner[p], roots) && owner[p] !in lent && PageOf(mem, owner[p]) == p
      && if owner[p].d < LEAF then mem[p].Table? else mem[p].Data?
  }

  ghost predicate Lent(mem: seq<Page>, roots: set<nat>, lent: set<Node>) {
    forall n :: n in lent ==> IsNode(n, roots) && n.d == LEAF && PageOf(mem, n) != 0
  }

  /** Each page in a tree belongs to that node alone, `owner` lists exactly those pages, and the pages
      at `lent` nodes are mapped but belong to somebody else. */
  ghost predicate Owned(mem: seq<Page>, roots: set<nat>, owner: map<nat, Node>, lent: set<Node>) {
    0 !in roots
    && forall n: nat :: Open(PAGES_OWNED, n) ==>
         Held(mem, roots, owner, lent) && Listed(mem, roots, owner, lent) && Lent(mem, roots, lent)
  }

  lemma OwnerOf(mem: seq<Page>, roots: set<nat>, owner: map<nat, Node>, lent: set<Node>, n: Node)
    requires Owned(mem, roots, owner, lent) && IsNode(n, roots)
    ensures PageOf(mem, n) != 0 && n !in lent ==> PageOf(mem, n) in owner && owner[PageOf(mem, n)] == n
    ensures n in lent ==> n.d == LEAF && PageOf(mem, n) != 0
    ensures n.d == 0 ==> PageOf(mem, n) != 0
  {
    assert Open(PAGES_OWNED, 0);
  }

  lemma OwnedBy(mem: seq<Page>, roots: set<nat>, owner: map<nat, Node>, lent: set<Node>, p: nat)
    requires Owned(mem, roots, owner, lent) && p in owner
    ensures 0 < p < |mem| && IsNode(owner[p], roots) && owner[p] !in lent && PageOf(mem, owner[p]) == p
    ensures if owner[p].d < LEAF then mem[p].Table? else mem[p].Data?
  {
    assert Open(PAGES_OWNED, 0);
  }

  /** Entries of inner tables point to tables and carry no permissions. */
  ghost predicate InnerParts(mem: seq<Page>, owner: map<nat, Node>) {
    forall p, i :: p in owner && owner[p].d < LEAF && 0 <= i < NPTE && Entry(mem, p, i).flags.v ==>
      Entry(mem, p, i).ppn != 0 && (owner[p].d < 2 ==> Entry(mem, p, i).flags == VALIDONLY)
  }

  ghost predicate Inner(mem: seq<Page>, owner: map<nat, Node>) {
    forall n: nat :: Open(INNER_ENTRIES, n) ==> InnerParts(mem, owner)
  }

  /** The trees stand for these spaces. */
  ghost predicate AgreesParts(mem: seq<Page>, flat: map<nat, Space>, lent: set<Node>) {
    && (forall r, v: nat :: r in flat && v < NVPN ==>
          if v in flat[r] then LeafEntry(mem, r, v) == flat[r][v]
             && flat[r][v].flags.v else !LeafEntry(mem, r, v).flags.v)
    && (forall r, v :: r in flat && v in flat[r] ==> v < NVPN && (Node(r, LEAF, v) in lent ==> !flat[r][v].flags.u))
  }

  ghost predicate Agrees(mem: seq<Page>, flat: map<nat, Space>, lent: set<Node>) {
    forall n: nat :: Open(SPACES_AGREE, n) ==> AgreesParts(mem, flat, lent)
  }

  ghost predicate Sound(mem: seq<Page>, flat: map<nat, Space>, owner: map<nat, Node>, lent: set<Node>) {
    Owned(mem, flat.Keys, owner, lent) && Inner(mem, owner) && Agrees(mem, flat, lent)
  }

  lemma EmptySound(mem: seq<Page>)
    ensures Sound(mem, map[], map[], {})
  {
  }

  // ----- Changes outside the tables -----

  /** The page tables are the same in both memories, and mapped pages hold bytes in both. */
  ghost predicate SameTables(mem: seq<Page>, mem': seq<Page>, owner: map<nat, Node>) {
    && |mem'| == |mem|
    && forall p :: p in owner && p < |mem| ==> if owner[p].d < LEAF then mem'[p] == mem[p] else mem'[p].Data?
  }

  lemma {:induction false} PageOfSame(mem: seq<Page>, mem': seq<Page>, roots: set<nat>, owner: map<nat, Node>,
                                      lent: set<Node>, n: Node)
    requires Owned(mem, roots, owner, lent) && SameTables(mem, mem', owner) && IsNode(n, roots)
    ensures PageOf(mem', n) == PageOf(mem, n)
    decreases n.d
  {
    if n.d > 0 {
      UpIsNode(roots, n);
      PageOfSame(mem, mem', roots, owner, lent, Up(n));
      OwnerOf(mem, roots, owner, lent, Up(n));
    }
  }

  /** Ownership is about which page is at which node. */
  lemma OwnedSame(mem: seq<Page>, mem': seq<Page>, roots: set<nat>, owner: map<nat, Node>, lent: set<Node>)
    requires Owned(mem, roots, owner, lent) && |mem'| == |mem|
    requires forall n :: IsNode(n, roots) ==> PageOf(mem', n) == PageOf(mem, n)
    requires forall p :: p in owner && p < |mem| ==> if owner[p].d < LEAF then mem'[p].Table? else mem'[p].Data?
    ensures Owned(mem', roots, owner, lent)
  {
    assert Open(PAGES_OWNED, 0);
  }

  lemma InnerSame(mem: seq<Page>, mem': seq<Page>, owner: map<nat, Node>)
    requires Inner(mem, owner) && SameTables(mem, mem', owner) && forall p :: p in owner ==> p < |mem|
    ensures Inner(mem', owner)
  {
    assert Open(INNER_ENTRIES, 0);
    forall p, i | p in owner && owner[p].d < LEAF && 0 <= i < NPTE && Entry(mem', p, i).flags.v
      ensures Entry(mem', p, i) == Entry(mem, p, i)
    {
    }
  }

  lemma LeafSame(mem: seq<Page>, mem': seq<Page>, roots: set<nat>, owner: map<nat, Node>, lent: set<Node>, r: nat,
                 v: nat)
    requires Owned(mem, roots, owner, lent) && SameTables(mem, mem', owner) && r in roots && v < NVPN
    ensures LeafEntry(mem', r, v) == LeafEntry(mem, r, v)
  {
    PageOfSame(mem, mem', roots, owner, lent, TableNode(r, v));
    OwnerOf(mem, roots, owner, lent, TableNode(r, v));
  }

  lemma AgreesSame(mem: seq<Page>, mem': seq<Page>, flat: map<nat, Space>, lent: set<Node>)
    requires Agrees(mem, flat, lent)
    requires forall r, v: nat :: r in flat && v < NVPN ==>
               LeafEntry(mem', r, v) == LeafEntry(mem, r, v) || !(LeafEntry(mem', r, v).flags.v || LeafEntry(mem, r,
                         v).flags.v)
    ensures Agrees(mem', flat, lent)
  {
    assert Open(SPACES_AGREE, 0);
  }

  /** Pages that are no page table may change at will, as long as mapped pages hold bytes. */
  lemma DataKeepsSound(mem: seq<Page>, mem': seq<Page>, flat: map<nat, Space>, owner: map<nat, Node>, lent: set<Node>)
    requires Sound(mem, flat, owner, lent) && SameTables(mem, mem', owner)
    ensures Sound(mem', flat, owner, lent)
  {
    forall n | IsNode(n, flat.Keys) ensures PageOf(mem', n) == PageOf(mem, n) {
      PageOfSame(mem, mem', flat.Keys, owner, lent, n);
    }
    forall p | p in owner
      ensures 0 < p < |mem| && (owner[p].d < LEAF ==> mem[p].Table?) { OwnedBy(mem, flat.Keys, owner, lent, p); }
    OwnedSame(mem, mem', flat.Keys, owner, lent);
    InnerSame(mem, mem', owner);
    forall r, v: nat | r in flat && v < NVPN ensures LeafEntry(mem', r, v) == LeafEntry(mem, r, v) {
      LeafSame(mem, mem', flat.Keys, owner, lent, r, v);
    }
    AgreesSame(mem, mem', flat, lent);
  }

  /** A page that is in no tree may change at will, a mapped page among pages of bytes. */
  lemma OtherKeepsSound(mem: seq<Page>, flat: map<nat, Space>, owner: map<nat, Node>, lent: set<Node>, p: nat, d: Page)
    requires Sound(mem, flat, owner, lent) && p < |mem| && (p in owner ==> owner[p].d == LEAF && d.Data?)
    ensures Sound(mem[p := d], flat, owner, lent)
  {
    forall q | q in owner && q < |mem|
      ensures if owner[q].d < LEAF then mem[p := d][q] == mem[q] else mem[p := d][q].Data? {
      OwnedBy(mem, flat.Keys, owner, lent, q);
    }
    DataKeepsSound(mem, mem[p := d], flat, owner, lent);
  }

  // ----- Changing one entry -----

  /** There is no page p, or nothing below it. */
  ghost predicate Bare(mem: seq<Page>, p: nat) {
    p == 0 || forall i: nat :: i < NPTE ==> !Entry(mem, p, i).flags.v
  }

  /** *pte = e in entry i of page q. */
  function SetEntry(mem: seq<Page>, q: nat, i: nat, e: Pte): (mem': seq<Page>)
    requires q < |mem| && mem[q].Table? && i < NPTE
    ensures |mem'| == |mem|
    ensures forall p: nat, j: nat :: j < NPTE ==> Entry(mem', p, j) == if p == q && j == i then e else Entry(mem, p, j)
  {
    mem[q := Table(mem[q].ptes[i := e])]
  }

  /** Replacing an entry whose old and new subtree is just one page changes the tree in that node only. */
  lemma {:induction false} EntryChange(mem: seq<Page>, mem': seq<Page>, roots: set<nat>, owner: map<nat, Node>,
                                       lent: set<Node>, q: nat, i: nat, n: Node)
    requires Owned(mem, roots, owner, lent) && q in owner && owner[q].d < LEAF && i < NPTE && IsNode(n, roots)
    requires forall p: nat, j: nat :: j < NPTE && (p != q || j != i) ==> Entry(mem', p, j) == Entry(mem, p, j)
    requires owner[q].d < 2 ==> Bare(mem, Child(mem, q, i)) && Bare(mem', Child(mem', q, i))
    ensures PageOf(mem', n) == if n == Below(owner[q], i) then Child(mem', q, i) else PageOf(mem, n)
    decreases n.d
  {
    if n.d > 0 {
      UpIsNode(roots, n);
      EntryChange(mem, mem', roots, owner, lent, q, i, Up(n));
      OwnerOf(mem, roots, owner, lent, Up(n));
      OwnedBy(mem, roots, owner, lent, q);
      UpBelow(owner[q], i, n);
      if Up(n) == Below(owner[q], i) && PageOf(mem, Up(n)) != 0 {
        assert !Entry(mem, PageOf(mem, Up(n)), n.k % NPTE).flags.v;
      }
    }
  }

  /** Both memories have the same tree, but for page b at one node. */
  ghost predicate Moved(mem: seq<Page>, mem': seq<Page>, roots: set<nat>, at: Node, b: nat) {
    && |mem'| == |mem| && IsNode(at, roots) && 0 < at.d
    && forall n :: IsNode(n, roots) ==> PageOf(mem', n) == if n == at then b else PageOf(mem, n)
  }

  /** Tables stay tables and mapped pages stay mapped pages. */
  ghost predicate SameKinds(mem: seq<Page>, mem': seq<Page>, owner: map<nat, Node>) {
    |mem'| == |mem| && forall p :: p in owner && p < |mem| ==>
      mem'[p].Table? == mem[p].Table? && mem'[p].Data? == mem[p].Data?
  }

  lemma ExtendHeld(mem: seq<Page>, mem': seq<Page>, roots: set<nat>, owner: map<nat, Node>, lent: set<Node>, at: Node,
                   b: nat)
    requires Held(mem, roots, owner, lent) && Moved(mem, mem', roots, at, b) && b !in owner
    ensures Held(mem', roots, owner[b := at], lent)
  {
  }

  lemma ExtendListed(mem: seq<Page>, mem': seq<Page>, roots: set<nat>, owner: map<nat, Node>, lent: set<Node>, at: Node,
                     b: nat)
    requires Listed(mem, roots, owner, lent) && Moved(mem, mem', roots, at, b) && SameKinds(mem, mem', owner)
    requires PageOf(mem, at) == 0 && 0 < b < |mem| && at !in lent
    requires if at.d < LEAF then mem'[b].Table? else mem'[b].Data?
    ensures Listed(mem', roots, owner[b := at], lent)
  {
  }

  lemma ExtendOwned(mem: seq<Page>, mem': seq<Page>, roots: set<nat>, owner: map<nat, Node>, lent: set<Node>, at: Node,
                    b: nat)
    requires Owned(mem, roots, owner, lent) && Moved(mem, mem', roots, at, b) && SameKinds(mem, mem', owner)
    requires PageOf(mem, at) == 0 && 0 < b < |mem| && b !in owner
    requires if at.d < LEAF then mem'[b].Table? else mem'[b].Data?
    ensures Owned(mem', roots, owner[b := at], lent)
  {
    assert Open(PAGES_OWNED, 0);
    ExtendHeld(mem, mem', roots, owner, lent, at, b);
    ExtendListed(mem, mem', roots, owner, lent, at, b);
  }

  lemma LendOwned(mem: seq<Page>, mem': seq<Page>, roots: set<nat>, owner: map<nat, Node>, lent: set<Node>, at: Node,
                  b: nat)
    requires Owned(mem, roots, owner, lent) && Moved(mem, mem', roots, at, b) && SameKinds(mem, mem', owner)
    requires PageOf(mem, at) == 0 && 0 < b && at.d == LEAF
    ensures Owned(mem', roots, owner, lent + {at})
  {
    assert Open(PAGES_OWNED, 0);
    assert Held(mem', roots, owner, lent + {at});
    assert Listed(mem', roots, owner, lent + {at});
  }

  /** A leaf page leaves the tree; if it was not lent, nobody owns it any more. */
  lemma ShrinkOwned(mem: seq<Page>, mem': seq<Page>, roots: set<nat>, owner: map<nat, Node>, lent: set<Node>, at: Node)
    requires Owned(mem, roots, owner, lent) && Moved(mem, mem', roots, at, 0) && SameKinds(mem, mem', owner)
    requires at.d == LEAF
    ensures Owned(mem', roots, if at in lent then owner else owner - {PageOf(mem, at)}, lent - {at})
  {
    assert Open(PAGES_OWNED, 0);
    var owner' := if at in lent then owner else owner - {PageOf(mem, at)};
    assert Held(mem', roots, owner', lent - {at});
    assert Listed(mem', roots, owner', lent - {at});
  }

  lemma InnerSet(mem: seq<Page>, owner: map<nat, Node>, q: nat, i: nat, e: Pte)
    requires Inner(mem, owner) && q in owner && q < |mem| && mem[q].Table? && i < NPTE
    requires e.flags.v ==> e.ppn != 0 && (owner[q].d < 2 ==> e.flags == VALIDONLY)
    ensures Inner(SetEntry(mem, q, i, e), owner)
  {
    assert Open(INNER_ENTRIES, 0);
    var mem' := SetEntry(mem, q, i, e);
    forall p, j | p in owner && owner[p].d < LEAF && 0 <= j < NPTE && Entry(mem', p, j).flags.v
      ensures Entry(mem', p, j).ppn != 0 && (owner[p].d < 2 ==> Entry(mem', p, j).flags == VALIDONLY)
    {
    }
  }

  lemma InnerMore(mem: seq<Page>, owner: map<nat, Node>, b: nat, at: Node)
    requires Inner(mem, owner) && b != 0 && Bare(mem, b)
    ensures Inner(mem, owner[b := at])
  {
    assert Open(INNER_ENTRIES, 0);
    var owner' := owner[b := at];
    forall p, j | p in owner' && owner'[p].d < LEAF && 0 <= j < NPTE && Entry(mem, p, j).flags.v
      ensures Entry(mem, p, j).ppn != 0 && (owner'[p].d < 2 ==> Entry(mem, p, j).flags == VALIDONLY)
    {
      assert p != b;
    }
  }

  /** What one entry's change means for the nodes. */
  lemma EntryMoves(mem: seq<Page>, roots: set<nat>, owner: map<nat, Node>, lent: set<Node>, q: nat, i: nat, e: Pte)
    requires Owned(mem, roots, owner, lent) && q in owner && owner[q].d < LEAF && i < NPTE
    requires q < |mem| && mem[q].Table?
    requires owner[q].d < 2 ==>
      Bare(mem, Child(mem, q, i)) && Bare(SetEntry(mem, q, i, e), Child(SetEntry(mem, q, i, e), q, i))
    ensures Moved(mem, SetEntry(mem, q, i, e), roots, Below(owner[q], i), if e.flags.v then e.ppn else 0)
    ensures SameKinds(mem, SetEntry(mem, q, i, e), owner)
  {
    var mem' := SetEntry(mem, q, i, e);
    OwnedBy(mem, roots, owner, lent, q);
    BelowIsNode(roots, owner[q], i);
    forall n | IsNode(n, roots)
      ensures PageOf(mem', n) == if n == Below(owner[q], i) then (if e.flags.v then e.ppn else 0) else PageOf(mem, n)
    {
      EntryChange(mem, mem', roots, owner, lent, q, i, n);
    }
  }

  // ----- Linking a table, mapping and unmapping a page -----

  /** *pte = PA2PTE(pagetable) | PTE_V for a zeroed page changes no translation. */
  lemma LinkTable(mem: seq<Page>, flat: map<nat, Space>, owner: map<nat, Node>, lent: set<Node>, q: nat, i: nat, b: nat)
    requires Sound(mem, flat, owner, lent) && q in owner && owner[q].d < 2 && i < NPTE && q < |mem| && mem[q].Table?
    requires !Entry(mem, q, i).flags.v && 0 < b < |mem| && b !in owner && mem[b] == EMPTY
    ensures Sound(SetEntry(mem, q, i, Pte(b, VALIDONLY)), flat, owner[b := Below(owner[q], i)], lent)
    ensures PageOf(SetEntry(mem, q, i, Pte(b, VALIDONLY)), Below(owner[q], i)) == b
  {
    var mem' := SetEntry(mem, q, i, Pte(b, VALIDONLY));
    var at := Below(owner[q], i);
    OwnedBy(mem, flat.Keys, owner, lent, q);
    UpBelow(owner[q], i, at);
    assert PageOf(mem, at) == 0;
    assert Bare(mem', b);
    EntryMoves(mem, flat.Keys, owner, lent, q, i, Pte(b, VALIDONLY));
    ExtendOwned(mem, mem', flat.Keys, owner, lent, at, b);
    InnerSet(mem, owner, q, i, Pte(b, VALIDONLY));
    InnerMore(mem', owner, b, at);
    forall r, v: nat | r in flat && v < NVPN
      ensures LeafEntry(mem', r, v)
              == LeafEntry(mem, r, v) || !(LeafEntry(mem', r, v).flags.v || LeafEntry(mem, r, v).flags.v)
    {
      assert IsNode(TableNode(r, v), flat.Keys);
      OwnerOf(mem, flat.Keys, owner, lent, TableNode(r, v));
    }
    AgreesSame(mem, mem', flat, lent);
  }

  /** The change of one last-level entry changes that one translation. */
  lemma LeafChange(mem: seq<Page>, roots: set<nat>, owner: map<nat, Node>, lent: set<Node>, q: nat, i: nat, e: Pte,
                   r: nat, v: nat)
    requires Owned(mem, roots, owner, lent) && q in owner && owner[q].d == 2 && i < NPTE && q < |mem| && mem[q].Table?
    requires r in roots && v < NVPN
    ensures LeafEntry(SetEntry(mem, q, i, e), r, v) == if Node(r, LEAF, v)
            == Below(owner[q], i) then e else LeafEntry(mem, r, v)
  {
    EntryMoves(mem, roots, owner, lent, q, i, e);
    assert IsNode(TableNode(r, v), roots);
    OwnerOf(mem, roots, owner, lent, TableNode(r, v));
    OwnedBy(mem, roots, owner, lent, q);
    UpBelow(owner[q], i, Node(r, LEAF, v));
  }

  function WithEntry(flat: map<nat, Space>, r: nat, v: nat, e: Pte): map<nat, Space>
    requires r in flat
  {
    var space: Space := flat[r][v := e];
    flat[r := space]
  }

  /** n consecutive virtual pages mapped to consecutive physical pages. */
  function MapRange(m: Space, v: nat, ppn: nat, f: Flags, n: nat): Space {
    if n == 0 then m
    else
      var space: Space := MapRange(m, v, ppn, f, n - 1)[v + n - 1 := Pte(ppn + n - 1, f)];
      space
  }

  lemma {:induction false} MapRangeAt(m: Space, v: nat, ppn: nat, f: Flags, n: nat)
    ensures forall u: nat :: u in MapRange(m, v, ppn, f, n) <==> u in m || v <= u < v + n
    ensures forall u: nat :: u in MapRange(m, v, ppn, f, n) ==>
              MapRange(m, v, ppn, f, n)[u] == if v <= u < v + n then Pte(ppn + u - v, f) else m[u]
  {
    if n > 0 { MapRangeAt(m, v, ppn, f, n - 1); }
  }

  /** One more page of the range. */
  lemma MapRangeNext(flat: map<nat, Space>, flat1: map<nat, Space>, r: nat, v: nat, a: nat, ppn: nat, f: Flags, n: nat)
    requires r in flat && flat1 == flat[r := MapRange(flat[r], v, ppn, f, n)] && a == v + n
    ensures r in flat1 && (a in flat1[r] <==> a in flat[r])
    ensures WithEntry(flat1, r, a, Pte(ppn + (a - v), f)) == flat[r := MapRange(flat[r], v, ppn, f, n + 1)]
  {
    MapRangeAt(flat[r], v, ppn, f, n);
    assert MapRange(flat[r], v, ppn, f, n + 1) == flat1[r][a := Pte(ppn + (a - v), f)];
  }

  /** The leaf nodes of n consecutive virtual pages. */
  ghost function Leaves(r: nat, v: nat, n: nat): set<Node> {
    if n == 0 then {} else Leaves(r, v, n - 1) + {Node(r, LEAF, v + n - 1)}
  }

  lemma {:induction false} LeavesAre(r: nat, v: nat, n: nat)
    ensures forall m :: m in Leaves(r, v, n) <==> m.root == r && m.d == LEAF && v <= m.k < v + n
  {
    if n > 0 { LeavesAre(r, v, n - 1); }
  }

  /** The pages at some nodes. */
  ghost function PagesAt(owner: map<nat, Node>, nodes: set<Node>): set<nat> {
    set p | p in owner && owner[p] in nodes
  }

  ghost function Vpns(v: nat, n: nat): set<nat> {
    if n == 0 then {} else Vpns(v, n - 1) + {v + n - 1}
  }

  lemma {:induction false} VpnsAre(v: nat, n: nat)
    ensures forall u: nat :: u in Vpns(v, n) <==> v <= u < v + n
  {
    if n > 0 { VpnsAre(v, n - 1); }
  }

  function Without(flat: map<nat, Space>, r: nat, v: nat): map<nat, Space>
    requires r in flat
  {
    flat[r := flat[r] - {v}]
  }

  lemma AgreesWithParts(mem: seq<Page>, mem': seq<Page>, flat: map<nat, Space>, lent: set<Node>, lent': set<Node>,
                        r: nat, v: nat, e: Pte)
    requires AgreesParts(mem, flat, lent) && r in flat && v < NVPN && lent' - {Node(r, LEAF, v)} <= lent
    requires forall s, u: nat :: s in flat && u < NVPN ==>
      LeafEntry(mem', s, u) == if s == r && u == v then e else LeafEntry(mem, s, u)
    requires e.flags.v && (Node(r, LEAF, v) in lent' ==> !e.flags.u)
    ensures AgreesParts(mem', WithEntry(flat, r, v, e), lent')
  {
  }

  lemma AgreesWith(mem: seq<Page>, mem': seq<Page>, flat: map<nat, Space>, lent: set<Node>, lent': set<Node>, r: nat,
                   v: nat, e: Pte)
    requires Agrees(mem, flat, lent) && r in flat && v < NVPN && lent' - {Node(r, LEAF, v)} <= lent
    requires forall s, u: nat :: s in flat && u < NVPN ==>
      LeafEntry(mem', s, u) == if s == r && u == v then e else LeafEntry(mem, s, u)
    requires e.flags.v && (Node(r, LEAF, v) in lent' ==> !e.flags.u)
    ensures Agrees(mem', WithEntry(flat, r, v, e), lent')
  {
    assert AgreesParts(mem, flat, lent) by { assert Open(SPACES_AGREE, 0); }
    AgreesWithParts(mem, mem', flat, lent, lent', r, v, e);
  }

  lemma AgreesWithoutParts(mem: seq<Page>, mem': seq<Page>, flat: map<nat, Space>, lent: set<Node>, r: nat, v: nat)
    requires AgreesParts(mem, flat, lent) && r in flat && v < NVPN
    requires forall s, u: nat :: s in flat && u < NVPN ==>
      LeafEntry(mem', s, u) == if s == r && u == v then NONE else LeafEntry(mem, s, u)
    ensures AgreesParts(mem', Without(flat, r, v), lent - {Node(r, LEAF, v)})
  {
  }

  lemma AgreesWithout(mem: seq<Page>, mem': seq<Page>, flat: map<nat, Space>, lent: set<Node>, r: nat, v: nat)
    requires Agrees(mem, flat, lent) && r in flat && v < NVPN
    requires forall s, u: nat :: s in flat && u < NVPN ==>
      LeafEntry(mem', s, u) == if s == r && u == v then NONE else LeafEntry(mem, s, u)
    ensures Agrees(mem', Without(flat, r, v), lent - {Node(r, LEAF, v)})
  {
    assert AgreesParts(mem, flat, lent) by { assert Open(SPACES_AGREE, 0); }
    AgreesWithoutParts(mem, mem', flat, lent, r, v);
  }

  /** Fewer owners, or a page with no entries more, make no difference to the inner entries. */
  lemma InnerOther(mem: seq<Page>, owner: map<nat, Node>, owner': map<nat, Node>)
    requires Inner(mem, owner) && forall p :: p in owner' && owner'[p].d < LEAF ==> p in owner && owner[p] == owner'[p]
    ensures Inner(mem, owner')
  {
    assert Open(INNER_ENTRIES, 0);
  }

  /** What soundness says about the slot of one virtual page. */
  lemma SlotFacts(mem: seq<Page>, flat: map<nat, Space>, owner: map<nat, Node>, lent: set<Node>, r: nat, v: nat)
    requires Sound(mem, flat, owner, lent) && r in flat && v < NVPN
    ensures var q, at := PageOf(mem, TableNode(r, v)), Node(r, LEAF, v);
            && IsNode(at, flat.Keys)
            && (q != 0 ==>
                  && q < |mem| && mem[q].Table? && q in owner && owner[q] == TableNode(r, v)
                  && Below(owner[q], v % NPTE) == at)
            && (v in flat[r] ==> q != 0 && flat[r][v] == Entry(mem, q, v % NPTE) && flat[r][v].flags.v)
            && (v !in flat[r] ==> PageOf(mem, at) == 0 && at !in lent && (q != 0 ==> !Entry(mem, q, v % NPTE).flags.v))
            && (v in flat[r] ==> PageOf(mem, at) == flat[r][v].ppn != 0)
            && (v in flat[r] && at !in lent ==> flat[r][v].ppn in owner && owner[flat[r][v].ppn] == at)
            && (v in flat[r] && at in lent ==> !flat[r][v].flags.u)
  {
    var q, at := PageOf(mem, TableNode(r, v)), Node(r, LEAF, v);
    OwnerOf(mem, flat.Keys, owner, lent, TableNode(r, v));
    OwnerOf(mem, flat.Keys, owner, lent, at);
    if q != 0 { OwnedBy(mem, flat.Keys, owner, lent, q); }
    UpBelow(TableNode(r, v), v % NPTE, at);
    EntryFacts(mem, flat, owner, lent, r, v);
  }

  lemma EntryFacts(mem: seq<Page>, flat: map<nat, Space>, owner: map<nat, Node>, lent: set<Node>, r: nat, v: nat)
    requires Inner(mem, owner) && Agrees(mem, flat, lent) && r in flat && v < NVPN
    ensures if v in flat[r] then LeafEntry(mem, r, v)
            == flat[r][v] && flat[r][v].flags.v else !LeafEntry(mem, r, v).flags.v
    ensures v in flat[r] && Node(r, LEAF, v) in lent ==> !flat[r][v].flags.u
    ensures var q := PageOf(mem, TableNode(r, v));
            q in owner && owner[q].d < LEAF && Entry(mem, q, v % NPTE).flags.v ==> Entry(mem, q, v % NPTE).ppn != 0
  {
    assert Open(INNER_ENTRIES, 0) && Open(SPACES_AGREE, 0);
  }

  lemma LeafChanges(mem: seq<Page>, flat: map<nat, Space>, owner: map<nat, Node>, lent: set<Node>, r: nat, v: nat,
                    e: Pte, q: nat)
    requires Sound(mem, flat, owner, lent) && r in flat && v < NVPN && q == PageOf(mem, TableNode(r, v)) != 0
    requires q < |mem| && mem[q].Table? && q in owner && owner[q] == TableNode(r, v)
    ensures forall s, u: nat :: s in flat && u < NVPN ==>
              LeafEntry(SetEntry(mem, q, v % NPTE, e), s, u) == if s == r && u == v then e else LeafEntry(mem, s, u)
  {
    forall s, u: nat | s in flat && u < NVPN
      ensures LeafEntry(SetEntry(mem, q, v % NPTE, e), s, u) == if s == r && u == v then e else LeafEntry(mem, s, u)
    {
      LeafChange(mem, flat.Keys, owner, lent, q, v % NPTE, e, s, u);
      UpBelow(owner[q], v % NPTE, Node(s, LEAF, u));
    }
  }

  /** *pte = PA2PTE(pa) | perm | PTE_V adds exactly one translation, here to a page of its own. */
  lemma MapOwn(mem: seq<Page>, flat: map<nat, Space>, owner: map<nat, Node>, lent: set<Node>, r: nat, v: nat, e: Pte,
               q: nat)
    requires Sound(mem, flat, owner, lent) && r in flat && v < NVPN && v !in flat[r] && e.flags.v && 0 < e.ppn
    requires q == PageOf(mem, TableNode(r, v)) != 0 && e.ppn < |mem| && e.ppn !in owner && mem[e.ppn].Data?
    ensures q < |mem| && mem[q].Table?
    ensures Sound(SetEntry(mem, q, v % NPTE, e), WithEntry(flat, r, v, e), owner[e.ppn := Node(r, LEAF, v)], lent)
  {
    SlotFacts(mem, flat, owner, lent, r, v);
    var mem', at := SetEntry(mem, q, v % NPTE, e), Node(r, LEAF, v);
    EntryMoves(mem, flat.Keys, owner, lent, q, v % NPTE, e);
    InnerSet(mem, owner, q, v % NPTE, e);
    InnerOther(mem', owner, owner[e.ppn := at]);
    LeafChanges(mem, flat, owner, lent, r, v, e, q);
    ExtendOwned(mem, mem', flat.Keys, owner, lent, at, e.ppn);
    AgreesWith(mem, mem', flat, lent, lent, r, v, e);
    assert WithEntry(flat, r, v, e).Keys == flat.Keys;
  }

  /** ... and here to a page that stays somebody else's. */
  lemma MapLent(mem: seq<Page>, flat: map<nat, Space>, owner: map<nat, Node>, lent: set<Node>, r: nat, v: nat, e: Pte,
                q: nat)
    requires Sound(mem, flat, owner, lent) && r in flat && v < NVPN && v !in flat[r] && e.flags.v && 0 < e.ppn
    requires !e.flags.u
    requires q == PageOf(mem, TableNode(r, v)) != 0
    ensures q < |mem| && mem[q].Table?
    ensures Sound(SetEntry(mem, q, v % NPTE, e), WithEntry(flat, r, v, e), owner, lent + {Node(r, LEAF, v)})
  {
    SlotFacts(mem, flat, owner, lent, r, v);
    var mem', at := SetEntry(mem, q, v % NPTE, e), Node(r, LEAF, v);
    EntryMoves(mem, flat.Keys, owner, lent, q, v % NPTE, e);
    InnerSet(mem, owner, q, v % NPTE, e);
    LeafChanges(mem, flat, owner, lent, r, v, e, q);
    LendOwned(mem, mem', flat.Keys, owner, lent, at, e.ppn);
    AgreesWith(mem, mem', flat, lent, lent + {at}, r, v, e);
    assert WithEntry(flat, r, v, e).Keys == flat.Keys;
  }

  /** *pte = 0 removes exactly one translation; the page, unless lent, is then nobody's. */
  lemma UnmapLeaf(mem: seq<Page>, flat: map<nat, Space>, owner: map<nat, Node>, lent: set<Node>, r: nat, v: nat, q: nat)
    requires Sound(mem, flat, owner, lent) && r in flat && v < NVPN && v in flat[r] && q == PageOf(mem, TableNode(r, v))
    ensures q < |mem| && mem[q].Table?
    ensures var at := Node(r, LEAF, v);
            Sound(SetEntry(mem, q, v % NPTE, NONE), Without(flat, r, v),
                  if at in lent then owner else owner - {flat[r][v].ppn}, lent - {at})
  {
    SlotFacts(mem, flat, owner, lent, r, v);
    var mem', at := SetEntry(mem, q, v % NPTE, NONE), Node(r, LEAF, v);
    EntryMoves(mem, flat.Keys, owner, lent, q, v % NPTE, NONE);
    InnerSet(mem, owner, q, v % NPTE, NONE);
    InnerOther(mem', owner, if at in lent then owner else owner - {flat[r][v].ppn});
    LeafChanges(mem, flat, owner, lent, r, v, NONE, q);
    ShrinkOwned(mem, mem', flat.Keys, owner, lent, at);
    AgreesWithout(mem, mem', flat, lent, r, v);
    assert Without(flat, r, v).Keys == flat.Keys;
  }

  /** What soundness says about an entry of an inner table. */
  lemma StepFacts(mem: seq<Page>, flat: map<nat, Space>, owner: map<nat, Node>, lent: set<Node>, q: nat, i: nat)
    requires Sound(mem, flat, owner, lent) && q in owner && owner[q].d < 2 && i < NPTE
    ensures var e, n := Entry(mem, q, i), Below(owner[q], i);
            && 0 < q < |mem| && mem[q].Table? && PageOf(mem, owner[q]) == q && IsNode(n, flat.Keys)
            && (e.flags.v ==> PageOf(mem, n) == e.ppn != 0 && e.ppn in owner && owner[e.ppn] == n)
            && (if e.flags.v then e.flags == VALIDONLY else PageOf(mem, n) == 0)
  {
    OwnedBy(mem, flat.Keys, owner, lent, q);
    BelowIsNode(flat.Keys, owner[q], i);
    UpBelow(owner[q], i, Below(owner[q], i));
    OwnerOf(mem, flat.Keys, owner, lent, Below(owner[q], i));
    assert Entry(mem, q, i).flags.v ==>
      Entry(mem, q, i).ppn != 0 && Entry(mem, q, i).flags == VALIDONLY by { assert Open(INNER_ENTRIES, 0); }
  }

  /** kfree of the page, then *pte = 0: the same as unmapping first. */
  lemma FreeLeaf(mem: seq<Page>, flat: map<nat, Space>, owner: map<nat, Node>, lent: set<Node>, r: nat, v: nat, q: nat,
                 d: Page)
    requires Sound(mem, flat, owner, lent) && r in flat && v < NVPN && v in flat[r] && q == PageOf(mem, TableNode(r, v))
    requires Node(r, LEAF, v) !in lent
    ensures var pa := flat[r][v].ppn;
            && q < |mem| && mem[q].Table? && q in owner && pa in owner && 0 < pa < |mem| && pa != q
            && Sound(SetEntry(mem[pa := d], q, v % NPTE, NONE), Without(flat, r, v), owner - {pa}, lent)
  {
    var pa, at := flat[r][v].ppn, Node(r, LEAF, v);
    SlotFacts(mem, flat, owner, lent, r, v);
    OwnedBy(mem, flat.Keys, owner, lent, pa);
    UnmapLeaf(mem, flat, owner, lent, r, v, q);
    assert lent - {at} == lent;
    OtherKeepsSound(SetEntry(mem, q, v % NPTE, NONE), Without(flat, r, v), owner - {pa}, lent, pa, d);
    SetEntryAndPage(mem, q, v % NPTE, NONE, pa, d);
  }

  lemma SetEntryAndPage(mem: seq<Page>, q: nat, i: nat, e: Pte, p: nat, d: Page)
    requires q < |mem| && mem[q].Table? && i < NPTE && p < |mem| && p != q
    ensures SetEntry(mem[p := d], q, i, e) == SetEntry(mem, q, i, e)[p := d]
  {
  }

  lemma NextPage(mem: seq<Page>, flat: map<nat, Space>, owner: map<nat, Node>, lent: set<Node>, r: nat, v: nat, n: nat)
    requires Sound(mem, flat, owner, lent) && r in flat && v + n < NVPN && v + n in flat[r]
    ensures PagesAt(owner, Leaves(r, v, n + 1))
            == PagesAt(owner, Leaves(r, v, n)) + if Node(r, LEAF, v + n) in lent then {} else {flat[r][v + n].ppn}
  {
    var at := Node(r, LEAF, v + n);
    SlotFacts(mem, flat, owner, lent, r, v + n);
    forall p | p in owner && owner[p] == at
      ensures at !in lent && p == flat[r][v + n].ppn { OwnedBy(mem, flat.Keys, owner, lent, p); }
  }

  // ----- Making and dropping a tree -----

  lemma {:induction false} BareRoot(mem: seq<Page>, b: nat, n: Node)
    requires b != 0 && Bare(mem, b) && n.root == b && n.d > 0 && n.k < Span(n.d)
    ensures PageOf(mem, n) == 0
    decreases n.d
  {
    if n.d > 1 { BareRoot(mem, b, Up(n)); }
  }

  lemma NewRootOwned(mem: seq<Page>, roots: set<nat>, owner: map<nat, Node>, lent: set<Node>, b: nat)
    requires Owned(mem, roots, owner, lent) && 0 < b < |mem| && b !in owner && b !in roots && mem[b] == EMPTY
    ensures Owned(mem, roots + {b}, owner[b := Node(b, 0, 0)], lent)
  {
    assert Open(PAGES_OWNED, 0);
    forall n: Node | n.root == b && n.d > 0 && n.k < Span(n.d) ensures PageOf(mem, n) == 0 { BareRoot(mem, b, n); }
    assert Held(mem, roots + {b}, owner[b := Node(b, 0, 0)], lent);
    assert Listed(mem, roots + {b}, owner[b := Node(b, 0, 0)], lent);
  }

  lemma NewRootAgrees(mem: seq<Page>, flat: map<nat, Space>, lent: set<Node>, b: nat)
    requires Agrees(mem, flat, lent) && 0 < b < |mem| && mem[b] == EMPTY
    ensures Agrees(mem, flat[b := map[]], lent)
  {
    assert Open(SPACES_AGREE, 0);
    forall v: nat | v < NVPN ensures !LeafEntry(mem, b, v).flags.v { BareRoot(mem, b, TableNode(b, v)); }
  }

  /** A zeroed page is a tree with nothing mapped. */
  lemma NewRoot(mem: seq<Page>, flat: map<nat, Space>, owner: map<nat, Node>, lent: set<Node>, b: nat)
    requires Sound(mem, flat, owner, lent) && 0 < b < |mem| && b !in owner && mem[b] == EMPTY
    ensures b !in flat && Sound(mem, flat[b := map[]], owner[b := Node(b, 0, 0)], lent)
  {
    if b in flat { OwnerOf(mem, flat.Keys, owner, lent, Node(b, 0, 0)); }
    NewRootOwned(mem, flat.Keys, owner, lent, b);
    InnerMore(mem, owner, b, Node(b, 0, 0));
    NewRootAgrees(mem, flat, lent, b);
    var flat': map<nat, Space> := flat[b := map[]];
    assert flat'.Keys == flat.Keys + {b};
  }

  ghost function PagesOf(owner: map<nat, Node>, r: nat): set<nat> {
    set p | p in owner && owner[p].root == r
  }

  /** Forgetting a tree that holds no lent pages makes exactly its own pages nobody's. */
  lemma DropRoot(mem: seq<Page>, flat: map<nat, Space>, owner: map<nat, Node>, lent: set<Node>, r: nat)
    requires Sound(mem, flat, owner, lent) && forall n :: n in lent ==> n.root != r
    ensures Sound(mem, flat - {r}, owner - PagesOf(owner, r), lent)
  {
    var flat', owner' := flat - {r}, owner - PagesOf(owner, r);
    assert Owned(mem, flat'.Keys, owner', lent) by {
      assert Open(PAGES_OWNED, 0);
      assert Held(mem, flat'.Keys, owner', lent);
      assert Listed(mem, flat'.Keys, owner', lent);
    }
    InnerOther(mem, owner, owner');
    assert Agrees(mem, flat', lent) by { assert Open(SPACES_AGREE, 0); }
  }

  // ----- A tree without leaves -----

  /** m is n or somewhere below it. */
  ghost predicate Under(m: Node, n: Node)
    decreases m.d
  {
    m == n || (m.d > n.d && Under(Up(m), n))
  }

  /** The entry of n's table through which m is reached. */
  ghost function Branch(m: Node, n: Node): nat
    requires m.d > n.d
    decreases m.d
  {
    if m.d == n.d + 1 then m.k % NPTE else Branch(Up(m), n)
  }

  lemma {:induction false} UnderBelow(m: Node, n: Node, i: nat)
    requires i < NPTE
    ensures Under(m, Below(n, i)) <==> m.d > n.d && Under(m, n) && Branch(m, n) == i
    decreases m.d
  {
    if m.d > 0 { UpBelow(n, i, m); }
    if m.d > n.d + 1 {
      UnderBelow(Up(m), n, i);
    } else if m.d == n.d + 1 {
      assert Under(Up(m), n) <==> Up(m) == n;
    }
  }

  lemma {:induction false} BranchBound(m: Node, n: Node)
    requires m.d > n.d
    ensures Branch(m, n) < NPTE
    decreases m.d
  {
    if m.d > n.d + 1 { BranchBound(Up(m), n); }
  }

  lemma {:induction false} AncestorExists(mem: seq<Page>, m: Node, n: Node)
    requires PageOf(mem, m) != 0 && Under(m, n)
    ensures PageOf(mem, n) != 0
    decreases m.d
  {
    if m != n { AncestorExists(mem, Up(m), n); }
  }

  lemma {:induction false} UnderRoot(m: Node)
    requires IsNode(m, {m.root})
    ensures Under(m, Node(m.root, 0, 0))
    decreases m.d
  {
    if m.d > 0 {
      UpIsNode({m.root}, m);
      UnderRoot(Up(m));
    }
  }

  /** The pages at a node and below. */
  ghost function Subtree(owner: map<nat, Node>, n: Node): set<nat> {
    set p | p in owner && Under(owner[p], n)
  }

  /** The pages below the first i entries of a node's table. */
  ghost function Branches(owner: map<nat, Node>, n: Node, i: nat): set<nat> {
    set p | p in owner && owner[p].d > n.d && Under(owner[p], n) && Branch(owner[p], n) < i
  }

  lemma NextBranch(owner: map<nat, Node>, n: Node, i: nat)
    requires i < NPTE
    ensures Branches(owner, n, i + 1) == Branches(owner, n, i) + Subtree(owner, Below(n, i))
    ensures Branches(owner, n, i) !! Subtree(owner, Below(n, i)) && Subtree(owner, Below(n, i)) <= Subtree(owner, n)
  {
    forall p | p in owner
      ensures Under(owner[p], Below(n, i)) <==> owner[p].d > n.d && Under(owner[p], n) && Branch(owner[p], n) == i
    {
      UnderBelow(owner[p], n, i);
    }
  }

  lemma AllBranches(mem: seq<Page>, flat: map<nat, Space>, owner: map<nat, Node>, lent: set<Node>, p: nat)
    requires Sound(mem, flat, owner, lent) && p in owner
    ensures Subtree(owner, owner[p]) == Branches(owner, owner[p], NPTE) + {p} && p !in Branches(owner, owner[p], NPTE)
  {
    var n := owner[p];
    forall q | q in Subtree(owner, n) ensures q in Branches(owner, n, NPTE) + {p} {
      OwnedBy(mem, flat.Keys, owner, lent, p);
      OwnedBy(mem, flat.Keys, owner, lent, q);
      if owner[q] != n { BranchBound(owner[q], n); }
    }
  }

  /** In a tree that maps nothing, an entry leads to a table or nothing is below it. */
  lemma NoLeaf(mem: seq<Page>, flat: map<nat, Space>, owner: map<nat, Node>, lent: set<Node>, p: nat, i: nat)
    requires Sound(mem, flat, owner, lent) && p in owner && owner[p].d < LEAF && owner[p].root in flat
    requires flat[owner[p].root] == map[] && i < NPTE
    ensures 0 < p < |mem| && mem[p].Table?
    ensures var e, n := Entry(mem, p, i), Below(owner[p], i);
            if e.flags.v then owner[p].d < 2 && e.flags == VALIDONLY && e.ppn in owner
               && owner[e.ppn] == n else Subtree(owner, n) == {}
  {
    var n := Below(owner[p], i);
    OwnedBy(mem, flat.Keys, owner, lent, p);
    BelowIsNode(flat.Keys, owner[p], i);
    UpBelow(owner[p], i, n);
    if owner[p].d < 2 {
      StepFacts(mem, flat, owner, lent, p, i);
    } else {
      SlotFacts(mem, flat, owner, lent, n.root, n.k);
      assert TableNode(n.root, n.k) == Up(n);
    }
    if PageOf(mem, n) == 0 {
      forall q | q in owner ensures !Under(owner[q], n) {
        OwnedBy(mem, flat.Keys, owner, lent, q);
        if Under(owner[q], n) { AncestorExists(mem, owner[q], n); }
      }
    }
  }

  /** The subtree at the root is all of the tree, and without mappings nothing in it is lent. */
  lemma WholeTree(mem: seq<Page>, flat: map<nat, Space>, owner: map<nat, Node>, lent: set<Node>, r: nat)
    requires Sound(mem, flat, owner, lent) && r in flat && flat[r] == map[]
    ensures Subtree(owner, Node(r, 0, 0)) == PagesOf(owner, r) && r in owner && owner[r] == Node(r, 0, 0)
    ensures forall n :: n in lent ==> n.root != r
  {
    OwnerOf(mem, flat.Keys, owner, lent, Node(r, 0, 0));
    forall p | p in owner ensures Under(owner[p], Node(r, 0, 0)) <==> owner[p].root == r {
      OwnedBy(mem, flat.Keys, owner, lent, p);
      if owner[p].root == r { UnderRoot(owner[p]); } else { UnderSame(owner[p], Node(r, 0, 0)); }
    }
    forall n | n in lent ensures n.root != r {
      LentIsNode(mem, flat.Keys, owner, lent, n);
      if n.root == r { SlotFacts(mem, flat, owner, lent, r, n.k); }
    }
  }

  lemma {:induction false} UnderSame(m: Node, n: Node)
    ensures Under(m, n) ==> m.root == n.root
    decreases m.d
  {
    if m.d > n.d { UnderSame(Up(m), n); }
  }

  lemma LentIsNode(mem: seq<Page>, roots: set<nat>, owner: map<nat, Node>, lent: set<Node>, n: Node)
    requires Owned(mem, roots, owner, lent) && n in lent
    ensures IsNode(n, roots) && n.d == LEAF && PageOf(mem, n) != 0
  {
    assert Open(PAGES_OWNED, 0);
  }
}
