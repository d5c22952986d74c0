/** How many pages an allocation takes: its own, and the page-table pages missing on the way. */
module Costs {
  import opened Folding
  import opened PageTree

  /** The nodes that have a page-table page. */
  ghost function Tables(owner: map<nat, Node>): set<Node> {
    set p | p in owner && owner[p].d < LEAF :: owner[p]
  }

  /** The tables on the way to virtual page v, below the root. */
  function OnPath(r: nat, v: nat): set<Node> {
    {Path(r, v, 1), Path(r, v, 2)}
  }

  /** The tables on the way to the n virtual pages from v on. */
  function OnPaths(r: nat, v: nat, n: nat): set<Node> {
    if n == 0 then {} else OnPaths(r, v, n - 1) + OnPath(r, v + n - 1)
  }

  /** The page-table pages that mapping those virtual pages has to allocate. */
  ghost function Missing(owner: map<nat, Node>, r: nat, v: nat, n: nat): set<Node> {
    OnPaths(r, v, n) - Tables(owner)
  }

  lemma SubsetCount(a: set<Node>, b: set<Node>)
    requires a <= b
    ensures |a| <= |b|
  {
    assert |b - a| == |b| - |a|;
  }

  lemma {:induction false} PathsGrow(r: nat, v: nat, n: nat, m: nat)
    requires n <= m
    ensures OnPaths(r, v, n) <= OnPaths(r, v, m)
    decreases m
  {
    if n < m { PathsGrow(r, v, n, m - 1); }
  }

  lemma FewMore(t: set<Node>, a: set<Node>, b: set<Node>, all: set<Node>)
    requires all == a + b
    ensures |all - t| <= |a - t| + |b|
  {
    SubsetCount(all - t, (a - t) + b);
    assert |(a - t) + b| <= |a - t| + |b|;
  }

  lemma PathFew(r: nat, v: nat)
    ensures |OnPath(r, v)| <= 2
  {
    var x, y := Path(r, v, 1), Path(r, v, 2);
    assert |{x, y}| <= 2;
  }

  lemma {:induction false} PathsFew(t: set<Node>, r: nat, v: nat, n: nat)
    ensures |OnPaths(r, v, n) - t| <= 2 * n
  {
    if n > 0 {
      PathsFew(t, r, v, n - 1);
      PathFew(r, v + n - 1);
      FewMore(t, OnPaths(r, v, n - 1), OnPath(r, v + n - 1), OnPaths(r, v, n));
    }
  }

  /** At most two tables are missing for each page. */
  lemma MissingFew(owner: map<nat, Node>, r: nat, v: nat, n: nat)
    ensures |Missing(owner, r, v, n)| <= 2 * n
  {
    PathsFew(Tables(owner), r, v, n);
  }

  ghost predicate EnoughParts(owner: map<nat, Node>, free: seq<nat>, r: nat, v: nat, n: nat, k: nat) {
    |free| >= k + |Missing(owner, r, v, n)|
  }

  /** There are enough free pages for k pages and the tables missing on the way to the n pages from v on. */
  ghost predicate Enough(owner: map<nat, Node>, free: seq<nat>, r: nat, v: nat, n: nat, k: nat) {
    forall i: nat :: Open(PAGES_ENOUGH, i) ==> EnoughParts(owner, free, r, v, n, k)
  }

  lemma EnoughMeans(owner: map<nat, Node>, free: seq<nat>, r: nat, v: nat, n: nat, k: nat)
    ensures Enough(owner, free, r, v, n, k) <==> |free| >= k + |Missing(owner, r, v, n)|
    ensures |free| >= k + 2 * n ==> Enough(owner, free, r, v, n, k)
  {
    assert Open(PAGES_ENOUGH, 0);
    MissingFew(owner, r, v, n);
  }

  ghost predicate AddedParts(owner0: map<nat, Node>, free0: seq<nat>, owner: map<nat, Node>, free: seq<nat>,
                             ns: set<Node>)
  {
    Tables(owner) == Tables(owner0) + ns && |free0| == |free| + |ns - Tables(owner0)|
  }

  /** Since then, exactly the given nodes have got tables, as far as they had none. */
  ghost predicate Added(owner0: map<nat, Node>, free0: seq<nat>, owner: map<nat, Node>, free: seq<nat>, ns: set<Node>) {
    forall i: nat :: Open(TABLES_ADDED, i) ==> AddedParts(owner0, free0, owner, free, ns)
  }

  ghost predicate SpentParts(owner0: map<nat, Node>, free0: seq<nat>, owner: map<nat, Node>, free: seq<nat>,
                             r: nat, v: nat, n: nat, k: nat)
  {
    && Tables(owner) == Tables(owner0) + OnPaths(r, v, n)
    && |free0| == |free| + k + |Missing(owner0, r, v, n)|
  }

  /** Since then, the tables on the way to the n pages from v on have been added, and k pages besides. */
  ghost predicate Spent(owner0: map<nat, Node>, free0: seq<nat>, owner: map<nat, Node>, free: seq<nat>,
                        r: nat, v: nat, n: nat, k: nat)
  {
    forall i: nat :: Open(PAGES_SPENT, i) ==> SpentParts(owner0, free0, owner, free, r, v, n, k)
  }

  ghost predicate NoTable(owner: map<nat, Node>, n: Node) {
    forall i: nat :: Open(TABLE_MISSING, i) ==> n !in Tables(owner)
  }

  lemma SpentNone(owner: map<nat, Node>, free: seq<nat>, r: nat, v: nat)
    ensures Spent(owner, free, owner, free, r, v, 0, 0)
  {
    assert Missing(owner, r, v, 0) == {};
  }

  lemma OnePath(r: nat, v: nat)
    ensures OnPaths(r, v, 1) == OnPath(r, v)
  {
    assert OnPaths(r, v, 0) == {};
    assert v + 1 - 1 == v;
  }

  lemma CountSplits(t: set<Node>, a: set<Node>, b: set<Node>)
    ensures |(a + b) - t| == |a - t| + |b - (t + a)|
  {
    assert (a + b) - t == (a - t) + (b - (t + a));
  }

  lemma PathsNext(r: nat, v: nat, a: nat, n: nat, m: nat)
    requires a == v + n && m == n + 1
    ensures OnPaths(r, v, m) == OnPaths(r, v, n) + OnPath(r, a) && OnPaths(r, a, 1) == OnPath(r, a)
  {
    OnePath(r, a);
  }

  /** What the next page adds to the missing tables. */
  lemma MissingNext(owner0: map<nat, Node>, owner: map<nat, Node>, r: nat, v: nat, a: nat, n: nat, m: nat)
    requires Tables(owner) == Tables(owner0) + OnPaths(r, v, n) && a == v + n && m == n + 1
    ensures |Missing(owner0, r, v, m)| == |Missing(owner0, r, v, n)| + |Missing(owner, r, a, 1)|
  {
    PathsNext(r, v, a, n, m);
    CountSplits(Tables(owner0), OnPaths(r, v, n), OnPaths(r, a, 1));
  }

  lemma SpentSets(t0: set<Node>, a: set<Node>, b: set<Node>, t1: set<Node>, t2: set<Node>,
                  f0: int, f1: int, f2: int, k: int, j: int)
    requires t1 == t0 + a && t2 == t1 + b && f0 == f1 + k + |a - t0| && f1 == f2 + j + |b - t1|
    ensures t2 == t0 + (a + b) && f0 == f2 + (k + j) + |(a + b) - t0|
  {
    CountSplits(t0, a, b);
  }

  lemma SpentMore(owner0: map<nat, Node>, free0: seq<nat>, owner1: map<nat, Node>, free1: seq<nat>,
                  owner2: map<nat, Node>, free2: seq<nat>, r: nat, v: nat, a: nat, n: nat, m: nat, k: nat, j: nat,
                  all: nat)
    requires Spent(owner0, free0, owner1, free1, r, v, n, k) && Spent(owner1, free1, owner2, free2, r, a, 1, j)
    requires a == v + n && m == n + 1 && all == k + j
    ensures Spent(owner0, free0, owner2, free2, r, v, m, all)
  {
    assert Open(PAGES_SPENT, 0);
    PathsNext(r, v, a, n, m);
    SpentSets(Tables(owner0), OnPaths(r, v, n), OnPaths(r, a, 1), Tables(owner1), Tables(owner2),
              |free0|, |free1|, |free2|, k, j);
    assert SpentParts(owner0, free0, owner2, free2, r, v, m, all);
  }

  /** Too few pages for the next page are too few for all of them. */
  lemma SpentShort(owner0: map<nat, Node>, free0: seq<nat>, owner: map<nat, Node>, free: seq<nat>,
                   r: nat, v: nat, a: nat, n: nat, m: nat, k: nat, j: nat, all: nat)
    requires Spent(owner0, free0, owner, free, r, v, n, k) && !Enough(owner, free, r, a, 1, j)
    requires a == v + n && n < m && k + j <= all
    ensures !Enough(owner0, free0, r, v, m, all)
  {
    assert Open(PAGES_SPENT, 0) && Open(PAGES_ENOUGH, 0);
    MissingNext(owner0, owner, r, v, a, n, n + 1);
    PathsGrow(r, v, n + 1, m);
    SubsetCount(Missing(owner0, r, v, n + 1), Missing(owner0, r, v, m));
  }

  lemma SpentEnough(owner0: map<nat, Node>, free0: seq<nat>, owner: map<nat, Node>, free: seq<nat>,
                    r: nat, v: nat, n: nat, k: nat)
    requires Spent(owner0, free0, owner, free, r, v, n, k)
    ensures Enough(owner0, free0, r, v, n, k)
  {
    assert Open(PAGES_SPENT, 0);
  }

  lemma SpentLeaf(owner0: map<nat, Node>, free0: seq<nat>, owner1: map<nat, Node>, free1: seq<nat>,
                  owner2: map<nat, Node>, b: nat, at: Node, r: nat, v: nat, n: nat, k: nat)
    requires Spent(owner0, free0, owner1, free1, r, v, n, k)
    requires owner2 == owner1 || (b !in owner1 && at.d >= LEAF && owner2 == owner1[b := at])
    ensures Spent(owner0, free0, owner2, free1, r, v, n, k)
  {
    assert Open(PAGES_SPENT, 0);
    if owner2 != owner1 { TablesLeaf(owner1, b, at); }
  }

  /** The page itself, taken before. */
  lemma SpentExtra(owner0: map<nat, Node>, before: seq<nat>, free0: seq<nat>, owner: map<nat, Node>, free: seq<nat>,
                   r: nat, v: nat, n: nat, k: nat)
    requires Spent(owner0, free0, owner, free, r, v, n, k) && |before| == |free0| + 1
    ensures Spent(owner0, before, owner, free, r, v, n, k + 1)
  {
    assert Open(PAGES_SPENT, 0);
  }

  lemma EnoughExtra(owner: map<nat, Node>, before: seq<nat>, free: seq<nat>, r: nat, v: nat, n: nat, k: nat)
    requires |before| == |free| + 1
    ensures Enough(owner, before, r, v, n, k + 1) <==> Enough(owner, free, r, v, n, k)
  {
    assert Open(PAGES_ENOUGH, 0);
  }

  lemma NotEnough(owner: map<nat, Node>, free: seq<nat>, r: nat, v: nat, n: nat, k: nat)
    requires free == [] && k > 0
    ensures !Enough(owner, free, r, v, n, k)
  {
    assert Open(PAGES_ENOUGH, 0);
  }

  // ----- One walk -----

  /** The tables on the way to virtual page v, down to depth d. */
  function Prefix(r: nat, v: nat, d: nat): set<Node> {
    if d == 0 then {} else if d == 1 then {Path(r, v, 1)} else OnPath(r, v)
  }

  lemma AddedNone(owner: map<nat, Node>, free: seq<nat>)
    ensures Added(owner, free, owner, free, {})
  {
    assert {} - Tables(owner) == {};
  }

  lemma AddedThere(owner: map<nat, Node>, free: seq<nat>, n: Node)
    requires n in Tables(owner)
    ensures Added(owner, free, owner, free, {n})
  {
    assert {n} - Tables(owner) == {};
  }

  lemma AddedNew(owner: map<nat, Node>, free: seq<nat>, b: nat, n: Node, free': seq<nat>)
    requires b !in owner && n.d < LEAF && n !in Tables(owner) && |free| == |free'| + 1
    ensures Added(owner, free, owner[b := n], free', {n})
  {
    TablesPlus(owner, b, n);
    assert {n} - Tables(owner) == {n};
  }

  lemma AddedMore(owner0: map<nat, Node>, free0: seq<nat>, owner1: map<nat, Node>, free1: seq<nat>,
                  owner2: map<nat, Node>, free2: seq<nat>, done: set<Node>, n: Node, all: set<Node>)
    requires Added(owner0, free0, owner1, free1, done) && Added(owner1, free1, owner2, free2, {n}) && all == done + {n}
    ensures Added(owner0, free0, owner2, free2, all)
  {
    assert Open(TABLES_ADDED, 0);
    SpentSets(Tables(owner0), done, {n}, Tables(owner1), Tables(owner2), |free0|, |free1|, |free2|, 0, 0);
  }

  lemma PrefixNext(r: nat, v: nat, d: nat)
    requires d < 2
    ensures Prefix(r, v, d + 1) == Prefix(r, v, d) + {Path(r, v, d + 1)} && Prefix(r, v, d + 1) <= OnPath(r, v)
  {
  }

  lemma AddedStep(owner0: map<nat, Node>, free0: seq<nat>, owner1: map<nat, Node>, free1: seq<nat>,
                  owner2: map<nat, Node>, free2: seq<nat>, r: nat, v: nat, d: nat, n: Node)
    requires d < 2 && Added(owner0, free0, owner1, free1, Prefix(r, v, d)) && n == Path(r, v, d + 1)
    requires Added(owner1, free1, owner2, free2, {n})
    ensures Added(owner0, free0, owner2, free2, Prefix(r, v, d + 1))
  {
    PrefixNext(r, v, d);
    AddedMore(owner0, free0, owner1, free1, owner2, free2, Prefix(r, v, d), n, Prefix(r, v, d + 1));
  }

  lemma AddedAll(owner0: map<nat, Node>, free0: seq<nat>, owner: map<nat, Node>, free: seq<nat>, r: nat, v: nat)
    requires Added(owner0, free0, owner, free, Prefix(r, v, 2))
    ensures Spent(owner0, free0, owner, free, r, v, 1, 0)
  {
    assert Open(TABLES_ADDED, 0);
    OnePath(r, v);
  }

  lemma ShortSets(t: set<Node>, done: set<Node>, n: Node, all: set<Node>)
    requires done + {n} <= all && n !in t + done
    ensures |done - t| < |all - t|
  {
    assert |(done - t) + {n}| == |done - t| + 1;
    SubsetCount((done - t) + {n}, all - t);
  }

  /** A walk that finds no page for the next table had too few from the start. */
  lemma WalkShort(owner0: map<nat, Node>, free0: seq<nat>, owner: map<nat, Node>, r: nat, v: nat, d: nat)
    requires d < 2 && Added(owner0, free0, owner, [], Prefix(r, v, d)) && NoTable(owner, Path(r, v, d + 1))
    ensures !Enough(owner0, free0, r, v, 1, 0)
  {
    PrefixNext(r, v, d);
    OnePath(r, v);
    NotAll(owner0, free0, owner, Prefix(r, v, d), Path(r, v, d + 1), OnPath(r, v));
    EnoughMeans(owner0, free0, r, v, 1, 0);
  }

  lemma NotAll(owner0: map<nat, Node>, free0: seq<nat>, owner: map<nat, Node>, done: set<Node>, n: Node, all: set<Node>)
    requires Added(owner0, free0, owner, [], done) && NoTable(owner, n) && done + {n} <= all
    ensures |free0| < |all - Tables(owner0)|
  {
    assert Open(TABLES_ADDED, 0) && Open(TABLE_MISSING, 0);
    ShortSets(Tables(owner0), done, n, all);
  }

  /** One more table, or none because there was one. */
  lemma TablesPlus(owner: map<nat, Node>, b: nat, n: Node)
    requires b !in owner && n.d < LEAF
    ensures Tables(owner[b := n]) == Tables(owner) + {n}
  {
    var owner' := owner[b := n];
    forall m | m in Tables(owner) ensures m in Tables(owner') {
      var p :| p in owner && owner[p] == m;
      assert p in owner' && owner'[p] == m;
    }
    assert owner'[b] == n;
  }

  /** A leaf page is not a table. */
  lemma TablesLeaf(owner: map<nat, Node>, b: nat, n: Node)
    requires b !in owner && n.d >= LEAF
    ensures Tables(owner[b := n]) == Tables(owner)
  {
    var owner' := owner[b := n];
    forall m | m in Tables(owner) ensures m in Tables(owner') {
      var p :| p in owner && owner[p] == m;
      assert p in owner' && owner'[p] == m;
    }
  }

  /** A node has a page exactly if it is among the tables. */
  lemma TableThere(mem: seq<Page>, flat: map<nat, Space>, owner: map<nat, Node>, lent: set<Node>, n: Node)
    requires Sound(mem, flat, owner, lent) && IsNode(n, flat.Keys) && n.d < LEAF
    ensures PageOf(mem, n) != 0 <==> n in Tables(owner)
  {
    OwnerOf(mem, flat.Keys, owner, lent, n);
    if n in Tables(owner) {
      var p :| p in owner && owner[p] == n;
      OwnedBy(mem, flat.Keys, owner, lent, p);
    }
  }
}

/** What the allocation of page-table pages leaves alone. */
module Growth {
  import opened Folding
  import opened PageTree

  ghost predicate GrewParts(mem: seq<Page>, owner: map<nat, Node>, free: seq<nat>,
                            mem': seq<Page>, owner': map<nat, Node>, free': seq<nat>, loose: set<nat>) {
    && |mem'| == |mem| && |free'| <= |free| && free' == free[|free| - |free'|..]
    && (forall p :: p in owner ==> p in owner' && owner'[p] == owner[p])
    && (forall p :: p in owner' && p !in owner ==> owner'[p].d < LEAF && p in free)
    && (forall p :: 0 <= p < |mem| && (p in loose || (p in owner && owner[p].d == LEAF)) ==> mem'[p] == mem[p])
  }

  /** Only tables from the front of the free list have been added; no mapped or loose page changed. */
  ghost predicate Grew(mem: seq<Page>, owner: map<nat, Node>, free: seq<nat>,
                       mem': seq<Page>, owner': map<nat, Node>, free': seq<nat>, loose: set<nat>) {
    forall n: nat :: Open(TABLES_GREW, n) ==> GrewParts(mem, owner, free, mem', owner', free', loose)
  }

  lemma GrewNot(mem: seq<Page>, owner: map<nat, Node>, free: seq<nat>, loose: set<nat>)
    ensures Grew(mem, owner, free, mem, owner, free, loose)
  {
  }

  lemma GrewTwice(mem: seq<Page>, owner: map<nat, Node>, free: seq<nat>, mem1: seq<Page>, owner1: map<nat, Node>,
                  free1: seq<nat>,
                  mem2: seq<Page>, owner2: map<nat, Node>, free2: seq<nat>, loose: set<nat>)
    requires Grew(mem, owner, free, mem1, owner1, free1, loose) && Grew(mem1, owner1, free1, mem2, owner2, free2, loose)
    ensures Grew(mem, owner, free, mem2, owner2, free2, loose)
  {
    assert Open(TABLES_GREW, 0);
    forall p | p in owner2 && p !in owner ensures owner2[p].d < LEAF && p in free {
      if p !in owner1 { assert p in free1; }
    }
  }

  lemma GrewMore(mem: seq<Page>, owner: map<nat, Node>, free: seq<nat>, mem1: seq<Page>, owner1: map<nat, Node>,
                 free1: seq<nat>,
                 mem2: seq<Page>, owner2: map<nat, Node>, free2: seq<nat>, loose: set<nat>, loose2: set<nat>)
    requires Grew(mem, owner, free, mem1, owner1, free1, loose)
    requires Grew(mem1, owner1, free1, mem2, owner2, free2, loose2) && loose2 <= loose
    ensures Grew(mem, owner, free, mem2, owner2, free2, loose2)
  {
    assert Grew(mem, owner, free, mem1, owner1, free1, loose2) by { assert Open(TABLES_GREW, 0); }
    GrewTwice(mem, owner, free, mem1, owner1, free1, mem2, owner2, free2, loose2);
  }

  lemma GrewOne(mem: seq<Page>, owner: map<nat, Node>, free: seq<nat>, loose: set<nat>, q: nat, d: Page, b: nat,
                n: Node, mem': seq<Page>)
    requires free != [] && b == free[0] && b !in owner && b !in loose && b < |mem| && q in owner && owner[q].d < LEAF
    requires q < |mem| && q !in loose
    requires n.d < LEAF && mem' == mem[b := EMPTY][q := d]
    ensures Grew(mem, owner, free, mem', owner[b := n], free[1..], loose)
  {
  }

  /** After the tables, an entry in one of them changes. */
  lemma GrewLeaf(mem: seq<Page>, owner: map<nat, Node>, free: seq<nat>, mem1: seq<Page>, owner1: map<nat, Node>,
                 mem2: seq<Page>, owner2: map<nat, Node>, free1: seq<nat>, loose: set<nat>, loose2: set<nat>, q: nat)
    requires Grew(mem, owner, free, mem1, owner1, free1, loose) && loose2 <= loose && owner2 == owner1
    requires q in owner1 && owner1[q].d < LEAF && q !in loose && |mem2| == |mem1|
    requires forall p :: 0 <= p < |mem1| && p != q ==> mem2[p] == mem1[p]
    ensures Grew(mem, owner, free, mem2, owner2, free1, loose2)
  {
    assert Open(TABLES_GREW, 0);
  }

  lemma GrewFacts(mem: seq<Page>, owner: map<nat, Node>, free: seq<nat>,
                  mem': seq<Page>, owner': map<nat, Node>, free': seq<nat>, loose: set<nat>, p: nat)
    requires Grew(mem, owner, free, mem', owner', free', loose)
    ensures |mem'| == |mem| && (p in owner ==> p in owner' && owner'[p] == owner[p])
    ensures p in owner' && p !in owner ==> owner'[p].d < LEAF && p in free
    ensures p < |mem| && (p in loose || (p in owner && owner[p].d == LEAF)) ==> mem'[p] == mem[p]
    ensures |free'| <= |free| && free' == free[|free| - |free'|..]
  {
    assert Open(TABLES_GREW, 0);
  }
}

/** What allocating and mapping pages amounts to. */
module Filling {
  import opened Folding
  import opened PageTree
  import opened Growth

  ghost predicate OnlyTablesParts(mem: seq<Page>, owner: map<nat, Node>, mem': seq<Page>, owner': map<nat, Node>,
                                  loose: set<nat>) {
    && |mem'| == |mem|
    && (forall p :: p in owner ==> p in owner' && owner'[p] == owner[p])
    && (forall p :: p in owner' && p !in owner ==> owner'[p].d < LEAF)
    && (forall p :: 0 <= p < |mem| && (p in loose || (p in owner && owner[p].d == LEAF)) ==> mem'[p] == mem[p])
  }

  /** Nothing but page-table pages has been added; no mapped or loose page changed. */
  ghost predicate OnlyTables(mem: seq<Page>, owner: map<nat, Node>, mem': seq<Page>, owner': map<nat, Node>,
                             loose: set<nat>) {
    forall n: nat :: Open(ONLY_TABLES, n) ==> OnlyTablesParts(mem, owner, mem', owner', loose)
  }

  lemma OnlyTablesNone(mem: seq<Page>, owner: map<nat, Node>, loose: set<nat>)
    ensures OnlyTables(mem, owner, mem, owner, loose)
  {
  }

  /** One page b on top of what was mapped in the meantime. */
  lemma OnlyTablesMore(mem: seq<Page>, owner: map<nat, Node>, mem1: seq<Page>, owner1: map<nat, Node>, pages: set<nat>,
                       mem2: seq<Page>, owner2: map<nat, Node>, more: set<nat>, loose: set<nat>)
    requires OnlyTables(mem, owner, mem1, owner1 - pages, loose) && OnlyTables(mem1, owner1, mem2, owner2 - more, loose)
    requires more !! pages && forall p :: p in more ==> p !in owner1
    ensures OnlyTables(mem, owner, mem2, owner2 - (pages + more), loose)
  {
    assert Open(ONLY_TABLES, 0);
    forall p | p in owner2 && p !in pages + more && p !in owner ensures owner2[p].d < LEAF {
      assert p in owner2 - more;
    }
  }

  /** A page taken from the free list and linked in: beside the tables only that page is new. */
  lemma OnlyTablesPage(mem: seq<Page>, owner: map<nat, Node>, free: seq<nat>, loose: set<nat>, b: nat, d: Page,
                       mem': seq<Page>, owner': map<nat, Node>, free': seq<nat>, loose': set<nat>)
    requires b < |mem| && b !in owner && b !in loose && loose <= loose'
    requires Grew(mem[b := d], owner, free, mem', owner', free', loose')
    ensures OnlyTables(mem, owner, mem', owner', loose)
  {
    assert Open(TABLES_GREW, 0);
  }

  lemma OnlyTablesKeep(mem: seq<Page>, owner: map<nat, Node>, mem': seq<Page>, owner': map<nat, Node>, loose: set<nat>,
                       p: nat)
    requires OnlyTables(mem, owner, mem', owner', loose)
    ensures |mem'| == |mem|
    ensures (p < |mem| && p in owner && owner[p].d == LEAF ==>
        mem'[p] == mem[p] && p in owner' && owner'[p] == owner[p])
  {
    assert Open(ONLY_TABLES, 0);
  }

  lemma OnlyTablesThen(mem: seq<Page>, owner: map<nat, Node>, mem1: seq<Page>, owner1: map<nat, Node>, loose: set<nat>,
                       b: nat, d: Page)
    requires OnlyTables(mem, owner, mem1, owner1, loose) && b < |mem| && b !in owner && b !in loose
    ensures |mem1| == |mem| && OnlyTables(mem, owner, mem1[b := d], owner1, loose)
  {
    assert Open(ONLY_TABLES, 0);
  }
}

/** What unmapping leaves alone. */
module Shrinking {
  import opened Folding
  import opened PageTree

  /** The mapped pages that remain and the loose pages are unchanged. */
  ghost predicate Kept(mem: seq<Page>, mem': seq<Page>, owner': map<nat, Node>, loose: set<nat>) {
    |mem'| == |mem| && forall p: nat :: p < |mem| && (p in loose || (p in owner' && owner'[p].d == LEAF)) ==>
        mem'[p] == mem[p]
  }

  /** The pages of n mapped virtual pages, as far as they are not lent. */
  ghost function Gone(owner: map<nat, Node>, r: nat, v: nat, n: nat): set<nat> {
    PagesAt(owner, Leaves(r, v, n))
  }

  ghost predicate UnmappedParts(flat: map<nat, Space>, owner: map<nat, Node>, lent: set<Node>, free: seq<nat>,
                                loose: set<nat>,
                                flat': map<nat, Space>, owner': map<nat, Node>, lent': set<Node>, free': seq<nat>,
                                loose': set<nat>,
                                r: nat, v: nat, n: nat, doFree: bool) {
    && r in flat && flat' == flat[r := flat[r] - Vpns(v, n)] && lent' == lent - Leaves(r, v, n)
    && owner' == owner - Gone(owner, r, v, n)
    && (forall p :: p in free' <==> p in free || (doFree && p in Gone(owner, r, v, n)))
    && loose' == loose + if doFree then {} else Gone(owner, r, v, n)
  }

  /** Exactly n translations from v on have gone, and their pages went to the free list or to the caller. */
  ghost predicate Unmapped(flat: map<nat, Space>, owner: map<nat, Node>, lent: set<Node>, free: seq<nat>,
                           loose: set<nat>,
                           flat': map<nat, Space>, owner': map<nat, Node>, lent': set<Node>, free': seq<nat>,
                           loose': set<nat>,
                           r: nat, v: nat, n: nat, doFree: bool) {
    forall k: nat :: Open(UNMAPPED, k) ==> UnmappedParts(flat, owner, lent, free, loose, flat', owner', lent', free',
        loose', r, v, n, doFree)
  }

  lemma UnmappedNone(flat: map<nat, Space>, owner: map<nat, Node>, lent: set<Node>, free: seq<nat>, loose: set<nat>,
                     r: nat, v: nat, doFree: bool)
    requires r in flat
    ensures Unmapped(flat, owner, lent, free, loose, flat, owner, lent, free, loose, r, v, 0, doFree)
  {
    assert flat[r] - Vpns(v, 0) == flat[r];
    assert flat[r := flat[r] - Vpns(v, 0)] == flat;
    assert Gone(owner, r, v, 0) == {};
    assert owner - Gone(owner, r, v, 0) == owner;
  }

  lemma StillMapped(flat: map<nat, Space>, owner: map<nat, Node>, lent: set<Node>, free: seq<nat>, loose: set<nat>,
                    flat': map<nat, Space>, owner': map<nat, Node>, lent': set<Node>, free': seq<nat>, loose': set<nat>,
                    r: nat, v: nat, n: nat, doFree: bool)
    requires Unmapped(flat, owner, lent, free, loose, flat', owner', lent', free', loose', r, v, n, doFree)
    ensures r in flat && r in flat' && (v + n in flat[r] ==> v + n in flat'[r] && flat'[r][v + n] == flat[r][v + n])
    ensures Node(r, LEAF, v + n) in lent' <==> Node(r, LEAF, v + n) in lent
  {
    assert Open(UNMAPPED, 0);
    VpnsAre(v, n);
    LeavesAre(r, v, n);
  }

  lemma UnmappedNext(mem: seq<Page>, flat: map<nat, Space>, owner: map<nat, Node>, lent: set<Node>, free: seq<nat>,
                     loose: set<nat>,
                     flat1: map<nat, Space>, owner1: map<nat, Node>, lent1: set<Node>, free1: seq<nat>,
                     loose1: set<nat>,
                     flat2: map<nat, Space>, owner2: map<nat, Node>, lent2: set<Node>, free2: seq<nat>,
                     loose2: set<nat>,
                     r: nat, v: nat, n: nat, doFree: bool, pa: nat)
    requires Sound(mem, flat, owner, lent) && r in flat && v + n < NVPN && v + n in flat[r] && pa == flat[r][v + n].ppn
    requires Unmapped(flat, owner, lent, free, loose, flat1, owner1, lent1, free1, loose1, r, v, n, doFree)
    requires r in flat1 && flat2 == Without(flat1, r, v + n) && lent2 == lent1 - {Node(r, LEAF, v + n)}
    requires if Node(r, LEAF, v + n) in lent then owner2 == owner1 && free2 == free1 && loose2 == loose1
             else && owner2 == owner1 - {pa} && free2 == (if doFree then [pa] + free1 else free1)
                  && loose2 == (if doFree then loose1 else loose1 + {pa})
    ensures Unmapped(flat, owner, lent, free, loose, flat2, owner2, lent2, free2, loose2, r, v, n + 1, doFree)
  {
    assert Open(UNMAPPED, 0);
    NextPage(mem, flat, owner, lent, r, v, n);
    assert flat2[r] == flat[r] - Vpns(v, n + 1);
    assert flat2 == flat[r := flat[r] - Vpns(v, n + 1)];
    assert owner2 == owner - Gone(owner, r, v, n + 1);
  }
}

/** Several pages allocated and mapped one after the other, and how that is undone. */
module Taking {
  import opened Folding
  import opened PageTree
  import opened Filling
  import opened Shrinking

  /** Virtual pages from v on with these entries. */
  function AddAll(m: Space, v: nat, ptes: seq<Pte>): Space {
    if ptes == [] then m
    else
      var space: Space := AddAll(m, v, ptes[..|ptes| - 1])[v + |ptes| - 1 := ptes[|ptes| - 1]];
      space
  }

  lemma {:induction false} AddAllAt(m: Space, v: nat, ptes: seq<Pte>)
    ensures forall u: nat :: u in AddAll(m, v, ptes) <==> u in m || v <= u < v + |ptes|
    ensures forall u: nat :: u in AddAll(m, v, ptes) ==>
      AddAll(m, v, ptes)[u] == if v <= u < v + |ptes| then ptes[u - v] else m[u]
  {
    if ptes != [] { AddAllAt(m, v, ptes[..|ptes| - 1]); }
  }

  ghost function PagesIn(ptes: seq<Pte>): set<nat> {
    set i | 0 <= i < |ptes| :: ptes[i].ppn
  }

  ghost predicate FilledParts(mem: seq<Page>, owner: map<nat, Node>, loose: set<nat>, r: nat, v: nat, ptes: seq<Pte>,
                              contents: seq<Page>) {
    && |contents| == |ptes|
    && forall i :: 0 <= i < |ptes| ==>
         && ptes[i].ppn in owner && owner[ptes[i].ppn] == Node(r, LEAF, v + i) && ptes[i].ppn !in loose
         && ptes[i].ppn < |mem| && mem[ptes[i].ppn] == contents[i]
  }

  /** The pages of these entries belong to the virtual pages from v on and hold these contents. */
  ghost predicate Filled(mem: seq<Page>, owner: map<nat, Node>, loose: set<nat>, r: nat, v: nat, ptes: seq<Pte>,
                         contents: seq<Page>) {
    forall k: nat :: Open(PAGES_FILLED, k) ==> FilledParts(mem, owner, loose, r, v, ptes, contents)
  }

  lemma FilledNext(mem: seq<Page>, owner: map<nat, Node>, mem': seq<Page>, owner': map<nat, Node>, loose: set<nat>,
                   r: nat, v: nat, ptes: seq<Pte>, contents: seq<Page>, e: Pte, d: Page)
    requires Filled(mem, owner, loose, r, v, ptes, contents) && OnlyTables(mem, owner, mem', owner' - {e.ppn}, loose)
    requires e.ppn !in owner && e.ppn !in loose && e.ppn in owner' && owner'[e.ppn] == Node(r, LEAF, v + |ptes|)
    requires e.ppn < |mem'| && mem'[e.ppn] == d
    ensures Filled(mem', owner', loose, r, v, ptes + [e], contents + [d]) && e.ppn !in PagesIn(ptes)
    ensures PagesIn(ptes + [e]) == PagesIn(ptes) + {e.ppn}
  {
    assert Open(ONLY_TABLES, 0) && Open(PAGES_FILLED, 0);
    forall i | 0 <= i < |ptes| + 1 ensures (ptes + [e])[i].ppn in PagesIn(ptes) + {e.ppn} {}
    forall i | 0 <= i < |ptes| ensures ptes[i].ppn in PagesIn(ptes + [e]) { assert (ptes + [e])[i] == ptes[i]; }
    assert (ptes + [e])[|ptes|] == e;
  }

  /** Which pages uvmunmap frees when it undoes this. */
  lemma FilledGone(mem: seq<Page>, flat: map<nat, Space>, owner: map<nat, Node>, lent: set<Node>, loose: set<nat>,
                   r: nat, v: nat, ptes: seq<Pte>, contents: seq<Page>)
    requires Sound(mem, flat, owner, lent) && Filled(mem, owner, loose, r, v, ptes, contents)
    ensures Gone(owner, r, v, |ptes|) == PagesIn(ptes)
    ensures forall u: nat :: v <= u < v + |ptes| ==> Node(r, LEAF, u) !in lent
  {
    assert Open(PAGES_FILLED, 0);
    LeavesAre(r, v, |ptes|);
    forall u: nat | v <= u < v + |ptes|
      ensures Node(r, LEAF, u) !in lent && PageOf(mem, Node(r, LEAF, u)) == ptes[u - v].ppn {
      OwnedBy(mem, flat.Keys, owner, lent, ptes[u - v].ppn);
    }
    forall p | p in Gone(owner, r, v, |ptes|) ensures p in PagesIn(ptes) {
      OwnedBy(mem, flat.Keys, owner, lent, p);
      assert owner[p] == Node(r, LEAF, owner[p].k);
      assert p == ptes[owner[p].k - v].ppn;
    }
  }

  /** Beside page-table pages, exactly the pages of these entries have been allocated and mapped. */
  ghost predicate Took(mem: seq<Page>, flat: map<nat, Space>, owner: map<nat, Node>, mem': seq<Page>, flat': map<nat,
                       Space>, owner': map<nat, Node>,
                       loose: set<nat>, r: nat, v: nat, ptes: seq<Pte>, contents: seq<Page>) {
    && r in flat && flat' == flat[r := AddAll(flat[r], v, ptes)] && Filled(mem', owner', loose, r, v, ptes, contents)
    && OnlyTables(mem, owner, mem', owner' - PagesIn(ptes), loose)
  }

  lemma TookNone(mem: seq<Page>, flat: map<nat, Space>, owner: map<nat, Node>, loose: set<nat>, r: nat, v: nat)
    requires r in flat
    ensures Took(mem, flat, owner, mem, flat, owner, loose, r, v, [], [])
  {
    OnlyTablesNone(mem, owner, loose);
    assert owner - PagesIn([]) == owner;
    assert flat[r := AddAll(flat[r], v, [])] == flat;
  }

  lemma TookNext(mem: seq<Page>, flat: map<nat, Space>, owner: map<nat, Node>, mem1: seq<Page>, flat1: map<nat, Space>,
                 owner1: map<nat, Node>,
                 mem2: seq<Page>, flat2: map<nat, Space>, owner2: map<nat, Node>,
                 loose: set<nat>, r: nat, v: nat, ptes: seq<Pte>, contents: seq<Page>, e: Pte, d: Page)
    requires Took(mem, flat, owner, mem1, flat1, owner1, loose, r, v, ptes, contents) && r in flat1
    requires flat2 == WithEntry(flat1, r, v + |ptes|, e) && OnlyTables(mem1, owner1, mem2, owner2 - {e.ppn}, loose)
    requires e.ppn !in owner1 && e.ppn !in loose && e.ppn in owner2 && owner2[e.ppn] == Node(r, LEAF, v + |ptes|)
    requires e.ppn < |mem2| && mem2[e.ppn] == d
    ensures Took(mem, flat, owner, mem2, flat2, owner2, loose, r, v, ptes + [e], contents + [d])
  {
    FilledNext(mem1, owner1, mem2, owner2, loose, r, v, ptes, contents, e, d);
    OnlyTablesMore(mem, owner, mem1, owner1, PagesIn(ptes), mem2, owner2, {e.ppn}, loose);
    assert (ptes + [e])[..|ptes|] == ptes;
    assert AddAll(flat[r], v, ptes + [e]) == AddAll(flat[r], v, ptes)[v + |ptes| := e];
  }

  lemma TookTables(mem: seq<Page>, flat: map<nat, Space>, owner: map<nat, Node>, mem1: seq<Page>, flat1: map<nat,
                   Space>, owner1: map<nat, Node>,
                   mem2: seq<Page>, owner2: map<nat, Node>, loose: set<nat>, r: nat, v: nat, ptes: seq<Pte>,
                   contents: seq<Page>)
    requires Took(mem, flat, owner, mem1, flat1, owner1, loose, r, v, ptes, contents)
    requires OnlyTables(mem1, owner1, mem2, owner2, loose)
    ensures Took(mem, flat, owner, mem2, flat1, owner2, loose, r, v, ptes, contents)
  {
    assert Filled(mem2, owner2, loose, r, v, ptes, contents) by { assert Open(ONLY_TABLES, 0)
           && Open(PAGES_FILLED, 0); }
    assert owner2 - {} == owner2;
    OnlyTablesMore(mem, owner, mem1, owner1, PagesIn(ptes), mem2, owner2, {}, loose);
    assert PagesIn(ptes) + {} == PagesIn(ptes);
  }

  /** What was mapped can be unmapped and freed. */
  lemma TookBack(mem: seq<Page>, flat: map<nat, Space>, owner: map<nat, Node>, mem1: seq<Page>, flat1: map<nat, Space>,
                 owner1: map<nat, Node>,
                 lent: set<Node>, loose: set<nat>, r: nat, v: nat, ptes: seq<Pte>, contents: seq<Page>)
    requires Took(mem, flat, owner, mem1, flat1, owner1, loose, r, v, ptes, contents)
    requires Sound(mem1, flat1, owner1, lent)
    ensures r in flat1
    ensures forall u: nat :: v <= u < v + |ptes| ==>
      u in flat1[r] && flat1[r][u] == ptes[u - v] && Node(r, LEAF, u) !in lent
    ensures Gone(owner1, r, v, |ptes|) == PagesIn(ptes)
  {
    AddAllAt(flat[r], v, ptes);
    FilledGone(mem1, flat1, owner1, lent, loose, r, v, ptes, contents);
  }

  /** After uvmunmap of what was mapped, the spaces are as before and only page-table pages remain. */
  lemma Undone(mem0: seq<Page>, flat0: map<nat, Space>, owner0: map<nat, Node>, mem: seq<Page>, flat: map<nat, Space>,
               owner: map<nat, Node>,
               lent: set<Node>, free: seq<nat>, loose: set<nat>, mem': seq<Page>, flat': map<nat, Space>,
               owner': map<nat, Node>,
               lent': set<Node>, free': seq<nat>, loose': set<nat>, r: nat, v: nat, ptes: seq<Pte>, contents: seq<Page>)
    requires Took(mem0, flat0, owner0, mem, flat, owner, loose, r, v, ptes, contents)
    requires Gone(owner, r, v, |ptes|) == PagesIn(ptes)
    requires forall u: nat :: v <= u < v + |ptes| ==> u !in flat0[r] && Node(r, LEAF, u) !in lent
    requires Unmapped(flat, owner, lent, free, loose, flat', owner', lent', free', loose', r, v, |ptes|, true)
    requires Kept(mem, mem', owner', loose)
    ensures flat' == flat0 && lent' == lent && loose' == loose && OnlyTables(mem0, owner0, mem', owner', loose)
  {
    assert Open(UNMAPPED, 0) && Open(ONLY_TABLES, 0);
    AddAllAt(flat0[r], v, ptes);
    VpnsAre(v, |ptes|);
    LeavesAre(r, v, |ptes|);
    assert AddAll(flat0[r], v, ptes) - Vpns(v, |ptes|) == flat0[r];
  }
}
