/** How often the lottery draws each class in a full period of its generator. */
module LotteryShare {
  import opened Arithmetic
  import opened LotteryDraw

  /** The class that sorteio_prioridade returns when the generator has just moved to `seed`. */
  function SeedClass(seed: nat): (c: nat)
    ensures c < 4
  {
    ClassOf(Draw(seed))
  }

  /** How many of the next n draws from seed x are of class c. */
  function Drawn(x: nat, n: nat, c: nat): nat {
    if n == 0 then 0 else Drawn(x, n - 1, c) + if SeedClass(Iter(x, n)) == c then 1 else 0
  }

  /** How many of the numbers below n are of class c when they are seeds. */
  function Seeds(n: nat, c: nat): nat {
    if n == 0 then 0 else Seeds(n - 1, c) + if SeedClass(n - 1) == c then 1 else 0
  }

  // ----- Draws and seeds have the same counts -----

  ghost function DrawnAt(x: nat, n: nat, c: nat): set<nat> {
    set k: nat | 1 <= k <= n && SeedClass(Iter(x, k)) == c
  }

  ghost function SeedSet(n: nat, c: nat): set<nat> {
    set y: nat | y < n && SeedClass(y) == c
  }

  lemma {:induction false} DrawnIsCard(x: nat, n: nat, c: nat)
    ensures |DrawnAt(x, n, c)| == Drawn(x, n, c)
  {
    if n > 0 {
      DrawnIsCard(x, n - 1, c);
      if SeedClass(Iter(x, n)) == c {
        assert DrawnAt(x, n, c) == DrawnAt(x, n - 1, c) + {n};
      } else {
        assert DrawnAt(x, n, c) == DrawnAt(x, n - 1, c);
      }
    }
  }

  lemma {:induction false} SeedsIsCard(n: nat, c: nat)
    ensures |SeedSet(n, c)| == Seeds(n, c)
  {
    if n > 0 {
      SeedsIsCard(n - 1, c);
      if SeedClass(n - 1) == c {
        assert SeedSet(n, c) == SeedSet(n - 1, c) + {n - 1};
      } else {
        assert SeedSet(n, c) == SeedSet(n - 1, c);
      }
    }
  }

  /** Draws at distinct times of one period hit distinct seeds. */
  lemma {:induction false} Injection(x: nat, times: set<nat>, seeds: set<nat>)
    requires x < M && forall k :: k in times ==> 1 <= k <= M && Iter(x, k) in seeds
    ensures |times| <= |seeds|
    decreases times
  {
    if times != {} {
      var k :| k in times;
      forall j | j in times - {k} ensures Iter(x, j) in seeds - {Iter(x, k)} {
        if j < k { NoRepeat(x, j, k); } else { NoRepeat(x, k, j); }
      }
      Injection(x, times - {k}, seeds - {Iter(x, k)});
    }
  }

  lemma AtMostSeeds(x: nat, c: nat, n: nat)
    requires x < M && n == M
    ensures Drawn(x, n, c) <= Seeds(n, c)
  {
    DrawnIsCard(x, n, c);
    SeedsIsCard(n, c);
    Injection(x, DrawnAt(x, n, c), SeedSet(n, c));
  }

  lemma {:induction false} DrawnAddUp(x: nat, n: nat)
    ensures Drawn(x, n, 0) + Drawn(x, n, 1) + Drawn(x, n, 2) + Drawn(x, n, 3) == n
  {
    if n > 0 { DrawnAddUp(x, n - 1); }
  }

  lemma {:induction false} SeedsAddUp(n: nat)
    ensures Seeds(n, 0) + Seeds(n, 1) + Seeds(n, 2) + Seeds(n, 3) == n
  {
    if n > 0 { SeedsAddUp(n - 1); }
  }

  /** In 2^32 consecutive draws each class comes up once for every seed of that class. */
  lemma DrawnIsSeeds(x: nat, c: nat, n: nat)
    requires x < M && c < 4 && n == M
    ensures Drawn(x, n, c) == Seeds(n, c)
  {
    AtMostSeeds(x, 0, n);
    AtMostSeeds(x, 1, n);
    AtMostSeeds(x, 2, n);
    AtMostSeeds(x, 3, n);
    DrawnAddUp(x, n);
    SeedsAddUp(n);
  }

  // ----- Counting the seeds -----

  /** How many numbers below n, seen as the upper half of a seed, give class c. */
  function Highs(n: nat, c: nat): nat {
    if n == 0 then 0 else Highs(n - 1, c) + if ClassOf((n - 1) % 32768) == c then 1 else 0
  }

  lemma {:induction false} SeedsInBlock(h: nat, r: nat, c: nat)
    requires r <= 65536
    ensures Seeds(65536 * h + r, c) == Seeds(65536 * h, c) + if ClassOf(h % 32768) == c then r else 0
  {
    if r > 0 {
      SeedsInBlock(h, r - 1, c);
      DivUnique(65536 * h + r - 1, 65536, h, r - 1);
    }
  }

  lemma {:induction false} SeedsByHighs(h: nat, c: nat)
    ensures Seeds(65536 * h, c) == 65536 * Highs(h, c)
  {
    if h > 0 {
      SeedsByHighs(h - 1, c);
      SeedsInBlock(h - 1, 65536, c);
    }
  }

  lemma {:induction false} HighsRepeat(n: nat, r: nat, c: nat)
    requires n == 32768 && r <= n
    ensures Highs(n + r, c) == Highs(n, c) + Highs(r, c)
  {
    if r > 0 {
      HighsRepeat(n, r - 1, c);
      DivUnique(n + r - 1, n, 1, r - 1);
    }
  }

  /** Tickets below r in one round of twelve that belong to class c. */
  function TicketsBelow(r: nat, c: nat): nat {
    if r == 0 then 0 else TicketsBelow(r - 1, c) + if ClassOf(r - 1) == c then 1 else 0
  }

  lemma {:induction false} HighsInRound(q: nat, r: nat, c: nat)
    requires 12 * q + r <= 32768 && r <= 12
    ensures Highs(12 * q + r, c) == Highs(12 * q, c) + TicketsBelow(r, c)
  {
    if r > 0 {
      HighsInRound(q, r - 1, c);
      SameTicket(q, r - 1);
      assert (12 * q + r - 1) % 32768 == 12 * q + r - 1;
    }
  }

  lemma SameTicket(q: nat, r: nat)
    requires r < 12
    ensures ClassOf(12 * q + r) == ClassOf(r)
  {
    DivUnique(12 * q + r, 12, q, r);
  }

  lemma {:induction false} HighsByRounds(q: nat, c: nat, t: nat)
    requires 12 * q <= 32768 && t == TicketsBelow(12, c)
    ensures Highs(12 * q, c) == q * t
  {
    if q > 0 {
      HighsByRounds(q - 1, c, t);
      HighsInRound(q - 1, 12, c);
      Distribute(q - 1, 1, t);
    }
  }

  function ClassTickets(c: nat): nat
    requires c < 4
  {
    [6, 3, 2, 1][c]
  }

  /** Upper halves of class c below 32768. */
  function Share(c: nat): (r: nat)
    requires c < 4
  {
    [16386, 8192, 5460, 2730][c]
  }

  lemma TwelveTickets(c: nat)
    requires c < 4
    ensures TicketsBelow(12, c) == ClassTickets(c) && TicketsBelow(8, c) == [6, 2, 0, 0][c]
  {
    assert TicketsBelow(4, c) == if c == 0 then 4 else 0;
    assert TicketsBelow(8, c) == [6, 2, 0, 0][c];
  }

  lemma HighsShare(n: nat, c: nat)
    requires n == 32768 && c < 4
    ensures Highs(n, c) == Share(c)
  {
    TwelveTickets(c);
    HighsByRounds(2730, c, ClassTickets(c));
    HighsInRound(2730, 8, c);
  }

  /** In any 2^32 consecutive draws, classes 0 to 3 are drawn exactly 16386, 8192, 5460 and 2730
      times 2^17: the promised 6 : 3 : 2 : 1 up to 24 in 32768 * 12. */
  lemma ExactShares(x: nat, c: nat, n: nat)
    requires x < M && c < 4 && n == M
    ensures Drawn(x, n, c) == Share(c) * 131072
    ensures -24 <= 12 * Share(c) - ClassTickets(c) * 32768 <= 24
  {
    DrawnIsSeeds(x, c, n);
    var h: nat := 32768;
    SeedsByHighs(h + h, c);
    HighsRepeat(h, h, c);
    HighsShare(h, c);
  }
}
