/**
 The circular doubly linked list of kernel/bio.c, with the list head as one more node: what it means
 that next and prev describe a given order of buffers, and what unlinking and linking in do to it.
 */
module Ring {
  import opened Params

  const HEAD := NBUF  // the node of bcache.head

  /** Node k of the ring that starts and ends at the head. */
  function At(order: seq<nat>, k: nat): nat
    requires k <= |order| + 1
  {
    if k == 0 || k == |order| + 1 then HEAD else order[k - 1]
  }

  predicate Distinct(order: seq<nat>) {
    && (forall i :: 0 <= i < |order| ==> order[i] < NBUF)
    && (forall i, j :: 0 <= i < j < |order| ==> order[i] != order[j])
  }

  /** Following next visits the buffers in the given order, and following prev in the opposite one. */
  ghost predicate Linked(nx: seq<nat>, pv: seq<nat>, order: seq<nat>) {
    && |nx| == |pv| == NBUF + 1 && Distinct(order)
    && (forall k: nat :: k <= |order| ==> nx[At(order, k)] == At(order, k + 1))
    && (forall k: nat :: k <= |order| ==> pv[At(order, k + 1)] == At(order, k))
  }

  function Without(order: seq<nat>, i: nat): seq<nat>
    requires i < |order|
  {
    order[..i] + order[i + 1..]
  }

  /** b->next->prev = b->prev; b->prev->next = b->next */
  function UnlinkNext(nx: seq<nat>, pv: seq<nat>, b: nat): seq<nat>
    requires |nx| == |pv| == NBUF + 1 && b <= NBUF && pv[b] <= NBUF
  {
    nx[pv[b] := nx[b]]
  }

  function UnlinkPrev(nx: seq<nat>, pv: seq<nat>, b: nat): seq<nat>
    requires |nx| == |pv| == NBUF + 1 && b <= NBUF && nx[b] <= NBUF
  {
    pv[nx[b] := pv[b]]
  }

  lemma InRange(nx: seq<nat>, pv: seq<nat>, order: seq<nat>, i: nat)
    requires Linked(nx, pv, order) && i < |order|
    ensures order[i] < NBUF && nx[order[i]] == At(order, i + 2) <= NBUF && pv[order[i]] == At(order, i) <= NBUF
  {
    assert At(order, i + 1) == order[i];
    assert nx[At(order, i + 1)] == At(order, i + 2);
    assert pv[At(order, i + 1)] == At(order, i);
  }

  lemma Unlinked(nx: seq<nat>, pv: seq<nat>, order: seq<nat>, i: nat)
    requires Linked(nx, pv, order) && i < |order|
    requires order[i] <= NBUF && nx[order[i]] <= NBUF && pv[order[i]] <= NBUF
    ensures Linked(UnlinkNext(nx, pv, order[i]), UnlinkPrev(nx, pv, order[i]), Without(order, i))
  {
    var b := order[i];
    InRange(nx, pv, order, i);
    var nx', pv', rest := UnlinkNext(nx, pv, b), UnlinkPrev(nx, pv, b), Without(order, i);
    forall k: nat | k <= |rest| ensures nx'[At(rest, k)] == At(rest, k + 1) && pv'[At(rest, k + 1)] == At(rest, k) {
      UnlinkedAt(order, i, k);
      UnlinkedAt(order, i, k + 1);
      var j := if k <= i then k else k + 1;
      assert nx[At(order, j)] == At(order, j + 1);
      if j != i { NotSame(order, j, i); }
      var m := if k + 1 <= i then k + 1 else k + 2;
      assert pv[At(order, m)] == At(order, m - 1);
      if m != i + 2 { NotSameBack(order, m, i + 2); }
    }
  }

  lemma NotSame(order: seq<nat>, j: nat, k: nat)
    requires Distinct(order) && j <= |order| && k <= |order| && j != k
    ensures At(order, j) != At(order, k)
  {
  }

  lemma NotSameBack(order: seq<nat>, j: nat, k: nat)
    requires Distinct(order) && 0 < j <= |order| + 1 && 0 < k <= |order| + 1 && j != k
    ensures At(order, j) != At(order, k)
  {
  }

  lemma UnlinkedAt(order: seq<nat>, i: nat, k: nat)
    requires i < |order| && k <= |order|
    ensures At(Without(order, i), k) == At(order, if k <= i then k else k + 1)
  {
  }

  /** b->next = head.next; b->prev = &head; head.next->prev = b; head.next = b */
  function LinkNext(nx: seq<nat>, b: nat): seq<nat>
    requires |nx| == NBUF + 1 && b < NBUF
  {
    nx[b := nx[HEAD]][HEAD := b]
  }

  function LinkPrev(nx: seq<nat>, pv: seq<nat>, b: nat): seq<nat>
    requires |nx| == |pv| == NBUF + 1 && b < NBUF && nx[HEAD] <= NBUF
  {
    pv[b := HEAD][nx[HEAD] := b]
  }

  lemma FirstInRange(nx: seq<nat>, pv: seq<nat>, order: seq<nat>)
    requires Linked(nx, pv, order)
    ensures nx[HEAD] == At(order, 1) <= NBUF && pv[HEAD] == At(order, |order|) <= NBUF
  {
    assert nx[At(order, 0)] == At(order, 1);
    assert pv[At(order, |order| + 1)] == At(order, |order|);
  }

  lemma LinkedIn(nx: seq<nat>, pv: seq<nat>, order: seq<nat>, b: nat)
    requires Linked(nx, pv, order) && b < NBUF && b !in order && nx[HEAD] <= NBUF
    ensures Linked(LinkNext(nx, b), LinkPrev(nx, pv, b), [b] + order)
  {
    FirstInRange(nx, pv, order);
    var nx', pv', more := LinkNext(nx, b), LinkPrev(nx, pv, b), [b] + order;
    forall k: nat | k <= |more| ensures nx'[At(more, k)] == At(more, k + 1) && pv'[At(more, k + 1)] == At(more, k) {
      if k >= 2 {
        assert At(more, k) == At(order, k - 1) && At(more, k + 1) == At(order, k);
        assert nx[At(order, k - 1)] == At(order, k) && pv[At(order, k)] == At(order, k - 1);
        NotSame(order, k - 1, 0);
        NotSameBack(order, k, 1);
      } else if k == 1 {
        assert At(more, 2) == At(order, 1);
      }
    }
  }

  ghost function Nodes(order: seq<nat>): set<nat> {
    set b | b in order
  }

  lemma {:induction false} NodeCount(order: seq<nat>)
    requires Distinct(order)
    ensures |Nodes(order)| == |order|
  {
    if order != [] {
      var n := |order| - 1;
      NodeCount(order[..n]);
      assert Nodes(order) == Nodes(order[..n]) + {order[n]};
    }
  }

  function Below(n: nat): (s: set<nat>)
    ensures |s| == n && forall b: nat :: b in s <==> b < n
  {
    if n == 0 then {} else Below(n - 1) + {n - 1}
  }

  /** A list of all different buffers that is long enough has every buffer. */
  lemma Permutation(order: seq<nat>, b: nat)
    requires Distinct(order) && |order| == NBUF && b < NBUF
    ensures b in order
  {
    NodeCount(order);
    var all := Below(NBUF);
    assert Nodes(order) <= all;
    assert |all - Nodes(order)| == |all| - |Nodes(order)|;
    assert b in all && b !in all - Nodes(order);
  }
}
