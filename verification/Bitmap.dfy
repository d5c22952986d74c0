/**
 The free-block bitmap of kernel/fs.c: balloc's search and bfree over bitmap bytes, proved against
 the set of block numbers whose bit is set.  The bitmap blocks lie next to each other on the disk,
 so bit b is bit b % 8 of byte b / 8 counted from the first of them.
 */
module Bitmap {
  import opened Folding

  const BPB := 8192  // bitmap bits per block

  const MASKS: seq<bv8> := [1, 2, 4, 8, 16, 32, 64, 128]

  /** The mask 1 << (bi % 8). */
  function Mask(k: nat): (m: bv8)
    requires k < 8
  {
    MASKS[k]
  }

  lemma MaskIsShift(k: nat)
    requires k < 8
    ensures Mask(k) == (1 as bv8) << k
  {
  }

  predicate Bit(x: bv8, k: nat)
    requires k < 8
  {
    x & Mask(k) != 0
  }

  lemma MasksDisjoint(k: nat, j: nat, m: bv8, n: bv8)
    requires k < 8 && j < 8 && m == Mask(k) && n == Mask(j)
    ensures m != 0 && (m == n <==> k == j) && (m == n || m & n == 0)
  {
  }

  /** x1 is x with the bits of m set, and x0 is x with them cleared. */
  ghost predicate Sets(x: bv8, m: bv8, x1: bv8, x0: bv8) {
    forall k: nat :: Open(BIT_SET, k) ==> x1 == x | m && x0 == x & !m
  }

  lemma SetMask(x: bv8, m: bv8, n: bv8, x1: bv8, x0: bv8)
    requires m != 0 && (m == n || m & n == 0) && Sets(x, m, x1, x0)
    ensures x1 & n != 0 <==> m == n || x & n != 0
    ensures x0 & n != 0 <==> m != n && x & n != 0
  {
    assert Open(BIT_SET, 0);
  }

  /** Setting or clearing a bit touches that bit only. */
  lemma SetBit(x: bv8, k: nat, j: nat, m: bv8, n: bv8, x1: bv8, x0: bv8)
    requires k < 8 && j < 8 && m == Mask(k) && n == Mask(j) && Sets(x, m, x1, x0)
    ensures Bit(x1, j) <==> j == k || Bit(x, j)
    ensures Bit(x0, j) <==> j != k && Bit(x, j)
  {
    MasksDisjoint(k, j, m, n);
    SetMask(x, m, n, x1, x0);
  }

  /** The state of block b. */
  predicate InUse(bytes: seq<bv8>, b: nat)
    requires b < 8 * |bytes|
  {
    Bit(bytes[b / 8], b % 8)
  }

  /** The bitmap says exactly that the blocks of `used` are in use, among the first n. */
  ghost predicate Describes(bytes: seq<bv8>, n: nat, used: set<nat>) {
    && n <= 8 * |bytes|
    && forall b: nat :: b < n ==> (InUse(bytes, b) <==> b in used)
  }

  lemma MarkBit(bytes: seq<bv8>, n: nat, used: set<nat>, b: nat, x1: bv8, x0: bv8)
    requires Describes(bytes, n, used) && b < n && Sets(bytes[b / 8], Mask(b % 8), x1, x0)
    ensures Describes(bytes[b / 8 := x1], n, used + {b})
    ensures Describes(bytes[b / 8 := x0], n, used - {b})
  {
    forall c: nat | c < n
      ensures InUse(bytes[b / 8 := x1], c) <==> c in used + {b}
      ensures InUse(bytes[b / 8 := x0], c) <==> c in used - {b}
    {
      assert InUse(bytes, c) <==> c in used;
      MarkAt(bytes, b, c, x1, x0);
    }
  }

  lemma MarkAt(bytes: seq<bv8>, b: nat, c: nat, x1: bv8, x0: bv8)
    requires b < 8 * |bytes| && c < 8 * |bytes| && Sets(bytes[b / 8], Mask(b % 8), x1, x0)
    ensures InUse(bytes[b / 8 := x1], c) <==> c == b || InUse(bytes, c)
    ensures InUse(bytes[b / 8 := x0], c) <==> c != b && InUse(bytes, c)
  {
    var x := bytes[b / 8];
    if c / 8 == b / 8 { SetBit(x, b % 8, c % 8, Mask(b % 8), Mask(c % 8), x1, x0); }
  }

  class FreeMap {
    const bytes: array<bv8>
    const size: nat  // sb.size
    ghost var used: set<nat>

    ghost predicate Valid()
      reads this, bytes
    {
      Describes(bytes[..], size, used)
    }

    constructor (image: seq<bv8>, n: nat, ghost inUse: set<nat>)
      requires Describes(image, n, inUse)
      ensures Valid() && size == n && used == inUse && fresh(bytes)
    {
      bytes := new bv8[|image|](i requires 0 <= i < |image| => image[i]);
      size := n;
      used := inUse;
      new;
      assert bytes[..] == image;
    }

    /** (bp->data[bi/8] & m) != 0 */
    method Test(b: nat) returns (inUse: bool)
      requires Valid() && b < size
      ensures inUse <==> b in used
    {
      assert InUse(bytes[..], b) <==> b in used;
      inUse := bytes[b / 8] & Mask(b % 8) != 0;
    }

    /** bp->data[bi/8] |= m */
    method Mark(b: nat)
      requires Valid() && b < size
      modifies bytes, this`used
      ensures Valid() && used == old(used) + {b}
    {
      var x := bytes[b / 8] | Mask(b % 8);
      MarkBit(bytes[..], size, used, b, x, bytes[b / 8] & !Mask(b % 8));
      bytes[b / 8] := x;
      used := used + {b};
      assert bytes[..] == old(bytes[..])[b / 8 := x];
    }

    /** balloc's search: the first free block, marked in use, or size if there is none. */
    method Take() returns (r: nat)
      requires Valid()
      modifies bytes, this`used
      ensures Valid() && r <= size && forall c :: 0 <= c < r ==> c in old(used)
      ensures r < size ==> r !in old(used) && used == old(used) + {r}
      ensures r == size ==> used == old(used)
    {
      var b := 0;
      while b < size
        invariant 0 <= b && Valid() && used == old(used) && forall c :: 0 <= c < b && c < size ==> c in used
      {
        var bi := 0;
        while bi < BPB && b + bi < size
          invariant 0 <= bi <= BPB && Valid() && used == old(used) && b < size
          invariant forall c :: 0 <= c < b + bi && c < size ==> c in used
        {
          var inUse := Test(b + bi);
          if !inUse {
            Mark(b + bi);
            return b + bi;
          }
          bi := bi + 1;
        }
        b := b + BPB;
      }
      r := size;
    }

    /** bfree; freeing a free block is the source's panic. */
    method Give(b: nat)
      requires Valid() && b < size && b in used
      modifies bytes, this`used
      ensures Valid() && used == old(used) - {b}
    {
      assert InUse(bytes[..], b) <==> b in used;
      var x := bytes[b / 8] & !Mask(b % 8);
      MarkBit(bytes[..], size, used, b, bytes[b / 8] | Mask(b % 8), x);
      bytes[b / 8] := x;
      used := used - {b};
      assert bytes[..] == old(bytes[..])[b / 8 := x];
    }
  }
}
