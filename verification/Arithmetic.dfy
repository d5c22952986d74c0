/** Facts about products and quotients that the solver does not find by itself. */
module Arithmetic {

  lemma ProductSign(a: int, b: int)
    requires b >= 0
    ensures a >= 0 ==> a * b >= 0
    ensures a <= 0 ==> a * b <= 0
  {
  }

  lemma Distribute(a: int, b: int, c: int)
    ensures (a + b) * c == a * c + b * c
    ensures (a - b) * c == a * c - b * c
  {
  }

  /** A nonzero multiple of s is at least s away from zero. */
  lemma Multiple(d: int, s: int)
    requires d != 0 && s > 0
    ensures d * s >= s || d * s <= -s
  {
    if d > 0 {
      Distribute(d - 1, 1, s);
      ProductSign(d - 1, s);
    } else {
      Distribute(d + 1, 1, s);
      ProductSign(d + 1, s);
    }
  }

  lemma DivUnique(a: int, s: int, q: int, r: int)
    requires 0 < s && 0 <= r < s && a == q * s + r
    ensures a / s == q && a % s == r
  {
    var p := a / s;
    Distribute(p, q, s);
    if p != q { Multiple(p - q, s); }
  }

  lemma DivStep(a: int, s: int)
    requires 0 <= a && 0 < s
    ensures a >= s ==> (a - s) / s == a / s - 1
    ensures a < s ==> a / s == 0
  {
    if a >= s {
      Distribute(a / s, 1, s);
      DivUnique(a - s, s, a / s - 1, a % s);
    }
  }
}
