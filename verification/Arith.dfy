/** Facts about products, quotients and remainders used by several models. */
module Arith {

  lemma {:induction false} MulMono(a: int, b: int, s: int)
    requires a <= b && 0 <= s
    ensures a * s <= b * s
  {
    assert (b - a) * s >= 0;
    assert (b - a) * s == b * s - a * s;
  }

  lemma {:induction false} MulSucc(a: int, s: int)
    ensures (a + 1) * s == a * s + s
  {
  }

  lemma {:induction false} MulAssoc(a: int, b: int, c: int)
    ensures (a * b) * c == a * (b * c)
  {
  }

  /** Quotient and remainder are the only pair with 0 <= r < s. */
  lemma {:induction false} DivModUnique(p: int, s: int, q: int, r: int)
    requires p == q * s + r && 0 <= r < s
    ensures p / s == q && p % s == r
  {
    var d, t := p / s, p % s;
    assert p == s * d + t;
    MulSucc(d, s);
    MulSucc(q, s);
    if d < q { MulMono(d + 1, q, s); }
    if d > q { MulMono(q + 1, d, s); }
  }

  lemma {:induction false} DivMod(p: int, s: int)
    requires s > 0
    ensures p == (p / s) * s + p % s && 0 <= p % s < s
  {
  }

  /** A multiple of s strictly above q * s is at least (q + 1) * s. */
  lemma {:induction false} NextMultiple(a: int, q: int, s: int)
    requires s > 0 && a * s > q * s
    ensures a >= q + 1 && a * s >= q * s + s
  {
    if a <= q { MulMono(a, q, s); }
    MulSucc(q, s);
    MulMono(q + 1, a, s);
  }
}
