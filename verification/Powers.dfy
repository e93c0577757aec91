/** Powers of two, and division by them. */
module Powers {
  function Pow2(n: nat): (p: nat)
    ensures p > 0
  {
    if n == 0 then 1 else 2 * Pow2(n - 1)
  }

  lemma {:induction false} Pow2Add(m: nat, n: nat)
    ensures Pow2(m + n) == Pow2(m) * Pow2(n)
  {
    if m > 0 {
      Pow2Add(m - 1, n);
      assert Pow2(m + n) == 2 * Pow2(m - 1 + n);
    }
  }

  /** Multiplication is monotone; the one non-linear fact the others rest on. */
  lemma {:induction false} MulLess(a: int, b: int, c: nat)
    requires a < b && c > 0
    ensures a * c + c <= b * c
    decreases b - a
  {
    if a + 1 < b {
      MulLess(a, b - 1, c);
      assert b * c == (b - 1) * c + c;
    } else {
      assert b * c == a * c + c;
    }
  }

  /** A quotient is pinned down by its remainder. */
  lemma DivUnique(a: nat, b: nat, q: nat, r: nat)
    requires b > 0 && r < b && a == q * b + r
    ensures a / b == q && a % b == r
  {
    var q0, r0 := a / b, a % b;
    assert a == q0 * b + r0;
    if q0 < q {
      MulLess(q0, q, b);
    } else if q < q0 {
      MulLess(q, q0, b);
    }
  }

  lemma DivMod(a: nat, b: nat)
    requires b > 0
    ensures a == a / b * b + a % b
  {
  }

  lemma Distribute(s: nat, c: nat, t: nat, b: nat)
    ensures (s * c + t) * b == s * (b * c) + t * b
  {
    assert (s * c) * b == s * (b * c);
  }

  /** Quotient digits of `a` by `b` and then by `c` are those by `b * c`. */
  lemma Digits(a: nat, b: nat, c: nat, q: nat, r: nat, s: nat, t: nat)
    requires a == q * b + r && q == s * c + t && r < b && t < c
    ensures a == s * (b * c) + (t * b + r) && t * b + r < b * c
  {
    Distribute(s, c, t, b);
    MulLess(t, c, b);
    assert c * b == b * c;
  }

  lemma DivDiv(a: nat, b: nat, c: nat)
    requires b > 0 && c > 0
    ensures b * c > 0 && (a / b) / c == a / (b * c)
    ensures a % (b * c) == (a / b) % c * b + a % b
  {
    DivMod(a, b);
    DivMod(a / b, c);
    Digits(a, b, c, a / b, a % b, (a / b) / c, (a / b) % c);
    DivUnique(a, b * c, (a / b) / c, (a / b) % c * b + a % b);
  }

  lemma DivPow2(a: nat, m: nat, n: nat)
    ensures (a / Pow2(m)) / Pow2(n) == a / Pow2(m + n)
  {
    DivDiv(a, Pow2(m), Pow2(n));
    Pow2Add(m, n);
  }

  lemma MulDivPow2(a: nat, m: nat, n: nat)
    ensures a * Pow2(m) / Pow2(m + n) == a / Pow2(n)
  {
    DivUnique(a * Pow2(m), Pow2(m), a, 0);
    DivPow2(a * Pow2(m), m, n);
  }

  /** Only the part below `b * c` matters for the quotient by `b` modulo `c`. */
  lemma ModDiv(a: nat, b: nat, c: nat)
    requires b > 0 && c > 0
    ensures b * c > 0 && a % (b * c) / b == a / b % c
  {
    DivDiv(a, b, c);
    DivUnique(a % (b * c), b, a / b % c, a % b);
  }

  /** Reading eight bits above `p` out of a register of size `p * 256 * k` ignores what overflowed it. */
  lemma DropHigh(a: nat, p: nat, k: nat)
    requires p > 0 && k > 0
    ensures p * (256 * k) > 0 && a % (p * (256 * k)) / p % 256 == a / p % 256
  {
    ModDiv(a, p, 256 * k);
    var n := a / p;
    var u := n / (256 * k);
    assert n == u * (256 * k) + n % (256 * k);
    assert u * (256 * k) == (u * k) * 256;
    var w := n % (256 * k);
    DivUnique(n, 256, u * k + w / 256, w % 256);
  }
}
