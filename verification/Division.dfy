/** Division facts. */
module Division {
  lemma Multiple(x: int, d: nat)
    ensures x >= 1 ==> x * d >= d
  {}

  lemma Distribute(a: int, b: int, d: int)
    ensures (a - b) * d == a * d - b * d
  {}

  lemma DistributeSum(a: int, b: int, d: int)
    ensures (a + b) * d == a * d + b * d
  {}

  lemma Swap(a: int, b: int, c: int)
    ensures a * (b * c) == (a * c) * b
  {}

  lemma DivisionUnique(u: nat, d: nat, q: nat, r: nat)
    requires u == q * d + r && r < d
    ensures u / d == q && u % d == r
  {
    var q', r' := u / d, u % d;
    assert q' * d + r' == u;
    Distribute(q, q', d);
    Distribute(q', q, d);
    Multiple(q - q', d);
    Multiple(q' - q, d);
  }

  lemma DivShift(x: nat, r: nat, s: nat)
    requires s > 0
    ensures (x * s + r) / s == x + r / s && (x * s + r) % s == r % s
  {
    var y, z := r / s, r % s;
    assert r == y * s + z;
    DistributeSum(x, y, s);
    assert x * s + r == (x + y) * s + z;
    DivisionUnique(x * s + r, s, x + y, z);
  }

  lemma Reassociate(p: nat, b: nat, t: nat, a: nat, r: nat)
    requires t < b && r < a
    ensures (p * b + t) * a + r == p * (a * b) + (t * a + r)
    ensures t * a + r < a * b
  {
    DistributeSum(p * b, t, a);
    Swap(p, a, b);
    Distribute(b, t, a);
    Multiple(b - t, a);
  }

  lemma DivDiv(u: nat, a: nat, b: nat)
    requires a > 0 && b > 0
    ensures u / a / b == u / (a * b)
  {
    var p, t, r := u / a / b, u / a % b, u % a;
    assert u / a == p * b + t;
    assert u == (p * b + t) * a + r;
    Reassociate(p, b, t, a, r);
    DivisionUnique(u, a * b, p, t * a + r);
  }

  /** Scaling by k: (k * n) mod (k * d) is k times n mod d. */
  lemma ModScale(n: nat, k: nat, d: nat)
    requires k > 0 && d > 0
    ensures (k * n) % (k * d) == k * (n % d)
  {
    var q, r := n / d, n % d;
    assert n == q * d + r;
    DistributeSum(q * d, r, k);
    Swap(q, k, d);
    assert k * n == q * (k * d) + k * r;
    Distribute(d, r, k);
    Multiple(d - r, k);
    DivisionUnique(k * n, k * d, q, k * r);
  }

  /** Reduction modulo a multiple of d does not change the value modulo d. */
  lemma ModMod(n: nat, d: nat, k: nat)
    requires d > 0 && k > 0
    ensures (n % (d * k)) % d == n % d
  {
    var q, r := n / (d * k), n % (d * k);
    assert n == q * (d * k) + r;
    Swap(q, d, k);
    assert n == (q * k) * d + r;
    DivShift(q * k, r, d);
  }

  lemma QuotientBelow(r: nat, s: nat, k: nat)
    requires s > 0 && r < s * k
    ensures r / s < k
  {
    var y := r / s;
    assert y * s <= r;
    Distribute(y, k, s);
    DistributeSum(y - k, 1, s);
    Multiple(y - k + 1, s);
  }

  lemma DivMod(u: nat, s: nat, k: nat)
    requires s > 0 && k > 0
    ensures (u % (s * k)) / s == (u / s) % k
  {
    var q, r := u / (s * k), u % (s * k);
    assert u == q * (s * k) + r;
    Swap(q, s, k);
    DivShift(q * k, r, s);
    QuotientBelow(r, s, k);
    DivisionUnique(u / s, k, q, r / s);
  }

  lemma LowByte(u: nat, shift: nat, c: nat)
    requires shift > 0 && c > 0
    ensures (u % (shift * (256 * c))) / shift % 256 == u / shift % 256
  {
    DivMod(u, shift, 256 * c);
    ModMod(u / shift, 256, c);
  }
}
