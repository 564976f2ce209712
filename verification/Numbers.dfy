/** Arithmetic that the other modules share: quotients, multiples and alignment. */
module Numbers {

  lemma MulGrows(a: int, b: int, d: nat)
    requires a <= b
    ensures a * d <= b * d
  {
    assert (b - a) * d >= 0;
  }

  lemma Associates(a: int, b: int, c: int)
    ensures a * b * c == a * (b * c) && a * b == b * a
  {
  }

  lemma Distributes(a: int, b: int, c: int)
    ensures a * (b + c) == a * b + a * c && (b + c) * a == b * a + c * a && b * a == a * b && c * a == a * c
  {
  }

  /** A multiple of `d` from 0 up to `d * k` is one of `k` of them. */
  lemma Factor(t: int, d: nat, k: nat)
    requires d > 0
    ensures 0 <= t * d < k * d <==> 0 <= t < k
  {
    if t < 0 { MulGrows(t, -1, d); }
    if t >= k { MulGrows(k, t, d); }
    if 0 <= t < k { MulGrows(0, t, d); MulGrows(t, k - 1, d); }
  }

  lemma Quotient(n: nat, k: nat, q: nat, t: int)
    requires k > 0 && n == q * k + t && 0 <= t < k
    ensures n / k == q
  {
    var p, s := n / k, n % k;
    assert n == p * k + s;
    Factor(p - q, k, 1);
    Factor(q - p, k, 1);
    assert (p - q) * k == p * k - q * k && (q - p) * k == q * k - p * k;
  }

  lemma Split(n: nat, a: nat)
    requires a > 0
    ensures n == (n / a) * a + n % a
  {
  }

  lemma Multiple(q: nat, a: nat)
    requires a > 0
    ensures (q * a) % a == 0
  {
    Quotient(q * a, a, q, 0);
    Split(q * a, a);
  }

  /** The next multiple of `a`. */
  function Align(n: nat, a: nat): (r: nat)
    requires a > 0
    ensures n <= r < n + a && r % a == 0
  {
    AlignUp(n, a);
    (n + a - 1) / a * a
  }

  lemma AlignUp(n: nat, a: nat)
    requires a > 0
    ensures n <= (n + a - 1) / a * a < n + a && ((n + a - 1) / a * a) % a == 0
  {
    Split(n + a - 1, a);
    Multiple((n + a - 1) / a, a);
  }

  /** A multiple is its own next multiple. */
  lemma Aligned(n: nat, a: nat)
    requires a > 0 && n % a == 0
    ensures Align(n, a) == n
  {
    Split(n, a);
    Quotient(n + a - 1, a, n / a, a - 1);
  }
}
