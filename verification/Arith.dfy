/** The few facts about division the models need. */
module Arith {

  lemma MulAtLeast(k: int, d: int)
    requires d > 0
    ensures k >= 1 ==> k * d >= d
    ensures k <= 0 ==> k * d <= 0
  {
  }

  /** Quotient and remainder are determined by the equation they solve. */
  lemma DivModUnique(n: int, d: int, q: int, r: int)
    requires d > 0 && n == q * d + r && 0 <= r < d
    ensures n / d == q && n % d == r
  {
    var q', r' := n / d, n % d;
    assert n == q' * d + r';
    assert (q - q') * d == r' - r;
    MulAtLeast(q - q', d);
    MulAtLeast(q' - q, d);
    assert (q' - q) * d == r - r';
  }

  lemma DivMonotone(a: int, b: int, d: int)
    requires a <= b && d > 0
    ensures a / d <= b / d
  {
    var x, y := a / d, b / d;
    assert a == x * d + a % d && b == y * d + b % d;
    assert (x - y) * d == (a - b) + (b % d - a % d);
    MulAtLeast(x - y, d);
  }

  /** Adding at most one modulus carries at most once. */
  lemma AddCarry(c: nat, k: nat, w: nat)
    requires 0 < w && k <= w
    ensures c % w + k < w ==> (c + k) % w == c % w + k && (c + k) / w == c / w
    ensures c % w + k >= w ==> (c + k) % w == c % w + k - w && (c + k) / w == c / w + 1
  {
    var q, r := c / w, c % w;
    assert c == q * w + r;
    if r + k < w {
      DivModUnique(c + k, w, q, r + k);
    } else {
      assert c + k == (q + 1) * w + (r + k - w);
      DivModUnique(c + k, w, q + 1, r + k - w);
    }
  }

  lemma SmallMod(x: nat, w: nat)
    requires 0 < w && x < 2 * w
    ensures x % w == if x < w then x else x - w
  {
    if x < w {
      DivModUnique(x, w, 0, x);
    } else {
      DivModUnique(x, w, 1, x - w);
    }
  }

  lemma ModSucc(h: nat, w: nat)
    requires 1 < w
    ensures (h + 1) % w == (h % w + 1) % w
  {
    AddCarry(h, 1, w);
    SmallMod(h % w + 1, w);
  }

  /** A multiple of `k` stays one when reduced by a multiple of `k`. */
  lemma ModOfMultiple(c: nat, w: nat, k: nat, m: nat)
    requires k > 0 && w == m * k && w > 0 && c % k == 0
    ensures (c % w) % k == 0
  {
    var q, t, e := c / w, c % w, c / k;
    assert c == q * w + t && c == e * k;
    assert q * w == (q * m) * k;
    assert t == (e - q * m) * k + 0;
    DivModUnique(t, k, e - q * m, 0);
  }

  /** The largest multiple of `k` below a multiple `w` of `k` is `w - k`. */
  lemma MultipleBelow(t: nat, w: nat, k: nat, m: nat)
    requires k > 0 && w == m * k && t < w && t % k == 0
    ensures t <= w - k && (t > 0 ==> t >= k)
  {
    var e := t / k;
    assert t == e * k;
    assert (m - e) * k == w - t;
    MulAtLeast(m - e, k);
    MulAtLeast(e, k);
  }

  lemma LastBlock(n: nat, b: nat)
    requires b > 0 && n > 0 && n % b == 0
    ensures n >= b && (n - b) % b == 0 && (n + b) % b == 0
  {
    var q := n / b;
    assert n == q * b;
    MulAtLeast(q, b);
    assert n - b == (q - 1) * b + 0 && n + b == (q + 1) * b + 0;
    DivModUnique(n - b, b, q - 1, 0);
    DivModUnique(n + b, b, q + 1, 0);
  }

  lemma Scaled(n: nat, b: nat, k: nat)
    requires b > 0 && k > 0 && n % b == 0
    ensures (k * n) % (k * b) == 0
  {
    var q := n / b;
    assert n == q * b;
    assert k * n == q * (k * b) + 0;
    MulAtLeast(k, b);
    DivModUnique(k * n, k * b, q, 0);
  }

  lemma MultiplePlus(n: nat, b: nat, k: nat)
    requires b > 0 && n % b == 0
    ensures (n + k * b) % b == 0
  {
    var q := n / b;
    assert n + k * b == (q + k) * b + 0;
    DivModUnique(n + k * b, b, q + k, 0);
  }

  /** What is missing from `x` to the next multiple of `k`. */
  lemma PadTo(x: nat, k: nat, q: nat)
    requires k > 0 && x <= q * k < x + k
    ensures (k - x % k) % k == q * k - x
  {
    var d := q * k - x;
    if d == 0 {
      DivModUnique(x, k, q, 0);
      DivModUnique(k, k, 1, 0);
    } else {
      assert x == (q - 1) * k + (k - d);
      DivModUnique(x, k, q - 1, k - d);
      SmallMod(d, k);
    }
  }

  /** Whole blocks and some more, counted in bits. */
  lemma ScaledSum(full: nat, b: nat, blocks: nat)
    requires b > 0 && full % b == 0
    ensures 8 * (full + blocks * b) == (full / b + blocks) * (8 * b)
  {
    var q := full / b;
    assert full == q * b;
    assert (q + blocks) * (8 * b) == 8 * (q * b + blocks * b);
  }

  lemma Quotient(n: nat, b: nat)
    requires b >= 2 && n > 0
    ensures n / b < n && n == b * (n / b) + n % b && n % b < b && (n < b ==> n % b == n)
  {
    var q := n / b;
    assert n == b * q + n % b;
    if q >= 1 {
      assert b * q >= 2 * q;
    }
  }

  lemma DigitBound(b: nat, x: nat, p: nat, d: nat)
    requires x < p && d < b
    ensures b * x + d < b * p
  {
    MulAtLeast(p - x, b);
    assert b * p == b * x + (p - x) * b;
  }

  lemma Regroup(b: nat, h: nat, p: nat, t: nat)
    ensures b * (h * p + t) == h * (b * p) + b * t
  {
  }

  lemma MulMonotone(a: nat, b: nat, p: nat)
    requires a <= b
    ensures a * p <= b * p
  {
    assert b * p == a * p + (b - a) * p;
  }

  lemma MultipleQuotient(k: nat, u: nat)
    requires u > 0
    ensures (k * u) / u == k
  {
    DivModUnique(k * u, u, k, 0);
  }

  // ---------------------------------------------------------------- powers

  function Pow(b: nat, k: nat): (p: nat)
    ensures b > 0 ==> p > 0
  {
    if k == 0 then 1 else b * Pow(b, k - 1)
  }

  lemma PowStep(b: nat, k: nat)
    ensures Pow(b, k + 1) == b * Pow(b, k) && Pow(b, 0) == 1
  {
  }
}
