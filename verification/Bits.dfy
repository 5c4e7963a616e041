/** Bitwise AND on naturals, as far as power-of-two masks need it. */
module Bits {
  function Pow2(k: nat): (p: nat)
    ensures p >= 1
  {
    if k == 0 then 1 else 2 * Pow2(k - 1)
  }

  function BitAnd(a: nat, b: nat): nat {
    if a == 0 || b == 0 then 0
    else 2 * BitAnd(a / 2, b / 2) + (if a % 2 == 1 && b % 2 == 1 then 1 else 0)
  }

  lemma {:induction false} MulAtLeast(d: int, n: int)
    requires d >= 1 && n > 0
    ensures d * n >= n
  {
    assert d * n == n + (d - 1) * n;
  }

  /** Division by n is pinned down by the size of the remainder. */
  lemma {:induction false} ModIs(x: int, n: int, q: int, r: int)
    requires n > 0 && x == q * n + r && 0 <= r < n
    ensures x % n == r
  {
    var q', r' := x / n, x % n;
    var d := q - q';
    assert d * n == q * n - q' * n == r' - r;
    if d >= 1 {
      MulAtLeast(d, n);
    } else if d <= -1 {
      assert (-d) * n == -(d * n);
      MulAtLeast(-d, n);
    }
  }

  lemma {:induction false} HalfMod(x: nat, p: nat)
    requires p > 0
    ensures x % (2 * p) == 2 * ((x / 2) % p) + x % 2
  {
    var y := x / 2;
    var q, r := y / p, y % p;
    assert 2 * y == 2 * (q * p) + 2 * r;
    assert q * (2 * p) == 2 * (q * p);
    ModIs(x, 2 * p, q, 2 * r + x % 2);
  }

  /** Masking with a power of two minus one is the remainder. */
  lemma {:induction false} MaskIsMod(x: nat, k: nat)
    ensures BitAnd(x, Pow2(k) - 1) == x % Pow2(k)
  {
    if k != 0 {
      var p := Pow2(k - 1);
      MaskIsMod(x / 2, k - 1);
      HalfMod(x, p);
      assert (2 * p - 1) / 2 == p - 1 && (2 * p - 1) % 2 == 1;
    }
  }

  lemma {:induction false} AndSelf(a: nat)
    ensures BitAnd(a, a) == a
  {
    if a != 0 {
      AndSelf(a / 2);
    }
  }

  ghost predicate IsPow2(n: nat) {
    exists k: nat :: n == Pow2(k)
  }

  /** (n & (n - 1)) == 0 says exactly that n is a power of two. */
  lemma {:induction false} PowerOfTwoTest(n: nat)
    requires n >= 1
    ensures BitAnd(n, n - 1) == 0 <==> IsPow2(n)
  {
    var m := n / 2;
    if n == 1 {
      assert n == Pow2(0);
    } else if n % 2 == 1 {
      assert (n - 1) / 2 == m && (n - 1) % 2 == 0;
      AndSelf(m);
      forall k: nat ensures n != Pow2(k) {
        assert k != 0 ==> Pow2(k) == 2 * Pow2(k - 1);
      }
    } else {
      assert (n - 1) / 2 == m - 1;
      PowerOfTwoTest(m);
      if IsPow2(m) {
        var k: nat :| m == Pow2(k);
        assert n == Pow2(k + 1);
      }
      if IsPow2(n) {
        var k: nat :| n == Pow2(k);
        assert k != 0 && m == Pow2(k - 1);
      }
    }
  }

  /** Adding one under the mask counts modulo the capacity. */
  lemma {:induction false} MaskedIncrement(c: nat, k: nat)
    ensures BitAnd(c % Pow2(k) + 1, Pow2(k) - 1) == (c + 1) % Pow2(k)
  {
    hide BitAnd, Pow2;
    var n := Pow2(k);
    MaskIsMod(c % n + 1, k);
    var q, r := c / n, c % n;
    assert c + 1 == q * n + (r + 1);
    if r + 1 < n {
      ModIs(c + 1, n, q, r + 1);
      ModIs(r + 1, n, 0, r + 1);
    } else {
      assert c + 1 == (q + 1) * n;
      ModIs(c + 1, n, q + 1, 0);
      ModIs(r + 1, n, 1, 0);
    }
  }

  /** Counters less than n apart fall into different slots. */
  lemma {:induction false} ModDiffers(a: nat, b: nat, n: nat)
    requires n > 0 && a < b < a + n
    ensures a % n != b % n
  {
    var q, r := a / n, a % n;
    assert a == q * n + r;
    if r + (b - a) < n {
      ModIs(b, n, q, r + (b - a));
    } else {
      assert b == (q + 1) * n + (r + (b - a) - n);
      ModIs(b, n, q + 1, r + (b - a) - n);
    }
  }

  lemma {:induction false} ModPlusN(a: nat, n: nat)
    requires n > 0
    ensures (a + n) % n == a % n
  {
    ModIs(a + n, n, a / n + 1, a % n);
  }

  /** The wrapped uint64 difference under the mask is the count between two indices. */
  lemma {:induction false} MaskedDifference(t: nat, h: nat, k: nat)
    requires k <= 64 && t < Pow2(k) && h < Pow2(k)
    ensures BitAnd((t - h) % Pow2(64), Pow2(k) - 1) == (if h <= t then t - h else t - h + Pow2(k))
  {
    var n, c := Pow2(k), Pow2(64 - k);
    Pow2Split(k, 64 - k);
    MaskIsMod((t - h) % Pow2(64), k);
    WrappedDifference(t, h, n, c);
  }

  lemma {:induction false} WrappedDifference(t: nat, h: nat, n: nat, c: nat)
    requires n >= 1 && c >= 1 && t < n && h < n
    ensures c * n >= n && (t - h) % (c * n) >= 0
    ensures ((t - h) % (c * n)) % n == (if h <= t then t - h else t - h + n)
  {
    var w := c * n;
    MulAtLeast(c, n);
    if h <= t {
      ModIs(t - h, w, 0, t - h);
      ModIs(t - h, n, 0, t - h);
    } else {
      ModIs(t - h, w, -1, t - h + w);
      assert (c - 1) * n == c * n - n;
      ModIs(t - h + w, n, c - 1, t - h + n);
    }
  }

  lemma {:induction false} Pow2Split(a: nat, b: nat)
    ensures Pow2(a + b) == Pow2(b) * Pow2(a)
  {
    if a != 0 {
      Pow2Split(a - 1, b);
      assert Pow2(a + b) == 2 * Pow2(a - 1 + b);
      assert 2 * (Pow2(b) * Pow2(a - 1)) == Pow2(b) * (2 * Pow2(a - 1));
    }
  }

  function BitOr(a: nat, b: nat): nat
    decreases a + b
  {
    if a == 0 && b == 0 then 0
    else 2 * BitOr(a / 2, b / 2) + (if a % 2 == 1 || b % 2 == 1 then 1 else 0)
  }

  lemma {:induction false} OrZero(b: nat)
    ensures BitOr(0, b) == b
  {
    if b != 0 {
      OrZero(b / 2);
    }
  }

  /** Or-ing in bits above the ones in use adds them. */
  lemma {:induction false} OrIsPlus(a: nat, b: nat, k: nat)
    requires a < Pow2(k)
    ensures BitOr(a, b * Pow2(k)) == a + b * Pow2(k)
  {
    if k == 0 {
      OrZero(b);
    } else {
      var p := Pow2(k - 1);
      assert b * Pow2(k) == 2 * (b * p);
      OrIsPlus(a / 2, b, k - 1);
    }
  }
}
