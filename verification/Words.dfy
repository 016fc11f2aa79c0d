/** Unsigned 32-bit words as naturals: powers of two and the bitwise "and" that the ring indexes with. */
module Words {

  const TWO32: nat := 0x1_0000_0000

  function Pow2(k: nat): (p: nat)
    ensures p > 0
  {
    if k == 0 then 1 else 2 * Pow2(k - 1)
  }

  /** Bitwise "and", least significant bit first. */
  function And(x: nat, y: nat): (r: nat)
    ensures r <= y
    decreases x
  {
    if x == 0 then 0 else (if x % 2 == 1 && y % 2 == 1 then 1 else 0) + 2 * And(x / 2, y / 2)
  }

  lemma {:induction false} AndMask(x: nat, k: nat)
    ensures And(x, Pow2(k) - 1) == x % Pow2(k)
    decreases k
  {
    if k == 0 {
      AndZero(x);
    } else {
      AndMask(x / 2, k - 1);
      AndMaskStep(x, Pow2(k - 1));
    }
  }

  lemma AndMaskStep(x: nat, p: nat)
    requires p > 0 && And(x / 2, p - 1) == (x / 2) % p
    ensures And(x, 2 * p - 1) == x % (2 * p)
  {
    AndOdd(x, p);
    ModDouble(x, p);
  }

  lemma AndOdd(x: nat, p: nat)
    requires p > 0
    ensures And(x, 2 * p - 1) == x % 2 + 2 * And(x / 2, p - 1)
  {
    assert (2 * p - 1) % 2 == 1 && (2 * p - 1) / 2 == p - 1;
  }

  lemma {:induction false} AndZero(x: nat)
    ensures And(x, 0) == 0
    decreases x
  {
  }

  lemma ModDouble(x: nat, p: nat)
    requires p > 0
    ensures x % (2 * p) == x % 2 + 2 * ((x / 2) % p)
  {
    var q, r := (x / 2) / p, (x / 2) % p;
    assert x == (2 * p) * q + (x % 2 + 2 * r) by {
      assert x / 2 == p * q + r;
    }
    DivModUnique(x, 2 * p, q, x % 2 + 2 * r);
  }

  /** Quotient and remainder are determined by x == m * q + r with 0 <= r < m. */
  lemma DivModUnique(x: int, m: nat, q: int, r: nat)
    requires r < m
    requires x == m * q + r
    ensures x / m == q && x % m == r
  {
    var d := x / m - q;
    assert m * d == r - x % m by {
      assert x == m * (x / m) + x % m;
      assert m * (x / m) - m * q == m * d;
    }
    MulMagnitude(m, d);
  }

  lemma MulMagnitude(m: nat, d: int)
    ensures d > 0 ==> m * d >= m
    ensures d < 0 ==> m * d <= 0 - m
  {
  }

  /** x is n with multiples of m taken off or added. */
  lemma ModShift(x: int, q: int, m: nat)
    requires m > 0
    ensures (x + m * q) % m == x % m
  {
    assert x + m * q == m * (x / m + q) + x % m by {
      assert m * (x / m + q) == m * (x / m) + m * q;
    }
    DivModUnique(x + m * q, m, x / m + q, x % m);
  }

  lemma ModSmall(x: nat, m: nat)
    requires x < m
    ensures x % m == x
  {
  }

  /** The test `(size & (size - 1)) == 0` on 32-bit words; size - 1 wraps when size is 0. */
  predicate PowerOf2(size: nat)
  {
    And(size, (size - 1) % TWO32) == 0
  }

  /** The test accepts exactly the powers of two, and zero. */
  lemma PowerOf2Iff(size: nat)
    requires size < TWO32
    ensures PowerOf2(size) <==> size == 0 || exists k: nat :: size == Pow2(k)
  {
    if size > 0 {
      ModSmall(size - 1, TWO32);
      if PowerOf2(size) {
        var k := AndPredZero(size);
        assert size == Pow2(k);
      }
      if exists k: nat :: size == Pow2(k) {
        var k: nat :| size == Pow2(k);
        AndPow2Pred(k);
      }
    }
  }

  lemma {:induction false} AndPredZero(n: nat) returns (k: nat)
    requires n > 0 && And(n, n - 1) == 0
    ensures n == Pow2(k)
  {
    k := 0;
    if n > 1 && n % 2 == 0 {
      assert (n - 1) / 2 == n / 2 - 1;
      k := AndPredZero(n / 2);
      k := k + 1;
    } else if n > 1 {
      AndOddPred(n);
    }
  }

  lemma AndOddPred(n: nat)
    requires n > 1 && n % 2 == 1
    ensures And(n, n - 1) > 0
  {
    assert (n - 1) / 2 == n / 2;
    AndSelf(n / 2);
  }

  lemma {:induction false} AndSelf(n: nat)
    ensures And(n, n) == n
  {
    if n > 0 {
      AndSelf(n / 2);
      assert (n % 2) * (n % 2) == n % 2;
    }
  }

  lemma {:induction false} AndPow2Pred(k: nat)
    ensures And(Pow2(k), Pow2(k) - 1) == 0
  {
    if k > 0 {
      var p := Pow2(k - 1);
      assert (2 * p - 1) % 2 == 1 && (2 * p - 1) / 2 == p - 1;
      AndPow2Pred(k - 1);
    }
  }

  /** Reducing modulo 2^32 first does not change the remainder by a smaller power of two. */
  lemma WrapThenMod(x: int, k: nat)
    requires k <= 32
    ensures (x % TWO32) % Pow2(k) == x % Pow2(k)
  {
    Pow2Splits(k);
    ModOfMultiple(x, Pow2(k), Pow2(32 - k), TWO32);
  }

  lemma ModOfMultiple(x: int, m: nat, n: nat, big: nat)
    requires m > 0 && big > 0 && m * n == big
    ensures (x % big) % m == x % m
  {
    var q := x / big;
    assert x == x % big + big * q;
    assert big * q == m * (n * q);
    ModShift(x % big, n * q, m);
  }

  /** A difference of wrapped cursors agrees with the difference of the cursors. */
  lemma DifferenceThenMod(p: nat, q: nat)
    ensures (p % TWO32 - q % TWO32) % TWO32 == (p - q) % TWO32
  {
  }

  lemma {:induction false} Pow2Splits(k: nat)
    requires k <= 32
    ensures Pow2(k) * Pow2(32 - k) == TWO32
    decreases 32 - k
  {
    if k == 32 {
      Pow2At32();
    } else {
      Pow2Splits(k + 1);
      assert Pow2(k + 1) == 2 * Pow2(k) && Pow2(32 - k) == 2 * Pow2(32 - (k + 1));
      assert Pow2(k) * (2 * Pow2(32 - (k + 1))) == (2 * Pow2(k)) * Pow2(32 - (k + 1));
    }
  }

  lemma Pow2At32()
    ensures Pow2(32) == TWO32
  {
    assert Pow2(8) == 256;
    assert Pow2(16) == 65536;
    assert Pow2(24) == 16777216;
  }

  /** Numbers less than m apart are equal when they agree modulo m. */
  lemma ModInjective(x: int, y: int, m: nat)
    requires m > 0 && 0 - m < x - y < m
    ensures x % m == y % m <==> x == y
  {
    if x % m == y % m {
      var d := x / m - y / m;
      assert x - y == m * d by {
        assert x == m * (x / m) + x % m && y == m * (y / m) + y % m;
        assert m * (x / m) - m * (y / m) == m * d;
      }
      MulMagnitude(m, d);
    }
  }

  lemma DivMonotone(a: nat, b: nat, w: nat)
    requires a <= b && w > 0
    ensures a / w <= b / w
  {
    var d := b / w - a / w;
    assert w * d == (b - b % w) - (a - a % w) by {
      assert b == w * (b / w) + b % w && a == w * (a / w) + a % w;
      assert w * d == w * (b / w) - w * (a / w);
    }
    MulMagnitude(w, d);
  }
}
