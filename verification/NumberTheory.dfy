/** Greatest common divisors, Bezout coefficients and coprimality: what the
    factoring loop of pyrogram/crypto/prime.py rests on. */
module NumberTheory {

  /** d divides n, with a non-zero d. */
  predicate Divides(d: nat, n: nat) {
    d > 0 && n % d == 0
  }

  /** The recursive variant the source keeps in a comment above its loop. */
  function Gcd(a: nat, b: nat): nat
    decreases b
  {
    if b == 0 then a else Gcd(b, a % b)
  }

  predicate Coprime(a: nat, n: nat) {
    Gcd(a, n) == 1
  }

  lemma MultipleMod(d: int, k: int)
    requires d > 0
    ensures (d * k) % d == 0
    ensures (d * k) / d == k
  {
    var q, r := (d * k) / d, (d * k) % d;
    assert d * (k - q) == r;
    ScaleBound(d, k - q);
  }

  lemma ScaleBound(d: int, k: int)
    requires d > 0
    ensures k >= 1 ==> d * k >= d
    ensures k <= -1 ==> d * k <= -d
  {}

  /** A value in 0..d-1 is its own residue. */
  lemma SmallMod(a: nat, d: nat)
    requires a < d
    ensures a % d == a && a / d == 0
  {}

  lemma GcdStep(a: nat, b: nat)
    requires b > 0
    ensures Gcd(a, b) == Gcd(b, a % b)
  {}

  /** A divisor of a and b divides every integer combination of them. */
  lemma DividesCombination(d: nat, a: nat, b: nat, x: int, y: int)
    requires Divides(d, a) && Divides(d, b)
    ensures (a * x + b * y) % d == 0
  {
    var k := (a / d) * x + (b / d) * y;
    assert a == d * (a / d) && b == d * (b / d);
    assert a * x + b * y == d * k by {
      assert a * x == d * ((a / d) * x);
      assert b * y == d * ((b / d) * y);
    }
    MultipleMod(d, k);
  }

  lemma DividesValue(d: nat, a: nat, b: nat, x: int, y: int, n: nat)
    requires Divides(d, a) && Divides(d, b) && n == a * x + b * y
    ensures Divides(d, n)
  {
    DividesCombination(d, a, b, x, y);
  }

  lemma DividesSelf(d: nat)
    requires d > 0
    ensures Divides(d, d) && Divides(d, 0)
  {}

  lemma DividesProduct(d: nat, a: nat, b: nat)
    requires Divides(d, a)
    ensures Divides(d, a * b) && Divides(d, b * a)
  {
    DividesSelf(d);
    DividesCombination(d, a, 0, b, 0);
    assert b * a == a * b + 0 * 0;
  }

  lemma DividesTransitive(d: nat, e: nat, n: nat)
    requires Divides(d, e) && Divides(e, n)
    ensures Divides(d, n)
  {
    DividesProduct(d, e, n / e);
    assert n == e * (n / e);
  }

  /** A divisor of a positive number is no larger than it. */
  lemma DividesBound(d: nat, n: nat)
    requires Divides(d, n) && n > 0
    ensures d <= n
  {}

  /** Gcd(a, b) divides both numbers, and is positive unless both are zero. */
  lemma {:induction false} GcdDivides(a: nat, b: nat)
    requires a > 0 || b > 0
    ensures Gcd(a, b) > 0
    ensures Divides(Gcd(a, b), a) && Divides(Gcd(a, b), b)
    decreases b
  {
    if b == 0 {
      DividesSelf(a);
    } else {
      GcdDivides(b, a % b);
      DividesCombination(Gcd(a, b), b, a % b, a / b, 1);
      assert a == b * (a / b) + (a % b) * 1;
    }
  }

  lemma BezoutStep(a: int, b: int, q: int, r: int, x: int, y: int)
    requires a == b * q + r
    ensures a * y + b * (x - q * y) == b * x + r * y
  {
    assert b * (x - q * y) == b * x - b * (q * y);
    assert (b * q + r) * y == b * (q * y) + r * y;
  }

  /** Bezout: the gcd is an integer combination of the two numbers. */
  lemma {:induction false} Bezout(a: nat, b: nat) returns (x: int, y: int)
    ensures a * x + b * y == Gcd(a, b)
    decreases b
  {
    if b == 0 {
      x, y := 1, 0;
    } else {
      var x', y' := Bezout(b, a % b);
      x, y := y', x' - (a / b) * y';
      BezoutStep(a, b, a / b, a % b, x', y');
    }
  }

  /** Every common divisor divides the gcd, so it is the greatest one. */
  lemma GcdGreatest(d: nat, a: nat, b: nat)
    requires a > 0 || b > 0
    requires Divides(d, a) && Divides(d, b)
    ensures Divides(d, Gcd(a, b))
  {
    var x, y := Bezout(a, b);
    DividesCombination(d, a, b, x, y);
  }

  lemma GcdAntisymmetric(g: nat, h: nat)
    requires Divides(g, h) && Divides(h, g)
    ensures g == h
  {
    if g == 0 { assert false; }
    DividesBound(g, h);
    DividesBound(h, g);
  }

  /** Reducing the first argument modulo the second keeps the gcd. */
  lemma GcdMod(a: nat, n: nat)
    requires n > 0
    ensures Gcd(a % n, n) == Gcd(a, n)
  {
    SmallMod(a % n, n);
    GcdStep(a % n, n);
    GcdStep(a, n);
  }

  lemma GcdZero(n: nat)
    requires n > 0
    ensures Gcd(0, n) == n
  {
    assert Gcd(0, n) == Gcd(n, 0 % n);
  }

  /** gcd(d, n) == n for d < n only when d is zero. */
  lemma GcdFull(d: nat, n: nat)
    requires d < n
    ensures Gcd(d, n) <= n
    ensures Gcd(d, n) == n <==> d == 0
  {
    GcdDivides(d, n);
    DividesBound(Gcd(d, n), n);
    GcdZero(n);
    if d > 0 && Gcd(d, n) == n { DividesBound(n, d); }
  }

  lemma ScaledBezout(a: int, b: int, n: int, x: int, y: int)
    requires a * x + n * y == 1
    ensures (a * b) * x + n * (b * y) == b
  {
    assert (a * b) * x == b * (a * x);
    assert n * (b * y) == b * (n * y);
    assert b * (a * x) + b * (n * y) == b * (a * x + n * y);
  }

  /** A factor coprime to n does not change the gcd with n. */
  lemma GcdCoprimeFactor(a: nat, b: nat, n: nat)
    requires n > 0 && Coprime(a, n)
    ensures Gcd(a * b, n) == Gcd(b, n)
  {
    hide Gcd, Divides;
    var g, h := Gcd(a * b, n), Gcd(b, n);
    GcdDivides(a * b, n);
    GcdDivides(b, n);
    DividesProduct(h, b, a);
    GcdGreatest(h, a * b, n);
    // g divides b == (a*b)*x + n*(b*y) where a*x + n*y == 1
    var x, y := Bezout(a, n);
    ScaledBezout(a, b, n, x, y);
    DividesValue(g, a * b, n, x, b * y, b);
    GcdGreatest(g, b, n);
    GcdAntisymmetric(g, h);
  }

  /** The first of any values below n that repeats: among n + 1 of them two agree. */
  lemma Pigeonhole(s: seq<nat>, n: nat) returns (i: nat, j: nat)
    requires |s| == n + 1
    requires forall k :: 0 <= k < |s| ==> s[k] < n
    ensures i < j < |s| && s[i] == s[j]
  {
    if forall a, b :: 0 <= a < b < |s| ==> s[a] != s[b] {
      DistinctBound(s, n);
      assert false;
    }
    i, j :| 0 <= i < j < |s| && s[i] == s[j];
  }

  /** Distinct values below n number at most n. */
  lemma {:induction false} DistinctBound(s: seq<nat>, n: nat)
    requires forall k :: 0 <= k < |s| ==> s[k] < n
    requires forall a, b :: 0 <= a < b < |s| ==> s[a] != s[b]
    ensures |s| <= n
    decreases n
  {
    if |s| > 0 {
      assert s[0] < n;
      if n - 1 in s {
        var p :| 0 <= p < |s| && s[p] == n - 1;
        var t := s[..p] + s[p + 1..];
        forall k | 0 <= k < |t| ensures t[k] < n - 1 {
          assert t[k] == if k < p then s[k] else s[k + 1];
        }
        DistinctBound(t, n - 1);
      } else {
        forall k | 0 <= k < |s| ensures s[k] < n - 1 { assert s[k] in s; }
        DistinctBound(s, n - 1);
      }
    }
  }
}
