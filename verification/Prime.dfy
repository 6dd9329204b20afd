/** pyrogram/crypto/prime.py: Brent's batched Pollard rho, with the three random
    draws as arguments.  The orbit y, y^2 + c, ... modulo pq is compared round by
    round: round e takes r = 2^e, fixes x at orbit index 2(r-1) and compares it
    with the terms at indices 3r-2+1 .. 3r-2+r. */
module Prime {
  import opened NumberTheory

  function Step(n: nat, c: nat, y: nat): nat
    requires n > 0
  {
    (y * y + c) % n
  }

  function Orbit(n: nat, c: nat, y0: nat, k: nat): nat
    requires n > 0
  {
    if k == 0 then y0 else Step(n, c, Orbit(n, c, y0, k - 1))
  }

  function Pow2(e: nat): (r: nat)
    ensures r > e
  {
    if e == 0 then 1 else 2 * Pow2(e - 1)
  }

  function Distance(a: nat, b: nat): nat {
    if a >= b then a - b else b - a
  }

  /** The j-th comparison of round e. */
  function Diff(n: nat, c: nat, y0: nat, e: nat, j: nat): nat
    requires n > 0
  {
    var r := Pow2(e);
    Distance(Orbit(n, c, y0, 2 * r - 2), Orbit(n, c, y0, 3 * r - 2 + j))
  }

  /** The product of comparisons lo+1..hi of round e. */
  ghost function Product(n: nat, c: nat, y0: nat, e: nat, lo: nat, hi: nat): nat
    requires n > 0 && lo <= hi
    decreases hi - lo
  {
    if lo == hi then 1 else Product(n, c, y0, e, lo, hi - 1) * Diff(n, c, y0, e, hi)
  }

  /** No comparison lo+1..hi of round e shares a factor with n. */
  ghost predicate CleanRange(n: nat, c: nat, y0: nat, e: nat, lo: nat, hi: nat)
    requires n > 0
  {
    forall j :: lo < j <= hi ==> Coprime(Diff(n, c, y0, e, j), n)
  }

  /** No comparison of any round before e shares a factor with n. */
  ghost predicate CleanRounds(n: nat, c: nat, y0: nat, e: nat)
    requires n > 0
  {
    forall d :: 0 <= d < e ==> CleanRange(n, c, y0, d, 0, Pow2(d))
  }

  /** Comparison j of round e is the very first that shares a factor with n. */
  ghost predicate FirstShared(n: nat, c: nat, y0: nat, e: nat, j: nat)
    requires n > 0
  {
    && 1 <= j <= Pow2(e)
    && !Coprime(Diff(n, c, y0, e, j), n)
    && CleanRange(n, c, y0, e, 0, j - 1)
    && CleanRounds(n, c, y0, e)
  }

  /** What unbatched rho would return at comparison j of round e. */
  ghost function Shared(n: nat, c: nat, y0: nat, e: nat, j: nat): nat
    requires n > 0
  {
    Gcd(Diff(n, c, y0, e, j), n)
  }

  function Min(a: nat, b: nat): nat { if a < b then a else b }

  /** The first comparison of the batch of size m that comparison j falls into. */
  function BatchStart(m: nat, j: nat): (lo: nat)
    requires m > 0 && j >= 1
    ensures lo < j <= lo + m
  {
    (j - 1) / m * m
  }

  /** The value Brent's batches of m yield when comparison j of round e is the
      first to share a factor: the gcd of the whole batch, or, when that has
      collapsed to n, the gcd of the comparison itself. */
  ghost function Batched(n: nat, c: nat, y0: nat, m: nat, e: nat, j: nat): nat
    requires n > 0 && m > 0 && 1 <= j <= Pow2(e)
  {
    var lo := BatchStart(m, j);
    var all := Gcd(Product(n, c, y0, e, lo, Min(lo + m, Pow2(e))), n);
    if all == n then Shared(n, c, y0, e, j) else all
  }

  // ---------------------------------------------------------------- the orbit

  lemma {:induction false} OrbitBelow(n: nat, c: nat, y0: nat, k: nat)
    requires y0 < n
    ensures Orbit(n, c, y0, k) < n
  {
    if k > 0 { OrbitBelow(n, c, y0, k - 1); }
  }

  lemma DiffBelow(n: nat, c: nat, y0: nat, e: nat, j: nat)
    requires y0 < n
    ensures Diff(n, c, y0, e, j) < n
  {
    OrbitBelow(n, c, y0, 2 * Pow2(e) - 2);
    OrbitBelow(n, c, y0, 3 * Pow2(e) - 2 + j);
  }

  /** Pigeonhole on the orbit: it enters a cycle of length 1..n before step n. */
  lemma OrbitCycles(n: nat, c: nat, y0: nat) returns (tail: nat, period: nat)
    requires y0 < n
    ensures tail < n && 1 <= period <= n
    ensures Orbit(n, c, y0, tail) == Orbit(n, c, y0, tail + period)
  {
    var s := seq(n + 1, k requires 0 <= k => Orbit(n, c, y0, k));
    forall k | 0 <= k < |s| ensures s[k] < n { OrbitBelow(n, c, y0, k); }
    var i, j := Pigeonhole(s, n);
    tail, period := i, j - i;
  }

  lemma {:induction false} OrbitPeriodic(n: nat, c: nat, y0: nat, tail: nat, period: nat, k: nat)
    requires n > 0 && tail <= k
    requires Orbit(n, c, y0, tail) == Orbit(n, c, y0, tail + period)
    ensures Orbit(n, c, y0, k) == Orbit(n, c, y0, k + period)
    decreases k
  {
    if k > tail { OrbitPeriodic(n, c, y0, tail, period, k - 1); }
  }

  lemma LapBefore(laps: nat, period: nat) returns (done: nat)
    requires laps > 0
    ensures done == (laps - 1) * period && laps * period == done + period
  {
    done := (laps - 1) * period;
  }

  lemma {:induction false} OrbitLaps(n: nat, c: nat, y0: nat, tail: nat, period: nat, k: nat, laps: nat)
    requires n > 0 && tail <= k
    requires Orbit(n, c, y0, tail) == Orbit(n, c, y0, tail + period)
    ensures Orbit(n, c, y0, k) == Orbit(n, c, y0, k + laps * period)
    decreases laps
  {
    if laps == 0 {
    } else {
      var done: nat := LapBefore(laps, period);
      OrbitLaps(n, c, y0, tail, period, k, laps - 1);
      OrbitPeriodic(n, c, y0, tail, period, k + done);
    }
  }

  /** A round with r >= n always compares two equal orbit points. */
  lemma RoundMeets(n: nat, c: nat, y0: nat, e: nat) returns (j: nat)
    requires y0 < n && Pow2(e) >= n
    ensures 1 <= j <= Pow2(e) && Diff(n, c, y0, e, j) == 0
  {
    hide Orbit;
    var r := Pow2(e);
    var tail, period := OrbitCycles(n, c, y0);
    var laps := LapsPast(r, period);
    j := laps * period - r;
    OrbitLaps(n, c, y0, tail, period, 2 * r - 2, laps);
    assert 2 * r - 2 + laps * period == 3 * r - 2 + j;
  }

  lemma LapsPast(r: nat, period: nat) returns (laps: nat)
    requires period > 0
    ensures r < laps * period <= r + period
  {
    laps := r / period + 1;
    assert laps * period == r / period * period + period;
    assert r == r / period * period + r % period;
  }

  lemma CleanAt(n: nat, c: nat, y0: nat, e: nat, j: nat)
    requires n > 0 && 1 <= j <= Pow2(e) && CleanRounds(n, c, y0, e + 1)
    ensures Coprime(Diff(n, c, y0, e, j), n)
  {
    assert CleanRange(n, c, y0, e, 0, Pow2(e));
  }

  /** So a run of clean rounds cannot reach a round with r >= n. */
  lemma CleanRoundsShort(n: nat, c: nat, y0: nat, e: nat)
    requires y0 < n && n >= 2 && CleanRounds(n, c, y0, e + 1)
    ensures Pow2(e) < n
  {
    if Pow2(e) >= n {
      var j := RoundMeets(n, c, y0, e);
      GcdZero(n);
      CleanAt(n, c, y0, e, j);
      assert false;
    }
  }

  // -------------------------------------------------------------- the batches

  lemma {:induction false} CleanProduct(n: nat, c: nat, y0: nat, e: nat, lo: nat, hi: nat)
    requires n > 1 && lo <= hi && CleanRange(n, c, y0, e, lo, hi)
    ensures Coprime(Product(n, c, y0, e, lo, hi), n)
    decreases hi - lo
  {
    if lo == hi {
      OneCoprime(n);
    } else {
      CleanProduct(n, c, y0, e, lo, hi - 1);
      GcdCoprimeFactor(Product(n, c, y0, e, lo, hi - 1), Diff(n, c, y0, e, hi), n);
    }
  }

  lemma {:induction false} DiffDividesProduct(n: nat, c: nat, y0: nat, e: nat, lo: nat, hi: nat, j: nat)
    requires n > 0 && lo < j <= hi
    ensures Divides(Shared(n, c, y0, e, j), Gcd(Product(n, c, y0, e, lo, hi), n))
    decreases hi
  {
    var s := Shared(n, c, y0, e, j);
    GcdDivides(Diff(n, c, y0, e, j), n);
    if j == hi {
      DividesProduct(s, Diff(n, c, y0, e, j), Product(n, c, y0, e, lo, hi - 1));
    } else {
      DiffDividesProduct(n, c, y0, e, lo, hi - 1, j);
      var p := Product(n, c, y0, e, lo, hi - 1);
      GcdDivides(p, n);
      DividesTransitive(s, Gcd(p, n), p);
      DividesProduct(s, p, Diff(n, c, y0, e, hi));
    }
    GcdGreatest(s, Product(n, c, y0, e, lo, hi), n);
  }

  lemma {:induction false} FirstIn(n: nat, c: nat, y0: nat, e: nat, lo: nat, hi: nat) returns (j: nat)
    requires n > 0 && lo <= hi && !CleanRange(n, c, y0, e, lo, hi)
    ensures lo < j <= hi && !Coprime(Diff(n, c, y0, e, j), n)
    ensures CleanRange(n, c, y0, e, lo, j - 1)
    decreases hi - lo
  {
    if CleanRange(n, c, y0, e, lo, hi - 1) {
      j := hi;
    } else {
      j := FirstIn(n, c, y0, e, lo, hi - 1);
    }
  }

  /** The batch a shared factor was noticed in holds a first shared comparison. */
  lemma FirstInBatch(n: nat, c: nat, y0: nat, e: nat, lo: nat, hi: nat) returns (j: nat)
    requires n > 1 && lo <= hi
    requires !Coprime(Product(n, c, y0, e, lo, hi), n)
    ensures lo < j <= hi && !Coprime(Diff(n, c, y0, e, j), n)
    ensures CleanRange(n, c, y0, e, lo, j - 1)
  {
    if CleanRange(n, c, y0, e, lo, hi) {
      CleanProduct(n, c, y0, e, lo, hi);
    }
    j := FirstIn(n, c, y0, e, lo, hi);
  }

  lemma BatchOf(m: nat, lo: nat, j: nat)
    requires m > 0 && lo % m == 0 && lo < j <= lo + m
    ensures BatchStart(m, j) == lo
  {
    var k := lo / m;
    assert lo == m * k;
    assert j - 1 == m * k + (j - 1 - lo) && 0 <= j - 1 - lo < m;
    var q, t := (j - 1) / m, (j - 1) % m;
    assert m * (q - k) == (j - 1 - lo) - t;
    ScaleBound(m, q - k);
    assert q == k;
  }

  /** Batching changes neither whether the result is proper nor what it is a
      multiple of: it is n exactly when the first shared comparison met two
      equal orbit points, whatever the batch size, and otherwise it is a proper
      divisor that contains the factor unbatched rho would have found. */
  lemma BatchedRefinesUnbatched(n: nat, c: nat, y0: nat, m: nat, e: nat, j: nat)
    requires n > 1 && y0 < n && m > 0 && FirstShared(n, c, y0, e, j)
    ensures 1 < Batched(n, c, y0, m, e, j) <= n
    ensures Divides(Batched(n, c, y0, m, e, j), n)
    ensures Divides(Shared(n, c, y0, e, j), Batched(n, c, y0, m, e, j))
    ensures Batched(n, c, y0, m, e, j) == n <==>
            Orbit(n, c, y0, 2 * Pow2(e) - 2) == Orbit(n, c, y0, 3 * Pow2(e) - 2 + j)
    ensures Batched(n, c, y0, 1, e, j) == Shared(n, c, y0, e, j)
  {
    var lo := BatchStart(m, j);
    var hi := Min(lo + m, Pow2(e));
    var all := Gcd(Product(n, c, y0, e, lo, hi), n);
    var s := Shared(n, c, y0, e, j);
    DiffBelow(n, c, y0, e, j);
    GcdFull(Diff(n, c, y0, e, j), n);
    GcdDivides(Diff(n, c, y0, e, j), n);
    GcdDivides(Product(n, c, y0, e, lo, hi), n);
    DividesBound(all, n);
    DiffDividesProduct(n, c, y0, e, lo, hi, j);
    DividesBound(s, all);
    DividesSelf(s);
    BatchOf(1, j - 1, j);
    assert Product(n, c, y0, e, j - 1, j) == 1 * Diff(n, c, y0, e, j) by {
      assert Product(n, c, y0, e, j - 1, j - 1) == 1;
    }
    assert Gcd(Product(n, c, y0, e, j - 1, j), n) == s;
  }

  lemma EarlierClean(n: nat, c: nat, y0: nat, e: nat, e': nat, j: nat)
    requires n > 0 && e < e' && CleanRounds(n, c, y0, e') && 1 <= j <= Pow2(e)
    ensures Coprime(Diff(n, c, y0, e, j), n)
  {
    assert CleanRange(n, c, y0, e, 0, Pow2(e));
  }

  /** Only one comparison is the first shared one. */
  lemma FirstSharedUnique(n: nat, c: nat, y0: nat, e: nat, j: nat, e': nat, j': nat)
    requires n > 0 && FirstShared(n, c, y0, e, j) && FirstShared(n, c, y0, e', j')
    ensures e == e' && j == j'
  {
    if e < e' {
      EarlierClean(n, c, y0, e, e', j);
      assert false;
    } else if e' < e {
      EarlierClean(n, c, y0, e', e, j');
      assert false;
    }
  }

  /** For every modulus and every draw a first shared comparison exists. */
  lemma FirstSharedExists(n: nat, c: nat, y0: nat) returns (e: nat, j: nat)
    requires n > 1 && y0 < n
    ensures FirstShared(n, c, y0, e, j)
  {
    e := 0;
    while CleanRange(n, c, y0, e, 0, Pow2(e))
      invariant CleanRounds(n, c, y0, e)
      decreases n - Pow2(e)
    {
      CleanRoundsShort(n, c, y0, e);
      e := e + 1;
    }
    j := FirstIn(n, c, y0, e, 0, Pow2(e));
  }

  // --------------------------------------------------------------- the method

  method GcdLoop(a0: nat, b0: nat) returns (a: nat)
    ensures a == Gcd(a0, b0)
  {
    a := a0;
    var b: nat := b0;
    while b != 0
      invariant Gcd(a, b) == Gcd(a0, b0)
      decreases b
    {
      a, b := b, a % b;
    }
  }

  /** One batch: q is multiplied by comparisons k+1 .. k+count of round e, and y
      moves along the orbit. */
  method Batch(n: nat, c: nat, x: nat, yStart: nat, qStart: nat, count: nat,
               ghost y0: nat, ghost e: nat, ghost k: nat)
    returns (y: nat, q: nat)
    requires n > 1
    requires x == Orbit(n, c, y0, 2 * Pow2(e) - 2)
    requires yStart == Orbit(n, c, y0, 3 * Pow2(e) - 2 + k)
    requires Coprime(qStart, n)
    ensures y == Orbit(n, c, y0, 3 * Pow2(e) - 2 + k + count)
    ensures Gcd(q, n) == Gcd(Product(n, c, y0, e, k, k + count), n)
  {
    y, q := yStart, qStart;
    for t := 0 to count
      invariant y == Orbit(n, c, y0, 3 * Pow2(e) - 2 + k + t)
      invariant q % n == (qStart * Product(n, c, y0, e, k, k + t)) % n
    {
      ghost var before := q;
      y := (y * y + c) % n;
      assert y == Orbit(n, c, y0, 3 * Pow2(e) - 2 + k + t + 1);
      q := q * Distance(x, y) % n;
      TimesMod(before, qStart, Product(n, c, y0, e, k, k + t), Distance(x, y), n);
    }
    GcdMod(q, n);
    GcdMod(qStart * Product(n, c, y0, e, k, k + count), n);
    GcdCoprimeFactor(qStart, Product(n, c, y0, e, k, k + count), n);
  }

  lemma TimesMod(q: nat, a: nat, p: nat, d: nat, n: nat)
    requires n > 0 && q % n == (a * p) % n
    ensures (q * d % n) % n == (a * (p * d)) % n
  {
    ModTimes(q, a * p, d, n);
    SmallMod(q * d % n, n);
    assert (a * p) * d == a * (p * d);
  }

  lemma ModTimes(a: nat, b: nat, d: nat, n: nat)
    requires n > 0 && a % n == b % n
    ensures (a * d) % n == (b * d) % n
  {
    var k := a / n - b / n;
    assert a == n * (a / n) + a % n && b == n * (b / n) + b % n;
    assert a - b == n * k;
    assert a * d - b * d == n * (k * d) by {
      assert a * d - b * d == (a - b) * d;
      assert (n * k) * d == n * (k * d);
    }
    var u, v := (a * d) % n, (b * d) % n;
    assert n * ((a * d) / n - (b * d) / n - k * d) == v - u;
    ScaleBound(n, (a * d) / n - (b * d) / n - k * d);
  }

  /** The stretch of r steps between fixing x and the first comparison. */
  method Advance(n: nat, c: nat, yStart: nat, r: nat, ghost y0: nat, ghost from: nat) returns (y: nat)
    requires n > 0 && yStart == Orbit(n, c, y0, from)
    ensures y == Orbit(n, c, y0, from + r)
  {
    y := yStart;
    for i := 0 to r
      invariant y == Orbit(n, c, y0, from + i)
    {
      y := (y * y + c) % n;
      assert y == Orbit(n, c, y0, from + i + 1);
    }
  }

  /** The batches of round e: either the whole round is clean, or k0+1..hi0 is
      the first batch to share a factor and ys is where it began. */
  method Round(n: nat, c: nat, m: nat, x: nat, r: nat, yStart: nat, qStart: nat, ghost y0: nat, ghost e: nat)
    returns (y: nat, q: nat, ys: nat, g: nat, ghost k0: nat, ghost hi0: nat)
    requires n > 1 && m > 0 && r == Pow2(e) && CleanRounds(n, c, y0, e) && Coprime(qStart, n)
    requires x == Orbit(n, c, y0, 2 * r - 2) && yStart == Orbit(n, c, y0, 3 * r - 2)
    ensures g == 1 ==> CleanRounds(n, c, y0, e + 1) && Coprime(q, n) && y == Orbit(n, c, y0, 4 * r - 2)
    ensures g != 1 ==> Noticed(n, c, y0, m, e, k0, hi0) && g == Gcd(Product(n, c, y0, e, k0, hi0), n)
    ensures g != 1 ==> ys == Orbit(n, c, y0, 3 * r - 2 + k0)
  {
    y, q, ys, g := yStart, qStart, yStart, 1;
    k0, hi0 := 0, 0;
    var k: nat := 0;
    while k < r && g == 1
      invariant g == 1 ==> k % m == 0 && CleanRange(n, c, y0, e, 0, Min(k, r))
      invariant g == 1 ==> Coprime(q, n) && y == Orbit(n, c, y0, 3 * r - 2 + Min(k, r))
      invariant g != 1 ==> Noticed(n, c, y0, m, e, k0, hi0) && g == Gcd(Product(n, c, y0, e, k0, hi0), n)
      invariant g != 1 ==> ys == Orbit(n, c, y0, 3 * r - 2 + k0)
      decreases g == 1, r - k
    {
      ys := y;
      k0, hi0 := k, Min(k + m, r);
      y, q := Batch(n, c, x, y, q, Min(m, r - k), y0, e, k);
      g := GcdLoop(q, n);
      if g == 1 {
        BatchClean(n, c, y0, e, k0, hi0);
        NextMultiple(k, m);
      }
      k := k + m;
    }
  }

  /** The fallback loop, restarted at ys: it stops at the first comparison of the
      batch that shares a factor. */
  method Fallback(n: nat, c: nat, x: nat, ysStart: nat, ghost y0: nat, ghost e: nat, ghost k0: nat, ghost j: nat)
    returns (g: nat)
    requires n > 1 && k0 < j
    requires x == Orbit(n, c, y0, 2 * Pow2(e) - 2) && ysStart == Orbit(n, c, y0, 3 * Pow2(e) - 2 + k0)
    requires !Coprime(Diff(n, c, y0, e, j), n) && CleanRange(n, c, y0, e, k0, j - 1)
    ensures g == Shared(n, c, y0, e, j)
  {
    var ys: nat := ysStart;
    ghost var i: nat := k0;
    while true
      invariant k0 <= i < j && ys == Orbit(n, c, y0, 3 * Pow2(e) - 2 + i)
      decreases j - i
    {
      ys := (ys * ys + c) % n;
      i := i + 1;
      assert ys == Orbit(n, c, y0, 3 * Pow2(e) - 2 + i);
      g := GcdLoop(Distance(x, ys), n);
      GcdDivides(Diff(n, c, y0, e, i), n);
      if g > 1 { break; }
    }
  }

  /** decompose.  For an odd pq the result is exactly the batched value at the
      first comparison that shares a factor, so by BatchedRefinesUnbatched it is a
      divisor greater than one; an even pq gives 2 without a draw. */
  method Decompose(pq: nat, y0: nat, c: nat, m: nat) returns (g: nat)
    requires pq >= 2
    requires pq % 2 == 1 ==> 1 <= y0 < pq && 1 <= c < pq && 1 <= m < pq
    ensures 1 < g <= pq && Divides(g, pq)
    ensures pq % 2 == 0 ==> g == 2
    ensures pq % 2 == 1 ==> exists e, j :: FirstShared(pq, c, y0, e, j) && g == Batched(pq, c, y0, m, e, j)
  {
    hide Batched, FirstShared, CleanRange, Product;
    if pq % 2 == 0 { return 2; }
    var y: nat, r: nat, q: nat := y0, 1, 1;
    g := 1;
    var x: nat, ys: nat := 0, 0;
    ghost var e: nat, k0: nat, hi0: nat := 0, 0, 0;
    OneCoprime(pq);
    while g == 1
      invariant g == 1 ==> CleanRounds(pq, c, y0, e) && r == Pow2(e) && y == Orbit(pq, c, y0, 2 * r - 2) && Coprime(q, pq)
      invariant g != 1 ==> Noticed(pq, c, y0, m, e, k0, hi0) && g == Gcd(Product(pq, c, y0, e, k0, hi0), pq)
      invariant g != 1 ==> x == Orbit(pq, c, y0, 2 * Pow2(e) - 2) && ys == Orbit(pq, c, y0, 3 * Pow2(e) - 2 + k0)
      decreases g == 1, if g == 1 then 2 * pq - r else 0
    {
      x := y;
      y := Advance(pq, c, y, r, y0, 2 * r - 2);
      y, q, ys, g, k0, hi0 := Round(pq, c, m, x, r, y, q, y0, e);
      if g == 1 {
        CleanRoundsShort(pq, c, y0, e);
        e := e + 1;
      }
      r := r * 2;
    }
    ghost var j := FirstInBatch(pq, c, y0, e, k0, hi0);
    NoticedFirst(pq, c, y0, m, e, k0, hi0, j);
    if g == pq {
      g := Fallback(pq, c, x, ys, y0, e, k0, j);
    }
    BatchedRefinesUnbatched(pq, c, y0, m, e, j);
  }

  /** pyrogram/session/auth.py forms its p and q from the result: they come
      back in order and multiply to pq. */
  method Factor(pq: nat, y0: nat, c: nat, m: nat) returns (p: nat, q: nat)
    requires pq >= 2
    requires pq % 2 == 1 ==> 1 <= y0 < pq && 1 <= c < pq && 1 <= m < pq
    ensures p * q == pq && 1 <= p <= q
  {
    var g := Decompose(pq, y0, c, m);
    Cofactor(g, pq);
    p, q := if g <= pq / g then g else pq / g, if g <= pq / g then pq / g else g;
  }

  lemma Cofactor(g: nat, n: nat)
    requires Divides(g, n) && n > 0
    ensures g * (n / g) == n == (n / g) * g && n / g >= 1
  {}

  /** A composite pq can come back unfactored: for 9 with y = 1 and c = 8 the
      first comparison that shares a factor meets two equal orbit points, so every
      batch size returns 9. */
  lemma CompositeUnfactored(pq: nat, y0: nat, c: nat, m: nat, e: nat, j: nat)
    requires pq == 9 && y0 == 1 && c == 8 && m > 0 && e == 1 && j == 2
    ensures FirstShared(pq, c, y0, e, j)
    ensures Batched(pq, c, y0, m, e, j) == pq && Divides(3, pq)
  {
    hide Orbit, Batched, FirstShared;
    Clean9(pq, c, y0, e, j);
    Diff9(pq, c, y0, e, j, 2);
    BatchedRefinesUnbatched(pq, c, y0, m, e, j);
  }

  lemma Diff9(n: nat, c: nat, y0: nat, e: nat, j: nat, r: nat)
    requires n == 9 && c == 8 && y0 == 1 && e <= 1 && r == e + 1 && 1 <= j <= r
    ensures Pow2(e) == r
    ensures Diff(n, c, y0, e, j) == if e == 0 then 7 else if j == 1 then 8 else 0
  {
    hide Step;
    Pow2Small(e);
    Orbit9(n, c, y0, 0);
    Orbit9(n, c, y0, 2);
    DiffAt(n, c, y0, e, j, r);
  }

  lemma DiffAt(n: nat, c: nat, y0: nat, e: nat, j: nat, r: nat)
    requires n > 0 && Pow2(e) == r
    ensures Diff(n, c, y0, e, j) == Distance(Orbit(n, c, y0, 2 * r - 2), Orbit(n, c, y0, 3 * r - 2 + j))
  {}

  lemma Pow2Small(e: nat)
    requires e <= 1
    ensures Pow2(e) == e + 1
  {
    assert e == 1 ==> Pow2(e - 1) == 1;
  }

  lemma Clean9(n: nat, c: nat, y0: nat, e: nat, j: nat)
    requires n == 9 && c == 8 && y0 == 1 && e == 1 && j == 2
    ensures FirstShared(n, c, y0, e, j)
  {
    Gcd9(7, n); Gcd9(8, n);
    GcdZero(n);
    Diff9(n, c, y0, e, j, 2);
    forall d | 0 <= d < e ensures CleanRange(n, c, y0, d, 0, Pow2(d)) {
      Diff9(n, c, y0, d, 1, 1);
    }
    forall i | 0 < i <= j - 1 ensures Coprime(Diff(n, c, y0, e, i), n) {
      Diff9(n, c, y0, e, i, 2);
    }
  }

  lemma {:induction false} Orbit9(n: nat, c: nat, y0: nat, i: nat)
    requires n == 9 && c == 8 && y0 == 1
    ensures Orbit(n, c, y0, 2 * i + 1) == 0 && Orbit(n, c, y0, 2 * i + 2) == 8
  {
    hide Step;
    if i > 0 { Orbit9(n, c, y0, i - 1); }
    Step9(n, c, Orbit(n, c, y0, 2 * i));
    Step9(n, c, Orbit(n, c, y0, 2 * i + 1));
  }

  lemma Step9(n: nat, c: nat, y: nat)
    requires n == 9 && c == 8
    ensures y == 1 ==> Step(n, c, y) == 0
    ensures y == 0 ==> Step(n, c, y) == 8
    ensures y == 8 ==> Step(n, c, y) == 0
  {
    assert y == 8 ==> y * y + c == 72;
  }

  lemma Gcd9(a: nat, n: nat)
    requires n == 9 && (a == 7 || a == 8)
    ensures Coprime(a, n)
  {
    GcdStep(a, n);
    GcdStep(n, a);
    GcdStep(a, n % a);
    if a == 7 { GcdStep(n % a, 1); }
  }

  lemma OneCoprime(n: nat)
    requires n > 1
    ensures Coprime(1, n)
  {
    GcdStep(1, n);
    SmallMod(1, n);
    GcdStep(n, 1);
  }

  /** Batch k0+1..hi0 of round e is the first whose product shares a factor. */
  ghost predicate Noticed(n: nat, c: nat, y0: nat, m: nat, e: nat, k0: nat, hi0: nat)
    requires n > 0 && m > 0
  {
    && k0 < hi0 && hi0 == Min(k0 + m, Pow2(e)) && k0 % m == 0
    && CleanRounds(n, c, y0, e) && CleanRange(n, c, y0, e, 0, k0)
    && !Coprime(Product(n, c, y0, e, k0, hi0), n)
  }

  lemma NoticedFirst(n: nat, c: nat, y0: nat, m: nat, e: nat, k0: nat, hi0: nat, j: nat)
    requires n > 1 && m > 0 && Noticed(n, c, y0, m, e, k0, hi0)
    requires k0 < j <= hi0 && !Coprime(Diff(n, c, y0, e, j), n) && CleanRange(n, c, y0, e, k0, j - 1)
    ensures FirstShared(n, c, y0, e, j)
    ensures var g := Gcd(Product(n, c, y0, e, k0, hi0), n);
            Batched(n, c, y0, m, e, j) == if g == n then Shared(n, c, y0, e, j) else g
  {
    hide Product, Diff;
    BatchOf(m, k0, j);
  }

  /** A batch whose product is coprime to n has only coprime comparisons. */
  lemma BatchClean(n: nat, c: nat, y0: nat, e: nat, lo: nat, hi: nat)
    requires n > 1 && lo <= hi && Coprime(Product(n, c, y0, e, lo, hi), n)
    ensures CleanRange(n, c, y0, e, lo, hi)
  {
    forall j | lo < j <= hi ensures Coprime(Diff(n, c, y0, e, j), n) {
      DiffDividesProduct(n, c, y0, e, lo, hi, j);
      DividesBound(Shared(n, c, y0, e, j), 1);
    }
  }

  lemma NextMultiple(k: nat, m: nat)
    requires m > 0 && k % m == 0
    ensures (k + m) % m == 0
  {
    assert k + m == m * (k / m + 1);
    MultipleMod(m, k / m + 1);
  }
}
