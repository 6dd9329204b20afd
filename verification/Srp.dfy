/** pyrogram/utils.py: the client's side of the password check, an SRP-6a exchange
    (section 2.6 of RFC 5054), against the side the server computes. */
module Srp {
  import opened TlPrimitives
  import NumberTheory

  // -------------------------------------------------------- modular arithmetic

  function Pow(b: int, e: nat): int { if e == 0 then 1 else b * Pow(b, e - 1) }

  /** pow(b, e, p). */
  function ModPow(b: int, e: nat, p: nat): (r: nat)
    requires p > 0
    ensures r < p
  {
    Pow(b, e) % p
  }

  lemma {:induction false} PowNat(b: nat, e: nat)
    ensures Pow(b, e) >= 0
  {
    if e > 0 { PowNat(b, e - 1); }
  }

  lemma {:induction false} PowAdd(b: int, d: nat, e: nat)
    ensures Pow(b, d + e) == Pow(b, d) * Pow(b, e)
    decreases d
  {
    if d > 0 {
      PowAdd(b, d - 1, e);
      Associate(b, Pow(b, d - 1), Pow(b, e));
    }
  }

  lemma Associate(a: int, b: int, c: int)
    ensures a * (b * c) == (a * b) * c
  {}

  lemma Interchange(a: int, b: int, c: int, d: int)
    ensures (a * b) * (c * d) == (a * c) * (b * d)
  {
    calc {
      (a * b) * (c * d);
    == { Associate(a, b, c * d); }
      a * (b * (c * d));
    == { Associate(b, c, d); Associate(c, b, d); }
      a * (c * (b * d));
    == { Associate(a, c, b * d); }
      (a * c) * (b * d);
    }
  }

  lemma {:induction false} PowProduct(a: int, b: int, e: nat)
    ensures Pow(a * b, e) == Pow(a, e) * Pow(b, e)
  {
    if e > 0 {
      PowProduct(a, b, e - 1);
      Interchange(a, b, Pow(a, e - 1), Pow(b, e - 1));
    }
  }

  lemma {:induction false} PowPow(b: int, d: nat, e: nat)
    ensures d * e >= 0 && Pow(b, d * e) == Pow(Pow(b, d), e)
    decreases e
  {
    if e > 0 {
      PowPow(b, d, e - 1);
      assert d * e == d + d * (e - 1);
      PowAdd(b, d, d * (e - 1));
    }
  }

  /** a and b leave the same remainder. */
  predicate Same(a: int, b: int, p: nat)
    requires p > 0
  {
    a % p == b % p
  }

  lemma SameByMultiple(a: int, b: int, p: nat, k: int)
    requires p > 0 && a == b + p * k
    ensures Same(a, b, p)
  {
    var d := a % p - b % p;
    assert d == p * (b / p + k - a / p) by {
      assert a == p * (a / p) + a % p && b == p * (b / p) + b % p;
      Distribute(p, b / p, k, a / p);
    }
    NumberTheory.ScaleBound(p, b / p + k - a / p);
  }

  lemma Distribute(p: int, x: int, y: int, z: int)
    ensures p * (x + y - z) == p * x + p * y - p * z
  {}

  /** The multiple two numbers with one remainder differ by. */
  lemma MultipleOf(a: int, b: int, p: nat) returns (k: int)
    requires p > 0 && Same(a, b, p)
    ensures a == b + p * k
  {
    k := a / p - b / p;
    assert a == p * (a / p) + a % p && b == p * (b / p) + b % p;
    Distribute(p, a / p, 0, b / p);
  }

  lemma SameProduct(a: int, b: int, c: int, d: int, p: nat)
    requires p > 0 && Same(a, b, p) && Same(c, d, p)
    ensures Same(a * c, b * d, p)
  {
    hide Same;
    var k := MultipleOf(a, b, p);
    var l := MultipleOf(c, d, p);
    Expand(b, d, p, k, l);
    SameByMultiple(a * c, b * d, p, b * l + k * d + p * k * l);
  }

  lemma Expand(b: int, d: int, p: int, k: int, l: int)
    ensures (b + p * k) * (d + p * l) == b * d + p * (b * l + k * d + p * k * l)
  {
    assert (b + p * k) * (d + p * l) == b * d + b * (p * l) + (p * k) * d + (p * k) * (p * l);
    assert b * (p * l) == p * (b * l);
    assert (p * k) * d == p * (k * d);
    assert (p * k) * (p * l) == p * (p * k * l);
  }

  lemma {:induction false} SamePow(a: int, b: int, e: nat, p: nat)
    requires p > 0 && Same(a, b, p)
    ensures Same(Pow(a, e), Pow(b, e), p)
  {
    hide Same;
    if e == 0 {
      SameSelf(1, p);
    } else {
      SamePow(a, b, e - 1, p);
      SameProduct(a, b, Pow(a, e - 1), Pow(b, e - 1), p);
    }
  }

  lemma SameSelf(a: int, p: nat)
    requires p > 0
    ensures Same(a, a, p)
  {}

  lemma SameMod(a: int, p: nat)
    requires p > 0
    ensures Same(a % p, a, p)
  {
    NumberTheory.SmallMod(a % p, p);
  }

  // -------------------------------------------------------- the shared secret

  /** S as the client computes it. */
  function ClientSecret(g: nat, p: nat, B: nat, x: nat, k: nat, a: nat, u: nat): (s: nat)
    requires p > 0
    ensures s < p
  {
    var kgx := k * ModPow(g, x, p) % p;
    ModPow((B - kgx) % p, a + u * x, p)
  }

  /** S as the server computes it from the verifier v and its own secret b. */
  function ServerSecret(A: nat, v: nat, u: nat, b: nat, p: nat): (s: nat)
    requires p > 0
    ensures s < p
  {
    ModPow(A * Pow(v, u), b, p)
  }

  /** The verifier the server keeps and the value it sends. */
  function Verifier(g: nat, x: nat, p: nat): nat requires p > 0 { ModPow(g, x, p) }

  function ServerValue(g: nat, p: nat, k: nat, v: nat, b: nat): nat requires p > 0 { (k * v + Pow(g, b)) % p }

  /** (B - k v) mod p is g^b, whatever k and v. */
  lemma Unmasked(g: nat, p: nat, k: nat, v: nat, b: nat)
    requires p > 0
    ensures Same((ServerValue(g, p, k, v, b) - k * v % p) % p, Pow(g, b), p)
  {
    hide Same;
    var full := k * v + Pow(g, b);
    SameMod(full, p);
    SameMod(k * v, p);
    var i := MultipleOf(full % p, full, p);
    var j := MultipleOf(k * v % p, k * v, p);
    Distribute(p, i, 0, j);
    SameByMultiple(full % p - k * v % p, Pow(g, b), p, i - j);
    SameMod(full % p - k * v % p, p);
    SameTransitive((full % p - k * v % p) % p, full % p - k * v % p, Pow(g, b), p);
  }

  lemma SameTransitive(a: int, b: int, c: int, p: nat)
    requires p > 0 && Same(a, b, p) && Same(b, c, p)
    ensures Same(a, c, p)
  {}

  /** Both sides raise g to b * (a + u * x). */
  lemma Exponents(g: nat, a: nat, b: nat, u: nat, x: nat)
    ensures Pow(Pow(g, b), a + u * x) == Pow(Pow(g, a) * Pow(Pow(g, x), u), b)
  {
    var e := a + u * x;
    calc {
      Pow(Pow(g, b), e);
    == { PowPow(g, b, e); PowPow(g, e, b); assert b * e == e * b; }
      Pow(Pow(g, e), b);
    == { PowAdd(g, a, u * x); }
      Pow(Pow(g, a) * Pow(g, u * x), b);
    == { PowPow(g, x, u); assert x * u == u * x; }
      Pow(Pow(g, a) * Pow(Pow(g, x), u), b);
    }
  }

  /** The client's secret is the server's, for all secrets, salts, hashes and any
      modulus, prime or not. */
  lemma SecretsAgree(g: nat, p: nat, k: nat, x: nat, a: nat, b: nat, u: nat)
    requires p > 0
    ensures var v := Verifier(g, x, p);
            ClientSecret(g, p, ServerValue(g, p, k, v, b), x, k, a, u) == ServerSecret(ModPow(g, a, p), v, u, b, p)
  {
    hide Same, Pow;
    var v := Verifier(g, x, p);
    var B := ServerValue(g, p, k, v, b);
    var gb := (B - k * v % p) % p;
    Unmasked(g, p, k, v, b);
    SamePow(gb, Pow(g, b), a + u * x, p);
    Exponents(g, a, b, u, x);
    SameMod(Pow(g, a), p);
    SameMod(Pow(g, x), p);
    SamePow(v, Pow(g, x), u, p);
    SameProduct(ModPow(g, a, p), Pow(g, a), Pow(v, u), Pow(Pow(g, x), u), p);
    SamePow(ModPow(g, a, p) * Pow(v, u), Pow(g, a) * Pow(Pow(g, x), u), b, p);
    Equal(Pow(gb, a + u * x), Pow(Pow(g, b), a + u * x), Pow(ModPow(g, a, p) * Pow(v, u), b), p);
  }

  lemma Equal(a: int, b: int, c: int, p: nat)
    requires p > 0 && Same(a, b, p) && Same(c, b, p)
    ensures a % p == c % p
  {}

  // ------------------------------------------------------------- the exchange

  /** The primitives the check is built on, whatever they compute. */
  datatype Hashes = Hashes(sha256: Bytes -> Bytes, pbkdf2: (Bytes, Bytes) -> Bytes, xor: (Bytes, Bytes) -> Bytes)

  datatype Algo = Algo(salt1: Bytes, salt2: Bytes, g: nat, p: Bytes)

  datatype Check = Check(a: Bytes, m1: Bytes)

  function Reverse(b: Bytes): (r: Bytes)
    ensures |r| == |b|
  {
    if b == [] then [] else Reverse(b[1..]) + [b[0]]
  }

  lemma {:induction false} ReverseLast(b: Bytes, c: Byte)
    ensures Reverse(b + [c]) == [c] + Reverse(b)
  {
    if b == [] {
      assert b + [c] == [c];
      assert Reverse([c]) == Reverse([]) + [c];
    } else {
      ReverseLast(b[1..], c);
      assert (b + [c])[1..] == b[1..] + [c];
    }
  }

  lemma {:induction false} ReverseReverse(b: Bytes)
    ensures Reverse(Reverse(b)) == b
  {
    if b != [] {
      ReverseReverse(b[1..]);
      ReverseLast(Reverse(b[1..]), b[0]);
    }
  }

  /** int.from_bytes(b, "big"). */
  function Btoi(b: Bytes): nat { FromLittleEndian(Reverse(b)) }

  /** to_bytes(width, "big"), which raises on a wider number; the source's width is 256. */
  function Itob(i: nat, width: nat): Option<Bytes> {
    if i < Pow256(width) then Some(Reverse(LittleEndian(i, width))) else None
  }

  lemma BtoiItob(i: nat, width: nat)
    requires Itob(i, width).Some?
    ensures Btoi(Itob(i, width).value) == i
  {
    ReverseReverse(LittleEndian(i, width));
    LittleEndianRoundTrip(i, width);
  }

  /** compute_password_hash. */
  function PasswordHash(h: Hashes, algo: Algo, password: Bytes): Bytes {
    var hash1 := h.sha256(algo.salt1 + password + algo.salt1);
    var hash2 := h.sha256(algo.salt2 + hash1 + algo.salt2);
    var hash3 := h.pbkdf2(hash2, algo.salt1);
    h.sha256(algo.salt2 + hash3 + algo.salt2)
  }

  function Multiplier(h: Hashes, algo: Algo, gBytes: Bytes): nat { Btoi(h.sha256(algo.p + gBytes)) }

  function Scrambler(h: Hashes, aBytes: Bytes, bBytes: Bytes): nat { Btoi(h.sha256(aBytes + bBytes)) }

  /** M1, the proof that a secret is known. */
  function Proof(h: Hashes, algo: Algo, gBytes: Bytes, aBytes: Bytes, bBytes: Bytes, sBytes: Bytes): Bytes {
    h.sha256(h.xor(h.sha256(algo.p), h.sha256(gBytes)) + h.sha256(algo.salt1) + h.sha256(algo.salt2)
             + aBytes + bBytes + h.sha256(sBytes))
  }

  /** The proof the server expects for the client's value A: it knows the verifier v
      and its own secret b, and never the password. */
  function ExpectedProof(h: Hashes, algo: Algo, v: nat, b: nat, aBytes: Bytes, bBytes: Bytes, width: nat): Option<Bytes>
    requires Btoi(algo.p) > 0
  {
    match Itob(algo.g, width)
    case None => None
    case Some(gBytes) =>
      var s := ServerSecret(Btoi(aBytes), v, Scrambler(h, aBytes, bBytes), b, Btoi(algo.p));
      match Itob(s, width)
      case None => None
      case Some(sBytes) => Some(Proof(h, algo, gBytes, aBytes, bBytes, sBytes))
  }

  /** The client's value for the random bytes of one turn of its loop. */
  function Public(algo: Algo, draw: Bytes, width: nat): Option<Bytes>
    requires Btoi(algo.p) > 0
  {
    Itob(ModPow(algo.g, Btoi(draw), Btoi(algo.p)), width)
  }

  /** The first byte counts most. */
  lemma BigEndian(b: Bytes, c: Byte)
    ensures Btoi([]) == 0 && Btoi(b + [c]) == 256 * Btoi(b) + c
  {
    ReverseLast(b, c);
    assert ([c] + Reverse(b))[1..] == Reverse(b);
  }

  /** A hash with the salt on both sides. */
  function Salted(h: Hashes, data: Bytes, salt: Bytes): Bytes { h.sha256(salt + data + salt) }

  /** Every hash of the exchange over its own inputs: the password is salted with the
      first salt and then the second, stretched with the first and salted with the
      second; the proof is over the modulus and the generator, the salts, both values
      and the secret, in this order. */
  lemma HashesOver(h: Hashes, algo: Algo, password: Bytes, gBytes: Bytes, aBytes: Bytes, bBytes: Bytes, sBytes: Bytes)
    ensures PasswordHash(h, algo, password)
         == Salted(h, h.pbkdf2(Salted(h, Salted(h, password, algo.salt1), algo.salt2), algo.salt1), algo.salt2)
    ensures Multiplier(h, algo, gBytes) == Btoi(h.sha256(algo.p + gBytes))
    ensures Scrambler(h, aBytes, bBytes) == Btoi(h.sha256(aBytes + bBytes))
    ensures Proof(h, algo, gBytes, aBytes, bBytes, sBytes)
         == h.sha256(h.xor(h.sha256(algo.p), h.sha256(gBytes))
                     + (h.sha256(algo.salt1) + (h.sha256(algo.salt2) + (aBytes + (bBytes + h.sha256(sBytes))))))
  {
    hide Btoi;
    var x, one, two := h.xor(h.sha256(algo.p), h.sha256(gBytes)), h.sha256(algo.salt1), h.sha256(algo.salt2);
    SixParts(x, one, two, aBytes, bBytes, h.sha256(sBytes));
  }

  lemma SixParts(a: Bytes, b: Bytes, c: Bytes, d: Bytes, e: Bytes, f: Bytes)
    ensures a + b + c + d + e + f == a + (b + (c + (d + (e + f))))
  {}

  /** A draw that ends the loop: its scrambler is not zero. */
  predicate Ends(h: Hashes, algo: Algo, bBytes: Bytes, draw: Bytes, width: nat)
    requires Btoi(algo.p) > 0
  {
    Public(algo, draw, width).Some? && Scrambler(h, Public(algo, draw, width).value, bBytes) > 0
  }

  /** compute_password_check on the random draws in order; None where a number does
      not fit its bytes, the modulus is zero, or the draws run out before one of
      them ends the loop. */
  method ComputePasswordCheck(h: Hashes, algo: Algo, bBytes: Bytes, password: Bytes, draws: seq<Bytes>, width: nat)
    returns (r: Option<Check>, ghost used: nat)
    ensures r.None? && 0 < Btoi(algo.p) <= Pow256(width) && Itob(algo.g, width).Some? ==>
      forall i :: 0 <= i < |draws| ==> !Ends(h, algo, bBytes, draws[i], width)
    ensures r.Some? ==> Btoi(algo.p) > 0 && used < |draws| && Ends(h, algo, bBytes, draws[used], width)
    ensures r.Some? ==> forall i :: 0 <= i < used ==> !Ends(h, algo, bBytes, draws[i], width)
    ensures r.Some? ==> r.value.a == Public(algo, draws[used], width).value
    ensures r.Some? ==>
      forall b: nat :: Btoi(bBytes) == ServedValue(h, algo, password, b, width) ==>
        ExpectedProof(h, algo, VerifierOf(h, algo, password), b, r.value.a, bBytes, width) == Some(r.value.m1)
  {
    hide Pow256, LittleEndian, FromLittleEndian, Reverse, ModPow, Proof, ClientSecret, ServerSecret;
    r, used := None, 0;
    var p := Btoi(algo.p);
    if p == 0 { return; }
    var gBytes := Itob(algo.g, width);
    if gBytes.None? { return; }
    var x := Btoi(PasswordHash(h, algo, password));
    var k := Multiplier(h, algo, gBytes.value);
    var i := 0;
    while i < |draws|
      invariant 0 <= i <= |draws|
      invariant forall j :: 0 <= j < i ==> !Ends(h, algo, bBytes, draws[j], width)
    {
      var a := Btoi(draws[i]);
      var aBytes := Itob(ModPow(algo.g, a, p), width);
      if aBytes.None? { return; }
      var u := Scrambler(h, aBytes.value, bBytes);
      if u > 0 {
        var s := ClientSecret(algo.g, p, Btoi(bBytes), x, k, a, u);
        var sBytes := Itob(s, width);
        if sBytes.None? { return; }
        r := Some(Check(aBytes.value, Proof(h, algo, gBytes.value, aBytes.value, bBytes, sBytes.value)));
        used := i;
        BtoiItob(ModPow(algo.g, a, p), width);
        forall b: nat | Btoi(bBytes) == ServedValue(h, algo, password, b, width)
          ensures ExpectedProof(h, algo, VerifierOf(h, algo, password), b, r.value.a, bBytes, width) == Some(r.value.m1) {
          SecretsAgree(algo.g, p, k, x, a, b, u);
        }
        return;
      }
      i := i + 1;
    }
  }

  /** What the server stored when the password was set. */
  function VerifierOf(h: Hashes, algo: Algo, password: Bytes): nat
    requires Btoi(algo.p) > 0
  {
    Verifier(algo.g, Btoi(PasswordHash(h, algo, password)), Btoi(algo.p))
  }

  /** What the server sends for its secret b. */
  function ServedValue(h: Hashes, algo: Algo, password: Bytes, b: nat, width: nat): nat
    requires Btoi(algo.p) > 0
  {
    match Itob(algo.g, width)
    case None => 0
    case Some(gBytes) =>
      ServerValue(algo.g, Btoi(algo.p), Multiplier(h, algo, gBytes), VerifierOf(h, algo, password), b)
  }
}
