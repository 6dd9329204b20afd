/** pyrogram/crypto/faketls.py: the GREASE values and the ML-KEM key share of a
    greeting, from the bytes drawn for them. */
module HelloParts {
  import opened TlPrimitives

  const GREASE_SIZE: nat := 7
  const MODULUS: nat := 3329

  /** High nibble kept, low nibble forced to ten. */
  function Forced(b: Byte): (r: Byte) { b / 16 * 16 + 10 }

  /** b ^ 0x10. */
  function FlipHigh(b: Byte): (r: Byte)
    ensures r != b && r % 16 == b % 16 && r / 32 == b / 32
  {
    if b / 16 % 2 == 0 then b + 16 else b - 16
  }

  /** The value at a place: an odd place steps aside from the one before it. */
  function GreaseAt(drawn: Bytes, i: nat): Byte
    requires i < |drawn|
  {
    if i % 2 == 1 && Forced(drawn[i]) == Forced(drawn[i - 1]) then FlipHigh(Forced(drawn[i])) else Forced(drawn[i])
  }

  method GenerateGrease(drawn: Bytes) returns (r: Bytes)
    requires |drawn| == GREASE_SIZE
    ensures |r| == GREASE_SIZE && forall i :: 0 <= i < GREASE_SIZE ==> r[i] == GreaseAt(drawn, i)
  {
    hide FlipHigh, Forced, GreaseAt;
    var grease := new Byte[GREASE_SIZE](k requires 0 <= k < GREASE_SIZE => drawn[k]);
    for index := 0 to GREASE_SIZE
      invariant forall k :: 0 <= k < index ==> grease[k] == Forced(drawn[k])
      invariant forall k :: index <= k < GREASE_SIZE ==> grease[k] == drawn[k]
    {
      grease[index] := Forced(grease[index]);
    }
    var index := 1;
    GreaseStep(drawn, index);
    while index < GREASE_SIZE
      invariant 1 <= index && index % 2 == 1
      invariant forall k :: 0 <= k < GREASE_SIZE && k < index ==> grease[k] == GreaseAt(drawn, k)
      invariant forall k :: index <= k < GREASE_SIZE ==> grease[k] == Forced(drawn[k])
    {
      GreaseStep(drawn, index);
      if grease[index] == grease[index - 1] { grease[index] := FlipHigh(grease[index]); }
      index := index + 2;
    }
    r := grease[..];
  }

  lemma GreaseStep(drawn: Bytes, i: nat)
    requires i % 2 == 1 && i < |drawn|
    ensures GreaseAt(drawn, i - 1) == Forced(drawn[i - 1])
    ensures GreaseAt(drawn, i)
         == if Forced(drawn[i]) == Forced(drawn[i - 1]) then FlipHigh(Forced(drawn[i])) else Forced(drawn[i])
    ensures i + 1 < |drawn| ==> GreaseAt(drawn, i + 1) == Forced(drawn[i + 1])
  {}

  /** A nibble with its lowest bit flipped. */
  function FlipLow(nibble: nat): nat { if nibble % 2 == 0 then nibble + 1 else nibble - 1 }

  /** Every value is a GREASE byte; places 2k and 2k+1 always differ, but 2k+1 and
      2k+2 coincide exactly when the high nibble drawn for the later is that of the
      earlier, flipped if the earlier repeats the one before it. */
  lemma GreasePairs(drawn: Bytes, i: nat)
    requires i + 1 < |drawn|
    ensures GreaseAt(drawn, i) % 16 == 10
    ensures i % 2 == 0 ==> GreaseAt(drawn, i) != GreaseAt(drawn, i + 1)
    ensures i % 2 == 1 ==>
      (GreaseAt(drawn, i) == GreaseAt(drawn, i + 1) <==>
        drawn[i + 1] / 16 == if drawn[i] / 16 == drawn[i - 1] / 16 then FlipLow(drawn[i] / 16) else drawn[i] / 16)
  {
    ForcedNibbles(drawn[i]);
    ForcedNibbles(drawn[i + 1]);
    if i % 2 == 0 {
      assert GreaseAt(drawn, i) == Forced(drawn[i]);
    } else {
      assert GreaseAt(drawn, i + 1) == Forced(drawn[i + 1]);
      ForcedNibbles(drawn[i - 1]);
      FlippedNibble(Forced(drawn[i]));
    }
  }

  lemma ForcedNibbles(b: Byte)
    ensures Forced(b) % 16 == 10 && Forced(b) / 16 == b / 16
  {}

  lemma FlippedNibble(b: Byte)
    ensures FlipHigh(b) / 16 == FlipLow(b / 16)
  {}

  lemma NeighboursMayRepeat()
    ensures var drawn: Bytes := [0, 16, 16, 0, 0, 0, 0];
            GreaseAt(drawn, 1) == GreaseAt(drawn, 2)
  {}

  // ------------------------------------------------------------------- ML-KEM

  /** Two drawn 32-bit numbers. */
  datatype Pair = Pair(first: nat, second: nat)

  /** Two 12-bit coefficients in three bytes, little end first. */
  function PackPair(first: nat, second: nat): (b: Bytes)
    requires first < 4096 && second < 4096
    ensures |b| == 3
  {
    [first % 256, first / 256 + second % 16 * 16, second / 16]
  }

  function PackPairs(ps: seq<Pair>): (b: Bytes)
    ensures |b| == 3 * |ps|
  {
    if ps == [] then [] else PackPair(ps[0].first % MODULUS, ps[0].second % MODULUS) + PackPairs(ps[1..])
  }

  method PackAll(ps: seq<Pair>, seed: Bytes) returns (key: Bytes)
    ensures key == PackPairs(ps) + seed
  {
    hide PackPairs;
    key := [];
    assert ps[0..] == ps;
    for k := 0 to |ps|
      invariant key + PackPairs(ps[k..]) == PackPairs(ps)
    {
      PackStep(ps, k);
      var first, second := ps[k].first % MODULUS, ps[k].second % MODULUS;
      ghost var before := key;
      key := key + [first % 256];
      key := key + [first / 256 + second % 16 * 16];
      key := key + [second / 16];
      assert key == before + PackPair(first, second);
    }
    assert PackPairs(ps[|ps|..]) == [];
    key := key + seed;
  }

  lemma PackStep(ps: seq<Pair>, k: nat)
    requires k < |ps|
    ensures PackPairs(ps[k..]) == PackPair(ps[k].first % MODULUS, ps[k].second % MODULUS) + PackPairs(ps[k + 1..])
  {
    assert ps[k..][1..] == ps[k + 1..];
  }

  /** The coefficients a receiver unpacks, twelve bits at a time. */
  function Unpack(b: Bytes): seq<nat>
    requires |b| % 3 == 0
  {
    if b == [] then []
    else [FirstOf(b[0], b[1]), SecondOf(b[1], b[2])] + Unpack(b[3..])
  }

  function FirstOf(x: nat, y: nat): nat { x + y % 16 * 256 }

  function SecondOf(y: nat, z: nat): nat { y / 16 + z * 16 }

  function Coefficients(ps: seq<Pair>): seq<nat> {
    if ps == [] then [] else [ps[0].first % MODULUS, ps[0].second % MODULUS] + Coefficients(ps[1..])
  }

  lemma UnpackPair(first: nat, second: nat)
    requires first < 4096 && second < 4096
    ensures var b := PackPair(first, second);
            FirstOf(b[0], b[1]) == first && SecondOf(b[1], b[2]) == second
  {}

  /** What is packed unpacks to the drawn numbers modulo 3329, so every coefficient
      passes the receiver's modulus check. */
  lemma {:induction false} UnpackPacked(ps: seq<Pair>)
    ensures Unpack(PackPairs(ps)) == Coefficients(ps)
    ensures |Coefficients(ps)| == 2 * |ps|
    ensures forall k :: 0 <= k < |Coefficients(ps)| ==> Coefficients(ps)[k] < MODULUS
  {
    hide PackPair, FirstOf, SecondOf;
    if ps != [] {
      var first, second := ps[0].first % MODULUS, ps[0].second % MODULUS;
      UnpackPair(first, second);
      UnpackPacked(ps[1..]);
      assert PackPairs(ps)[3..] == PackPairs(ps[1..]);
    }
  }
}
