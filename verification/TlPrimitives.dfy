/** pyrogram/raw/core/primitives: the byte layout of the TL core types, read from
    and written to the front of a byte sequence. */
module TlPrimitives {

  type Byte = n: nat | n < 256

  type Bytes = seq<Byte>

  datatype Option<+T> = None | Some(value: T)

  /** BytesIO.read: fewer bytes at the end of the data. */
  function Take(b: Bytes, n: nat): Bytes { if n <= |b| then b[..n] else b }

  function Drop(b: Bytes, n: nat): Bytes { if n <= |b| then b[n..] else [] }

  function Pow256(k: nat): (p: nat)
    ensures p > 0
  {
    if k == 0 then 1 else 256 * Pow256(k - 1)
  }

  /** int.to_bytes(k, "little") of a non-negative number. */
  function LittleEndian(n: nat, k: nat): (b: Bytes)
    requires n < Pow256(k)
    ensures |b| == k
  {
    if k == 0 then [] else [n % 256] + LittleEndian(n / 256, k - 1)
  }

  function FromLittleEndian(b: Bytes): (n: nat)
    ensures n < Pow256(|b|)
  {
    if b == [] then 0 else b[0] + 256 * FromLittleEndian(b[1..])
  }

  lemma {:induction false} LittleEndianRoundTrip(n: nat, k: nat)
    requires n < Pow256(k)
    ensures FromLittleEndian(LittleEndian(n, k)) == n
  {
    if k > 0 {
      LittleEndianRoundTrip(n / 256, k - 1);
      assert LittleEndian(n, k)[1..] == LittleEndian(n / 256, k - 1);
    }
  }

  /** The signed range of k bytes. */
  predicate Fits(i: int, k: nat) {
    -(Half(k) as int) <= i < Half(k)
  }

  function Half(k: nat): nat { Pow256(k) / 2 }

  lemma HalfTwice(k: nat)
    requires k > 0
    ensures 2 * Half(k) == Pow256(k)
  {
    assert Half(k) == 256 * Pow256(k - 1) / 2 == 128 * Pow256(k - 1);
  }

  /** int.to_bytes(k, "little", signed=True). */
  function WriteInt(i: int, k: nat): (b: Bytes)
    requires k > 0 && Fits(i, k)
    ensures |b| == k
  {
    HalfTwice(k);
    LittleEndian(if i >= 0 then i else i + Pow256(k), k)
  }

  function Signed(n: nat, k: nat): int
    requires k > 0 && n < Pow256(k)
  {
    if n < Half(k) then n else n - Pow256(k)
  }

  /** struct.unpack of k bytes, which raises when there are fewer. */
  function ReadInt(b: Bytes, k: nat): (r: Option<(int, Bytes)>)
    requires k > 0
    ensures r.Some? ==> |r.value.1| + k == |b|
  {
    if |b| < k then None else Some((Signed(FromLittleEndian(b[..k]), k), b[k..]))
  }

  lemma IntRoundTrip(i: int, k: nat, rest: Bytes)
    requires k > 0 && Fits(i, k)
    ensures ReadInt(WriteInt(i, k) + rest, k) == Some((i, rest))
  {
    HalfTwice(k);
    var n: nat := if i >= 0 then i else i + Pow256(k);
    LittleEndianRoundTrip(n, k);
    assert (WriteInt(i, k) + rest)[..k] == WriteInt(i, k);
    assert (WriteInt(i, k) + rest)[k..] == rest;
  }

  /** int.from_bytes of at most k bytes, signed: it takes what is there. */
  function ReadWide(b: Bytes, k: nat): (r: (int, Bytes))
    ensures |r.1| <= |b|
  {
    var taken := Take(b, k);
    (if taken == [] then 0 else Signed(FromLittleEndian(taken), |taken|), Drop(b, k))
  }

  lemma WideRoundTrip(i: int, k: nat, rest: Bytes)
    requires k > 0 && Fits(i, k)
    ensures ReadWide(WriteInt(i, k) + rest, k) == (i, rest)
  {
    IntRoundTrip(i, k, rest);
    TakeDrop(WriteInt(i, k), rest);
  }

  /** -n % 4 as Python computes it. */
  function Pad4(n: nat): (p: nat)
    ensures p < 4 && (n + p) % 4 == 0
  {
    (4 - n % 4) % 4
  }

  lemma Aligned(n: nat)
    ensures (n + Pad4(n)) % 4 == 0 && (4 + n + Pad4(n)) % 4 == 0
  {}

  function Zeros(n: nat): (b: Bytes)
    ensures |b| == n
  {
    seq(n, _ => 0)
  }

  const MAX_BYTES: nat := 0x100_0000

  /** Bytes(value): a one- or four-byte length, the value, padding to a multiple
      of four; to_bytes(3) raises beyond three bytes of length. */
  function WriteBytes(v: Bytes): (b: Bytes)
    requires |v| < MAX_BYTES
    ensures |b| % 4 == 0 && |b| > |v|
  {
    if |v| <= 253 then
      Aligned(1 + |v|);
      [|v|] + v + Zeros(Pad4(|v| + 1))
    else
      Aligned(|v|);
      [254] + Length3(|v|) + v + Zeros(Pad4(|v|))
  }

  function Length3(n: nat): (b: Bytes)
    requires n < MAX_BYTES
    ensures |b| == 3
  {
    Three();
    LittleEndian(n, 3)
  }

  lemma Three()
    ensures Pow256(3) == MAX_BYTES
  {
    assert Pow256(1) == 256;
    assert Pow256(2) == 65536;
  }

  /** Bytes.read, which takes what is there. */
  function ReadBytes(b: Bytes): (r: (Bytes, Bytes))
    ensures |r.1| <= |b|
  {
    var length := if b == [] then 0 else b[0];
    var rest := Drop(b, 1);
    if length <= 253 then (Take(rest, length), Drop(Drop(rest, length), Pad4(length + 1)))
    else
      var long := FromLittleEndian(Take(rest, 3));
      var body := Drop(rest, 3);
      (Take(body, long), Drop(Drop(body, long), Pad4(long)))
  }

  lemma TakeDrop(a: Bytes, b: Bytes)
    ensures Take(a + b, |a|) == a && Drop(a + b, |a|) == b
  {}

  lemma BytesRoundTrip(v: Bytes, rest: Bytes)
    requires |v| < MAX_BYTES
    ensures ReadBytes(WriteBytes(v) + rest) == (v, rest)
  {
    if |v| <= 253 { ShortRoundTrip(v, rest); } else { LongRoundTrip(v, rest); }
  }

  lemma ShortRoundTrip(v: Bytes, rest: Bytes)
    requires |v| <= 253
    ensures ReadBytes(WriteBytes(v) + rest) == (v, rest)
  {
    hide Take, Drop, Zeros, Pad4, LittleEndian, FromLittleEndian;
    var zeros := Zeros(Pad4(|v| + 1));
    var tail := v + (zeros + rest);
    assert WriteBytes(v) + rest == [|v| as Byte] + tail;
    TakeDrop([|v| as Byte], tail);
    TakeDrop(v, zeros + rest);
    TakeDrop(zeros, rest);
  }

  lemma LongRoundTrip(v: Bytes, rest: Bytes)
    requires 253 < |v| < MAX_BYTES
    ensures ReadBytes(WriteBytes(v) + rest) == (v, rest)
  {
    hide Take, Drop, Zeros, Pad4, LittleEndian, FromLittleEndian, Length3, Pow256;
    var head, zeros := Length3(|v|), Zeros(Pad4(|v|));
    var tail := head + (v + (zeros + rest));
    Regrouped([254 as Byte], head, v, zeros, rest);
    assert WriteBytes(v) + rest == [254 as Byte] + tail;
    TakeDrop([254 as Byte], tail);
    TakeDrop(head, v + (zeros + rest));
    TakeDrop(v, zeros + rest);
    TakeDrop(zeros, rest);
    LengthReads(|v|);
  }

  lemma Regrouped(a: Bytes, b: Bytes, c: Bytes, d: Bytes, rest: Bytes)
    ensures a + b + c + d + rest == a + (b + (c + (d + rest)))
  {}

  lemma LengthReads(n: nat)
    requires n < MAX_BYTES
    ensures FromLittleEndian(Length3(n)) == n
  {
    hide LittleEndian, FromLittleEndian, Pow256;
    Three();
    LittleEndianRoundTrip(n, 3);
  }

  const TRUE_ID: nat := 0x997275B5

  const FALSE_ID: nat := 0xBC799737

  lemma Four()
    ensures Pow256(4) == 0x1_0000_0000 && Half(4) == 0x8000_0000
  {
    Three();
    assert Pow256(4) == 256 * Pow256(3);
  }

  /** A constructor id in four bytes. */
  function WriteId(id: nat): (b: Bytes)
    requires id < 0x1_0000_0000
    ensures |b| == 4
  {
    Four();
    LittleEndian(id, 4)
  }

  function ReadId(b: Bytes): (r: Option<(nat, Bytes)>)
    ensures r.Some? ==> |r.value.1| + 4 == |b|
  {
    if |b| < 4 then None else Some((FromLittleEndian(b[..4]), b[4..]))
  }

  lemma IdRoundTrip(id: nat, rest: Bytes)
    requires id < 0x1_0000_0000
    ensures ReadId(WriteId(id) + rest) == Some((id, rest))
  {
    Four();
    LittleEndianRoundTrip(id, 4);
    assert (WriteId(id) + rest)[..4] == WriteId(id);
    assert (WriteId(id) + rest)[4..] == rest;
  }

  function WriteBool(v: bool): Bytes { WriteId(if v then TRUE_ID else FALSE_ID) }

  /** Bool.read compares four bytes with the true id. */
  function ReadBool(b: Bytes): (r: (bool, Bytes))
    ensures |r.1| <= |b|
  {
    (Take(b, 4) == WriteId(TRUE_ID), Drop(b, 4))
  }

  lemma BoolRoundTrip(v: bool, rest: Bytes)
    ensures ReadBool(WriteBool(v) + rest) == (v, rest)
  {
    TakeDrop(WriteBool(v), rest);
    Four();
    LittleEndianRoundTrip(TRUE_ID, 4);
    LittleEndianRoundTrip(FALSE_ID, 4);
    assert WriteId(TRUE_ID) != WriteId(FALSE_ID);
  }

  /** The layouts on examples: little end first, two's complement, a length in front
      and zeros behind up to a multiple of four. */
  lemma Layouts()
    ensures WriteInt(0x01020304, 4) == [4, 3, 2, 1] && WriteInt(-2, 4) == [0xFE, 0xFF, 0xFF, 0xFF]
    ensures WriteId(TRUE_ID) == WriteBool(true) == [0xB5, 0x75, 0x72, 0x99]
    ensures WriteBool(false) == [0x37, 0x97, 0x79, 0xBC]
    ensures WriteBytes([]) == [0, 0, 0, 0] && WriteBytes([7, 8]) == [2, 7, 8, 0] && WriteBytes([7, 8, 9]) == [3, 7, 8, 9]
  {
    Four();
    var k: nat := 4;
    BytesOfFour(0x01020304, k);
    BytesOfFour(0x1_0000_0000 - 2, k);
    BytesOfFour(TRUE_ID, k);
    BytesOfFour(FALSE_ID, k);
    assert Zeros(3) == [0, 0, 0] && Zeros(1) == [0] && Zeros(0) == [];
  }

  /** At the end of the data a wide number is made of what is there. */
  lemma WideAtEnd()
    ensures ReadWide([], 16) == (0, []) && ReadWide([5], 16) == (5, []) && ReadWide([0xFF], 16) == (-1, [])
  {
    assert FromLittleEndian([5]) == 5 + 256 * FromLittleEndian([]) && FromLittleEndian([0xFF]) == 0xFF + 256 * FromLittleEndian([]);
    assert Pow256(1) == 256 * Pow256(0);
  }

  /** Long bytes have 254 in front of a length of three bytes. */
  lemma LongLayout(v: Bytes)
    requires 254 <= |v| < MAX_BYTES
    ensures WriteBytes(v)[0] == 254
    ensures WriteBytes(v)[1..4] == [|v| % 256, |v| / 256 % 256, |v| / 256 / 256 % 256]
    ensures WriteBytes(v)[4..4 + |v|] == v
    ensures |WriteBytes(v)| < 8 + |v| && forall k :: 4 + |v| <= k < |WriteBytes(v)| ==> WriteBytes(v)[k] == 0
  {
    Three();
    var n, k: nat := |v|, 3;
    assert LittleEndian(n, k) == [n % 256] + LittleEndian(n / 256, k - 1);
    assert LittleEndian(n / 256, k - 1) == [n / 256 % 256] + LittleEndian(n / 256 / 256, k - 2);
    assert LittleEndian(n / 256 / 256, k - 2) == [n / 256 / 256 % 256] + LittleEndian(n / 256 / 256 / 256, k - 3);
    assert LittleEndian(n / 256 / 256 / 256, k - 3) == [];
    var zeros := Zeros(Pad4(n));
    assert WriteBytes(v) == [254] + Length3(n) + v + zeros;
  }

  lemma BytesOfFour(n: nat, k: nat)
    requires k == 4 && n < Pow256(k)
    ensures LittleEndian(n, k) == [n % 256, n / 256 % 256, n / 256 / 256 % 256, n / 256 / 256 / 256 % 256]
  {
    assert LittleEndian(n, k) == [n % 256] + LittleEndian(n / 256, k - 1);
    assert LittleEndian(n / 256, k - 1) == [n / 256 % 256] + LittleEndian(n / 256 / 256, k - 2);
    assert LittleEndian(n / 256 / 256, k - 2) == [n / 256 / 256 % 256] + LittleEndian(n / 256 / 256 / 256, k - 3);
    assert LittleEndian(n / 256 / 256 / 256, k - 3)
        == [n / 256 / 256 / 256 % 256] + LittleEndian(n / 256 / 256 / 256 / 256, k - 4);
    assert LittleEndian(n / 256 / 256 / 256 / 256, k - 4) == [];
  }

  // ---------------------------------------------------------------- flag words

  /** w & (1 << i) */
  predicate TestBit(w: nat, i: nat) {
    if i == 0 then w % 2 == 1 else TestBit(w / 2, i - 1)
  }

  /** w | (1 << i) */
  function SetBit(w: nat, i: nat): nat {
    if i == 0 then (if w % 2 == 1 then w else w + 1) else 2 * SetBit(w / 2, i - 1) + w % 2
  }

  lemma {:induction false} TestSetBit(w: nat, i: nat, j: nat)
    ensures TestBit(SetBit(w, i), j) <==> i == j || TestBit(w, j)
    decreases i
  {
    var s := SetBit(w, i);
    if i == 0 {
      assert s / 2 == w / 2;
    } else {
      assert s / 2 == SetBit(w / 2, i - 1) && s % 2 == w % 2;
      if j > 0 { TestSetBit(w / 2, i - 1, j - 1); }
    }
  }

  lemma {:induction false} TestZero(j: nat)
    ensures !TestBit(0, j)
  {
    if j > 0 { TestZero(j - 1); }
  }

  function Pow2(k: nat): nat { if k == 0 then 1 else 2 * Pow2(k - 1) }

  lemma {:induction false} SetBitBound(w: nat, i: nat, k: nat)
    requires w < Pow2(k) && i < k
    ensures SetBit(w, i) < Pow2(k)
    decreases i
  {
    var half := Pow2(k - 1);
    assert Pow2(k) == 2 * half;
    if i > 0 {
      assert w / 2 < half;
      SetBitBound(w / 2, i - 1, k - 1);
      assert SetBit(w, i) == 2 * SetBit(w / 2, i - 1) + w % 2;
    }
  }

  lemma Pow2Word()
    ensures Pow2(31) == 0x8000_0000
  {
    assert Pow2(8) == 256;
    assert Pow2(16) == 65536;
    assert Pow2(24) == 0x100_0000;
  }
}
