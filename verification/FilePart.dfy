/** pyrogram/session/session.py: the hand-written serialization of file parts, which
    stands in for the generated one on the upload path. */
module FilePart {
  import opened TlPrimitives
  import opened TlCodec

  /** saveBigFilePart carries the number of parts, saveFilePart does not. */
  datatype Part = Part(id: nat, fileId: int, part: int, total: Option<int>, data: Bytes)

  /** What struct.pack and to_bytes accept. */
  predicate Packable(p: Part) {
    && p.id < 0x1_0000_0000 && Fits(p.fileId, 8) && Fits(p.part, 4)
    && (p.total.Some? ==> Fits(p.total.value, 4)) && |p.data| < MAX_BYTES
  }

  function Serialize(p: Part): Bytes
    requires Packable(p)
  {
    var header := WriteId(p.id) + WriteInt(p.fileId, 8) + WriteInt(p.part, 4)
      + (if p.total.Some? then WriteInt(p.total.value, 4) else []);
    var length := |p.data|;
    var prefix := if length > 253 then [254] + Length3(length) else [length];
    var padding := if length > 253 then Pad4(length) else Pad4(length + 1);
    header + prefix + p.data + Zeros(padding)
  }

  /** The schema line of the part's constructor. */
  function Line(p: Part): seq<Arg> {
    [Always(Plain(TLong)), Always(Plain(TInt))]
    + (if p.total.Some? then [Always(Plain(TInt))] else []) + [Always(Plain(TBytes))]
  }

  function AsObject(p: Part): Value {
    Object(p.id, [Int(p.fileId), Int(p.part)] + (if p.total.Some? then [Int(p.total.value)] else []) + [Str(p.data)])
  }

  lemma ObjectShaped(s: Schema, p: Part)
    requires ValidSchema(s) && p.id in s && s[p.id] == Line(p) && Packable(p)
    ensures Shaped(s, AsObject(p))
  {}

  lemma BytesByHand(v: Bytes)
    requires |v| < MAX_BYTES
    ensures var n := |v|;
            WriteBytes(v) == (if n > 253 then [254] + Length3(n) else [n]) + v
                             + Zeros(if n > 253 then Pad4(n) else Pad4(n + 1))
  {}

  lemma LastField(s: Schema, v: Value, k: nat)
    requires ValidSchema(s) && Shaped(s, v) && k + 1 == |v.fields|
    ensures WriteFields(s, v, k) == WriteField(s, v, k)
  {
    assert WriteFields(s, v, k + 1) == [];
  }

  /** The shortcut writes byte for byte what the generated writer would. */
  lemma SameAsGenerated(s: Schema, p: Part)
    requires ValidSchema(s) && p.id in s && s[p.id] == Line(p) && Packable(p)
    ensures Shaped(s, AsObject(p)) && Serialize(p) == WriteObject(s, AsObject(p))
  {
    hide WriteBytes, WriteInt, WriteId, Shaped, Length3, Zeros, Pad4;
    ObjectShaped(s, p);
    BytesByHand(p.data);
    var v := AsObject(p);
    var first, second, rest: nat := 0, 1, 2;
    assert WriteFields(s, v, first) == WriteField(s, v, first) + WriteFields(s, v, second);
    assert WriteFields(s, v, second) == WriteField(s, v, second) + WriteFields(s, v, rest);
    assert WriteField(s, v, first) == WriteInt(p.fileId, 8);
    assert WriteField(s, v, second) == WriteInt(p.part, 4);
    if p.total.Some? {
      var last: nat := 3;
      assert WriteFields(s, v, rest) == WriteField(s, v, rest) + WriteFields(s, v, last);
      LastField(s, v, last);
      assert WriteField(s, v, rest) == WriteInt(p.total.value, 4);
      assert WriteField(s, v, last) == WriteBytes(p.data);
    } else {
      LastField(s, v, rest);
      assert WriteField(s, v, rest) == WriteBytes(p.data);
    }
  }
}
