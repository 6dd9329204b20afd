/** pyrogram/crypto/faketls.py, _client_hello_ops and build_client_hello: the greeting
    for a domain, for everything that is drawn. */
module Greeting {
  import opened TlPrimitives
  import opened FakeTls
  import opened ClientHello

  /** What one greeting draws besides its GREASE values. */
  datatype Draws = Draws(
    session: Bytes, mlkem: Bytes, key1: Bytes, key2: Bytes,
    echByte: Bytes, echKey: Bytes, echPayload: Bytes, offsets: seq<nat>)

  const EXTENSIONS: nat := 16

  predicate Drawn(d: Draws) {
    && |d.session| == 32 && |d.mlkem| == 1184 && |d.key1| == 32 && |d.key2| == 32
    && |d.echByte| == 1 && |d.echKey| == 32 && Offsets(EXTENSIONS, d.offsets)
  }

  /** The greeting's sizes fit their two bytes; every domain up to 182 bytes does. */
  predicate Fitting(d: Draws, e: Env) { Drawn(d) && |e.grease| == 7 && |e.domain| + |d.echPayload| <= 63968 }

  const SUITES: Bytes :=
    [0x13, 0x01, 0x13, 0x02, 0x13, 0x03, 0xc0, 0x2b, 0xc0, 0x2f, 0xc0, 0x2c, 0xc0, 0x30, 0xcc, 0xa9, 0xcc, 0xa8,
     0xc0, 0x13, 0xc0, 0x14, 0x00, 0x9c, 0x00, 0x9d, 0x00, 0x2f, 0x00, 0x35]

  const SIGNATURES: Bytes :=
    [0x09, 0x04, 0x09, 0x05, 0x09, 0x06, 0x04, 0x03, 0x08, 0x04,
     0x04, 0x01, 0x05, 0x03, 0x08, 0x05, 0x05, 0x01, 0x08, 0x06, 0x06, 0x01]

  /** The permuted extensions, in the order of the op list. */
  function PartOps(i: nat, d: Draws): seq<Op>
    requires i < EXTENSIONS
  {
    if i == 0 then [Str([0x00, 0x00])] + Scope(Scope([Str([0x00])] + Scope([Domain])))
    else if i == 1 then [Str([0x00, 0x05, 0x00, 0x05, 0x01, 0x00, 0x00, 0x00, 0x00])]
    else if i == 2 then
      [Str([0x00, 0x0a, 0x00, 0x0c, 0x00, 0x0a])] + ([Grease(4)] + [Str([0x11, 0xec, 0x00, 0x1d, 0x00, 0x17, 0x00, 0x18])])
    else if i == 3 then [Str([0x00, 0x0b, 0x00, 0x02, 0x01, 0x00])]
    else if i == 4 then [Str([0x00, 0x0d, 0x00, 0x18, 0x00, 0x16] + SIGNATURES)]
    else if i == 5 then
      [Str([0x00, 0x10, 0x00, 0x0e, 0x00, 0x0c]
           + ([0x02, 0x68, 0x32] + [0x08, 0x68, 0x74, 0x74, 0x70, 0x2f, 0x31, 0x2e, 0x31]))]
    else if i == 6 then [Str([0x00, 0x12, 0x00, 0x00])]
    else if i == 7 then [Str([0x00, 0x17, 0x00, 0x00])]
    else if i == 8 then [Str([0x00, 0x1b, 0x00, 0x03, 0x02, 0x00, 0x02])]
    else if i == 9 then [Str([0x00, 0x23, 0x00, 0x00])]
    else if i == 10 then
      [Str([0x00, 0x2b, 0x00, 0x07, 0x06])] + ([Grease(6)] + [Str([0x03, 0x04, 0x03, 0x03])])
    else if i == 11 then [Str([0x00, 0x2d, 0x00, 0x02, 0x01, 0x01])]
    else if i == 12 then
      [Str([0x00, 0x33, 0x04, 0xef, 0x04, 0xed])]
      + ([Grease(4)]
      + ([Str([0x00, 0x01, 0x00, 0x11, 0xec, 0x04, 0xc0])]
      + ([MlKem(d.mlkem)] + ([Key(d.key1)] + ([Str([0x00, 0x1d, 0x00, 0x20])] + [Key(d.key2)])))))
    else if i == 13 then [Str([0x44, 0xcd, 0x00, 0x05, 0x00, 0x03, 0x02, 0x68, 0x32])]
    else if i == 14 then
      [Str([0xfe, 0x0d])]
      + Scope([Str([0x00, 0x00, 0x01, 0x00, 0x01])]
              + ([Random(d.echByte)] + ([Str([0x00, 0x20])] + ([Key(d.echKey)] + Scope([Random(d.echPayload)])))))
    else [Str([0xff, 0x01, 0x00, 0x01, 0x00])]
  }

  function Parts(d: Draws): (r: seq<Part>)
    ensures |r| == EXTENSIONS && forall i :: 0 <= i < EXTENSIONS ==> r[i] == Part(PartOps(i, d))
  {
    seq(EXTENSIONS, i requires 0 <= i < EXTENSIONS => Part(PartOps(i, d)))
  }

  function ExtensionOps(d: Draws): seq<Op> {
    [Grease(2)] + ([Str([0x00, 0x00])] + ([Permutation(Parts(d), d.offsets)]
    + ([Grease(3)] + ([Str([0x00, 0x01, 0x00])] + [Padding]))))
  }

  function BodyOps(d: Draws): seq<Op> {
    [Str([0x03, 0x03])] + ([Zero(32)] + ([Str([0x20])] + ([Random(d.session)] + ([Str([0x00, 0x20])]
    + ([Grease(0)] + ([Str(SUITES + [0x01, 0x00])] + Scope(ExtensionOps(d))))))))
  }

  /** _client_hello_ops. */
  function Ops(d: Draws): seq<Op> {
    [Str([0x16, 0x03, 0x01])] + Scope([Str([0x01, 0x00])] + Scope(BodyOps(d)))
  }

  // ---------------------------------------------------------- what it should say

  function Twice(e: Env, seed: nat): Bytes
    requires |e.grease| == 7 && seed < 7
  {
    [e.grease[seed], e.grease[seed]]
  }

  function GreaseType(e: Env, seed: nat): nat
    requires |e.grease| == 7 && seed < 7
  {
    U16(e.grease[seed], e.grease[seed])
  }

  /** The server name list of the domain alone (section 3 of RFC 6066). */
  function ServerNames(domain: Bytes): Bytes
    requires |domain| + 3 < 0x1_0000
  {
    Be16(|domain| + 3) + ([0x00] + (Be16(|domain|) + domain))
  }

  /** A share for each group (section 4.2.8 of RFC 8446). */
  function Share(group: nat, key: Bytes): (b: Bytes)
    requires group < 0x1_0000 && |key| < 0x1_0000
    ensures |b| == 4 + |key|
  {
    Be16(group) + Be16(|key|) + key
  }

  function SharesOf(d: Draws, e: Env): (b: Bytes)
    requires Drawn(d) && |e.grease| == 7
    ensures |b| < 0x1_0000
  {
    Share(GreaseType(e, 4), [0x00]) + Share(0x11ec, d.mlkem + d.key1) + Share(0x001d, d.key2)
  }

  function KeyShares(d: Draws, e: Env): Bytes
    requires Drawn(d) && |e.grease| == 7
  {
    Be16(|SharesOf(d, e)|) + SharesOf(d, e)
  }

  function EncryptedHello(d: Draws): Bytes
    requires Drawn(d) && |d.echPayload| < 0x1_0000
  {
    [0x00, 0x00, 0x01, 0x00, 0x01] + (d.echByte + ([0x00, 0x20] + (d.echKey + (Be16(|d.echPayload|) + d.echPayload))))
  }

  /** The extension the i-th part is meant to be. */
  function Meant(i: nat, d: Draws, e: Env): Extension
    requires i < EXTENSIONS && Fitting(d, e)
  {
    if i == 0 then Extension(0x0000, ServerNames(e.domain))
    else if i == 1 then Extension(0x0005, [0x01, 0x00, 0x00, 0x00, 0x00])
    else if i == 2 then Extension(0x000a, [0x00, 0x0a] + (Twice(e, 4) + [0x11, 0xec, 0x00, 0x1d, 0x00, 0x17, 0x00, 0x18]))
    else if i == 3 then Extension(0x000b, [0x01, 0x00])
    else if i == 4 then Extension(0x000d, Be16(22) + SIGNATURES)
    else if i == 5 then
      Extension(0x0010, Be16(12) + ([0x02, 0x68, 0x32] + [0x08, 0x68, 0x74, 0x74, 0x70, 0x2f, 0x31, 0x2e, 0x31]))
    else if i == 6 then Extension(0x0012, [])
    else if i == 7 then Extension(0x0017, [])
    else if i == 8 then Extension(0x001b, [0x02, 0x00, 0x02])
    else if i == 9 then Extension(0x0023, [])
    else if i == 10 then Extension(0x002b, [0x06] + (Twice(e, 6) + [0x03, 0x04, 0x03, 0x03]))
    else if i == 11 then Extension(0x002d, [0x01, 0x01])
    else if i == 12 then Extension(0x0033, KeyShares(d, e))
    else if i == 13 then Extension(0x44cd, Be16(3) + [0x02, 0x68, 0x32])
    else if i == 14 then Extension(0xfe0d, EncryptedHello(d))
    else Extension(0xff01, [0x00])
  }

  /** The length of its body. */
  function MeantSize(i: nat, n: nat, p: nat): nat
    requires i < EXTENSIONS
  {
    if i == 0 then 5 + n
    else if i == 1 then 5
    else if i == 2 then 12
    else if i == 3 then 2
    else if i == 4 then 24
    else if i == 5 then 14
    else if i == 8 then 3
    else if i == 10 then 7
    else if i == 11 then 2
    else if i == 12 then 1263
    else if i == 13 then 5
    else if i == 14 then 42 + p
    else if i == 15 then 1
    else 0
  }

  lemma MeantSized(i: nat, d: Draws, e: Env)
    requires i < EXTENSIONS && Fitting(d, e)
    ensures Sized(Meant(i, d, e)) && |Meant(i, d, e).body| == MeantSize(i, |e.domain|, |d.echPayload|)
  {
    hide Be16;
  }

  lemma OneString(data: Bytes, e: Env)
    ensures Encodes([Str(data)], 0, e, data)
  {
    hide Encode;
    EncodesOp(Str(data), 0, e);
  }

  lemma Chained(op: Op, rest: seq<Op>, b: Bytes, at: nat, e: Env)
    requires Plain(op) && PlainData(op, e).Some?
    requires Encodes(rest, at + |PlainData(op, e).value|, e, b)
    ensures Encodes([op] + rest, at, e, PlainData(op, e).value + b)
  {
    hide Encode;
    EncodesOp(op, at, e);
    EncodesAppend([op], PlainData(op, e).value, rest, b, at, e);
  }

  function MeantBytes(i: nat, d: Draws, e: Env): Bytes
    requires i < EXTENSIONS && Fitting(d, e)
  {
    MeantSized(i, d, e);
    ExtensionBytes(Meant(i, d, e))
  }

  predicate PartMatches(i: nat, d: Draws, e: Env)
    requires i < EXTENSIONS && Fitting(d, e)
  {
    Encodes(PartOps(i, d), 0, e, MeantBytes(i, d, e))
  }

  lemma NameOps(e: Env)
    requires |e.domain| + 3 < 0x1_0000
    ensures Encodes(Scope([Str([0x00])] + Scope([Domain])), 4, e, ServerNames(e.domain))
  {
    hide Encode, Encodes, Be16, Scope;
    var n := |e.domain|;
    var zero: nat := 9;
    EncodesOp(Domain, zero, e);
    EncodesScope([Domain], e.domain, zero - 2, e);
    Chained(Str([0x00]), Scope([Domain]), Be16(n) + e.domain, zero - 3, e);
    EncodesScope([Str([0x00])] + Scope([Domain]), [0x00] + (Be16(n) + e.domain), zero - 5, e);
  }

  lemma ServerNameMeant(d: Draws, e: Env)
    requires Fitting(d, e)
    ensures PartOps(0, d) == [Str([0x00, 0x00])] + Scope(Scope([Str([0x00])] + Scope([Domain])))
    ensures |e.domain| + 3 < 0x1_0000 && |ServerNames(e.domain)| == |e.domain| + 5
    ensures Sized(Extension(0, ServerNames(e.domain)))
    ensures MeantBytes(0, d, e) == ExtensionBytes(Extension(0, ServerNames(e.domain)))
  {
    hide ExtensionBytes, Be16;
  }

  lemma ServerNameEncodes(e: Env)
    requires |e.domain| + 5 < 0x1_0000
    ensures Sized(Extension(0, ServerNames(e.domain)))
    ensures Encodes([Str([0x00, 0x00])] + Scope(Scope([Str([0x00])] + Scope([Domain]))), 0, e,
                    ExtensionBytes(Extension(0, ServerNames(e.domain))))
  {
    hide Encode, Encodes, Be16, Scope, ServerNames, ExtensionBytes, U16;
    NameOps(e);
    TypeZero();
    NamesSize(e.domain);
    ScopedPart(0, 0, 0, Scope([Str([0x00])] + Scope([Domain])), ServerNames(e.domain), e);
  }

  lemma NamesSize(domain: Bytes)
    requires |domain| + 5 < 0x1_0000
    ensures |ServerNames(domain)| == |domain| + 5
  {
    hide Be16;
  }

  lemma ServerNamePart(d: Draws, e: Env)
    requires Fitting(d, e)
    ensures PartMatches(0, d, e)
  {
    hide Encode, Encodes, Be16, Scope, ServerNames, PartOps, Meant, ExtensionBytes, MeantBytes;
    ServerNameMeant(d, e);
    ServerNameEncodes(e);
  }

  lemma TypeZero()
    ensures U16(0, 0) == 0
  {}

  /** A type and a scope make an extension. */
  lemma ScopedPart(typ: nat, t1: Byte, t2: Byte, inner: seq<Op>, body: Bytes, e: Env)
    requires typ == U16(t1, t2) && |body| < 0x1_0000
    requires Encodes(inner, 4, e, body)
    ensures Sized(Extension(typ, body))
    ensures Encodes([Str([t1, t2])] + Scope(inner), 0, e, ExtensionBytes(Extension(typ, body)))
  {
    hide Encode, Encodes, Be16, Scope;
    EncodesScope(inner, body, 2, e);
    Chained(Str([t1, t2]), Scope(inner), Be16(|body|) + body, 0, e);
    TypeBytes(typ, t1, t2);
    assert [t1, t2] + (Be16(|body|) + body) == ExtensionBytes(Extension(typ, body));
  }

  lemma TypeBytes(t: nat, x: Byte, y: Byte)
    requires t == U16(x, y)
    ensures t < 0x1_0000 && Be16(t) == [x, y]
  {}

  lemma GroupsPart(d: Draws, e: Env)
    requires Fitting(d, e)
    ensures PartMatches(2, d, e)
  {
    hide Encode;
    var tail: Bytes := [0x11, 0xec, 0x00, 0x1d, 0x00, 0x17, 0x00, 0x18];
    EncodesOp(Str(tail), 8, e);
    Chained(Grease(4), [Str(tail)], tail, 6, e);
    var head: Bytes := [0x00, 0x0a, 0x00, 0x0c, 0x00, 0x0a];
    Chained(Str(head), [Grease(4)] + [Str(tail)], Twice(e, 4) + tail, 0, e);
    assert head + (Twice(e, 4) + tail) == ExtensionBytes(Meant(2, d, e));
  }

  lemma VersionsPart(d: Draws, e: Env)
    requires Fitting(d, e)
    ensures PartMatches(10, d, e)
  {
    hide Encode;
    var tail: Bytes := [0x03, 0x04, 0x03, 0x03];
    EncodesOp(Str(tail), 7, e);
    Chained(Grease(6), [Str(tail)], tail, 5, e);
    var head: Bytes := [0x00, 0x2b, 0x00, 0x07, 0x06];
    Chained(Str(head), [Grease(6)] + [Str(tail)], Twice(e, 6) + tail, 0, e);
    assert head + (Twice(e, 6) + tail) == ExtensionBytes(Meant(10, d, e));
  }

  /** The lengths written out by hand around the key shares are the right ones. */
  lemma KeySharePart(d: Draws, e: Env)
    requires Fitting(d, e)
    ensures PartMatches(12, d, e)
  {
    hide Encode, Be16;
    var head: Bytes := [0x00, 0x33, 0x04, 0xef, 0x04, 0xed];
    var mid: Bytes := [0x00, 0x01, 0x00, 0x11, 0xec, 0x04, 0xc0];
    var last: Bytes := [0x00, 0x1d, 0x00, 0x20];
    var at := 6 + 2 + 7 + 1184 + 32 + 4;
    EncodesOp(Key(d.key2), at, e);
    Chained(Str(last), [Key(d.key2)], d.key2, at - 4, e);
    var o1 := [Str(last)] + [Key(d.key2)];
    Chained(Key(d.key1), o1, last + d.key2, at - 36, e);
    var o2 := [Key(d.key1)] + o1;
    Chained(MlKem(d.mlkem), o2, d.key1 + (last + d.key2), 15, e);
    var o3 := [MlKem(d.mlkem)] + o2;
    var keys := d.mlkem + (d.key1 + (last + d.key2));
    Chained(Str(mid), o3, keys, 8, e);
    Chained(Grease(4), [Str(mid)] + o3, mid + keys, 6, e);
    Chained(Str(head), [Grease(4)] + ([Str(mid)] + o3), Twice(e, 4) + (mid + keys), 0, e);
    KeyShareBytes(d, e);
  }

  lemma KeyShareBytes(d: Draws, e: Env)
    requires Fitting(d, e)
    ensures Sized(Meant(12, d, e))
    ensures [0x00, 0x33, 0x04, 0xef, 0x04, 0xed] + (Twice(e, 4)
      + ([0x00, 0x01, 0x00, 0x11, 0xec, 0x04, 0xc0] + (d.mlkem + (d.key1 + ([0x00, 0x1d, 0x00, 0x20] + d.key2)))))
         == ExtensionBytes(Meant(12, d, e))
  {
    hide Be16, Share, SharesOf;
    SharesBytes(d, e);
    TypeBytes(0x0033, 0x00, 0x33);
    TypeBytes(1263, 0x04, 0xef);
    TypeBytes(1261, 0x04, 0xed);
    var shares := SharesOf(d, e);
    assert |KeyShares(d, e)| == 1263;
    assert ExtensionBytes(Meant(12, d, e)) == [0x00, 0x33] + [0x04, 0xef] + ([0x04, 0xed] + shares);
  }

  lemma SharesBytes(d: Draws, e: Env)
    requires Drawn(d) && |e.grease| == 7
    ensures |SharesOf(d, e)| == 1261
    ensures SharesOf(d, e) == Twice(e, 4)
      + ([0x00, 0x01, 0x00, 0x11, 0xec, 0x04, 0xc0] + (d.mlkem + (d.key1 + ([0x00, 0x1d, 0x00, 0x20] + d.key2))))
  {
    hide Be16;
    TypeBytes(GreaseType(e, 4), e.grease[4], e.grease[4]);
    TypeBytes(1, 0x00, 0x01);
    TypeBytes(0x11ec, 0x11, 0xec);
    TypeBytes(1216, 0x04, 0xc0);
    TypeBytes(0x001d, 0x00, 0x1d);
    TypeBytes(32, 0x00, 0x20);
    var s1, s2, s3 := Share(GreaseType(e, 4), [0x00]), Share(0x11ec, d.mlkem + d.key1), Share(0x001d, d.key2);
    assert s1 == Twice(e, 4) + [0x00, 0x01, 0x00];
    assert s2 == [0x11, 0xec, 0x04, 0xc0] + (d.mlkem + d.key1);
    assert s3 == [0x00, 0x1d, 0x00, 0x20] + d.key2;
  }

  lemma EncryptedHelloPart(d: Draws, e: Env)
    requires Fitting(d, e)
    ensures PartMatches(14, d, e)
  {
    hide Encode, Be16;
    var p := |d.echPayload|;
    var fixedPart: Bytes := [0x00, 0x00, 0x01, 0x00, 0x01];
    EncodesOp(Random(d.echPayload), 46, e);
    EncodesScope([Random(d.echPayload)], d.echPayload, 44, e);
    var payload := Be16(p) + d.echPayload;
    var o1 := Scope([Random(d.echPayload)]);
    Chained(Key(d.echKey), o1, payload, 12, e);
    var o2 := [Key(d.echKey)] + o1;
    Chained(Str([0x00, 0x20]), o2, d.echKey + payload, 10, e);
    var o3 := [Str([0x00, 0x20])] + o2;
    Chained(Random(d.echByte), o3, [0x00, 0x20] + (d.echKey + payload), 9, e);
    var o4 := [Random(d.echByte)] + o3;
    Chained(Str(fixedPart), o4, d.echByte + ([0x00, 0x20] + (d.echKey + payload)), 4, e);
    var body := EncryptedHello(d);
    ScopedPart(0xfe0d, 0xfe, 0x0d, [Str(fixedPart)] + o4, body, e);
  }

  predicate Fixed(i: nat) { i < EXTENSIONS && i != 0 && i != 2 && i != 10 && i != 12 && i != 14 }

  // The bytes of an extension that is written out in one string.

  lemma LowBytes(i: nat, d: Draws, e: Env)
    requires Fixed(i) && i < 8 && Fitting(d, e)
    ensures Sized(Meant(i, d, e)) && |PartOps(i, d)| == 1 && PartOps(i, d)[0].Str?
    ensures PartOps(i, d)[0].data == ExtensionBytes(Meant(i, d, e))
  {
    if i == 4 {
      Header(0x000d, 0x00, 0x0d, 24, 0x00, 0x18, Be16(22) + SIGNATURES);
      TypeBytes(22, 0x00, 0x16);
      Six(SIGNATURES);
    } else if i == 5 {
      ProtocolBytes([0x02, 0x68, 0x32], [0x08, 0x68, 0x74, 0x74, 0x70, 0x2f, 0x31, 0x2e, 0x31]);
    } else if i == 1 {
    } else if i == 3 {
    } else {
    }
  }

  lemma ProtocolBytes(h2: Bytes, http: Bytes)
    requires |h2 + http| == 12
    ensures [0x00, 0x10, 0x00, 0x0e, 0x00, 0x0c] + (h2 + http) == ExtensionBytes(Extension(0x0010, Be16(12) + (h2 + http)))
  {
    hide Be16;
    Header(0x0010, 0x00, 0x10, 14, 0x00, 0x0e, Be16(12) + (h2 + http));
    TypeBytes(12, 0x00, 0x0c);
  }

  lemma Header(typ: nat, t1: Byte, t2: Byte, size: nat, s1: Byte, s2: Byte, body: Bytes)
    requires typ == U16(t1, t2) && size == U16(s1, s2) == |body|
    ensures typ < 0x1_0000 && size < 0x1_0000
    ensures ExtensionBytes(Extension(typ, body)) == [t1, t2] + [s1, s2] + body
  {
    TypeBytes(typ, t1, t2);
    TypeBytes(size, s1, s2);
  }

  lemma Six(tail: Bytes)
    ensures [0x00, 0x0d, 0x00, 0x18, 0x00, 0x16] + tail == [0x00, 0x0d] + [0x00, 0x18] + ([0x00, 0x16] + tail)
  {}

  lemma HighBytes(i: nat, d: Draws, e: Env)
    requires Fixed(i) && i >= 8 && Fitting(d, e)
    ensures Sized(Meant(i, d, e)) && |PartOps(i, d)| == 1 && PartOps(i, d)[0].Str?
    ensures PartOps(i, d)[0].data == ExtensionBytes(Meant(i, d, e))
  {
    if i == 8 {} else if i == 9 {} else if i == 11 {} else if i == 13 {} else {}
  }

  lemma FixedParts(i: nat, d: Draws, e: Env)
    requires Fixed(i) && Fitting(d, e)
    ensures PartMatches(i, d, e)
  {
    hide Encode, Encodes, PartOps, Meant, ExtensionBytes;
    if i < 8 { LowBytes(i, d, e); } else { HighBytes(i, d, e); }
    var op := PartOps(i, d)[0];
    assert PartOps(i, d) == [op];
    OneString(op.data, e);
  }

  lemma EveryPart(i: nat, d: Draws, e: Env)
    requires i < EXTENSIONS && Fitting(d, e)
    ensures PartMatches(i, d, e)
  {
    hide PartMatches;
    if i == 0 { ServerNamePart(d, e); }
    else if i == 2 { GroupsPart(d, e); }
    else if i == 10 { VersionsPart(d, e); }
    else if i == 12 { KeySharePart(d, e); }
    else if i == 14 { EncryptedHelloPart(d, e); }
    else { FixedParts(i, d, e); }
  }

  // ------------------------------------------------------------ all extensions

  function MeantAll(d: Draws, e: Env): (xs: seq<Extension>)
    requires Fitting(d, e)
    ensures |xs| == EXTENSIONS && AllSized(xs)
    ensures forall i :: 0 <= i < EXTENSIONS ==> xs[i] == Meant(i, d, e)
  {
    assert forall i :: 0 <= i < EXTENSIONS ==> Sized(Meant(i, d, e)) by {
      forall i | 0 <= i < EXTENSIONS ensures Sized(Meant(i, d, e)) { MeantSized(i, d, e); }
    }
    seq(EXTENSIONS, i requires 0 <= i < EXTENSIONS => Meant(i, d, e))
  }

  lemma {:induction false} EncodePartsAre(parts: seq<Part>, blocks: seq<Bytes>, e: Env)
    requires |parts| == |blocks| && forall i :: 0 <= i < |parts| ==> Encodes(parts[i].ops, 0, e, blocks[i])
    ensures EncodeParts(parts, e) == Some(blocks)
    decreases |parts|
  {
    hide Encode;
    if parts != [] {
      forall i | 0 <= i < |parts[1..]| ensures Encodes(parts[1..][i].ops, 0, e, blocks[1..][i]) {
        assert Encodes(parts[i + 1].ops, 0, e, blocks[i + 1]);
      }
      EncodePartsAre(parts[1..], blocks[1..], e);
      assert Encodes(parts[0].ops, 0, e, blocks[0]);
      assert blocks == [blocks[0]] + blocks[1..];
    }
  }

  lemma PartsEncode(d: Draws, e: Env)
    requires Fitting(d, e)
    ensures EncodeParts(Parts(d), e) == Some(Blocks(MeantAll(d, e)))
  {
    hide EncodeParts, PartOps, Meant, Encodes, ExtensionBytes;
    var parts, blocks := Parts(d), Blocks(MeantAll(d, e));
    forall i | 0 <= i < |parts| ensures Encodes(parts[i].ops, 0, e, blocks[i]) {
      EveryPart(i, d, e);
    }
    EncodePartsAre(parts, blocks, e);
  }

  lemma {:induction false} ShuffleBlocks(xs: seq<Extension>, offsets: seq<nat>, i: nat)
    requires AllSized(xs) && Offsets(|xs|, offsets) && i <= |xs|
    ensures AllSized(Shuffle(xs, offsets, i))
    ensures Shuffle(Blocks(xs), offsets, i) == Blocks(Shuffle(xs, offsets, i))
    decreases |xs| - i
  {
    hide ExtensionBytes, Offsets, Sized;
    if i + 1 < |xs| {
      InRange(|xs|, offsets, i);
      var ys := Swap(xs, i, i + offsets[i]);
      assert Blocks(ys) == Swap(Blocks(xs), i, i + offsets[i]);
      ShuffleBlocks(ys, offsets, i + 1);
    }
  }

  lemma InRange(n: nat, offsets: seq<nat>, i: nat)
    requires Offsets(n, offsets) && i + 1 < n
    ensures i < |offsets| && i + offsets[i] < n
  {}

  /** The extensions as they are sent. */
  function Sent(d: Draws, e: Env): (xs: seq<Extension>)
    requires Fitting(d, e)
    ensures AllSized(xs)
  {
    ShuffleBlocks(MeantAll(d, e), d.offsets, 0);
    [Extension(GreaseType(e, 2), [])] + Shuffle(MeantAll(d, e), d.offsets, 0) + [Extension(GreaseType(e, 3), [0x00])]
  }

  // The length of the blocks does not depend on their order.

  function Lengths(bs: seq<Bytes>): nat { if bs == [] then 0 else |bs[0]| + Lengths(bs[1..]) }

  lemma {:induction false} JoinedLength(bs: seq<Bytes>)
    ensures |Joined(bs)| == Lengths(bs)
  {
    if bs != [] { JoinedLength(bs[1..]); }
  }

  lemma {:induction false} LengthsSplit(bs: seq<Bytes>, k: nat)
    requires k < |bs|
    ensures Lengths(bs) == |bs[k]| + Lengths(bs[..k] + bs[k + 1..])
  {
    if k == 0 {
      assert bs[..0] + bs[1..] == bs[1..];
    } else {
      LengthsSplit(bs[1..], k - 1);
      assert (bs[..k] + bs[k + 1..])[1..] == bs[1..][..k - 1] + bs[1..][k..];
    }
  }

  lemma {:induction false} SameLengths(a: seq<Bytes>, b: seq<Bytes>)
    requires multiset(a) == multiset(b)
    ensures Lengths(a) == Lengths(b)
    decreases |a|
  {
    if a == [] {
      SameLength(a, b);
    } else {
      assert a[0] in multiset(b);
      var k :| 0 <= k < |b| && b[k] == a[0];
      var rest := b[..k] + b[k + 1..];
      LengthsSplit(b, k);
      assert b == b[..k] + ([b[k]] + b[k + 1..]);
      assert a == [a[0]] + a[1..];
      assert multiset(a[1..]) == multiset(a) - multiset{a[0]} == multiset(rest);
      SameLengths(a[1..], rest);
    }
  }

  /** 4 + MeantSize from place i on. */
  function SizesFrom(i: nat, n: nat, p: nat): nat
    requires i <= EXTENSIONS
    decreases EXTENSIONS - i
  {
    if i == EXTENSIONS then 0 else 4 + MeantSize(i, n, p) + SizesFrom(i + 1, n, p)
  }

  lemma SizesTotal(n: nat, p: nat)
    ensures SizesFrom(0, n, p) == 1449 + n + p
  {
    assert SizesFrom(14, n, p) == 51 + p;
    assert SizesFrom(12, n, p) == 1327 + p;
    assert SizesFrom(10, n, p) == 1344 + p;
    assert SizesFrom(8, n, p) == 1355 + p;
    assert SizesFrom(6, n, p) == 1363 + p;
    assert SizesFrom(4, n, p) == 1409 + p;
    assert SizesFrom(2, n, p) == 1431 + p;
  }

  lemma {:induction false} LengthsFrom(i: nat, d: Draws, e: Env)
    requires i <= EXTENSIONS && Fitting(d, e)
    ensures Lengths(Blocks(MeantAll(d, e))[i..]) == SizesFrom(i, |e.domain|, |d.echPayload|)
    decreases EXTENSIONS - i
  {
    hide Meant, MeantSize;
    var bs := Blocks(MeantAll(d, e));
    if i < EXTENSIONS {
      LengthsFrom(i + 1, d, e);
      MeantSized(i, d, e);
      assert bs[i..][0] == bs[i] && bs[i..][1..] == bs[i + 1..];
    }
  }

  lemma ShuffledLength(d: Draws, e: Env)
    requires Fitting(d, e)
    ensures |Joined(Shuffle(Blocks(MeantAll(d, e)), d.offsets, 0))| == 1449 + |e.domain| + |d.echPayload|
  {
    hide Blocks, Shuffle, SizesFrom;
    var bs := Blocks(MeantAll(d, e));
    ShuffleKeeps(bs, d.offsets, 0);
    JoinedLength(Shuffle(bs, d.offsets, 0));
    SameLengths(bs, Shuffle(bs, d.offsets, 0));
    LengthsFrom(0, d, e);
    assert bs[0..] == bs;
    SizesTotal(|e.domain|, |d.echPayload|);
  }

  // ----------------------------------------------------------------- the record

  lemma JoinedAppend(a: seq<Bytes>, b: seq<Bytes>)
    ensures Joined(a + b) == Joined(a) + Joined(b)
  {
    if a == [] {
      assert a + b == b && Joined(a) + Joined(b) == Joined(b);
    } else {
      assert (a + b)[1..] == a[1..] + b;
      JoinedAppend(a[1..], b);
    }
  }

  lemma BlockParts(d: Draws, e: Env)
    requires Fitting(d, e)
    ensures Joined(Blocks(Sent(d, e)))
         == Twice(e, 2) + ([0x00, 0x00] + (Joined(Shuffle(Blocks(MeantAll(d, e)), d.offsets, 0))
            + (Twice(e, 3) + [0x00, 0x01, 0x00])))
    ensures |Joined(Blocks(Sent(d, e)))| == 1458 + |e.domain| + |d.echPayload|
  {
    hide Be16, MeantAll, Shuffle, Offsets, ExtensionBytes;
    var all := MeantAll(d, e);
    var mid := Shuffle(all, d.offsets, 0);
    var first, last := Extension(GreaseType(e, 2), []), Extension(GreaseType(e, 3), [0x00]);
    ShuffleBlocks(all, d.offsets, 0);
    ShuffledLength(d, e);
    assert Blocks(Sent(d, e)) == [ExtensionBytes(first)] + Blocks(mid) + [ExtensionBytes(last)];
    JoinedAppend([ExtensionBytes(first)] + Blocks(mid), [ExtensionBytes(last)]);
    JoinedAppend([ExtensionBytes(first)], Blocks(mid));
    OneBlock(ExtensionBytes(first));
    OneBlock(ExtensionBytes(last));
    GreaseExtension(GreaseType(e, 2), e.grease[2], []);
    GreaseExtension(GreaseType(e, 3), e.grease[3], [0x00]);
    assert ExtensionBytes(first) == Twice(e, 2) + [0x00, 0x00];
    assert ExtensionBytes(last) == Twice(e, 3) + [0x00, 0x01, 0x00];
  }

  /** The extensions block. */
  function Block(d: Draws, e: Env): (b: Bytes)
    requires Fitting(d, e)
    ensures |b| == 1458 + |e.domain| + |d.echPayload|
  {
    BlockParts(d, e);
    Joined(Blocks(Sent(d, e)))
  }

  lemma OneBlock(b: Bytes)
    ensures Joined([b]) == b
  {
    assert [b][1..] == [] && b + [] == b;
  }

  /** A GREASE extension of a short body. */
  lemma GreaseExtension(typ: nat, g: Byte, body: Bytes)
    requires typ == U16(g, g) && |body| < 256
    ensures typ < 0x1_0000
    ensures ExtensionBytes(Extension(typ, body)) == [g, g] + ([0x00, |body| as Byte] + body)
  {
    TypeBytes(typ, g, g);
    assert Be16(|body|) == [0x00, |body| as Byte];
  }

  lemma PermutationEncodes(d: Draws, e: Env, at: nat)
    requires Fitting(d, e)
    ensures Encodes([Permutation(Parts(d), d.offsets)], at, e, Joined(Shuffle(Blocks(MeantAll(d, e)), d.offsets, 0)))
  {
    hide EncodeParts, Parts, Blocks, MeantAll, Shuffle, Joined;
    PartsEncode(d, e);
    var data := Joined(Shuffle(Blocks(MeantAll(d, e)), d.offsets, 0));
    var op := Permutation(Parts(d), d.offsets);
    assert OpData(op, at, e) == Some(data);
    assert [op][1..] == [];
    assert Encode([], at + |data|, e) == Some(([], []));
    assert data + [] == data;
  }

  lemma NoPadding(at: nat, e: Env)
    requires at >= PADDING_TARGET
    ensures Encodes([Padding], at, e, [])
  {
    var data: Bytes := [];
    assert OpData(Padding, at, e) == Some(data);
    assert [Padding][1..] == [];
    assert Encode([], at + |data|, e) == Some(([], []));
    assert data + [] == data;
  }

  /** The padding is reached far past its target, so it never writes. */
  lemma ExtensionsEncode(d: Draws, e: Env, at: nat)
    requires Fitting(d, e)
    ensures Encodes(ExtensionOps(d), at, e, Block(d, e))
  {
    hide Encode, Encodes, Parts, Blocks, MeantAll, Shuffle, Joined, Sent;
    var mid := Joined(Shuffle(Blocks(MeantAll(d, e)), d.offsets, 0));
    var tail := Twice(e, 3) + [0x00, 0x01, 0x00];
    ShuffledLength(d, e);
    BlockParts(d, e);
    PermutationEncodes(d, e, at + 4);
    TailEncodes(e, at + 4 + |mid|);
    var lastOps := [Grease(3)] + ([Str([0x00, 0x01, 0x00])] + [Padding]);
    EncodesAppend([Permutation(Parts(d), d.offsets)], mid, lastOps, tail, at + 4, e);
    var midOps := [Permutation(Parts(d), d.offsets)] + lastOps;
    Chained(Str([0x00, 0x00]), midOps, mid + tail, at + 2, e);
    Chained(Grease(2), [Str([0x00, 0x00])] + midOps, [0x00, 0x00] + (mid + tail), at, e);
  }

  lemma TailEncodes(e: Env, at: nat)
    requires |e.grease| == 7 && at >= PADDING_TARGET
    ensures Encodes([Grease(3)] + ([Str([0x00, 0x01, 0x00])] + [Padding]), at, e, Twice(e, 3) + [0x00, 0x01, 0x00])
  {
    hide Encode, Encodes;
    NoPadding(at + 5, e);
    var three: Bytes := [0x00, 0x01, 0x00];
    Chained(Str(three), [Padding], [], at + 2, e);
    assert three + [] == three;
    Chained(Grease(3), [Str(three)] + [Padding], three, at, e);
  }

  /** What stands behind the random field. */
  function TailBytes(session: Bytes, suites: Bytes, block: Bytes): (b: Bytes)
    requires |block| < 0x1_0000
    ensures |b| == 7 + |session| + |suites| + |block|
  {
    [0x20] + (session + ([0x00, 0x20] + (suites + ([0x01, 0x00] + (Be16(|block|) + block)))))
  }

  /** The message's body, its random field zero. */
  function BodyBytes(tail: Bytes): (b: Bytes)
    ensures |b| == 34 + |tail|
  {
    [0x03, 0x03] + (Zeros(32) + tail)
  }

  /** A record of one handshake message. */
  function RecordBytes(body: Bytes): (b: Bytes)
    requires |body| + 4 < 0x1_0000
    ensures |b| == 9 + |body|
  {
    [0x16, 0x03, 0x01] + (Be16(|body| + 4) + ([0x01, 0x00] + (Be16(|body|) + body)))
  }

  function Suites(e: Env): Bytes
    requires |e.grease| == 7
  {
    Twice(e, 0) + SUITES
  }

  function Tail(d: Draws, e: Env): Bytes
    requires Fitting(d, e)
  {
    TailBytes(d.session, Suites(e), Block(d, e))
  }

  lemma BodyEncodes(d: Draws, e: Env, at: nat)
    requires Fitting(d, e)
    ensures Encodes(BodyOps(d), at, e, BodyBytes(Tail(d, e)))
  {
    hide Encode, Encodes, ExtensionOps, Block, Be16, Scope, Zeros;
    var block := Block(d, e);
    ExtensionsEncode(d, e, at + 105);
    EncodesScope(ExtensionOps(d), block, at + 103, e);
    var suites := SUITES + [0x01, 0x00];
    var o0 := Scope(ExtensionOps(d));
    var b0 := Be16(|block|) + block;
    Chained(Str(suites), o0, b0, at + 71, e);
    var o1, b1 := [Str(suites)] + o0, suites + b0;
    Chained(Grease(0), o1, b1, at + 69, e);
    var o2, b2 := [Grease(0)] + o1, Suites(e) + ([0x01, 0x00] + b0);
    assert b2 == Twice(e, 0) + b1;
    Chained(Str([0x00, 0x20]), o2, b2, at + 67, e);
    var o3, b3 := [Str([0x00, 0x20])] + o2, [0x00, 0x20] + b2;
    Chained(Random(d.session), o3, b3, at + 35, e);
    var o4, b4 := [Random(d.session)] + o3, d.session + b3;
    Chained(Str([0x20]), o4, b4, at + 34, e);
    var o5, b5 := [Str([0x20])] + o4, [0x20] + b4;
    Chained(Zero(32), o5, b5, at + 2, e);
    Chained(Str([0x03, 0x03]), [Zero(32)] + o5, Zeros(32) + b5, at, e);
  }

  /** The record with its random field still zero. */
  function Record(d: Draws, e: Env): Bytes
    requires Fitting(d, e)
  {
    hide Block;
    RecordBytes(BodyBytes(Tail(d, e)))
  }

  lemma RecordEncodes(d: Draws, e: Env)
    requires Fitting(d, e)
    ensures EncodeAll(Ops(d), e) == Some(Record(d, e))
  {
    hide Encode, Block, Be16, Scope, BodyBytes, BodyOps;
    BodyEncodes(d, e, 9);
    var body := BodyBytes(Tail(d, e));
    EncodesScope(BodyOps(d), body, 7, e);
    var inner := Scope(BodyOps(d));
    Chained(Str([0x01, 0x00]), inner, Be16(|body|) + body, 5, e);
    var message := [0x01, 0x00] + (Be16(|body|) + body);
    EncodesScope([Str([0x01, 0x00])] + inner, message, 3, e);
    Chained(Str([0x16, 0x03, 0x01]), Scope([Str([0x01, 0x00])] + inner), Be16(|message|) + message, 0, e);
  }

  // --------------------------------------------------------------- reading it back

  function Head(message: nat, body: nat): (b: Bytes)
    requires message < 0x1_0000 && body < 0x1_0000
    ensures |b| == 11
  {
    [0x16, 0x03, 0x01] + Be16(message) + [0x01, 0x00] + Be16(body) + [0x03, 0x03]
  }

  lemma RecordLayout(tail: Bytes)
    requires |tail| + 38 < 0x1_0000
    ensures RecordBytes(BodyBytes(tail)) == Head(|tail| + 38, |tail| + 34) + (Zeros(32) + tail)
  {
    hide Be16, Zeros;
  }

  lemma HeadReads(n: nat, random: Bytes, tail: Bytes)
    requires |random| == 32 && |tail| + 38 < 0x1_0000 && n == |tail|
    ensures ParseHello(Head(n + 38, n + 34) + (random + tail)) == ParseBody(random, tail)
  {
    hide ParseBody;
    var head := Head(n + 38, n + 34);
    var r := head + (random + tail);
    assert r[..3] == head[..3] == [0x16, 0x03, 0x01];
    assert U16(r[3], r[4]) == n + 38 by { Be16Reads(n + 38); }
    assert U16(r[7], r[8]) == n + 34 by { Be16Reads(n + 34); }
    assert r[9..11] == head[9..11] == [0x03, 0x03];
    assert r[11..43] == random && r[43..] == tail;
  }

  lemma Be16Reads(n: nat)
    requires n < 0x1_0000
    ensures U16(Be16(n)[0], Be16(n)[1]) == n
  {}

  lemma TailLayout(session: Bytes, suites: Bytes, block: Bytes)
    requires |block| < 0x1_0000
    ensures TailBytes(session, suites, block)
         == [0x20] + session + (Be16(32) + suites + ([0x01] + [0x00] + (Be16(|block|) + block)))
  {
    TypeBytes(32, 0x00, 0x20);
    hide Be16;
  }

  lemma TailReads(random: Bytes, session: Bytes, suites: Bytes, block: Bytes, xs: seq<Extension>)
    requires |session| == 32 && |suites| == 32 && |block| < 0x1_0000 && ParseExtensions(block) == Some(xs)
    ensures ParseBody(random, TailBytes(session, suites, block)) == Some(Hello(random, session, suites, [0x00], xs))
  {
    hide Vector8, Vector16, Be16, ParseExtensions, TailBytes;
    var b3 := Be16(|block|) + block;
    var b2 := [0x01] + [0x00] + b3;
    var b1 := Be16(32) + suites + b2;
    TailLayout(session, suites, block);
    Vector8Reads(session, b1);
    Vector16Reads(suites, b2);
    Vector8Reads([0x00], b3);
    assert b3 == Be16(|block|) + block + [];
    Vector16Reads(block, []);
  }

  lemma ClosesFirst(op: Op, rest: seq<Op>)
    requires Plain(op) && Closes(rest, 0)
    ensures Closes([op] + rest, 0)
  {
    assert ([op] + rest)[1..] == rest;
  }

  lemma ClosesOne(op: Op)
    requires Plain(op) || op.Padding?
    ensures Closes([op], 0)
  {
    assert [op][1..] == [] && Closes([], 0);
  }

  lemma ClosesPart(i: nat, d: Draws)
    requires i < EXTENSIONS
    ensures Closes(PartOps(i, d), 0)
  {
    hide Closes, Scope;
    if i == 0 {
      ClosesOne(Domain);
      ClosesScopeOps([Domain]);
      ClosesFirst(Str([0x00]), Scope([Domain]));
      ClosesScopeOps([Str([0x00])] + Scope([Domain]));
      ClosesScopeOps(Scope([Str([0x00])] + Scope([Domain])));
      ClosesFirst(Str([0x00, 0x00]), Scope(Scope([Str([0x00])] + Scope([Domain]))));
    } else if i == 2 || i == 10 {
      var ops := PartOps(i, d);
      ClosesOne(ops[2]);
      ClosesFirst(ops[1], [ops[2]]);
      ClosesFirst(ops[0], [ops[1]] + [ops[2]]);
    } else if i == 12 {
      ClosesShares(d);
    } else if i == 14 {
      ClosesEncrypted(d);
    } else {
      var op := PartOps(i, d)[0];
      assert PartOps(i, d) == [op];
      ClosesOne(op);
    }
  }

  lemma ClosesShares(d: Draws)
    ensures Closes(PartOps(12, d), 0)
  {
    hide Closes;
    var o6 := [Key(d.key2)];
    ClosesOne(Key(d.key2));
    var o5 := [Str([0x00, 0x1d, 0x00, 0x20])] + o6;
    ClosesFirst(Str([0x00, 0x1d, 0x00, 0x20]), o6);
    ClosesFirst(Key(d.key1), o5);
    ClosesFirst(MlKem(d.mlkem), [Key(d.key1)] + o5);
    var o3 := [MlKem(d.mlkem)] + ([Key(d.key1)] + o5);
    var mid: Bytes := [0x00, 0x01, 0x00, 0x11, 0xec, 0x04, 0xc0];
    ClosesFirst(Str(mid), o3);
    ClosesFirst(Grease(4), [Str(mid)] + o3);
    ClosesFirst(Str([0x00, 0x33, 0x04, 0xef, 0x04, 0xed]), [Grease(4)] + ([Str(mid)] + o3));
  }

  lemma ClosesEncrypted(d: Draws)
    ensures Closes(PartOps(14, d), 0)
  {
    hide Closes, Scope;
    ClosesOne(Random(d.echPayload));
    ClosesScopeOps([Random(d.echPayload)]);
    var o1 := Scope([Random(d.echPayload)]);
    ClosesFirst(Key(d.echKey), o1);
    var o2 := [Key(d.echKey)] + o1;
    ClosesFirst(Str([0x00, 0x20]), o2);
    ClosesFirst(Random(d.echByte), [Str([0x00, 0x20])] + o2);
    var o4 := [Random(d.echByte)] + ([Str([0x00, 0x20])] + o2);
    ClosesFirst(Str([0x00, 0x00, 0x01, 0x00, 0x01]), o4);
    ClosesScopeOps([Str([0x00, 0x00, 0x01, 0x00, 0x01])] + o4);
    ClosesFirst(Str([0xfe, 0x0d]), Scope([Str([0x00, 0x00, 0x01, 0x00, 0x01])] + o4));
  }

  /** The op list closes every scope it opens, in every extension too. */
  lemma OpsClose(d: Draws)
    ensures Closes(Ops(d), 0)
  {
    hide PartOps, Scope;
    forall i | 0 <= i < EXTENSIONS ensures Closes(Parts(d)[i].ops, 0) { ClosesPart(i, d); }
    ExtensionsClose(d);
    hide Closes, ExtensionOps;
    var ops := Scope(ExtensionOps(d));
    ClosesScopeOps(ExtensionOps(d));
    var suites := SUITES + [0x01, 0x00];
    ClosesFirst(Str(suites), ops);
    var o1 := [Str(suites)] + ops;
    ClosesFirst(Grease(0), o1);
    ClosesFirst(Str([0x00, 0x20]), [Grease(0)] + o1);
    var o3 := [Str([0x00, 0x20])] + ([Grease(0)] + o1);
    ClosesFirst(Random(d.session), o3);
    ClosesFirst(Str([0x20]), [Random(d.session)] + o3);
    var o5 := [Str([0x20])] + ([Random(d.session)] + o3);
    ClosesFirst(Zero(32), o5);
    ClosesFirst(Str([0x03, 0x03]), [Zero(32)] + o5);
    assert BodyOps(d) == [Str([0x03, 0x03])] + ([Zero(32)] + o5);
    ClosesScopeOps(BodyOps(d));
    ClosesFirst(Str([0x01, 0x00]), Scope(BodyOps(d)));
    ClosesScopeOps([Str([0x01, 0x00])] + Scope(BodyOps(d)));
    ClosesFirst(Str([0x16, 0x03, 0x01]), Scope([Str([0x01, 0x00])] + Scope(BodyOps(d))));
  }

  lemma ExtensionsClose(d: Draws)
    requires forall i :: 0 <= i < EXTENSIONS ==> Closes(Parts(d)[i].ops, 0)
    ensures Closes(ExtensionOps(d), 0)
  {
    hide Parts;
    ClosesOne(Padding);
    ClosesFirst(Str([0x00, 0x01, 0x00]), [Padding]);
    var o1 := [Str([0x00, 0x01, 0x00])] + [Padding];
    ClosesFirst(Grease(3), o1);
    var o2 := [Grease(3)] + o1;
    var op := Permutation(Parts(d), d.offsets);
    assert ([op] + o2)[1..] == o2;
    assert Closes([op] + o2, 0);
    ClosesFirst(Str([0x00, 0x00]), [op] + o2);
    ClosesFirst(Grease(2), [Str([0x00, 0x00])] + ([op] + o2));
  }

  /** The greeting with its random field filled in. */
  function Filled(r: Bytes, random: Bytes): Bytes
    requires |r| >= 43
  {
    r[..11] + random + r[43..]
  }

  /** For every domain, every draw and every order of the extensions: the writer
      renders one record; the record, with any random in bytes 11 to 43, reads as a
      ClientHello with that random, the drawn session id and exactly the meant
      extensions in the drawn order between two GREASE ones; and its length depends on
      the domain's length and the payload's alone. It does depend on the domain's: no
      padding evens it out. */
  lemma GreetingReads(d: Draws, e: Env, random: Bytes)
    requires Fitting(d, e) && |random| == 32
    ensures Render(W([], []), Ops(d), e) == Some(W(Record(d, e), []))
    ensures |Record(d, e)| == 1572 + |e.domain| + |d.echPayload|
    ensures Record(d, e)[11..43] == Zeros(32)
    ensures ParseHello(Filled(Record(d, e), random)) == Some(Hello(random, d.session, Suites(e), [0x00], Sent(d, e)))
    ensures multiset(Sent(d, e)) == multiset(MeantAll(d, e))
      + multiset{Extension(GreaseType(e, 2), []), Extension(GreaseType(e, 3), [0x00])}
  {
    hide Render, Ops, Closes, Head, RecordBytes, BodyBytes, TailBytes, ParseHello, ParseBody, ParseExtensions, Zeros, Sent,
         Block;
    OpsClose(d);
    RecordEncodes(d, e);
    PatchingIsRecursion(Ops(d), e);
    var tail := Tail(d, e);
    RecordLayout(tail);
    var head := Head(|tail| + 38, |tail| + 34);
    assert Record(d, e) == head + (Zeros(32) + tail);
    assert Record(d, e)[11..43] == Zeros(32);
    assert Filled(Record(d, e), random) == head + (random + tail);
    HeadReads(|tail|, random, tail);
    BlockReads(d, e);
    TailReads(random, d.session, Suites(e), Block(d, e), Sent(d, e));
    SentAre(d, e);
  }

  lemma BlockReads(d: Draws, e: Env)
    requires Fitting(d, e)
    ensures ParseExtensions(Block(d, e)) == Some(Sent(d, e))
  {
    hide ParseExtensions, Sent, Joined, Blocks;
    ExtensionsRead(Sent(d, e));
  }

  lemma SentAre(d: Draws, e: Env)
    requires Fitting(d, e)
    ensures multiset(Sent(d, e)) == multiset(MeantAll(d, e))
      + multiset{Extension(GreaseType(e, 2), []), Extension(GreaseType(e, 3), [0x00])}
  {
    hide Shuffle, MeantAll;
    ShuffleKeeps(MeantAll(d, e), d.offsets, 0);
  }

  /** The server name extension names the domain and nothing else. */
  lemma ServerNameReads(d: Draws, e: Env)
    requires Fitting(d, e)
    ensures Extension(0, ServerNames(e.domain)) in MeantAll(d, e)
    ensures Vector16(ServerNames(e.domain)) == Some(([0x00] + (Be16(|e.domain|) + e.domain), []))
    ensures Vector16(Be16(|e.domain|) + e.domain) == Some((e.domain, []))
  {
    hide Vector16, Be16;
    assert MeantAll(d, e)[0] == Meant(0, d, e);
    var names := [0x00] + (Be16(|e.domain|) + e.domain);
    Vector16Reads(names, []);
    Vector16Reads(e.domain, []);
    assert Be16(|names|) + names + [] == ServerNames(e.domain);
    assert Be16(|e.domain|) + e.domain + [] == Be16(|e.domain|) + e.domain;
  }

  // ------------------------------------------------------------------ the digest

  function XorBits(a: nat, b: nat): nat
    decreases a + b
  {
    if a == 0 && b == 0 then 0 else (if a % 2 == b % 2 then 0 else 1) + 2 * XorBits(a / 2, b / 2)
  }

  lemma {:induction false} XorBack(a: nat, b: nat)
    ensures XorBits(XorBits(a, b), b) == a
    decreases a + b
  {
    if a != 0 || b != 0 {
      XorBack(a / 2, b / 2);
      var x := XorBits(a, b);
      assert x / 2 == XorBits(a / 2, b / 2) && (x % 2 == 0 <==> a % 2 == b % 2);
    }
  }

  lemma {:induction false} XorBound(a: nat, b: nat, k: nat)
    requires a < Pow2(k) && b < Pow2(k)
    ensures XorBits(a, b) < Pow2(k)
    decreases k
  {
    if k > 0 { XorBound(a / 2, b / 2, k - 1); }
  }

  function XorByte(a: Byte, b: Byte): Byte {
    ByteXor(a, b);
    XorBits(a, b)
  }

  lemma ByteXor(a: Byte, b: Byte)
    ensures XorBits(a, b) < 256
  {
    var k: nat := 8;
    assert Pow2(8) == 256;
    XorBound(a, b, k);
  }

  /** The clock in four bytes. */
  function Clock(time: int): (b: Bytes)
    ensures |b| == 4
  {
    Four();
    LittleEndian(time % 0x1_0000_0000, 4)
  }

  /** The digest with the clock mixed into its last four bytes. */
  function Stamped(digest: Bytes, time: int): (r: Bytes)
    requires |digest| == 32
    ensures |r| == 32
  {
    var clock := Clock(time);
    digest[..28] + [XorByte(digest[28], clock[0]), XorByte(digest[29], clock[1]),
                    XorByte(digest[30], clock[2]), XorByte(digest[31], clock[3])]
  }

  method StampInPlace(digest: array<Byte>, time: int)
    requires digest.Length == 32
    modifies digest
    ensures digest[..] == Stamped(old(digest[..]), time)
  {
    hide XorByte, Clock;
    var clock := Clock(time);
    ghost var before := digest[..];
    var index := 0;
    while index < 4
      invariant 0 <= index <= 4
      invariant forall k :: 0 <= k < 28 + index ==> digest[k] == (if k < 28 then before[k] else XorByte(before[k], clock[k - 28]))
      invariant forall k :: 28 + index <= k < 32 ==> digest[k] == before[k]
    {
      digest[28 + index] := XorByte(digest[28 + index], clock[index]);
      index := index + 1;
    }
    assert digest[..28] == before[..28];
    assert digest[..] == digest[..28] + [digest[28], digest[29], digest[30], digest[31]];
  }

  /** build_client_hello. */
  method BuildClientHello(d: Draws, e: Env, secret: Bytes, time: int, hmac: (Bytes, Bytes) -> Bytes)
    returns (record: Bytes, random: Bytes)
    requires Fitting(d, e) && forall k, m :: |hmac(k, m)| == 32
    ensures random == Stamped(hmac(secret, Record(d, e)), time)
    ensures record == Filled(Record(d, e), random)
  {
    hide Render, Ops, Closes, Record, Stamped, ParseHello, MeantAll, Block, Sent;
    var writer := new HelloWriter(e.grease, e.domain);
    var ok := writer.RenderOps(Ops(d));
    GreetingReads(d, e, Zeros(32));
    var hello := writer.out;
    var code := hmac(secret, hello);
    var digest := new Byte[32](k requires 0 <= k < 32 => code[k]);
    assert digest[..] == code;
    StampInPlace(digest, time);
    random := digest[..];
    record := hello[..11] + random + hello[43..];
  }

  /** Whoever knows the secret can check a greeting: with the random field zeroed
      again, the first 28 bytes of the code are the random's, and the rest give back
      the sender's clock modulo 2^32. */
  lemma ProxyReads(d: Draws, e: Env, secret: Bytes, time: int, hmac: (Bytes, Bytes) -> Bytes)
    requires Fitting(d, e) && forall k, m :: |hmac(k, m)| == 32
    ensures var random := Stamped(hmac(secret, Record(d, e)), time);
            var record := Filled(Record(d, e), random);
            var code := hmac(secret, Filled(record, Zeros(32)));
            && random == record[11..43] && random[..28] == code[..28]
            && FromLittleEndian([XorByte(random[28], code[28]), XorByte(random[29], code[29]),
                                 XorByte(random[30], code[30]), XorByte(random[31], code[31])]) == time % 0x1_0000_0000
  {
    hide Render, Ops, Closes, Record, ParseHello, MeantAll, Block, Sent, XorByte, Clock, Zeros, FromLittleEndian;
    GreetingReads(d, e, Zeros(32));
    var r := Record(d, e);
    var digest := hmac(secret, r);
    var random := Stamped(digest, time);
    var record := Filled(r, random);
    assert record[11..43] == random;
    assert Filled(record, Zeros(32)) == r by {
      assert record[..11] == r[..11] && record[43..] == r[43..];
      assert r == r[..11] + r[11..43] + r[43..];
    }
    var clock := Clock(time);
    UnXor(digest[28], clock[0]);
    UnXor(digest[29], clock[1]);
    UnXor(digest[30], clock[2]);
    UnXor(digest[31], clock[3]);
    assert [clock[0], clock[1], clock[2], clock[3]] == clock;
    ClockReads(time);
  }

  lemma UnXor(a: Byte, b: Byte)
    ensures XorByte(XorByte(a, b), a) == b
  {
    XorSwap(a, b);
    XorBack(b, a);
  }

  lemma {:induction false} XorSwap(a: nat, b: nat)
    ensures XorBits(a, b) == XorBits(b, a)
    decreases a + b
  {
    if a != 0 || b != 0 { XorSwap(a / 2, b / 2); }
  }

  lemma ClockReads(time: int)
    ensures FromLittleEndian(Clock(time)) == time % 0x1_0000_0000
  {
    Four();
    LittleEndianRoundTrip(time % 0x1_0000_0000, 4);
  }
}
