/** pyrogram/crypto/faketls.py: the greeting itself. Its op list is encoded and read
    back with a TLS parser (sections 4.1.2, 4.2 and 5.1 of RFC 8446). */
module ClientHello {
  import opened TlPrimitives
  import opened FakeTls

  // ------------------------------------------------------ composing an encoding

  /** The ops alone encode to b at that offset. */
  predicate Encodes(ops: seq<Op>, at: nat, e: Env, b: Bytes) { Encode(ops, at, e) == Some((b, [])) }

  function Scope(inner: seq<Op>): seq<Op> { [Begin] + inner + [End] }

  /** What comes behind ops is encoded behind their bytes, unless it lies behind the
      op that closes an outer scope. */
  lemma {:induction false} EncodeBehind(a: seq<Op>, c: seq<Op>, at: nat, e: Env)
    ensures Encode(a, at, e).Some? ==> Encode(a + c, at, e) == Continued(Encode(a, at, e).value, c, at, e)
    decreases |a|
  {
    hide Encode, OpData, Be16, Suffix, Continued;
    if a == [] || a[0].End? {
      OpenFirst(a, c, at, e);
    } else if a[0].Begin? {
      ScopeStep(a, at, e);
      if Encode(a, at, e).Some? {
        EncodeBehind(a[1..], c, at + 2, e);
        var (body, rest) := Encode(a[1..], at + 2, e).value;
        RestShorter(a[1..], at + 2, e);
        EncodeBehind(rest[1..], c, at + 2 + |body|, e);
        ScopeBehind(a, c, at, e, body, rest);
      }
    } else {
      OpStep(a, at, e);
      if Encode(a, at, e).Some? {
        EncodeBehind(a[1..], c, at + |OpData(a[0], at, e).value|, e);
        OpBehind(a, c, at, e);
      }
    }
  }

  lemma OpenFirst(a: seq<Op>, c: seq<Op>, at: nat, e: Env)
    requires a == [] || a[0].End?
    ensures Encode(a + c, at, e) == Continued(Encode(a, at, e).value, c, at, e)
  {
    if a == [] {
      assert a + c == c;
      EmptyFirst(c, at, e);
    }
  }

  lemma ScopeStep(a: seq<Op>, at: nat, e: Env)
    requires a != [] && a[0].Begin?
    ensures var inner := Encode(a[1..], at + 2, e);
            if inner.None? || inner.value.1 == [] || |inner.value.0| >= 0x1_0000 then Encode(a, at, e).None?
            else Encode(a, at, e) == Prefixed(Be16(|inner.value.0|) + inner.value.0,
                                              Encode(inner.value.1[1..], at + 2 + |inner.value.0|, e))
  {
    hide OpData, Be16, Suffix;
  }

  lemma RestShorter(a: seq<Op>, at: nat, e: Env)
    ensures Encode(a, at, e).Some? ==> |Encode(a, at, e).value.1| <= |a|
  {
    hide Encode;
  }

  lemma OpStep(a: seq<Op>, at: nat, e: Env)
    requires a != [] && !a[0].Begin? && !a[0].End?
    ensures var data := OpData(a[0], at, e);
            Encode(a, at, e) == if data.None? then None else Prefixed(data.value, Encode(a[1..], at + |data.value|, e))
  {
    hide OpData, Suffix;
  }

  lemma OpBehind(a: seq<Op>, c: seq<Op>, at: nat, e: Env)
    requires a != [] && !a[0].Begin? && !a[0].End? && Encode(a, at, e).Some? && OpData(a[0], at, e).Some?
    requires var next := at + |OpData(a[0], at, e).value|;
             Encode(a[1..], next, e).Some? && Encode(a[1..] + c, next, e) == Continued(Encode(a[1..], next, e).value, c, next, e)
    ensures Encode(a + c, at, e) == Continued(Encode(a, at, e).value, c, at, e)
  {
    hide Encode, OpData, Continued, Prefixed;
    var data := OpData(a[0], at, e).value;
    assert (a + c)[0] == a[0] && (a + c)[1..] == a[1..] + c;
    OpStep(a, at, e);
    OpStep(a + c, at, e);
    PrefixContinued(data, Encode(a[1..], at + |data|, e).value, c, at, e);
    PrefixedIs(data, Encode(a[1..], at + |data|, e));
  }

  lemma ScopeBehind(a: seq<Op>, c: seq<Op>, at: nat, e: Env, body: Bytes, rest: seq<Op>)
    requires a != [] && a[0].Begin? && Encode(a, at, e).Some? && Encode(a[1..], at + 2, e) == Some((body, rest)) && rest != []
    requires Encode(a[1..] + c, at + 2, e) == Continued((body, rest), c, at + 2, e)
    requires Encode(rest[1..], at + 2 + |body|, e).Some?
    requires Encode(rest[1..] + c, at + 2 + |body|, e)
          == Continued(Encode(rest[1..], at + 2 + |body|, e).value, c, at + 2 + |body|, e)
    ensures Encode(a + c, at, e) == Continued(Encode(a, at, e).value, c, at, e)
  {
    hide Encode, Be16, Continued, Prefixed;
    OpenContinued(body, rest, c, at + 2, e);
    assert (a + c)[0] == a[0] && (a + c)[1..] == a[1..] + c;
    assert (rest + c)[1..] == rest[1..] + c;
    ScopeStep(a, at, e);
    ScopeStep(a + c, at, e);
    var head := Be16(|body|) + body;
    assert at + |head| == at + 2 + |body|;
    PrefixContinued(head, Encode(rest[1..], at + 2 + |body|, e).value, c, at, e);
    PrefixedIs(head, Encode(rest[1..], at + 2 + |body|, e));
  }

  lemma OpenContinued(b: Bytes, rest: seq<Op>, c: seq<Op>, at: nat, e: Env)
    requires rest != []
    ensures Continued((b, rest), c, at, e) == Some((b, rest + c))
  {}

  lemma PrefixedIs(b: Bytes, r: Option<(Bytes, seq<Op>)>)
    ensures Prefixed(b, r) == if r.Some? then Some((b + r.value.0, r.value.1)) else None
  {}

  function Continued(r: (Bytes, seq<Op>), c: seq<Op>, at: nat, e: Env): Option<(Bytes, seq<Op>)> {
    if r.1 != [] then Some((r.0, r.1 + c))
    else Prefixed(r.0, Encode(c, at + |r.0|, e))
  }

  function Prefixed(b: Bytes, r: Option<(Bytes, seq<Op>)>): Option<(Bytes, seq<Op>)> {
    if r.Some? then Some((b + r.value.0, r.value.1)) else None
  }

  lemma EmptyFirst(c: seq<Op>, at: nat, e: Env)
    ensures Prefixed([], Encode(c, at + 0, e)) == Encode(c, at, e)
  {
    hide Encode;
    var r := Encode(c, at, e);
    if r.Some? { assert [] + r.value.0 == r.value.0; }
  }

  lemma PrefixContinued(b: Bytes, r: (Bytes, seq<Op>), c: seq<Op>, at: nat, e: Env)
    ensures Prefixed(b, Continued(r, c, at + |b|, e)) == Continued((b + r.0, r.1), c, at, e)
  {
    hide Encode;
    if r.1 == [] {
      var next := Encode(c, at + |b| + |r.0|, e);
      assert at + |b| + |r.0| == at + |b + r.0|;
      if next.Some? { assert b + (r.0 + next.value.0) == b + r.0 + next.value.0; }
    }
  }

  lemma EncodesAppend(a: seq<Op>, ba: Bytes, c: seq<Op>, bc: Bytes, at: nat, e: Env)
    requires Encodes(a, at, e, ba) && Encodes(c, at + |ba|, e, bc)
    ensures Encodes(a + c, at, e, ba + bc)
  {
    hide Encode;
    EncodeBehind(a, c, at, e);
  }

  lemma EncodesOp(op: Op, at: nat, e: Env)
    requires Plain(op) && PlainData(op, e).Some?
    ensures Encodes([op], at, e, PlainData(op, e).value)
  {
    var data := PlainData(op, e).value;
    assert [op][1..] == [];
    assert Encode([], at + |data|, e) == Some(([], []));
    assert data + [] == data;
  }

  lemma EncodesScope(inner: seq<Op>, body: Bytes, at: nat, e: Env)
    requires Encodes(inner, at + 2, e, body) && |body| < 0x1_0000
    ensures Encodes(Scope(inner), at, e, Be16(|body|) + body)
  {
    hide Encode, Be16, Scope, Prefixed;
    ScopeTail(inner);
    InnerEnded(inner, body, at + 2, e);
    EndsScope(at + 2 + |body|, e);
    ScopeStep(Scope(inner), at, e);
    PrefixNothing(Be16(|body|) + body);
  }

  lemma ScopeTail(inner: seq<Op>)
    ensures Scope(inner) != [] && Scope(inner)[0] == Begin && Scope(inner)[1..] == inner + [End]
  {}

  lemma InnerEnded(inner: seq<Op>, body: Bytes, at: nat, e: Env)
    requires Encodes(inner, at, e, body)
    ensures Encode(inner + [End], at, e) == Some((body, [End]))
  {
    hide Encode;
    EncodeBehind(inner, [End], at, e);
    EndsScope(at + |body|, e);
    assert body + [] == body;
  }

  lemma PrefixNothing(b: Bytes)
    ensures Prefixed(b, Some(([], []))) == Some((b, []))
  {
    assert b + [] == b;
  }

  lemma EndsScope(at: nat, e: Env)
    ensures Encode([End], at, e) == Some(([], [End])) && [End][1..] == []
    ensures Encode([], at, e) == Some(([], []))
  {}

  lemma {:induction false} ClosesAppend(a: seq<Op>, c: seq<Op>, d: nat, k: nat)
    requires Closes(a, d) && Closes(c, k)
    ensures Closes(a + c, d + k)
    decreases |a|
  {
    if a == [] {
      assert a + c == c;
    } else {
      assert (a + c)[1..] == a[1..] + c;
      match a[0]
      case Begin => ClosesAppend(a[1..], c, d + 1, k);
      case End => ClosesAppend(a[1..], c, d - 1, k);
      case _ => ClosesAppend(a[1..], c, d, k);
    }
  }

  lemma ClosesScopeOps(inner: seq<Op>)
    requires Closes(inner, 0)
    ensures Closes(Scope(inner), 0)
  {
    assert [End][1..] == [] && Closes([], 0);
    assert Closes([End], 1);
    ClosesAppend(inner, [End], 0, 1);
    assert Scope(inner)[1..] == inner + [End];
  }

  // --------------------------------------------------------------- a TLS parser

  datatype Extension = Extension(typ: nat, body: Bytes)

  datatype Hello = Hello(random: Bytes, session: Bytes, suites: Bytes, compression: Bytes, extensions: seq<Extension>)

  function U16(x: Byte, y: Byte): nat { x * 256 + y }

  /** A vector behind a two-byte length, and the rest. */
  function Vector16(b: Bytes): (r: Option<(Bytes, Bytes)>)
    ensures r.Some? ==> |r.value.1| < |b|
  {
    if |b| < 2 || |b| < 2 + U16(b[0], b[1]) then None
    else Some((b[2..2 + U16(b[0], b[1])], b[2 + U16(b[0], b[1])..]))
  }

  /** A vector behind a one-byte length, and the rest. */
  function Vector8(b: Bytes): Option<(Bytes, Bytes)> {
    if |b| < 1 || |b| - 1 < b[0] as int then None else Some((b[1..][..b[0]], b[1..][b[0]..]))
  }

  function ParseExtensions(b: Bytes): Option<seq<Extension>>
    decreases |b|
  {
    if b == [] then Some([])
    else if |b| < 2 then None
    else
      match Vector16(b[2..])
      case None => None
      case Some((body, rest)) =>
        match ParseExtensions(rest)
        case None => None
        case Some(others) => Some([Extension(U16(b[0], b[1]), body)] + others)
  }

  /** One record, of one handshake message, of one ClientHello that fills it. */
  function ParseHello(r: Bytes): Option<Hello> {
    if |r| < 43 || r[..3] != [0x16, 0x03, 0x01] || U16(r[3], r[4]) != |r| - 5
       || r[5] != 0x01 || r[6] as int * 0x1_0000 + U16(r[7], r[8]) != |r| - 9 || r[9..11] != [0x03, 0x03] then None
    else ParseBody(r[11..43], r[43..])
  }

  function ParseBody(random: Bytes, b: Bytes): Option<Hello> {
    match Vector8(b)
    case None => None
    case Some((session, b1)) =>
      match Vector16(b1)
      case None => None
      case Some((suites, b2)) =>
        match Vector8(b2)
        case None => None
        case Some((compression, b3)) =>
          match Vector16(b3)
          case None => None
          case Some((block, b4)) =>
            if b4 != [] then None
            else
              match ParseExtensions(block)
              case None => None
              case Some(extensions) => Some(Hello(random, session, suites, compression, extensions))
  }

  lemma Vector16Reads(x: Bytes, rest: Bytes)
    requires |x| < 0x1_0000
    ensures Vector16(Be16(|x|) + x + rest) == Some((x, rest))
  {
    var b := Be16(|x|) + x + rest;
    assert U16(b[0], b[1]) == |x|;
    assert b[2..2 + |x|] == x && b[2 + |x|..] == rest;
  }

  lemma Vector8Reads(x: Bytes, rest: Bytes)
    requires |x| < 256
    ensures Vector8([|x| as Byte] + x + rest) == Some((x, rest))
  {
    var b := [|x| as Byte] + x + rest;
    assert b[1..] == x + rest;
  }

  predicate Sized(x: Extension) { x.typ < 0x1_0000 && |x.body| < 0x1_0000 }

  function ExtensionBytes(x: Extension): (b: Bytes)
    requires Sized(x)
    ensures |b| == 4 + |x.body|
  {
    Be16(x.typ) + Be16(|x.body|) + x.body
  }

  predicate AllSized(xs: seq<Extension>) { forall k :: 0 <= k < |xs| ==> Sized(xs[k]) }

  function Blocks(xs: seq<Extension>): (bs: seq<Bytes>)
    requires AllSized(xs)
    ensures |bs| == |xs| && forall k :: 0 <= k < |xs| ==> bs[k] == ExtensionBytes(xs[k])
  {
    seq(|xs|, k requires 0 <= k < |xs| => ExtensionBytes(xs[k]))
  }

  lemma {:induction false} ExtensionsRead(xs: seq<Extension>)
    requires AllSized(xs)
    ensures ParseExtensions(Joined(Blocks(xs))) == Some(xs)
  {
    hide Vector16, Be16;
    if xs != [] {
      var x, rest := xs[0], Joined(Blocks(xs[1..]));
      assert Blocks(xs)[1..] == Blocks(xs[1..]);
      ExtensionsRead(xs[1..]);
      var tail := Be16(|x.body|) + x.body + rest;
      assert Joined(Blocks(xs)) == Be16(x.typ) + tail;
      assert (Be16(x.typ) + tail)[2..] == tail;
      Vector16Reads(x.body, rest);
      TypeReads(x.typ, tail);
      assert xs == [x] + xs[1..];
    }
  }

  lemma TypeReads(t: nat, tail: Bytes)
    requires t < 0x1_0000
    ensures U16((Be16(t) + tail)[0], (Be16(t) + tail)[1]) == t
  {}
}
