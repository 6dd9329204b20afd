/** compiler/api/compiler.py: what the generated read and write of a combinator
    do, as functions of its schema line. */
module TlCodec {
  import opened TlPrimitives

  datatype Core = TInt | TLong | TInt128 | TInt256 | TDouble | TBytes | TString | TBool

  /** An argument type: a core type, any boxed object, or a vector, whose name may
      begin with a capital or not, of a core type or of objects. */
  datatype Type = Plain(core: Core) | Boxed | Vector(capital: bool, elem: Option<Core>)

  /** `flagsN:#`, `name:type`, `name:flagsN.b?true` and `name:flagsN.b?type`. */
  datatype Arg =
    | Word(number: nat)
    | Always(typ: Type)
    | FlagTrue(number: nat, bit: nat)
    | Flagged(number: nat, bit: nat, typ: Type)

  type Schema = map<nat, seq<Arg>>

  /** Values by their Python kind; an object's fields follow its schema line, with
      Absent at the flags words. */
  datatype Value =
    | Absent
    | Int(i: int)
    | Bool(b: bool)
    | Str(bytes: Bytes)
    | Object(id: nat, fields: seq<Value>)
    | List(elems: seq<Value>)

  const VECTOR_ID: nat := 0x1CB5C415

  lemma VectorIdBytes()
    ensures WriteId(VECTOR_ID) == [0x15, 0xC4, 0xB5, 0x1C]
  {
    Four();
    var k: nat := 4;
    BytesOfFour(VECTOR_ID, k);
  }

  // ------------------------------------------------------------ typed values

  predicate TypedCore(v: Value, c: Core) {
    match c
    case TInt => v.Int? && Fits(v.i, 4)
    case TLong => v.Int? && Fits(v.i, 8)
    case TInt128 => v.Int? && Fits(v.i, 16)
    case TInt256 => v.Int? && Fits(v.i, 32)
    case TDouble => v.Str? && |v.bytes| == 8
    case TBytes => v.Str? && |v.bytes| < MAX_BYTES
    case TString => v.Str? && |v.bytes| < MAX_BYTES
    case TBool => v.Bool?
  }

  ghost predicate Typed(s: Schema, v: Value, t: Type)
    decreases v, 1
  {
    match t
    case Plain(c) => TypedCore(v, c)
    case Boxed => TypedObject(s, v)
    case Vector(_, e) =>
      v.List? && Fits(|v.elems|, 4)
      && forall k :: 0 <= k < |v.elems| ==> match e
                                            case Some(c) => TypedCore(v.elems[k], c)
                                            case None => TypedObject(s, v.elems[k])
  }

  /** Fields of the schema line's types; the objects among them agree with their
      own lines in turn. */
  ghost predicate Shaped(s: Schema, v: Value)
    decreases v, 0, 0
  {
    && v.Object? && v.id in s && |v.fields| == |s[v.id]|
    && (forall k :: 0 <= k < |v.fields| ==> TypedField(s, v.fields[k], s[v.id][k]))
  }

  ghost predicate TypedObject(s: Schema, v: Value)
    decreases v, 0, 1
  {
    v.Object? && v.id in s && |v.fields| == |s[v.id]| && Shaped(s, v) && Agrees(s[v.id], v.fields)
  }

  ghost predicate TypedField(s: Schema, v: Value, a: Arg)
    decreases v, 2
  {
    match a
    case Word(_) => v == Absent
    case Always(t) => Typed(s, v, t)
    case FlagTrue(_, _) => v.Bool?
    case Flagged(_, _, t) => v == Absent || Typed(s, v, t)
  }

  // ------------------------------------------------------------- flags words

  /** Whether the writer sets an argument's bit: truth for `true` and for
      capitalised vectors, presence for everything else. */
  predicate SetsBit(a: Arg, v: Value) {
    match a
    case FlagTrue(_, _) => v == Bool(true)
    case Flagged(_, _, Vector(true, _)) => v.List? && v.elems != []
    case Flagged(_, _, _) => v != Absent
    case _ => false
  }

  /** Whether the writer writes a flagged argument at all: a vector, however it is
      spelled, only if it has elements. */
  predicate Writes(a: Arg, v: Value) {
    match a
    case Flagged(_, _, Vector(_, _)) => v.List? && v.elems != []
    case Flagged(_, _, _) => v != Absent
    case _ => false
  }

  predicate Uses(a: Arg, number: nat) {
    (a.FlagTrue? || a.Flagged?) && a.number == number
  }

  /** The word `flagsN = 0; flagsN |= ...` over all arguments. */
  function FlagsWord(args: seq<Arg>, fields: seq<Value>, number: nat): nat
    requires |args| == |fields|
  {
    if args == [] then 0
    else
      var n := |args| - 1;
      var w := FlagsWord(args[..n], fields[..n], number);
      if Uses(args[n], number) && SetsBit(args[n], fields[n]) then SetBit(w, args[n].bit) else w
  }

  /** Some argument sets this bit of this word. */
  ghost predicate BitSet(args: seq<Arg>, fields: seq<Value>, number: nat, bit: nat)
    requires |args| == |fields|
  {
    exists k :: 0 <= k < |args| && Uses(args[k], number) && args[k].bit == bit && SetsBit(args[k], fields[k])
  }

  lemma {:induction false} WordBits(args: seq<Arg>, fields: seq<Value>, number: nat, bit: nat)
    requires |args| == |fields|
    ensures TestBit(FlagsWord(args, fields, number), bit) <==> BitSet(args, fields, number, bit)
  {
    if args == [] {
      TestZero(bit);
    } else {
      var n := |args| - 1;
      WordBits(args[..n], fields[..n], number, bit);
      if Uses(args[n], number) && SetsBit(args[n], fields[n]) {
        TestSetBit(FlagsWord(args[..n], fields[..n], number), args[n].bit, bit);
      }
      BitSetSnoc(args, fields, number, bit);
    }
  }

  lemma BitSetSnoc(args: seq<Arg>, fields: seq<Value>, number: nat, bit: nat)
    requires |args| == |fields| && args != []
    ensures var n := |args| - 1;
            BitSet(args, fields, number, bit) <==>
              BitSet(args[..n], fields[..n], number, bit)
              || (Uses(args[n], number) && args[n].bit == bit && SetsBit(args[n], fields[n]))
  {
    var n := |args| - 1;
    if BitSet(args[..n], fields[..n], number, bit) {
      var k :| 0 <= k < n && Uses(args[..n][k], number) && args[..n][k].bit == bit && SetsBit(args[..n][k], fields[..n][k]);
      assert Uses(args[k], number) && args[k].bit == bit && SetsBit(args[k], fields[k]);
    }
    if BitSet(args, fields, number, bit) {
      var k :| 0 <= k < |args| && Uses(args[k], number) && args[k].bit == bit && SetsBit(args[k], fields[k]);
      if k < n { assert Uses(args[..n][k], number) && args[..n][k].bit == bit && SetsBit(args[..n][k], fields[..n][k]); }
    }
  }

  lemma {:induction false} WordBound(args: seq<Arg>, fields: seq<Value>, number: nat)
    requires |args| == |fields| && BitsFit(args)
    ensures FlagsWord(args, fields, number) < Pow2(31)
  {
    if args == [] {
      Pow2Word();
    } else {
      var n := |args| - 1;
      WordBound(args[..n], fields[..n], number);
      if Uses(args[n], number) && SetsBit(args[n], fields[n]) {
        SetBitBound(FlagsWord(args[..n], fields[..n], number), args[n].bit, 31);
      }
    }
  }

  ghost predicate BitsFit(args: seq<Arg>) {
    forall k :: 0 <= k < |args| && (args[k].FlagTrue? || args[k].Flagged?) ==> args[k].bit <= 30
  }

  /** What the reader will find in the words agrees with what the writer wrote:
      a bit is set exactly when its field is written, or true. */
  ghost predicate Agrees(args: seq<Arg>, fields: seq<Value>)
    requires |args| == |fields|
  {
    forall k :: 0 <= k < |args| ==> AgreesAt(args, fields, k)
  }

  ghost predicate AgreesAt(args: seq<Arg>, fields: seq<Value>, k: nat)
    requires |args| == |fields| && k < |args|
  {
    args[k].FlagTrue? || args[k].Flagged? ==>
      (BitSet(args, fields, args[k].number, args[k].bit) <==> Marked(args[k], fields[k]))
  }

  predicate Marked(a: Arg, v: Value) {
    if a.FlagTrue? then v == Bool(true) else Writes(a, v)
  }

  /** Every flags word comes before the arguments that use it and no bit is above
      30. */
  ghost predicate WellFormed(args: seq<Arg>) {
    && BitsFit(args)
    && (forall k :: 0 <= k < |args| && (args[k].FlagTrue? || args[k].Flagged?) ==>
          exists j :: 0 <= j < k && args[j] == Word(args[k].number))
  }

  /** Flagged vectors are spelled with a capital. */
  ghost predicate Capitalised(args: seq<Arg>) {
    forall k :: 0 <= k < |args| && args[k].Flagged? && args[k].typ.Vector? ==> args[k].typ.capital
  }

  /** Fields on the same bit of the same word are present together. */
  ghost predicate PresentTogether(args: seq<Arg>, fields: seq<Value>)
    requires |args| == |fields|
  {
    forall j, k :: 0 <= j < |args| && 0 <= k < |args|
      && (args[j].FlagTrue? || args[j].Flagged?) && (args[k].FlagTrue? || args[k].Flagged?)
      && args[j].number == args[k].number && args[j].bit == args[k].bit
      ==> (SetsBit(args[j], fields[j]) <==> SetsBit(args[k], fields[k]))
  }

  /** With capitalised vectors, that is all it takes for reader and writer to
      agree. */
  lemma TogetherAgrees(args: seq<Arg>, fields: seq<Value>)
    requires |args| == |fields| && Capitalised(args)
    ensures Agrees(args, fields) <==> PresentTogether(args, fields)
  {
    forall k | 0 <= k < |args| && (args[k].FlagTrue? || args[k].Flagged?)
      ensures Marked(args[k], fields[k]) <==> SetsBit(args[k], fields[k])
    {}
    if Agrees(args, fields) {
      forall j, k | 0 <= j < |args| && 0 <= k < |args|
        && (args[j].FlagTrue? || args[j].Flagged?) && (args[k].FlagTrue? || args[k].Flagged?)
        && args[j].number == args[k].number && args[j].bit == args[k].bit
        ensures SetsBit(args[j], fields[j]) <==> SetsBit(args[k], fields[k])
      {
        assert AgreesAt(args, fields, j) && AgreesAt(args, fields, k);
        assert Uses(args[j], args[j].number) && Uses(args[k], args[k].number);
      }
    }
    if PresentTogether(args, fields) {
      forall k | 0 <= k < |args| ensures AgreesAt(args, fields, k) {
        assert args[k].FlagTrue? || args[k].Flagged? ==> Uses(args[k], args[k].number);
      }
    }
  }

  // ------------------------------------------------------------------ writing

  function WriteCore(v: Value, c: Core): Bytes
    requires TypedCore(v, c)
  {
    match c
    case TInt => WriteInt(v.i, 4)
    case TLong => WriteInt(v.i, 8)
    case TInt128 => WriteInt(v.i, 16)
    case TInt256 => WriteInt(v.i, 32)
    case TDouble => v.bytes
    case TBytes => WriteBytes(v.bytes)
    case TString => WriteBytes(v.bytes)
    case TBool => WriteBool(v.b)
  }

  /** A schema all of whose lines can be written and read back. */
  ghost predicate ValidSchema(s: Schema) {
    forall id :: id in s ==> id < 0x1_0000_0000 && id != VECTOR_ID && WellFormed(s[id])
  }

  ghost function WriteType(s: Schema, v: Value, t: Type): Bytes
    requires ValidSchema(s) && Typed(s, v, t)
    decreases v, 1
  {
    match t
    case Plain(c) => WriteCore(v, c)
    case Boxed => assert TypedObject(s, v); WriteObject(s, v)
    case Vector(_, e) => WriteId(VECTOR_ID) + WriteInt(|v.elems|, 4) + WriteElems(s, v, e, 0)
  }

  ghost function WriteElem(s: Schema, v: Value, e: Option<Core>): Bytes
    requires ValidSchema(s) && (if e.Some? then TypedCore(v, e.value) else TypedObject(s, v))
    decreases v, 1
  {
    if e.Some? then WriteCore(v, e.value) else WriteObject(s, v)
  }

  ghost function WriteElems(s: Schema, v: Value, e: Option<Core>, from: nat): Bytes
    requires ValidSchema(s) && v.List? && from <= |v.elems| && Typed(s, v, Vector(true, e))
    decreases v, 0, |v.elems| - from
  {
    if from == |v.elems| then [] else WriteElem(s, v.elems[from], e) + WriteElems(s, v, e, from + 1)
  }

  /** write(): the constructor id, then every argument in schema order. */
  ghost function WriteObject(s: Schema, v: Value): Bytes
    requires ValidSchema(s) && Shaped(s, v)
    decreases v, 0, |v.fields| + 1
  {
    WriteId(v.id) + WriteFields(s, v, 0)
  }

  ghost function WriteFields(s: Schema, v: Value, from: nat): Bytes
    requires ValidSchema(s) && Shaped(s, v) && from <= |v.fields|
    decreases v, 0, |v.fields| - from
  {
    if from == |v.fields| then [] else WriteField(s, v, from) + WriteFields(s, v, from + 1)
  }

  lemma WordFits(args: seq<Arg>, fields: seq<Value>, number: nat)
    requires |args| == |fields| && WellFormed(args)
    ensures Fits(FlagsWord(args, fields, number), 4)
  {
    WordBound(args, fields, number);
    Pow2Word();
    Four();
  }

  ghost function WriteField(s: Schema, v: Value, k: nat): Bytes
    requires ValidSchema(s) && Shaped(s, v) && k < |v.fields|
    decreases v, 0, 0
  {
    var args, f := s[v.id], v.fields[k];
    assert TypedField(s, f, args[k]);
    match args[k]
    case Word(n) => WordFits(args, v.fields, n); WriteInt(FlagsWord(args, v.fields, n), 4)
    case Always(t) => WriteType(s, f, t)
    case FlagTrue(_, _) => []
    case Flagged(_, _, t) => if Writes(args[k], f) then WriteType(s, f, t) else []
  }

  // ------------------------------------------------------------------ reading

  function ReadCore(b: Bytes, c: Core): (r: Option<(Value, Bytes)>)
    ensures r.Some? ==> |r.value.1| <= |b| && r.value.0 != Absent
  {
    match c
    case TInt => AsInt(ReadInt(b, 4))
    case TLong => AsInt(ReadInt(b, 8))
    case TInt128 => Some((Int(ReadWide(b, 16).0), ReadWide(b, 16).1))
    case TInt256 => Some((Int(ReadWide(b, 32).0), ReadWide(b, 32).1))
    case TDouble => if |b| < 8 then None else Some((Str(b[..8]), b[8..]))
    case TBytes => Some((Str(ReadBytes(b).0), ReadBytes(b).1))
    case TString => Some((Str(ReadBytes(b).0), ReadBytes(b).1))
    case TBool => Some((Bool(ReadBool(b).0), ReadBool(b).1))
  }

  function AsInt(r: Option<(int, Bytes)>): (v: Option<(Value, Bytes)>)
    ensures v.Some? ==> r.Some? && v.value.1 == r.value.1 && v.value.0 == Int(r.value.0)
  {
    match r
    case None => None
    case Some((i, rest)) => Some((Int(i), rest))
  }

  /** TLObject.read: the id decides; a vector id goes to Vector.read with the
      element type, if any was passed. */
  function ReadBoxed(s: Schema, b: Bytes, e: Option<Core>): (r: Option<(Value, Bytes)>)
    ensures r.Some? ==> |r.value.1| < |b| && r.value.0 != Absent
    decreases |b|, 0
  {
    match ReadId(b)
    case None => None
    case Some((id, rest)) =>
      if id == VECTOR_ID then ReadVector(s, rest, e)
      else if id !in s then None
      else
        match ReadArgs(s, rest, s[id], map[])
        case None => None
        case Some((fields, rest')) => Some((Object(id, fields), rest'))
  }

  /** Vector.read: without an element type, objects first; should that fail, by
      the size of what remains, ints or longs. */
  function ReadVector(s: Schema, b: Bytes, e: Option<Core>): (r: Option<(Value, Bytes)>)
    ensures r.Some? ==> |r.value.1| <= |b| && r.value.0 != Absent
    decreases |b|, 2
  {
    match ReadInt(b, 4)
    case None => None
    case Some((count, rest)) =>
      if count <= 0 then Some((List([]), rest))
      else if e.Some? then AsList(ReadCores(rest, e.value, count))
      else
        match ReadObjects(s, rest, count)
        case Some((elems, rest')) => Some((List(elems), rest'))
        case None =>
          if |rest| == 4 * count then AsList(ReadCores(rest, TInt, count))
          else if |rest| == 8 * count then AsList(ReadCores(rest, TLong, count))
          else None
  }

  function AsList(r: Option<(seq<Value>, Bytes)>): Option<(Value, Bytes)> {
    match r
    case None => None
    case Some((elems, rest)) => Some((List(elems), rest))
  }

  function ReadCores(b: Bytes, c: Core, count: nat): (r: Option<(seq<Value>, Bytes)>)
    ensures r.Some? ==> |r.value.1| <= |b|
    decreases count
  {
    if count == 0 then Some(([], b))
    else
      match ReadCore(b, c)
      case None => None
      case Some((v, rest)) =>
        match ReadCores(rest, c, count - 1)
        case None => None
        case Some((vs, rest')) => Some(([v] + vs, rest'))
  }

  function ReadObjects(s: Schema, b: Bytes, count: nat): (r: Option<(seq<Value>, Bytes)>)
    ensures r.Some? ==> |r.value.1| <= |b|
    decreases |b|, 1, count
  {
    if count == 0 then Some(([], b))
    else
      match ReadBoxed(s, b, None)
      case None => None
      case Some((v, rest)) =>
        match ReadObjects(s, rest, count - 1)
        case None => None
        case Some((vs, rest')) => Some(([v] + vs, rest'))
  }

  function ReadType(s: Schema, b: Bytes, t: Type): (r: Option<(Value, Bytes)>)
    ensures r.Some? ==> |r.value.1| <= |b|
    decreases |b|, 1, 0
  {
    match t
    case Plain(c) => ReadCore(b, c)
    case Boxed => ReadBoxed(s, b, None)
    case Vector(_, e) => ReadBoxed(s, b, e)
  }

  /** The value of a flagged argument that is not there. */
  function Missing(t: Type): Value { if t.Vector? then List([]) else Absent }

  /** The generated read: the arguments in schema order, with the words read so
      far; an argument of a word that was not read yet is an error. */
  function ReadArgs(s: Schema, b: Bytes, args: seq<Arg>, words: map<nat, nat>): (r: Option<(seq<Value>, Bytes)>)
    ensures r.Some? ==> |r.value.1| <= |b|
    decreases |b|, 3, |args|
  {
    if args == [] then Some(([], b))
    else
      match ReadArg(s, b, args[0], words)
      case None => None
      case Some((v, rest)) =>
        match ReadArgs(s, rest, args[1..], WordsAfter(b, args[0], words))
        case None => None
        case Some((vs, rest')) => Some(([v] + vs, rest'))
  }

  /** flagsN = Int.read(b), of which only the low 32 bits are looked at. */
  function WordsAfter(b: Bytes, a: Arg, words: map<nat, nat>): map<nat, nat> {
    if a.Word? && ReadInt(b, 4).Some? then words[a.number := LowWord(ReadInt(b, 4).value.0)] else words
  }

  function LowWord(i: int): nat { i % 0x1_0000_0000 }

  /** A negative word stands for its two's complement. */
  lemma LowWordIs(i: int)
    requires Fits(i, 4)
    ensures LowWord(i) == if i >= 0 then i else i + 4294967296
  {
    Four();
  }

  function ReadArg(s: Schema, b: Bytes, a: Arg, words: map<nat, nat>): (r: Option<(Value, Bytes)>)
    ensures r.Some? ==> |r.value.1| <= |b|
    decreases |b|, 2
  {
    match a
    case Word(_) =>
      (match ReadInt(b, 4)
       case None => None
       case Some((_, rest)) => Some((Absent, rest)))
    case Always(t) => ReadType(s, b, t)
    case FlagTrue(n, i) => if n in words then Some((Bool(TestBit(words[n], i)), b)) else None
    case Flagged(n, i, t) =>
      if n !in words then None
      else if TestBit(words[n], i) then ReadType(s, b, t)
      else Some((Missing(t), b))
  }

  // --------------------------------------------------------------- round trip

  /** What comes back: an absent `true` as false, an absent vector as empty. */
  ghost function Back(s: Schema, v: Value, t: Type): Value
    requires Typed(s, v, t)
    decreases v, 2
  {
    match t
    case Plain(_) => v
    case Boxed => assert TypedObject(s, v); BackObject(s, v)
    case Vector(_, Some(_)) => v
    case Vector(_, None) =>
      List(seq(|v.elems|, k requires 0 <= k < |v.elems| && TypedObject(s, v.elems[k]) => BackObject(s, v.elems[k])))
  }

  ghost function BackObject(s: Schema, v: Value): Value
    requires Shaped(s, v)
    decreases v, 1
  {
    Object(v.id, seq(|v.fields|, k requires 0 <= k < |v.fields| => BackField(s, v, k)))
  }

  ghost function BackField(s: Schema, v: Value, k: nat): Value
    requires Shaped(s, v) && k < |v.fields|
    decreases v, 0
  {
    var f := v.fields[k];
    assert TypedField(s, f, s[v.id][k]);
    match s[v.id][k]
    case Word(_) => Absent
    case Always(t) => Back(s, f, t)
    case FlagTrue(_, _) => f
    case Flagged(_, _, t) => if Writes(s[v.id][k], f) then Back(s, f, t) else Missing(t)
  }

  lemma ReadsCore(v: Value, c: Core, rest: Bytes)
    requires TypedCore(v, c)
    ensures ReadCore(WriteCore(v, c) + rest, c) == Some((v, rest))
  {
    match c {
      case TInt => IntRoundTrip(v.i, 4, rest);
      case TLong => IntRoundTrip(v.i, 8, rest);
      case TInt128 => WideRoundTrip(v.i, 16, rest);
      case TInt256 => WideRoundTrip(v.i, 32, rest);
      case TDouble =>
        assert (v.bytes + rest)[..8] == v.bytes && (v.bytes + rest)[8..] == rest;
      case TBytes => BytesRoundTrip(v.bytes, rest);
      case TString => BytesRoundTrip(v.bytes, rest);
      case TBool => BoolRoundTrip(v.b, rest);
    }
  }

  lemma {:induction false} ReadsType(s: Schema, v: Value, t: Type, rest: Bytes)
    requires ValidSchema(s) && Typed(s, v, t)
    ensures ReadType(s, WriteType(s, v, t) + rest, t) == Some((Back(s, v, t), rest))
    decreases v, 3
  {
    match t {
      case Plain(c) => ReadsCore(v, c, rest);
      case Boxed => ReadsObject(s, v, None, rest);
      case Vector(_, e) => ReadsVector(s, v, t, rest);
    }
  }

  lemma ReadBoxedVector(s: Schema, b: Bytes, e: Option<Core>)
    ensures ReadBoxed(s, WriteId(VECTOR_ID) + b, e) == ReadVector(s, b, e)
  {
    IdRoundTrip(VECTOR_ID, b);
  }

  lemma {:induction false} ReadsVector(s: Schema, v: Value, t: Type, rest: Bytes)
    requires ValidSchema(s) && t.Vector? && Typed(s, v, t)
    ensures ReadType(s, WriteType(s, v, t) + rest, t) == Some((Back(s, v, t), rest))
    decreases v, 2
  {
    hide ReadBoxed, WriteId, WriteInt, ReadInt, ReadVector, WriteElems;
    var elems, n := WriteElems(s, v, t.elem, 0), |v.elems|;
    var b := WriteInt(n, 4) + (elems + rest);
    assert WriteType(s, v, t) + rest == WriteId(VECTOR_ID) + b;
    ReadBoxedVector(s, b, t.elem);
    if t.elem.Some? { VectorOfCores(s, v, t.elem.value, rest); } else { VectorOfObjects(s, v, rest); }
  }

  lemma {:induction false} VectorOfCores(s: Schema, v: Value, c: Core, rest: Bytes)
    requires ValidSchema(s) && Typed(s, v, Vector(true, Some(c)))
    ensures ReadVector(s, WriteInt(|v.elems|, 4) + (WriteElems(s, v, Some(c), 0) + rest), Some(c)) == Some((v, rest))
  {
    hide WriteInt, ReadInt, ReadCores;
    IntRoundTrip(|v.elems|, 4, WriteElems(s, v, Some(c), 0) + rest);
    if v.elems == [] {
      assert [] + rest == rest;
    } else {
      ReadsCores(s, v, c, 0, rest);
      assert v.elems[0..] == v.elems;
    }
  }

  lemma {:induction false} VectorOfObjects(s: Schema, v: Value, rest: Bytes)
    requires ValidSchema(s) && Typed(s, v, Vector(true, None))
    ensures ReadVector(s, WriteInt(|v.elems|, 4) + (WriteElems(s, v, None, 0) + rest), None)
         == Some((Back(s, v, Vector(true, None)), rest))
    decreases v, 1, |v.elems| + 1
  {
    hide WriteInt, ReadInt, ReadObjects;
    var back := Back(s, v, Vector(true, None)).elems;
    IntRoundTrip(|v.elems|, 4, WriteElems(s, v, None, 0) + rest);
    if v.elems == [] {
      assert [] + rest == rest && back == [];
    } else {
      ReadsObjects(s, v, 0, rest);
      assert back[0..] == back;
    }
  }

  lemma {:induction false} ReadsCores(s: Schema, v: Value, c: Core, from: nat, rest: Bytes)
    requires ValidSchema(s) && Typed(s, v, Vector(true, Some(c))) && from <= |v.elems|
    ensures ReadCores(WriteElems(s, v, Some(c), from) + rest, c, |v.elems| - from) == Some((v.elems[from..], rest))
    decreases |v.elems| - from
  {
    hide ReadCore, ReadCores, WriteCore, WriteElems;
    assert v.List? && (from < |v.elems| ==> TypedCore(v.elems[from], c));
    hide Typed, TypedCore;
    CoresWritten(s, v, c, from);
    if from < |v.elems| {
      var x, others := v.elems[from], WriteElems(s, v, Some(c), from + 1);
      Behind(WriteCore(x, c), others, rest);
      ReadsCore(x, c, others + rest);
      ReadsCores(s, v, c, from + 1, rest);
      CoresStep(WriteElems(s, v, Some(c), from) + rest, c, x, others + rest, |v.elems| - from - 1, v.elems[from + 1..], rest);
      FirstOf(v.elems, from);
    } else {
      CoresNone(rest, c);
      assert [] + rest == rest && v.elems[from..] == [];
    }
  }

  lemma Behind(a: Bytes, b: Bytes, c: Bytes)
    ensures a + b + c == a + (b + c)
  {}

  lemma FirstOf(vs: seq<Value>, from: nat)
    requires from < |vs|
    ensures [vs[from]] + vs[from + 1..] == vs[from..]
  {}

  lemma CoresStep(b: Bytes, c: Core, x: Value, b': Bytes, count: nat, xs: seq<Value>, rest: Bytes)
    requires ReadCore(b, c) == Some((x, b')) && ReadCores(b', c, count) == Some((xs, rest))
    ensures ReadCores(b, c, count + 1) == Some(([x] + xs, rest))
  {
    hide ReadCore;
  }

  lemma CoresNone(b: Bytes, c: Core)
    ensures ReadCores(b, c, 0) == Some(([], b))
  {}

  lemma CoresWritten(s: Schema, v: Value, c: Core, from: nat)
    requires ValidSchema(s) && Typed(s, v, Vector(true, Some(c))) && from <= |v.elems|
    ensures WriteElems(s, v, Some(c), from)
         == if from == |v.elems| then [] else WriteCore(v.elems[from], c) + WriteElems(s, v, Some(c), from + 1)
  {
    hide WriteCore;
  }

  lemma {:induction false} ReadsObjects(s: Schema, v: Value, from: nat, rest: Bytes)
    requires ValidSchema(s) && Typed(s, v, Vector(true, None)) && from <= |v.elems|
    ensures ReadObjects(s, WriteElems(s, v, None, from) + rest, |v.elems| - from)
         == Some((Back(s, v, Vector(true, None)).elems[from..], rest))
    decreases v, 1, |v.elems| - from
  {
    hide ReadBoxed, WriteObject, BackObject;
    var back := Back(s, v, Vector(true, None)).elems;
    if from < |v.elems| {
      var tail := WriteElems(s, v, None, from + 1) + rest;
      assert WriteElems(s, v, None, from) + rest == WriteObject(s, v.elems[from]) + tail;
      ReadsObject(s, v.elems[from], None, tail);
      ReadsObjects(s, v, from + 1, rest);
      assert [back[from]] + back[from + 1..] == back[from..];
    } else {
      assert [] + rest == rest && back[from..] == [];
    }
  }

  /** A bare vector of numbers, read without its type because nothing says it: what is
      no row of objects and fills the rest of the data by four bytes a number reads as
      ints, by eight as longs. */
  lemma {:induction false} BareVector(s: Schema, v: Value, c: Core)
    requires ValidSchema(s) && (c == TInt || c == TLong) && Typed(s, v, Vector(true, Some(c))) && v.elems != []
    requires ReadObjects(s, WriteElems(s, v, Some(c), 0), |v.elems|).None?
    ensures ReadBoxed(s, WriteType(s, v, Vector(true, Some(c))), None) == Some((v, []))
  {
    hide ReadBoxed, WriteId, WriteInt, ReadInt, ReadObjects, ReadCores, WriteElems;
    var elems, n := WriteElems(s, v, Some(c), 0), |v.elems|;
    assert WriteType(s, v, Vector(true, Some(c))) == WriteId(VECTOR_ID) + (WriteInt(n, 4) + elems);
    ReadBoxedVector(s, WriteInt(n, 4) + elems, None);
    IntRoundTrip(n, 4, elems);
    NumbersLength(s, v, c, 0);
    ReadsCores(s, v, c, 0, []);
    assert elems + [] == elems && v.elems[0..] == v.elems;
  }

  lemma {:induction false} NumbersLength(s: Schema, v: Value, c: Core, from: nat)
    requires ValidSchema(s) && (c == TInt || c == TLong) && Typed(s, v, Vector(true, Some(c))) && from <= |v.elems|
    ensures |WriteElems(s, v, Some(c), from)| == (|v.elems| - from) * if c == TInt then 4 else 8
    decreases |v.elems| - from
  {
    if from < |v.elems| {
      NumbersLength(s, v, c, from + 1);
      assert |WriteCore(v.elems[from], c)| == if c == TInt then 4 else 8;
    }
  }

  /** The words read so far are those the writer wrote. */
  ghost predicate WordsRead(s: Schema, v: Value, upTo: nat, words: map<nat, nat>)
    requires Shaped(s, v) && upTo <= |v.fields|
  {
    forall j :: 0 <= j < upTo && s[v.id][j].Word? ==>
      s[v.id][j].number in words && words[s[v.id][j].number] == FlagsWord(s[v.id], v.fields, s[v.id][j].number)
  }

  lemma {:induction false} ReadsObject(s: Schema, v: Value, e: Option<Core>, rest: Bytes)
    requires ValidSchema(s) && TypedObject(s, v)
    ensures ReadBoxed(s, WriteObject(s, v) + rest, e) == Some((BackObject(s, v), rest))
    decreases v, 1, |v.fields| + 2
  {
    hide WriteFields, ReadArgs;
    var body := WriteFields(s, v, 0) + rest;
    assert WriteObject(s, v) + rest == WriteId(v.id) + body;
    IdRoundTrip(v.id, body);
    ReadsFields(s, v, 0, map[], rest);
    assert s[v.id][0..] == s[v.id];
    assert BackObject(s, v).fields[0..] == BackObject(s, v).fields;
  }

  lemma {:induction false} ReadsFields(s: Schema, v: Value, from: nat, words: map<nat, nat>, rest: Bytes)
    requires ValidSchema(s) && TypedObject(s, v) && from <= |v.fields| && WordsRead(s, v, from, words)
    ensures ReadArgs(s, WriteFields(s, v, from) + rest, s[v.id][from..], words)
         == Some((BackObject(s, v).fields[from..], rest))
    decreases v, 1, |v.fields| - from
  {
    hide ReadArg, WriteField, BackField, WordsAfter, WordsRead;
    if from < |v.fields| {
      var args, back := s[v.id], BackObject(s, v).fields;
      var tail := WriteFields(s, v, from + 1) + rest;
      var b := WriteField(s, v, from) + tail;
      assert WriteFields(s, v, from) + rest == b;
      ReadsField(s, v, from, words, tail);
      NextWords(s, v, from, words, tail);
      ReadsFields(s, v, from + 1, WordsAfter(b, args[from], words), rest);
      assert args[from..][1..] == args[from + 1..] && args[from..][0] == args[from];
      assert [back[from]] + back[from + 1..] == back[from..];
    } else {
      assert [] + rest == rest && BackObject(s, v).fields[from..] == [] && s[v.id][from..] == [];
    }
  }

  lemma NextWords(s: Schema, v: Value, k: nat, words: map<nat, nat>, tail: Bytes)
    requires ValidSchema(s) && Shaped(s, v) && k < |v.fields| && WordsRead(s, v, k, words)
    ensures WordsRead(s, v, k + 1, WordsAfter(WriteField(s, v, k) + tail, s[v.id][k], words))
  {
    hide FlagsWord, WriteInt, ReadInt;
    var args := s[v.id];
    if args[k].Word? {
      WordFits(args, v.fields, args[k].number);
      IntRoundTrip(FlagsWord(args, v.fields, args[k].number), 4, tail);
    }
  }

  lemma {:induction false} ReadsField(s: Schema, v: Value, k: nat, words: map<nat, nat>, tail: Bytes)
    requires ValidSchema(s) && Shaped(s, v) && k < |v.fields| && WordsRead(s, v, k, words)
    requires AgreesAt(s[v.id], v.fields, k)
    ensures ReadArg(s, WriteField(s, v, k) + tail, s[v.id][k], words) == Some((BackField(s, v, k), tail))
    decreases v, 0, 0
  {
    hide FlagsWord, ReadType, WriteType, Back, ReadInt, WriteInt;
    var args, f := s[v.id], v.fields[k];
    assert TypedField(s, f, args[k]);
    match args[k] {
      case Word(n) =>
        WordFits(args, v.fields, n);
        IntRoundTrip(FlagsWord(args, v.fields, n), 4, tail);
      case Always(t) =>
        ReadsType(s, f, t, tail);
      case FlagTrue(n, i) =>
        WordKnown(s, v, k, words);
        WordBits(args, v.fields, n, i);
        assert [] + tail == tail;
      case Flagged(n, i, t) =>
        WordKnown(s, v, k, words);
        WordBits(args, v.fields, n, i);
        if Writes(args[k], f) { ReadsType(s, f, t, tail); } else { assert [] + tail == tail; }
    }
  }

  lemma WordKnown(s: Schema, v: Value, k: nat, words: map<nat, nat>)
    requires ValidSchema(s) && Shaped(s, v) && k < |v.fields| && WordsRead(s, v, k, words)
    requires s[v.id][k].FlagTrue? || s[v.id][k].Flagged?
    ensures s[v.id][k].number in words && words[s[v.id][k].number] == FlagsWord(s[v.id], v.fields, s[v.id][k].number)
  {
    var args := s[v.id];
    assert WellFormed(args);
    var j :| 0 <= j < k && args[j] == Word(args[k].number);
  }

  /** The generated reader undoes the generated writer: for every schema whose
      lines are well formed and every object typed by it, reading what was written
      gives the object back, absent `true` as false and absent vectors as empty,
      and leaves whatever follows untouched. */
  lemma ReadWrite(s: Schema, v: Value, rest: Bytes)
    requires ValidSchema(s) && TypedObject(s, v)
    ensures ReadBoxed(s, WriteObject(s, v) + rest, None) == Some((BackObject(s, v), rest))
  {
    ReadsObject(s, v, None, rest);
  }

  // ------------------------------------------------- how many bytes a reading takes

  /** Reading gives a vector for the vector id, an object for every other. */
  lemma BoxedKind(s: Schema, b: Bytes, e: Option<Core>)
    ensures var r := ReadBoxed(s, b, e);
            r.Some? ==> ReadId(b).Some? && if ReadId(b).value.0 == VECTOR_ID then r.value.0.List? else r.value.0.Object?
  {
    hide ReadId, ReadArgs, ReadObjects, ReadCores, ReadInt;
  }

  lemma CoreTakes(v: Value, c: Core, b: Bytes, rest: Bytes)
    requires TypedCore(v, c) && ReadCore(b, c) == Some((v, rest)) && rest != []
    ensures |rest| + |WriteCore(v, c)| <= |b|
  {
    match c {
      case TInt =>
      case TLong =>
      case TInt128 =>
      case TInt256 =>
      case TDouble =>
      case TBytes => BytesTake(v.bytes, b, rest);
      case TString => BytesTake(v.bytes, b, rest);
      case TBool =>
    }
  }

  lemma BytesTake(v: Bytes, b: Bytes, rest: Bytes)
    requires |v| < MAX_BYTES && ReadBytes(b) == (v, rest) && rest != []
    ensures |rest| + |WriteBytes(v)| <= |b|
  {}

  /** With bytes left over behind it, whatever reads as a value's image is at least
      as long as what the value is written as. */
  lemma {:induction false} TypeTakes(s: Schema, v: Value, t: Type, b: Bytes, rest: Bytes)
    requires ValidSchema(s) && Typed(s, v, t) && ReadType(s, b, t) == Some((Back(s, v, t), rest)) && rest != []
    ensures |rest| + |WriteType(s, v, t)| <= |b|
    decreases v, 3
  {
    hide ReadCore, ReadBoxed, WriteCore, WriteObject, BackObject;
    match t {
      case Plain(c) => CoreTakes(v, c, b, rest);
      case Boxed => ObjectTakes(s, v, b, rest);
      case Vector(_, e) => VectorTakes(s, v, t, b, rest);
    }
  }

  lemma {:induction false} VectorTakes(s: Schema, v: Value, t: Type, b: Bytes, rest: Bytes)
    requires ValidSchema(s) && t.Vector? && Typed(s, v, t)
    requires ReadBoxed(s, b, t.elem) == Some((Back(s, v, t), rest)) && rest != []
    ensures |rest| + |WriteType(s, v, t)| <= |b|
    decreases v, 2
  {
    hide ReadId, ReadVector, ReadArgs, WriteElems, WriteInt, WriteId;
    BoxedKind(s, b, t.elem);
    CountedTakes(s, v, t.elem, ReadId(b).value.1, rest);
  }

  lemma {:induction false} CountedTakes(s: Schema, v: Value, e: Option<Core>, b: Bytes, rest: Bytes)
    requires ValidSchema(s) && Typed(s, v, Vector(true, e))
    requires ReadVector(s, b, e) == Some((Back(s, v, Vector(true, e)), rest)) && rest != []
    ensures |rest| + 4 + |WriteElems(s, v, e, 0)| <= |b|
    decreases v, 1, |v.elems| + 1
  {
    hide ReadInt, ReadObjects, ReadCores, WriteElem, BackObject;
    var back := Back(s, v, Vector(true, e)).elems;
    var inside := ReadInt(b, 4).value.1;
    if v.elems != [] {
      assert back[0..] == back && v.elems[0..] == v.elems;
      match e {
        case Some(c) =>
          CoresLength(inside, c, ReadInt(b, 4).value.0);
          CoresTake(s, v, c, 0, inside, rest);
        case None =>
          ObjectsOnly(s, v, inside, ReadInt(b, 4).value.0, rest);
          ObjectsTake(s, v, 0, inside, rest);
      }
    }
  }

  lemma {:induction false} CoresLength(b: Bytes, c: Core, count: nat)
    ensures ReadCores(b, c, count).Some? ==> |ReadCores(b, c, count).value.0| == count
    decreases count
  {
    hide ReadCore;
    if count > 0 && ReadCore(b, c).Some? { CoresLength(ReadCore(b, c).value.1, c, count - 1); }
  }

  lemma {:induction false} ObjectsLength(s: Schema, b: Bytes, count: nat)
    ensures ReadObjects(s, b, count).Some? ==> |ReadObjects(s, b, count).value.0| == count
    decreases count
  {
    hide ReadBoxed;
    if count > 0 && ReadBoxed(s, b, None).Some? { ObjectsLength(s, ReadBoxed(s, b, None).value.1, count - 1); }
  }

  /** The reading of a bare vector of numbers gives no objects. */
  lemma {:induction false} ObjectsOnly(s: Schema, v: Value, inside: Bytes, count: nat, rest: Bytes)
    requires Typed(s, v, Vector(true, None)) && v.elems != [] && count > 0
    requires var back := Back(s, v, Vector(true, None)).elems;
             ReadObjects(s, inside, count) == Some((back, rest))
             || (ReadObjects(s, inside, count).None?
                 && (ReadCores(inside, TInt, count) == Some((back, rest)) || ReadCores(inside, TLong, count) == Some((back, rest))))
    ensures count == |v.elems|
    ensures ReadObjects(s, inside, count) == Some((Back(s, v, Vector(true, None)).elems, rest))
  {
    hide ReadBoxed;
    ObjectsLength(s, inside, count);
    assert Back(s, v, Vector(true, None)).elems[0].Object?;
  }

  lemma {:induction false} CoresTake(s: Schema, v: Value, c: Core, from: nat, b: Bytes, rest: Bytes)
    requires ValidSchema(s) && Typed(s, v, Vector(true, Some(c))) && from <= |v.elems| && rest != []
    requires ReadCores(b, c, |v.elems| - from) == Some((v.elems[from..], rest))
    ensures |rest| + |WriteElems(s, v, Some(c), from)| <= |b|
    decreases |v.elems| - from
  {
    hide ReadCore, WriteCore;
    if from < |v.elems| {
      var (x, b') := ReadCore(b, c).value;
      var (xs, _) := ReadCores(b', c, |v.elems| - from - 1).value;
      assert [x] + xs == v.elems[from..];
      assert x == v.elems[from] && xs == ([x] + xs)[1..] == v.elems[from + 1..];
      CoreTakes(x, c, b, b');
      CoresTake(s, v, c, from + 1, b', rest);
    }
  }

  lemma {:induction false} ObjectsTake(s: Schema, v: Value, from: nat, b: Bytes, rest: Bytes)
    requires ValidSchema(s) && Typed(s, v, Vector(true, None)) && from <= |v.elems| && rest != []
    requires ReadObjects(s, b, |v.elems| - from) == Some((Back(s, v, Vector(true, None)).elems[from..], rest))
    ensures |rest| + |WriteElems(s, v, None, from)| <= |b|
    decreases v, 1, |v.elems| - from
  {
    hide ReadBoxed, WriteObject, BackObject;
    var back := Back(s, v, Vector(true, None)).elems;
    if from < |v.elems| {
      var (x, b') := ReadBoxed(s, b, None).value;
      var (xs, _) := ReadObjects(s, b', |v.elems| - from - 1).value;
      assert [x] + xs == back[from..];
      assert x == back[from] && xs == ([x] + xs)[1..] == back[from + 1..];
      ObjectTakes(s, v.elems[from], b, b');
      ObjectsTake(s, v, from + 1, b', rest);
    }
  }

  lemma {:induction false} ObjectTakes(s: Schema, v: Value, b: Bytes, rest: Bytes)
    requires ValidSchema(s) && Shaped(s, v) && ReadBoxed(s, b, None) == Some((BackObject(s, v), rest)) && rest != []
    ensures |rest| + |WriteObject(s, v)| <= |b|
    decreases v, 1, |v.fields| + 2
  {
    hide ReadId, ReadArgs, ReadVector, WriteFields, WriteId;
    BoxedKind(s, b, None);
    assert s[v.id][0..] == s[v.id] && BackObject(s, v).fields[0..] == BackObject(s, v).fields;
    FieldsTake(s, v, 0, map[], ReadId(b).value.1, rest);
  }

  lemma {:induction false} FieldsTake(s: Schema, v: Value, from: nat, words: map<nat, nat>, b: Bytes, rest: Bytes)
    requires ValidSchema(s) && Shaped(s, v) && from <= |v.fields| && rest != []
    requires ReadArgs(s, b, s[v.id][from..], words) == Some((BackObject(s, v).fields[from..], rest))
    ensures |rest| + |WriteFields(s, v, from)| <= |b|
    decreases v, 1, |v.fields| - from
  {
    hide ReadArg, WriteField, BackField, WordsAfter;
    var args, back := s[v.id], BackObject(s, v).fields;
    if from < |v.fields| {
      assert args[from..][1..] == args[from + 1..] && args[from..][0] == args[from];
      var (x, b') := ReadArg(s, b, args[from], words).value;
      var (xs, _) := ReadArgs(s, b', args[from + 1..], WordsAfter(b, args[from], words)).value;
      assert [x] + xs == back[from..];
      assert x == back[from] && xs == ([x] + xs)[1..] == back[from + 1..];
      FieldTakes(s, v, from, words, b, b');
      FieldsTake(s, v, from + 1, WordsAfter(b, args[from], words), b', rest);
    }
  }

  lemma {:induction false} FieldTakes(s: Schema, v: Value, k: nat, words: map<nat, nat>, b: Bytes, rest: Bytes)
    requires ValidSchema(s) && Shaped(s, v) && k < |v.fields| && rest != []
    requires ReadArg(s, b, s[v.id][k], words) == Some((BackField(s, v, k), rest))
    ensures |rest| + |WriteField(s, v, k)| <= |b|
    decreases v, 0, 0
  {
    hide FlagsWord, ReadType, WriteType, Back, ReadInt, WriteInt, TestBit;
    var f := v.fields[k];
    assert TypedField(s, f, s[v.id][k]);
    match s[v.id][k] {
      case Word(_) =>
      case Always(t) => TypeTakes(s, f, t, b, rest);
      case FlagTrue(_, _) =>
      case Flagged(_, _, t) =>
        if Writes(s[v.id][k], f) {
          WrittenShows(s, f, t);
          TypeTakes(s, f, t, b, rest);
        }
    }
  }

  /** The image of what is written is not what an absent field reads as. */
  lemma WrittenShows(s: Schema, v: Value, t: Type)
    requires Typed(s, v, t) && (t.Vector? ==> v.elems != [])
    ensures Back(s, v, t) != Missing(t)
  {}

  // --------------------------------------------------- when it does not come back

  /** Nothing that is read is Absent. */
  lemma ReadIsSomething(s: Schema, b: Bytes, t: Type)
    ensures ReadType(s, b, t).Some? ==> ReadType(s, b, t).value.0 != Absent
  {}

  /** An empty vector is read from its id and a count. */
  lemma EmptyVectorRead(s: Schema, b: Bytes, e: Option<Core>)
    requires ReadBoxed(s, b, e).Some? && ReadBoxed(s, b, e).value.0 == List([])
    ensures BeginsVector(b) && |ReadBoxed(s, b, e).value.1| + 8 == |b|
  {
    hide ReadId, ReadArgs;
    BoxedKind(s, b, e);
    var inside := ReadId(b).value.1;
    var r := ReadInt(inside, 4).value;
    if r.0 > 0 {
      ElemsRead(s, r.1, e, r.0);
      assert false;
    }
  }

  lemma ElemsRead(s: Schema, b: Bytes, e: Option<Core>, count: nat)
    requires count > 0
    ensures ReadObjects(s, b, count).Some? ==> ReadObjects(s, b, count).value.0 != []
    ensures ReadCores(b, TInt, count).Some? ==> ReadCores(b, TInt, count).value.0 != []
    ensures ReadCores(b, TLong, count).Some? ==> ReadCores(b, TLong, count).value.0 != []
    ensures e.Some? && ReadCores(b, e.value, count).Some? ==> ReadCores(b, e.value, count).value.0 != []
  {
    hide ReadBoxed, ReadCore;
  }

  /** The bytes begin with the id of a vector. */
  predicate BeginsVector(b: Bytes) {
    ReadId(b).Some? && ReadId(b).value.0 == VECTOR_ID
  }

  /** A field whose bit another field has set, though it was not written itself,
      is read from the bytes that follow: it comes back as it was only if it is a
      vector and an empty vector follows, which is then lost. */
  lemma ReadsFieldWrongly(s: Schema, v: Value, k: nat, words: map<nat, nat>, tail: Bytes)
    requires ValidSchema(s) && Shaped(s, v) && k < |v.fields| && WordsRead(s, v, k, words)
    requires !AgreesAt(s[v.id], v.fields, k)
    ensures var r := ReadArg(s, WriteField(s, v, k) + tail, s[v.id][k], words);
            r.Some? && r.value.0 == BackField(s, v, k) ==>
              FlaggedVector(s[v.id][k]) && BeginsVector(tail) && |r.value.1| + 8 == |tail|
  {
    hide FlagsWord, ReadType, WriteType, Back, ReadInt, WriteInt, BeginsVector, AgreesAt;
    DisagreementRead(s, v, k, words, tail);
    var a := s[v.id][k];
    var r := ReadArg(s, tail, a, words);
    if a.Flagged? && r.Some? && r.value.0 == BackField(s, v, k) {
      ReadIsSomething(s, tail, a.typ);
      VectorReadBack(s, tail, a.typ);
    }
  }

  lemma VectorReadBack(s: Schema, b: Bytes, t: Type)
    requires ReadType(s, b, t).Some? && ReadType(s, b, t).value.0 == Missing(t)
    ensures t.Vector? && BeginsVector(b) && |ReadType(s, b, t).value.1| + 8 == |b|
  {
    hide ReadBoxed, ReadCore, BeginsVector;
    ReadIsSomething(s, b, t);
    EmptyVectorRead(s, b, t.elem);
  }

  /** Such a field writes nothing and its bit is set. */
  lemma DisagreementRead(s: Schema, v: Value, k: nat, words: map<nat, nat>, tail: Bytes)
    requires ValidSchema(s) && Shaped(s, v) && k < |v.fields| && WordsRead(s, v, k, words)
    requires !AgreesAt(s[v.id], v.fields, k)
    ensures WriteField(s, v, k) + tail == tail && !Marked(s[v.id][k], v.fields[k])
    ensures s[v.id][k].FlagTrue? || s[v.id][k].Flagged?
    ensures s[v.id][k].number in words && TestBit(words[s[v.id][k].number], s[v.id][k].bit)
  {
    hide FlagsWord, WriteType, WriteInt;
    var args, f := s[v.id], v.fields[k];
    WordKnown(s, v, k, words);
    WordBits(args, v.fields, args[k].number, args[k].bit);
    if Marked(args[k], f) { MarkedSets(args, v.fields, k); assert false; }
    assert [] + tail == tail;
  }

  lemma MarkedSets(args: seq<Arg>, fields: seq<Value>, k: nat)
    requires |args| == |fields| && k < |args| && (args[k].FlagTrue? || args[k].Flagged?) && Marked(args[k], fields[k])
    ensures BitSet(args, fields, args[k].number, args[k].bit)
  {
    assert Uses(args[k], args[k].number) && SetsBit(args[k], fields[k]);
  }

  predicate FlaggedVector(a: Arg) { a.Flagged? && a.typ.Vector? }

  /** The bytes behind a flagged vector that is announced but not written begin
      like a vector. */
  ghost predicate MistakenAt(s: Schema, v: Value, k: nat)
    requires ValidSchema(s) && Shaped(s, v) && k < |v.fields|
  {
    FlaggedVector(s[v.id][k]) && !AgreesAt(s[v.id], v.fields, k) && BeginsVector(WriteFields(s, v, k + 1))
  }

  ghost predicate Mistaken(s: Schema, v: Value)
    requires ValidSchema(s) && Shaped(s, v)
  {
    exists k :: 0 <= k < |v.fields| && MistakenAt(s, v, k)
  }

  lemma {:induction false} FieldReadsWrongly(s: Schema, v: Value, k: nat, words: map<nat, nat>, rest: Bytes)
    requires ValidSchema(s) && Shaped(s, v) && k < |v.fields| && WordsRead(s, v, k, words)
    requires !AgreesAt(s[v.id], v.fields, k) && (rest != [] || !MistakenAt(s, v, k))
    ensures ReadArgs(s, WriteFields(s, v, k) + rest, s[v.id][k..], words) != Some((BackObject(s, v).fields[k..], rest))
  {
    hide ReadArg, WriteField, BackField, WordsAfter, WordsRead, AgreesAt, BeginsVector;
    var args, back := s[v.id], BackObject(s, v).fields;
    var tail := WriteFields(s, v, k + 1) + rest;
    var b := WriteField(s, v, k) + tail;
    assert WriteFields(s, v, k) + rest == b && (rest == [] ==> tail == WriteFields(s, v, k + 1));
    assert args[k..][1..] == args[k + 1..] && args[k..][0] == args[k];
    var r := ReadArgs(s, b, args[k..], words);
    if r == Some((back[k..], rest)) {
      var (x, b') := ReadArg(s, b, args[k], words).value;
      var (xs, _) := ReadArgs(s, b', args[k + 1..], WordsAfter(b, args[k], words)).value;
      assert [x] + xs == back[k..];
      assert x == back[k] && xs == ([x] + xs)[1..] == back[k + 1..];
      ReadsFieldWrongly(s, v, k, words, tail);
      if rest != [] { FieldsTake(s, v, k + 1, WordsAfter(b, args[k], words), b', rest); }
      assert false;
    }
  }

  lemma {:induction false} FieldsReadWrongly(s: Schema, v: Value, from: nat, k: nat, words: map<nat, nat>, rest: Bytes)
    requires ValidSchema(s) && Shaped(s, v) && from <= k < |v.fields| && WordsRead(s, v, from, words)
    requires forall j :: from <= j < k ==> AgreesAt(s[v.id], v.fields, j)
    requires !AgreesAt(s[v.id], v.fields, k) && (rest != [] || !MistakenAt(s, v, k))
    ensures ReadArgs(s, WriteFields(s, v, from) + rest, s[v.id][from..], words) != Some((BackObject(s, v).fields[from..], rest))
    decreases k - from
  {
    hide ReadArg, WriteField, BackField, WordsAfter, WordsRead, AgreesAt, MistakenAt;
    if from == k {
      FieldReadsWrongly(s, v, k, words, rest);
    } else {
      var args, back := s[v.id], BackObject(s, v).fields;
      var tail := WriteFields(s, v, from + 1) + rest;
      var b := WriteField(s, v, from) + tail;
      assert WriteFields(s, v, from) + rest == b;
      assert args[from..][1..] == args[from + 1..] && args[from..][0] == args[from];
      assert back[from..][0] == back[from] && back[from..][1..] == back[from + 1..];
      ReadsField(s, v, from, words, tail);
      NextWords(s, v, from, words, tail);
      FieldsReadWrongly(s, v, from + 1, k, WordsAfter(b, args[from], words), rest);
    }
  }

  lemma ObjectReadsWrongly(s: Schema, v: Value, k: nat, rest: Bytes)
    requires ValidSchema(s) && Shaped(s, v) && k < |v.fields|
    requires forall j :: 0 <= j < k ==> AgreesAt(s[v.id], v.fields, j)
    requires !AgreesAt(s[v.id], v.fields, k) && (rest != [] || !MistakenAt(s, v, k))
    ensures ReadBoxed(s, WriteObject(s, v) + rest, None) != Some((BackObject(s, v), rest))
  {
    hide WriteFields, ReadArgs, AgreesAt, MistakenAt;
    var body := WriteFields(s, v, 0) + rest;
    assert WriteObject(s, v) + rest == WriteId(v.id) + body;
    IdRoundTrip(v.id, body);
    FieldsReadWrongly(s, v, 0, k, map[], rest);
    assert s[v.id][0..] == s[v.id];
    assert BackObject(s, v).fields[0..] == BackObject(s, v).fields;
  }

  /** With anything at all behind the object, and even with nothing behind it
      unless an announced empty vector is followed by another vector, the round
      trip holds if and only if reader and writer agree: where flagged vectors are
      spelled with a capital, if and only if fields that share a bit are present
      together. */
  lemma ReadWriteExactly(s: Schema, v: Value, rest: Bytes)
    requires ValidSchema(s) && Shaped(s, v)
    ensures Agrees(s[v.id], v.fields) ==> ReadBoxed(s, WriteObject(s, v) + rest, None) == Some((BackObject(s, v), rest))
    ensures ReadBoxed(s, WriteObject(s, v) + rest, None) == Some((BackObject(s, v), rest)) ==>
              Agrees(s[v.id], v.fields) || (rest == [] && Mistaken(s, v))
    ensures Capitalised(s[v.id]) ==> (Agrees(s[v.id], v.fields) <==> PresentTogether(s[v.id], v.fields))
  {
    hide BackObject, PresentTogether, AgreesAt, MistakenAt, Capitalised, ReadBoxed, WriteObject;
    if Capitalised(s[v.id]) { TogetherAgrees(s[v.id], v.fields); }
    if Agrees(s[v.id], v.fields) {
      ReadWrite(s, v, rest);
    } else if rest != [] || !Mistaken(s, v) {
      var k := FirstDisagreement(s[v.id], v.fields);
      ObjectReadsWrongly(s, v, k, rest);
    }
  }

  const POLL_ID: nat := 0x883A4108

  /** The line of inputMediaPoll, where the solution and its entities share a bit. */
  const POLL_LINE: seq<Arg> :=
    [Word(0), Always(Boxed), Flagged(0, 0, Vector(true, Some(TInt))), Flagged(0, 3, Boxed),
     Flagged(0, 1, Plain(TString)), Flagged(0, 1, Vector(true, None)), Flagged(0, 2, Boxed)]

  /** A poll with a solution comes back if and only if the solution has entities,
      whatever follows; without a solution, if and only if there are none. */
  lemma PollSolution(s: Schema, v: Value, rest: Bytes)
    requires ValidSchema(s) && POLL_ID in s && s[POLL_ID] == POLL_LINE && Shaped(s, v) && v.id == POLL_ID
    ensures ReadBoxed(s, WriteObject(s, v) + rest, None) == Some((BackObject(s, v), rest))
       <==> ((v.fields[4] != Absent) <==> (v.fields[5].List? && v.fields[5].elems != []))
  {
    hide ReadBoxed, WriteObject, BackObject;
    ReadWriteExactly(s, v, rest);
    PollAgrees(s, v);
    PollNotMistaken(s, v);
  }

  lemma PollAgrees(s: Schema, v: Value)
    requires POLL_ID in s && s[POLL_ID] == POLL_LINE && Shaped(s, v) && v.id == POLL_ID
    ensures Agrees(s[v.id], v.fields) <==> ((v.fields[4] != Absent) <==> (v.fields[5].List? && v.fields[5].elems != []))
  {
    var args, fields := s[v.id], v.fields;
    TogetherAgrees(args, fields);
    assert SetsBit(args[4], fields[4]) <==> fields[4] != Absent;
    assert SetsBit(args[5], fields[5]) <==> fields[5].List? && fields[5].elems != [];
  }

  /** Behind the entities comes an object or nothing, never a vector. */
  lemma PollNotMistaken(s: Schema, v: Value)
    requires ValidSchema(s) && POLL_ID in s && s[POLL_ID] == POLL_LINE && Shaped(s, v) && v.id == POLL_ID
    ensures !Mistaken(s, v)
  {
    hide BitSet, BeginsVector, WriteFields, WriteField;
    AnswersAlone(POLL_LINE, v.fields);
    MediaBehind(s, v);
    forall k | 0 <= k < |v.fields| ensures !MistakenAt(s, v, k) {
      assert FlaggedVector(POLL_LINE[k]) ==> k == 2 || k == 5;
    }
  }

  lemma AnswersAlone(args: seq<Arg>, fields: seq<Value>)
    requires args == POLL_LINE && |fields| == 7
    ensures AgreesAt(args, fields, 2)
  {
    assert SetsBit(args[2], fields[2]) ==> Uses(args[2], 0);
  }

  lemma MediaBehind(s: Schema, v: Value)
    requires ValidSchema(s) && POLL_ID in s && s[POLL_ID] == POLL_LINE && Shaped(s, v) && v.id == POLL_ID
    ensures !BeginsVector(WriteFields(s, v, 6))
  {
    hide ReadId, WriteId, WriteObject, WriteFields;
    var f := v.fields[6];
    assert TypedField(s, f, s[POLL_ID][6]);
    LastWritten(s, v);
    if f == Absent {
      NothingBegins();
    } else {
      assert Typed(s, f, Boxed);
      assert TypedObject(s, f);
      assert WriteField(s, v, 6) == WriteType(s, f, Boxed);
      ObjectBegins(s, f);
    }
  }

  lemma NothingBegins()
    ensures !BeginsVector([])
  {}

  lemma LastWritten(s: Schema, v: Value)
    requires ValidSchema(s) && Shaped(s, v) && v.fields != []
    ensures WriteFields(s, v, |v.fields| - 1) == WriteField(s, v, |v.fields| - 1)
  {
    assert WriteFields(s, v, |v.fields|) == [];
  }

  lemma ObjectBegins(s: Schema, v: Value)
    requires ValidSchema(s) && Shaped(s, v)
    ensures !BeginsVector(WriteObject(s, v))
  {
    hide WriteFields, ReadId, WriteId;
    IdRoundTrip(v.id, WriteFields(s, v, 0));
  }

  /** An empty vector whose type is spelled without a capital is announced by its
      bit and not written: its object cannot be read back. */
  lemma LowercaseVectorLost(s: Schema, v: Value)
    requires s == map[7 := [Word(0), Flagged(0, 0, Vector(false, Some(TInt)))]] && v == Object(7, [Absent, List([])])
    ensures ValidSchema(s) && Shaped(s, v) && ReadBoxed(s, WriteObject(s, v) + [], None).None?
  {
    hide ReadBoxed, WriteInt, ReadInt, FlagsWord, WriteId, ReadId;
    var args := s[7];
    assert args[0] == Word(args[1].number);
    Four();
    assert TypedField(s, v.fields[0], args[0]) && TypedField(s, v.fields[1], args[1]);
    assert Uses(args[1], 0) && SetsBit(args[1], v.fields[1]);
    ShortReads(s, v);
  }

  lemma ShortReads(s: Schema, v: Value)
    requires s == map[7 := [Word(0), Flagged(0, 0, Vector(false, Some(TInt)))]] && v == Object(7, [Absent, List([])])
    requires ValidSchema(s) && Shaped(s, v) && BitSet(s[7], v.fields, 0, 0)
    ensures ReadBoxed(s, WriteObject(s, v) + [], None).None?
  {
    hide WriteInt, ReadInt, FlagsWord, WriteId, ReadId, ReadArgs, WriteField, TestBit;
    var args := s[7];
    WordFits(args, v.fields, 0);
    WordBits(args, v.fields, 0, 0);
    var word := FlagsWord(args, v.fields, 0);
    LastField(s, v);
    var b := WriteInt(word, 4) + [];
    assert WriteObject(s, v) + [] == WriteId(7) + b;
    IdRoundTrip(7, b);
    IntRoundTrip(word, 4, []);
    NothingLeft(s, args, word);
    Four();
    FirstArg(s, b, args, word);
  }

  lemma LastField(s: Schema, v: Value)
    requires s == map[7 := [Word(0), Flagged(0, 0, Vector(false, Some(TInt)))]] && v == Object(7, [Absent, List([])])
    requires ValidSchema(s) && Shaped(s, v) && Fits(FlagsWord(s[7], v.fields, 0), 4)
    ensures WriteFields(s, v, 0) == WriteInt(FlagsWord(s[7], v.fields, 0), 4)
  {
    hide WriteInt, FlagsWord;
    assert WriteField(s, v, 1) == [] && WriteFields(s, v, 2) == [];
    assert WriteFields(s, v, 1) == [] + [];
    assert WriteFields(s, v, 0) == WriteField(s, v, 0) + [];
  }

  lemma NothingLeft(s: Schema, args: seq<Arg>, word: nat)
    requires args == [Word(0), Flagged(0, 0, Vector(false, Some(TInt)))] && TestBit(word, 0)
    ensures ReadArgs(s, [], args[1..], map[0 := word]).None?
  {
    assert args[1..][0] == args[1];
    assert ReadId([]).None?;
  }

  lemma FirstArg(s: Schema, b: Bytes, args: seq<Arg>, word: nat)
    requires args == [Word(0), Flagged(0, 0, Vector(false, Some(TInt)))]
    requires word < 0x1_0000_0000
    requires ReadInt(b, 4) == Some((word as int, [])) && ReadArgs(s, [], args[1..], map[0 := word]).None?
    ensures ReadArgs(s, b, args, map[]).None?
  {
    hide ReadInt;
  }

  lemma FirstDisagreement(args: seq<Arg>, fields: seq<Value>) returns (k: nat)
    requires |args| == |fields| && !Agrees(args, fields)
    ensures k < |args| && !AgreesAt(args, fields, k) && forall j :: 0 <= j < k ==> AgreesAt(args, fields, j)
  {
    hide AgreesAt;
    k := 0;
    while AgreesAt(args, fields, k)
      invariant k < |args| && forall j :: 0 <= j < k ==> AgreesAt(args, fields, j)
      invariant !Agrees(args, fields)
      decreases |args| - k
    {
      k := k + 1;
    }
  }
}
