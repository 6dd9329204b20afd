/** Feeding what HTML.unparse writes back to the parser of pyrogram/parser/html.py:
    exactly when the text and every span come back. */
module HtmlRoundTrip {
  import opened Spans
  import opened Markup
  import opened HtmlParser
  import opened HtmlUnparse

  /** Text in code units, as add_surrogates leaves it. */
  ghost predicate InUnits(text: Units) {
    forall k :: 0 <= k < |text| ==> text[k] < 0x10000
  }

  lemma SliceInUnits(text: Units, a: int, b: int)
    requires InUnits(text) && 0 <= a <= b <= |text|
    ensures AddSurrogates(text[a..b]) == text[a..b]
  {
    AddSurrogatesIdempotent(text[a..b]);
  }

  /** The parser's state after the tags ops and the text before each of them. */
  ghost function Play(ps: seq<Piece>, text: Units, st: State, ops: seq<Op>, at: int): State
    requires 0 <= at <= |text| && Placed(ps, ops, at, |text|)
    decreases |ops|
  {
    if ops == [] then st
    else Play(ps, text, Run(HandleData(st, text[at..ops[0].offset]), OpTokens(ps, ops[0])), ops[1..], ops[0].offset)
  }

  lemma {:induction false} PlayRuns(ps: seq<Piece>, text: Units, st: State, ops: seq<Op>, at: int)
    requires 0 <= at <= |text| && Placed(ps, ops, at, |text|)
    ensures at <= LastOffset(ops, at) <= |text|
    ensures Run(st, Tokens(ps, text, ops, at)) == HandleData(Play(ps, text, st, ops, at), text[LastOffset(ops, at)..])
    decreases |ops|
  {
    hide HandleData, OpTokens;
    if ops == [] {
      RunOne(st, Data(text[at..]));
    } else {
      var data, tags, rest := Data(text[at..ops[0].offset]), OpTokens(ps, ops[0]), Tokens(ps, text, ops[1..], ops[0].offset);
      RunOne(st, data);
      RunConcat(st, [data] + tags, rest);
      RunConcat(st, [data], tags);
      PlayRuns(ps, text, Run(HandleData(st, data.text), tags), ops[1..], ops[0].offset);
    }
  }

  lemma RunOne(st: State, t: Token)
    ensures Run(st, [t]) == Step(st, t)
  {
    RunSnoc(st, [], t);
    assert [] + [t] == [t];
  }

  lemma {:induction false} PlayConcat(ps: seq<Piece>, text: Units, st: State, a: seq<Op>, b: seq<Op>, at: int)
    requires 0 <= at <= |text| && Placed(ps, a, at, |text|) && Placed(ps, b, LastOffset(a, at), |text|)
    ensures at <= LastOffset(a, at) <= |text| && Placed(ps, a + b, at, |text|)
    ensures Play(ps, text, st, a + b, at) == Play(ps, text, Play(ps, text, st, a, at), b, LastOffset(a, at))
    decreases |a|
  {
    hide HandleData, OpTokens, Run;
    PlacedConcat(ps, a, b, at, |text|);
    if a == [] {
      assert a + b == b;
    } else {
      assert (a + b)[1..] == a[1..] + b;
      PlayConcat(ps, text, Run(HandleData(st, text[at..a[0].offset]), OpTokens(ps, a[0])), a[1..], b, a[0].offset);
    }
  }

  // ------------------------------------------------------- closing order

  /** The pieces in the order their end tags come. */
  function Closes(ops: seq<Op>): seq<nat>
    decreases |ops|
  {
    if ops == [] then []
    else (if ops[0].opening then [] else [ops[0].piece]) + Closes(ops[1..])
  }

  lemma {:induction false} ClosesConcat(a: seq<Op>, b: seq<Op>)
    ensures Closes(a + b) == Closes(a) + Closes(b)
    decreases |a|
  {
    if a == [] {
      assert a + b == b;
      assert Closes(a) + Closes(b) == Closes(b);
    } else {
      ClosesConcat(a[1..], b);
      assert (a + b)[1..] == a[1..] + b;
      var head := if a[0].opening then [] else [a[0].piece];
      assert head + (Closes(a[1..]) + Closes(b)) == (head + Closes(a[1..])) + Closes(b);
    }
  }

  lemma ClosesOne(ps: seq<Piece>, i: nat)
    requires i < |ps|
    ensures Closes(EmitOne(ps, i).ops)
         == if ps[i].kind.Unsupported? then [] else Closes(EmitForest(ps, i + 1, ps[i].end).ops) + [i]
  {
    if !ps[i].kind.Unsupported? {
      var open, inner, close := [Op(true, i, ps[i].start)], EmitForest(ps, i + 1, ps[i].end).ops, [Op(false, i, ps[i].end)];
      ClosesConcat(open + inner, close);
      ClosesConcat(open, inner);
      assert open[1..] == [] && close[1..] == [];
    }
  }

  /** Whether index i of a supported piece lies in lo..hi. */
  predicate Supported(ps: seq<Piece>, lo: int, hi: int, i: int) {
    0 <= lo <= i < hi <= |ps| && !ps[i].kind.Unsupported?
  }

  lemma {:induction false} OneClosesOnce(ps: seq<Piece>, i: nat, j: nat)
    requires i < |ps|
    ensures multiset(Closes(EmitOne(ps, i).ops))[j] == if Supported(ps, i, EmitOne(ps, i).next, j) then 1 else 0
    decreases |ps| - i, 0
  {
    ClosesOne(ps, i);
    if !ps[i].kind.Unsupported? { ForestClosesOnce(ps, i + 1, ps[i].end, j); }
  }

  lemma {:induction false} ForestClosesOnce(ps: seq<Piece>, i: nat, limit: int, j: nat)
    requires i <= |ps|
    ensures multiset(Closes(EmitForest(ps, i, limit).ops))[j]
         == if Supported(ps, i, EmitForest(ps, i, limit).next, j) then 1 else 0
    decreases |ps| - i, 1
  {
    if i < |ps| && ps[i].start < limit {
      var one := EmitOne(ps, i);
      OneClosesOnce(ps, i, j);
      ForestClosesOnce(ps, one.next, limit, j);
      ClosesConcat(one.ops, EmitForest(ps, one.next, limit).ops);
    }
  }

  /** Every supported piece is closed exactly once, nothing else is. */
  lemma ClosesOnce(ps: seq<Piece>, n: nat, j: nat)
    requires WellFormed(ps, n)
    ensures multiset(Closes(Emit(ps)))[j] == if j < |ps| && !ps[j].kind.Unsupported? then 1 else 0
  {
    EmitAllForest(ps, n, 0);
    ForestClosesOnce(ps, 0, n + 1, j);
  }

  lemma ClosedMember(ps: seq<Piece>, ids: seq<nat>, k: nat, lo: nat, hi: nat)
    requires k < |ids| && hi <= |ps|
    requires forall j: nat :: multiset(ids)[j] == if Supported(ps, lo, hi, j) then 1 else 0
    ensures Supported(ps, lo, hi, ids[k])
  {
    assert ids[k] in multiset(ids);
  }

  ghost predicate AllSupported(ps: seq<Piece>, ids: seq<nat>) {
    forall k :: 0 <= k < |ids| ==> ids[k] < |ps| && !ps[ids[k]].kind.Unsupported?
  }

  lemma ForestSupported(ps: seq<Piece>, i: nat, limit: int)
    requires i <= |ps|
    ensures AllSupported(ps, Closes(EmitForest(ps, i, limit).ops))
  {
    var ids := Closes(EmitForest(ps, i, limit).ops);
    forall j: nat ensures multiset(ids)[j] == if Supported(ps, i, EmitForest(ps, i, limit).next, j) then 1 else 0 {
      ForestClosesOnce(ps, i, limit, j);
    }
    forall k | 0 <= k < |ids| ensures ids[k] < |ps| && !ps[ids[k]].kind.Unsupported? {
      ClosedMember(ps, ids, k, i, EmitForest(ps, i, limit).next);
    }
  }

  lemma OneSupported(ps: seq<Piece>, i: nat)
    requires i < |ps|
    ensures AllSupported(ps, Closes(EmitOne(ps, i).ops))
  {
    ClosesOne(ps, i);
    if !ps[i].kind.Unsupported? { ForestSupported(ps, i + 1, ps[i].end); }
  }

  function AsNat(i: int): nat { if i >= 0 then i else 0 }

  function EntityOf(p: Piece, raw: Raw): Entity {
    Entity(raw, AsNat(p.start), AsNat(p.end - p.start))
  }

  /** The entities these pieces stand for. */
  function Meant(ps: seq<Piece>, ids: seq<nat>): seq<Entity>
    requires AllSupported(ps, ids)
  {
    seq(|ids|, k requires 0 <= k < |ids| => EntityOf(ps[ids[k]], RawOf(ps[ids[k]].kind)))
  }

  /** The same, with every link that looks like a mention read as one. */
  function ReadAs(ps: seq<Piece>, ids: seq<nat>): (es: seq<Entity>)
    requires AllSupported(ps, ids)
    ensures |es| == |ids|
  {
    seq(|ids|, k requires 0 <= k < |ids| => EntityOf(ps[ids[k]], ReadKind(ps[ids[k]].kind)))
  }

  // ----------------------------------------------------- one piece's own tags

  ghost predicate NonEmpty(st: State) {
    forall t :: t in st.open ==> st.open[t] != []
  }

  /** An end tag undoes its start tag, however much text came in between. */
  lemma PushGrowPop(st: State, tag: string, raw: Raw, n: nat, text: Units, entities: seq<Entity>)
    requires NonEmpty(st)
    ensures HandleEnd(State(text, entities, Grow(Push(st, tag, raw).open, n)), tag)
         == State(text, entities + [Entity(raw, |st.text|, n)], Grow(st.open, n))
  {
    var open := Grow(Push(st, tag, raw).open, n);
    var es := open[tag];
    assert es[|es| - 1] == Entity(raw, |st.text|, n);
    assert es[..|es| - 1] == GrowAll(Stack(st, tag), n);
    if |es| == 1 {
      assert tag !in st.open;
      assert open - {tag} == Grow(st.open, n);
    } else {
      assert open[tag := es[..|es| - 1]] == Grow(st.open, n);
    }
  }

  lemma RunTwo(st: State, a: Token, b: Token)
    ensures Run(st, [a, b]) == Step(Step(st, a), b)
  {
    RunSnoc(st, [a], b);
    RunOne(st, a);
    assert [a] + [b] == [a, b];
  }

  lemma StartRuns(st: State, kind: Kind)
    requires !kind.Unsupported?
    ensures kind.Code? && Stack(st, "pre") != [] ==> Run(st, StartTokens(kind)) == st
    ensures !(kind.Code? && Stack(st, "pre") != []) ==>
              Run(st, StartTokens(kind)) == Push(st, Tag(kind), ReadKind(kind))
  {
    hide Opening, Lookup;
    OpeningReads(kind);
    var start := Start(Tag(kind), Attrs(kind));
    if WithLanguage(kind) {
      var attrs := [Attr("class", Some(LANGUAGE_PREFIX + kind.language))];
      RunTwo(st, start, Start("code", attrs));
      LanguageReads(kind);
      var pushed := Push(st, "pre", RawPre(""));
      assert Step(st, start) == pushed;
      var pres := pushed.open["pre"];
      assert pres[..|pres| - 1] == Stack(st, "pre");
      assert Step(pushed, Start("code", attrs)).open == Push(st, "pre", ReadKind(kind)).open;
    } else {
      assert StartTokens(kind) == [start];
      RunOne(st, start);
      if kind.Code? { assert TextOr([], "class", "") == "" by { assert Lookup([], "class").None? by { LookupNothing("class"); } } }
    }
  }

  lemma LookupNothing(name: string)
    ensures Lookup([], name).None?
  {}

  lemma EndRuns(st: State, kind: Kind)
    requires !kind.Unsupported?
    ensures Run(st, EndTokens(kind)) == HandleEnd(if WithLanguage(kind) then HandleEnd(st, "code") else st, Tag(kind))
  {
    hide HandleEnd;
    if WithLanguage(kind) {
      RunTwo(st, End("code"), End(Tag(kind)));
      assert EndTokens(kind) == [End("code"), End(Tag(kind))];
    } else {
      RunOne(st, End(Tag(kind)));
      assert EndTokens(kind) == [End(Tag(kind))];
    }
  }

  /** The state after text[at..to] when only text came. */
  lemma DataState(st: State, text: Units, at: int, to: int)
    requires InUnits(text) && 0 <= at <= to <= |text| && st.text == text[..at]
    ensures HandleData(st, text[at..to]) == State(text[..to], st.entities, Grow(st.open, to - at))
  {
    SliceInUnits(text, at, to);
    assert text[..at] + text[at..to] == text[..to];
  }

  /** From a piece's start to its end: the tags, with whatever inner does to the
      state in between. */
  lemma PlayOne(ps: seq<Piece>, text: Units, st: State, i: nat, at: int)
    requires WellFormed(ps, |text|) && i < |ps| && 0 <= at <= ps[i].start && !ps[i].kind.Unsupported?
    ensures Placed(ps, EmitOne(ps, i).ops, at, |text|)
    ensures var inner := EmitForest(ps, i + 1, ps[i].end).ops;
            && Placed(ps, inner, ps[i].start, |text|)
            && ps[i].start <= LastOffset(inner, ps[i].start) <= ps[i].end
            && LastOffset(EmitOne(ps, i).ops, at) == ps[i].end
            && var inside := Run(HandleData(st, text[at..ps[i].start]), StartTokens(ps[i].kind));
               var within := Play(ps, text, inside, inner, ps[i].start);
               Play(ps, text, st, EmitOne(ps, i).ops, at)
                 == Run(HandleData(within, text[LastOffset(inner, ps[i].start)..ps[i].end]), EndTokens(ps[i].kind))
  {
    hide HandleData, Run, StartTokens, EndTokens, EmitForest, EmitOne;
    OneStep(ps, i);
    var s, e := ps[i].start, ps[i].end;
    var inner := EmitForest(ps, i + 1, e).ops;
    OnePlaced(ps, |text|, i, at);
    InnerFits(ps, |text|, i);
    ForestPlaced(ps, |text|, i + 1, e, s);
    ForestChecks(ps, |text|, i + 1, e, [], s);
    var open, close := [Op(true, i, s)], [Op(false, i, e)];
    assert open[1..] == [] && close[1..] == [];
    PlaySingle(ps, text, st, open[0], at);
    PlacedEnd(ps, |text|, close[0], LastOffset(inner, s));
    PlayConcat(ps, text, st, open, inner, at);
    assert LastOffset(open + inner, at) == LastOffset(inner, s);
    PlayConcat(ps, text, st, open + inner, close, at);
    PlaySingle(ps, text, Play(ps, text, st, open + inner, at), close[0], LastOffset(inner, s));
  }

  lemma PlacedEnd(ps: seq<Piece>, n: nat, op: Op, at: int)
    requires at <= op.offset <= n && Names(ps, op)
    ensures Placed(ps, [op], at, n)
  {
    assert [op][1..] == [];
  }

  lemma PlaySingle(ps: seq<Piece>, text: Units, st: State, op: Op, at: int)
    requires 0 <= at <= op.offset <= |text| && Names(ps, op)
    ensures Placed(ps, [op], at, |text|) && LastOffset([op], at) == op.offset
    ensures Play(ps, text, st, [op], at) == Run(HandleData(st, text[at..op.offset]), OpTokens(ps, op))
  {
    hide HandleData, Run, OpTokens;
    assert [op][1..] == [];
  }

  /** Every piece the loops reach before limit starts before limit. */
  lemma {:induction false} ForestRange(ps: seq<Piece>, n: nat, i: nat, limit: int, j: nat)
    requires WellFormed(ps, n) && i <= |ps| && Fits(ps, i, limit)
    requires i <= j < EmitForest(ps, i, limit).next
    ensures ps[j].start < limit
    decreases |ps| - i, 1
  {
    var one := EmitOne(ps, i);
    if j >= one.next {
      ForestRange(ps, n, one.next, limit, j);
    } else if j > i {
      InnerFits(ps, n, i);
      ForestRange(ps, n, i + 1, ps[i].end, j);
    }
  }

  lemma InnerNested(ps: seq<Piece>, n: nat, i: nat, j: nat)
    requires WellFormed(ps, n) && i < |ps| && !ps[i].kind.Unsupported?
    requires i < j < EmitOne(ps, i).next
    ensures Nested(ps, i, j)
  {
    InnerFits(ps, n, i);
    ForestRange(ps, n, i + 1, ps[i].end, j);
  }

  // ---------------------------------------------- when every span comes back

  /** outer's end tags or start tags interfere with inner's. */
  predicate Clash(outer: Kind, inner: Kind) {
    (outer.Pre? && inner.Code?) || (outer.Code? && WithLanguage(inner))
  }

  /** No code inside a pre, and no pre with a language inside a code. */
  ghost predicate NoClash(ps: seq<Piece>, lo: nat, hi: nat)
    requires hi <= |ps|
  {
    forall i, j :: lo <= i < j < hi && Nested(ps, i, j) ==> !Clash(ps[i].kind, ps[j].kind)
  }

  /** Nor does anything from lo to hi clash with what is already open. */
  ghost predicate Quiet(ps: seq<Piece>, st: State, lo: nat, hi: nat)
    requires hi <= |ps|
  {
    forall j :: lo <= j < hi ==>
      && (Stack(st, "pre") != [] ==> !ps[j].kind.Code?)
      && (Stack(st, "code") != [] ==> !WithLanguage(ps[j].kind))
  }

  /** Where a clash-free stretch leads: the text has come, the closed pieces are
      appended in closing order, what was open before is only longer. */
  function Reached(text: Units, st: State, es: seq<Entity>, at: int, to: int): State
    requires 0 <= at <= to <= |text|
  {
    State(text[..to], st.entities + es, Grow(st.open, to - at))
  }

  ghost predicate CodeOnly(st: State) {
    forall k :: 0 <= k < |Stack(st, "code")| ==> Stack(st, "code")[k].raw == RawCode
  }

  lemma TagsDiffer(kind: Kind)
    requires !kind.Unsupported?
    ensures Tag(kind) == "code" <==> kind.Code?
    ensures Tag(kind) == "pre" <==> kind.Pre?
  {
    assert |"code"| == 4 && |"pre"| == 3 && |"blockquote"| == 10 && |"tg-spoiler"| == 10
        && |"tg-emoji"| == 8 && |"tg-time"| == 7 && |"a"| == 1 && |"b"| == 1;
  }

  /** The state just inside a piece that opens. */
  lemma PushFacts(st: State, kind: Kind)
    requires !kind.Unsupported?
    ensures var st' := Push(st, Tag(kind), ReadKind(kind));
            && st'.text == st.text && st'.entities == st.entities
            && (NonEmpty(st) ==> NonEmpty(st'))
            && (CodeOnly(st) ==> CodeOnly(st'))
            && |Stack(st', "code")| == |Stack(st, "code")| + (if kind.Code? then 1 else 0)
            && |Stack(st', "pre")| == |Stack(st, "pre")| + (if kind.Pre? then 1 else 0)
  {
    TagsDiffer(kind);
    var st' := Push(st, Tag(kind), ReadKind(kind));
    forall k | 0 <= k < |Stack(st', "code")| && CodeOnly(st) ensures Stack(st', "code")[k].raw == RawCode {
      if k < |Stack(st, "code")| { assert Stack(st', "code")[k] == Stack(st, "code")[k]; }
    }
  }

  lemma InnerQuiet(ps: seq<Piece>, n: nat, st: State, i: nat, inside: State)
    requires WellFormed(ps, n) && i < |ps| && !ps[i].kind.Unsupported?
    requires NoClash(ps, i, EmitOne(ps, i).next) && Quiet(ps, st, i, EmitOne(ps, i).next)
    requires |Stack(inside, "code")| == |Stack(st, "code")| + (if ps[i].kind.Code? then 1 else 0)
    requires |Stack(inside, "pre")| == |Stack(st, "pre")| + (if ps[i].kind.Pre? then 1 else 0)
    ensures EmitForest(ps, i + 1, ps[i].end).next == EmitOne(ps, i).next
    ensures Quiet(ps, inside, i + 1, EmitOne(ps, i).next)
    ensures NoClash(ps, i + 1, EmitOne(ps, i).next)
  {
    hide EmitForest, EmitOne, WellFormed;
    OneStep(ps, i);
    forall j | i + 1 <= j < EmitOne(ps, i).next
      ensures Nested(ps, i, j) && !Clash(ps[i].kind, ps[j].kind)
    {
      InnerNested(ps, n, i, j);
    }
  }

  lemma {:induction false} OnePlays(ps: seq<Piece>, text: Units, i: nat, st: State, at: int)
    requires WellFormed(ps, |text|) && InUnits(text) && i < |ps| && 0 <= at <= ps[i].start && st.text == text[..at]
    requires NonEmpty(st) && NoClash(ps, i, EmitOne(ps, i).next) && Quiet(ps, st, i, EmitOne(ps, i).next)
    ensures var ops := EmitOne(ps, i).ops;
            && Placed(ps, ops, at, |text|) && AllSupported(ps, Closes(ops)) && at <= LastOffset(ops, at) <= |text|
            && Play(ps, text, st, ops, at) == Reached(text, st, ReadAs(ps, Closes(ops)), at, LastOffset(ops, at))
    decreases |ps| - i, 0
  {
    hide HandleData, Run, HandleEnd, StartTokens, EndTokens, Grow, EmitOne, EmitForest, Play, ReadAs, Push, Placed, NonEmpty, Fits, Closes,
      NoClash, InUnits, AllSupported, ReadKind, RawOf, Emit, EmitAll;
    assert 0 <= ps[i].start <= ps[i].end <= |text|;
    hide WellFormed;
    OneSupported(ps, i);
    ClosesOne(ps, i);
    OnePlaced(ps, |text|, i, at);
    OneStep(ps, i);
    if ps[i].kind.Unsupported? {
      PlayNothing(ps, text, st, at);
    } else {
      var s, e, kind := ps[i].start, ps[i].end, ps[i].kind;
      var inner := EmitForest(ps, i + 1, e).ops;
      PlayOne(ps, text, st, i, at);
      var st1, st2 := EnterOne(ps, text, i, st, at);
      InnerQuiet(ps, |text|, st, i, st2);
      InnerFits(ps, |text|, i);
      NextStart(ps, |text|, i);
      ForestPlays(ps, text, i + 1, e, st2, s);
      var mid := LastOffset(inner, s);
      var st3 := Play(ps, text, st2, inner, s);
      DataState(st3, text, mid, e);
      var st4 := HandleData(st3, text[mid..e]);
      ReachedThenText(text, st2, ReadAs(ps, Closes(inner)), s, mid, e);
      assert st4 == State(text[..e], st2.entities + ReadAs(ps, Closes(inner)), Grow(st2.open, e - s));
      GrownCode(st2, st4, e - s);
      CloseOut(ps, text, st, st1, st4, i, Closes(inner), at);
    }
  }

  /** The end tags of a piece whose inside has been played without a clash. */
  lemma CloseOut(ps: seq<Piece>, text: Units, st: State, st1: State, st4: State, i: nat, ids: seq<nat>, at: int)
    requires i < |ps| && !ps[i].kind.Unsupported? && AllSupported(ps, ids) && NonEmpty(st)
    requires 0 <= at <= ps[i].start <= ps[i].end <= |text|
    requires st1 == State(text[..ps[i].start], st.entities, Grow(st.open, ps[i].start - at))
    requires st4 == State(text[..ps[i].end], st.entities + ReadAs(ps, ids),
                          Grow(Push(st1, Tag(ps[i].kind), ReadKind(ps[i].kind)).open, ps[i].end - ps[i].start))
    requires WithLanguage(ps[i].kind) ==> Stack(st4, "code") == []
    ensures AllSupported(ps, ids + [i])
    ensures Run(st4, EndTokens(ps[i].kind)) == Reached(text, st, ReadAs(ps, ids + [i]), at, ps[i].end)
  {
    hide Run, EndTokens, Grow, HandleEnd, Push, ReadAs, ReadKind, RawOf, Tag;
    var s, e, kind := ps[i].start, ps[i].end, ps[i].kind;
    EndRuns(st4, kind);
    EndNothing(st4, "code");
    GrownAlike(st, st1, s - at);
    PushGrowPop(st1, Tag(kind), ReadKind(kind), e - s, st4.text, st4.entities);
    GrowTwice(st.open, s - at, e - s);
    ReadAsSnoc(ps, ids, i);
    assert st.entities + ReadAs(ps, ids) + [EntityOf(ps[i], ReadKind(kind))] == st.entities + ReadAs(ps, ids + [i]);
  }

  lemma ReachedThenText(text: Units, st: State, es: seq<Entity>, at: int, mid: int, to: int)
    requires 0 <= at <= mid <= to <= |text|
    ensures Grow(Grow(st.open, mid - at), to - mid) == Grow(st.open, to - at)
  {
    GrowTwice(st.open, mid - at, to - mid);
  }

  lemma ReachedTwice(text: Units, st: State, a: seq<Entity>, b: seq<Entity>, at: int, mid: int, to: int)
    requires 0 <= at <= mid <= to <= |text|
    ensures Reached(text, Reached(text, st, a, at, mid), b, mid, to) == Reached(text, st, a + b, at, to)
  {
    GrowTwice(st.open, mid - at, to - mid);
    assert st.entities + a + b == st.entities + (a + b);
  }

  lemma EndNothing(st: State, tag: string)
    ensures Stack(st, tag) == [] ==> HandleEnd(st, tag) == st
  {}

  lemma ReadAsSnoc(ps: seq<Piece>, ids: seq<nat>, i: nat)
    requires AllSupported(ps, ids) && i < |ps| && !ps[i].kind.Unsupported?
    ensures AllSupported(ps, ids + [i])
    ensures ReadAs(ps, ids + [i]) == ReadAs(ps, ids) + [EntityOf(ps[i], ReadKind(ps[i].kind))]
  {}

  lemma ReadAsConcat(ps: seq<Piece>, a: seq<nat>, b: seq<nat>)
    requires AllSupported(ps, a) && AllSupported(ps, b)
    ensures AllSupported(ps, a + b) && ReadAs(ps, a + b) == ReadAs(ps, a) + ReadAs(ps, b)
  {}

  /** st' has st's stacks, grown. */
  lemma GrownAlike(st: State, st': State, n: nat)
    requires st'.open == Grow(st.open, n)
    ensures |Stack(st', "code")| == |Stack(st, "code")| && |Stack(st', "pre")| == |Stack(st, "pre")|
    ensures NonEmpty(st) ==> NonEmpty(st')
    ensures CodeOnly(st) ==> CodeOnly(st')
  {}

  lemma GrownCode(st: State, st': State, n: nat)
    requires st'.open == Grow(st.open, n)
    ensures Stack(st', "code") == [] <==> Stack(st, "code") == []
  {}

  lemma {:induction false} ForestPlays(ps: seq<Piece>, text: Units, i: nat, limit: int, st: State, at: int)
    requires WellFormed(ps, |text|) && InUnits(text) && i <= |ps| && Fits(ps, i, limit) && 0 <= at <= limit && at <= |text|
    requires (i < |ps| ==> at <= ps[i].start) && st.text == text[..at]
    requires NonEmpty(st) && NoClash(ps, i, EmitForest(ps, i, limit).next) && Quiet(ps, st, i, EmitForest(ps, i, limit).next)
    ensures var ops := EmitForest(ps, i, limit).ops;
            && Placed(ps, ops, at, |text|) && AllSupported(ps, Closes(ops)) && at <= LastOffset(ops, at) <= |text|
            && Play(ps, text, st, ops, at) == Reached(text, st, ReadAs(ps, Closes(ops)), at, LastOffset(ops, at))
    decreases |ps| - i, 1
  {
    hide HandleData, Run, HandleEnd, StartTokens, EndTokens, Grow, EmitOne, EmitForest, Play, ReadAs, WellFormed;
    ForestSupported(ps, i, limit);
    ForestPlaced(ps, |text|, i, limit, at);
    ForestStep(ps, i, limit);
    if i < |ps| && ps[i].start < limit {
      var one := EmitOne(ps, i);
      var rest := EmitForest(ps, one.next, limit).ops;
      OnePlays(ps, text, i, st, at);
      OneChecks(ps, |text|, i, [], at);
      var mid := LastOffset(one.ops, at);
      var st' := Play(ps, text, st, one.ops, at);
      GrownAlike(st, st', mid - at);
      ForestPlays(ps, text, one.next, limit, st', mid);
      PlayConcat(ps, text, st, one.ops, rest, at);
      ClosesConcat(one.ops, rest);
      ReadAsConcat(ps, Closes(one.ops), Closes(rest));
      assert LastOffset(one.ops + rest, at) == LastOffset(rest, mid);
      ReachedTwice(text, st, ReadAs(ps, Closes(one.ops)), ReadAs(ps, Closes(rest)), at, mid, LastOffset(rest, mid));
    } else {
      PlayNothing(ps, text, st, at);
    }
  }

  lemma PlayNothing(ps: seq<Piece>, text: Units, st: State, at: int)
    requires 0 <= at <= |text| && st.text == text[..at]
    ensures Placed(ps, [], at, |text|) && Closes([]) == [] && AllSupported(ps, []) && LastOffset([], at) == at
    ensures Play(ps, text, st, [], at) == Reached(text, st, ReadAs(ps, []), at, at)
  {
    GrowZero(st.open);
  }

  // ------------------------------------------------ when a span does not

  /** Nothing supported before the next tree of pieces contains anything after. */
  lemma NotAcross(ps: seq<Piece>, n: nat, i: nat, a: nat, b: nat)
    requires WellFormed(ps, n) && i < |ps| && i <= a < EmitOne(ps, i).next <= b < |ps|
    ensures Nested(ps, a, b) ==> ps[a].kind.Unsupported?
  {
    if !ps[i].kind.Unsupported? {
      InnerFits(ps, n, i);
      if a > i { InnerNested(ps, n, i, a); }
      assert ps[EmitOne(ps, i).next].start >= ps[i].end;
    }
  }

  /** Some code in lo..hi never opens: it is inside a pre. */
  ghost predicate Lost(ps: seq<Piece>, lo: nat, hi: nat, preOpen: bool)
    requires hi <= |ps|
  {
    exists j :: lo <= j < hi && ps[j].kind.Code?
      && (preOpen || exists i :: lo <= i < j && ps[i].kind.Pre? && Nested(ps, i, j))
  }

  function Weight(st: State): nat { |st.entities| + |Stack(st, "code")| }

  /** st' has as many open entities as st under every tag but code. */
  ghost predicate SameDepths(st: State, st': State) {
    forall t :: t != "code" ==> |Stack(st', t)| == |Stack(st, t)|
  }

  lemma DataCounts(st: State, data: seq<nat>)
    ensures SameDepths(st, HandleData(st, data)) && Weight(HandleData(st, data)) == Weight(st)
    ensures |Stack(HandleData(st, data), "code")| == |Stack(st, "code")|
    ensures HandleData(st, data).entities == st.entities
    ensures CodeOnly(st) ==> CodeOnly(HandleData(st, data))
    ensures NonEmpty(st) ==> NonEmpty(HandleData(st, data))
  {
    GrownAlike(st, HandleData(st, data), |AddSurrogates(data)|);
  }

  lemma PushCounts(st: State, kind: Kind)
    requires !kind.Unsupported?
    ensures var st' := Push(st, Tag(kind), ReadKind(kind));
            && Weight(st') == Weight(st) + (if kind.Code? then 1 else 0)
            && (forall t :: t != "code" ==> |Stack(st', t)| == |Stack(st, t)| + (if t == Tag(kind) then 1 else 0))
  {
    TagsDiffer(kind);
  }

  lemma PopCounts(st: State, tag: string)
    ensures forall t :: |Stack(HandleEnd(st, tag), t)|
                     == |Stack(st, t)| - (if t == tag && Stack(st, tag) != [] then 1 else 0)
    ensures |HandleEnd(st, tag).entities| == |st.entities| + (if Stack(st, tag) != [] then 1 else 0)
    ensures st.entities <= HandleEnd(st, tag).entities
  {}

  /** What the start tags of a piece do to the counts. */
  ghost predicate Started(st: State, st': State, kind: Kind)
    requires !kind.Unsupported?
  {
    && st'.entities == st.entities
    && (kind.Code? && Stack(st, "pre") != [] ==> st' == st)
    && (!(kind.Code? && Stack(st, "pre") != []) ==>
          && Weight(st') == Weight(st) + (if kind.Code? then 1 else 0)
          && (forall t :: t != "code" ==> |Stack(st', t)| == |Stack(st, t)| + (if t == Tag(kind) then 1 else 0)))
  }

  /** What its end tags do. */
  ghost predicate Ended(st: State, st': State, kind: Kind)
    requires !kind.Unsupported?
  {
    && Weight(st') == Weight(st) + (if kind.Code? then 0 else 1)
    && (forall t :: t != "code" ==> |Stack(st', t)| == |Stack(st, t)| - (if t == Tag(kind) then 1 else 0))
    && st.entities <= st'.entities
  }

  lemma EndCounts(st: State, kind: Kind)
    requires !kind.Unsupported? && (kind.Code? || Stack(st, Tag(kind)) != [])
    ensures Ended(st, Run(st, EndTokens(kind)), kind)
  {
    hide HandleEnd, Run, EndTokens;
    TagsDiffer(kind);
    EndRuns(st, kind);
    PopCounts(st, "code");
    PopCounts(if WithLanguage(kind) then HandleEnd(st, "code") else st, Tag(kind));
  }

  lemma CountCompose(st: State, st1: State, st2: State, st3: State, st4: State, kind: Kind, gain: nat)
    requires !kind.Unsupported?
    requires SameDepths(st, st1) && Weight(st1) == Weight(st) && st1.entities == st.entities && Started(st1, st2, kind)
    requires SameDepths(st2, st3) && Weight(st3) <= Weight(st2) + gain && st2.entities <= st3.entities
    requires SameDepths(st3, st4) && Weight(st4) == Weight(st3) && st4.entities == st3.entities
    ensures kind.Code? || Stack(st4, Tag(kind)) != []
    ensures forall st5 :: Ended(st4, st5, kind) ==>
              && SameDepths(st, st5) && st.entities <= st5.entities && Weight(st5) <= Weight(st) + gain + 1
              && ((Weight(st3) < Weight(st2) + gain || (kind.Code? && Stack(st1, "pre") != []))
                  ==> Weight(st5) < Weight(st) + gain + 1)
  {
    TagsDiffer(kind);
  }

  /** The end tags only ever add entities. */
  lemma EndExtends(st: State, kind: Kind)
    requires !kind.Unsupported?
    ensures st.entities <= Run(st, EndTokens(kind)).entities
  {
    hide HandleEnd, Run, EndTokens;
    EndRuns(st, kind);
    PopCounts(st, "code");
    PopCounts(if WithLanguage(kind) then HandleEnd(st, "code") else st, Tag(kind));
  }

  /** The start of a piece, counted. */
  lemma StartCounts(st: State, kind: Kind)
    requires !kind.Unsupported?
    ensures Started(st, Run(st, StartTokens(kind)), kind)
  {
    hide Push, Run, StartTokens;
    StartRuns(st, kind);
    PushCounts(st, kind);
    PushFacts(st, kind);
  }

  lemma {:induction false} OneCounts(ps: seq<Piece>, text: Units, i: nat, st: State, at: int)
    requires WellFormed(ps, |text|) && i < |ps| && 0 <= at <= ps[i].start
    ensures Placed(ps, EmitOne(ps, i).ops, at, |text|)
    ensures var st', gain := Play(ps, text, st, EmitOne(ps, i).ops, at), |Closes(EmitOne(ps, i).ops)|;
            && SameDepths(st, st') && st.entities <= st'.entities
            && Weight(st') <= Weight(st) + gain
            && (Lost(ps, i, EmitOne(ps, i).next, Stack(st, "pre") != []) ==> Weight(st') < Weight(st) + gain)
    decreases |ps| - i, 0
  {
    hide HandleData, Run, HandleEnd, StartTokens, EndTokens, Play, Placed, EmitOne, EmitForest, Weight, SameDepths, Lost,
      Started, Ended;
    var n := |text|;
    OneStep(ps, i);
    OnePlaced(ps, n, i, at);
    ClosesOne(ps, i);
    if ps[i].kind.Unsupported? {
      PlayEmpty(ps, text, st, at);
      UnsupportedCounts(ps, i, st);
    } else {
      var s, e, kind := ps[i].start, ps[i].end, ps[i].kind;
      var inner := EmitForest(ps, i + 1, e);
      var st1 := HandleData(st, text[at..s]);
      DataCounts(st, text[at..s]);
      StartCounts(st1, kind);
      var st2 := Run(st1, StartTokens(kind));
      PlayOne(ps, text, st, i, at);
      InnerFits(ps, n, i);
      ForestCounts(ps, text, i + 1, e, st2, s);
      var st3 := Play(ps, text, st2, inner.ops, s);
      var last := text[LastOffset(inner.ops, s)..e];
      DataCounts(st3, last);
      var st4 := HandleData(st3, last);
      CountCompose(st, st1, st2, st3, st4, kind, |Closes(inner.ops)|);
      EndCounts(st4, kind);
      if Lost(ps, i, EmitOne(ps, i).next, Stack(st, "pre") != []) {
        LostInside(ps, n, i, Stack(st, "pre") != []);
        PreDepth(st, st1, st2, kind);
      }
    }
  }

  lemma UnsupportedCounts(ps: seq<Piece>, i: nat, st: State)
    requires i < |ps| && ps[i].kind.Unsupported?
    ensures SameDepths(st, st) && !Lost(ps, i, i + 1, Stack(st, "pre") != [])
  {}

  lemma PreDepth(st: State, st1: State, st2: State, kind: Kind)
    requires !kind.Unsupported? && SameDepths(st, st1) && Started(st1, st2, kind)
    ensures Stack(st1, "pre") != [] <==> Stack(st, "pre") != []
    ensures Stack(st2, "pre") != [] <==> Stack(st, "pre") != [] || kind.Pre?
  {
    TagsDiffer(kind);
    assert |Stack(st1, "pre")| == |Stack(st, "pre")|;
  }

  lemma PlayEmpty(ps: seq<Piece>, text: Units, st: State, at: int)
    requires 0 <= at <= |text|
    ensures Placed(ps, [], at, |text|) && Play(ps, text, st, [], at) == st && Closes([]) == []
  {}

  /** A lost code in the tree of piece i is piece i itself, or lost inside it. */
  lemma LostInside(ps: seq<Piece>, n: nat, i: nat, preOpen: bool)
    requires WellFormed(ps, n) && i < |ps| && !ps[i].kind.Unsupported?
    requires Lost(ps, i, EmitOne(ps, i).next, preOpen)
    ensures (preOpen && ps[i].kind.Code?) || Lost(ps, i + 1, EmitOne(ps, i).next, preOpen || ps[i].kind.Pre?)
  {}

  lemma {:induction false} ForestCounts(ps: seq<Piece>, text: Units, i: nat, limit: int, st: State, at: int)
    requires WellFormed(ps, |text|) && i <= |ps| && Fits(ps, i, limit) && 0 <= at <= limit && at <= |text|
    requires i < |ps| ==> at <= ps[i].start
    ensures Placed(ps, EmitForest(ps, i, limit).ops, at, |text|)
    ensures var st', gain := Play(ps, text, st, EmitForest(ps, i, limit).ops, at), |Closes(EmitForest(ps, i, limit).ops)|;
            && SameDepths(st, st') && st.entities <= st'.entities
            && Weight(st') <= Weight(st) + gain
            && (Lost(ps, i, EmitForest(ps, i, limit).next, Stack(st, "pre") != []) ==> Weight(st') < Weight(st) + gain)
    decreases |ps| - i, 1
  {
    hide HandleData, Run, HandleEnd, StartTokens, EndTokens, Play, Placed, EmitOne, EmitForest, Weight, Lost;
    ForestStep(ps, i, limit);
    ForestPlaced(ps, |text|, i, limit, at);
    if i < |ps| && ps[i].start < limit {
      var one := EmitOne(ps, i);
      var rest := EmitForest(ps, one.next, limit);
      OneCounts(ps, text, i, st, at);
      OneChecks(ps, |text|, i, [], at);
      var mid := LastOffset(one.ops, at);
      var st' := Play(ps, text, st, one.ops, at);
      ForestCounts(ps, text, one.next, limit, st', mid);
      PlayConcat(ps, text, st, one.ops, rest.ops, at);
      ClosesConcat(one.ops, rest.ops);
      var pre := Stack(st, "pre") != [];
      assert |Stack(st', "pre")| == |Stack(st, "pre")|;
      if Lost(ps, i, rest.next, pre) { LostSplits(ps, |text|, i, rest.next, pre); }
    } else {
      PlayEmpty(ps, text, st, at);
      NothingLost(ps, i, Stack(st, "pre") != []);
    }
  }

  lemma NothingLost(ps: seq<Piece>, i: nat, preOpen: bool)
    requires i <= |ps|
    ensures !Lost(ps, i, i, preOpen)
  {}

  lemma LostSplits(ps: seq<Piece>, n: nat, i: nat, hi: nat, preOpen: bool)
    requires WellFormed(ps, n) && i < |ps| && EmitOne(ps, i).next <= hi <= |ps| && Lost(ps, i, hi, preOpen)
    ensures Lost(ps, i, EmitOne(ps, i).next, preOpen) || Lost(ps, EmitOne(ps, i).next, hi, preOpen)
  {
    var mid := EmitOne(ps, i).next;
    var j :| i <= j < hi && ps[j].kind.Code? && (preOpen || exists a :: i <= a < j && ps[a].kind.Pre? && Nested(ps, a, j));
    if j >= mid && !preOpen {
      var a :| i <= a < j && ps[a].kind.Pre? && Nested(ps, a, j);
      if a < mid { NotAcross(ps, n, i, a, j); }
    }
  }

  // --- a closing </code> that belongs to a pre closes a surrounding code instead

  ghost predicate HasLanguage(ps: seq<Piece>, lo: nat, hi: nat)
    requires hi <= |ps|
  {
    exists j :: lo <= j < hi && WithLanguage(ps[j].kind)
  }

  /** Some pre with a language lies inside a code. */
  ghost predicate Mismatched(ps: seq<Piece>, lo: nat, hi: nat)
    requires hi <= |ps|
  {
    exists i, j :: lo <= i < j < hi && ps[i].kind.Code? && WithLanguage(ps[j].kind) && Nested(ps, i, j)
  }

  /** From base on, the closed entities disagree with the closing order: a code
      has been closed where a pre should have been. */
  ghost predicate Wrong(ps: seq<Piece>, base: nat, es: seq<Entity>, ids: seq<nat>) {
    exists k :: 0 <= k < |ids| && base + k < |es| && es[base + k].raw == RawCode && ids[k] < |ps| && ps[ids[k]].kind.Pre?
  }

  lemma WrongExtends(ps: seq<Piece>, base: nat, es: seq<Entity>, ids: seq<nat>, es': seq<Entity>, more: seq<nat>)
    requires Wrong(ps, base, es, ids) && es <= es'
    ensures Wrong(ps, base, es', ids + more)
  {
    var k :| 0 <= k < |ids| && base + k < |es| && es[base + k].raw == RawCode && ids[k] < |ps| && ps[ids[k]].kind.Pre?;
    assert (ids + more)[k] == ids[k] && es'[base + k] == es[base + k];
  }

  lemma WrongShifts(ps: seq<Piece>, base: nat, es: seq<Entity>, before: seq<nat>, ids: seq<nat>)
    requires Wrong(ps, base + |before|, es, ids)
    ensures Wrong(ps, base, es, before + ids)
  {
    var k :| 0 <= k < |ids| && base + |before| + k < |es| && es[base + |before| + k].raw == RawCode
             && ids[k] < |ps| && ps[ids[k]].kind.Pre?;
    assert (before + ids)[|before| + k] == ids[k];
    assert es[base + (|before| + k)].raw == RawCode;
  }

  /** A stretch with nothing lost and no language-carrying pre plays cleanly. */
  lemma PlainIsQuiet(ps: seq<Piece>, st: State, lo: nat, hi: nat)
    requires hi <= |ps| && !Lost(ps, lo, hi, Stack(st, "pre") != []) && !Mismatched(ps, lo, hi)
    requires HasLanguage(ps, lo, hi) ==> Stack(st, "code") == []
    ensures NoClash(ps, lo, hi) && Quiet(ps, st, lo, hi)
  {}

  /** Inside an open code, the first pre with a language goes wrong. */
  lemma {:induction false} OneGoesWrong(ps: seq<Piece>, text: Units, i: nat, st: State, at: int)
    requires WellFormed(ps, |text|) && InUnits(text) && i < |ps| && 0 <= at <= ps[i].start && st.text == text[..at]
    requires NonEmpty(st) && CodeOnly(st) && !Lost(ps, i, EmitOne(ps, i).next, Stack(st, "pre") != [])
    requires if Stack(st, "code") != [] then HasLanguage(ps, i, EmitOne(ps, i).next) else Mismatched(ps, i, EmitOne(ps, i).next)
    ensures Placed(ps, EmitOne(ps, i).ops, at, |text|)
    ensures Wrong(ps, |st.entities|, Play(ps, text, st, EmitOne(ps, i).ops, at).entities, Closes(EmitOne(ps, i).ops))
    decreases |ps| - i, 0
  {
    hide HandleData, Run, HandleEnd, StartTokens, EndTokens, Play, Placed, EmitOne, EmitForest, Push, Wrong,
      Lost, HasLanguage, Mismatched, WellFormed, Closes, CodeOnly, NonEmpty, Grow;
    var n := |text|;
    OneStep(ps, i);
    OnePlaced(ps, n, i, at);
    ClosesOne(ps, i);
    if ps[i].kind.Unsupported? {
      UnsupportedPlain(ps, i);
      assert false;
    }
    var s, e, kind := ps[i].start, ps[i].end, ps[i].kind;
    var next := EmitOne(ps, i).next;
    var inner := EmitForest(ps, i + 1, e);
    NotLostInside(ps, n, i, Stack(st, "pre") != []);
    NextStart(ps, n, i);
    var st1, st2 := EnterOne(ps, text, i, st, at);
    InnerFits(ps, n, i);
    PlayOne(ps, text, st, i, at);
    var st3 := Play(ps, text, st2, inner.ops, s);
    var last := text[LastOffset(inner.ops, s)..e];
    var st4 := HandleData(st3, last);
    DataCounts(st3, last);
    if if Stack(st2, "code") != [] then HasLanguage(ps, i + 1, next) else Mismatched(ps, i + 1, next) {
      ForestGoesWrong(ps, text, i + 1, e, st2, s);
      EndExtends(st4, kind);
      WrongExtends(ps, |st.entities|, st3.entities, Closes(inner.ops), Run(st4, EndTokens(kind)).entities, [i]);
    } else {
      OwnLanguage(ps, n, i, st, st2);
      LanguageGoesWrong(ps, text, i, st, st2);
    }
  }

  /** Piece i is a pre with a language inside an open code, and nothing inside it
      has gone wrong before. */
  lemma LanguageGoesWrong(ps: seq<Piece>, text: Units, i: nat, st: State, st2: State)
    requires WellFormed(ps, |text|) && InUnits(text) && i < |ps| && WithLanguage(ps[i].kind)
    requires st2.text == text[..ps[i].start] && st2.entities == st.entities && NonEmpty(st2) && CodeOnly(st2)
    requires Stack(st2, "code") != [] && !Lost(ps, i + 1, EmitOne(ps, i).next, Stack(st2, "pre") != [])
    requires !HasLanguage(ps, i + 1, EmitOne(ps, i).next) && !Mismatched(ps, i + 1, EmitOne(ps, i).next)
    ensures var s, e, inner := ps[i].start, ps[i].end, EmitForest(ps, i + 1, ps[i].end);
            && Placed(ps, inner.ops, s, |text|) && s <= LastOffset(inner.ops, s) <= e
            && var st3 := Play(ps, text, st2, inner.ops, s);
               var st4 := HandleData(st3, text[LastOffset(inner.ops, s)..e]);
               Wrong(ps, |st.entities|, Run(st4, EndTokens(ps[i].kind)).entities, Closes(inner.ops) + [i])
  {
    hide HandleData, Run, HandleEnd, EndTokens, Play, Placed, EmitOne, EmitForest, Wrong, Lost, HasLanguage, Mismatched,
      Closes, CodeOnly, NonEmpty, Grow, ReadAs;
    var s, e, inner := ps[i].start, ps[i].end, EmitForest(ps, i + 1, ps[i].end);
    assert 0 <= s <= e <= |text|;
    OneStep(ps, i);
    NextStart(ps, |text|, i);
    InnerFits(ps, |text|, i);
    hide WellFormed;
    PlainIsQuiet(ps, st2, i + 1, EmitOne(ps, i).next);
    ForestPlays(ps, text, i + 1, e, st2, s);
    ForestChecks(ps, |text|, i + 1, e, [], s);
    var st3 := Play(ps, text, st2, inner.ops, s);
    GrownAlike(st2, st3, LastOffset(inner.ops, s) - s);
    var last := text[LastOffset(inner.ops, s)..e];
    DataCounts(st3, last);
    assert |Stack(HandleData(st3, last), "code")| == |Stack(st2, "code")|;
    ClosesCode(ps, st, HandleData(st3, last), i, Closes(inner.ops));
  }

  lemma UnsupportedPlain(ps: seq<Piece>, i: nat)
    requires i < |ps| && ps[i].kind.Unsupported?
    ensures !HasLanguage(ps, i, i + 1) && !Mismatched(ps, i, i + 1)
  {}

  /** The states before and after the start tags of a piece that opens. */
  lemma EnterOne(ps: seq<Piece>, text: Units, i: nat, st: State, at: int) returns (st1: State, st2: State)
    requires WellFormed(ps, |text|) && InUnits(text) && i < |ps| && 0 <= at <= ps[i].start && st.text == text[..at]
    requires NonEmpty(st) && !ps[i].kind.Unsupported? && !(Stack(st, "pre") != [] && ps[i].kind.Code?)
    ensures ps[i].start <= ps[i].end <= |text|
    ensures st1 == State(text[..ps[i].start], st.entities, Grow(st.open, ps[i].start - at))
    ensures st2 == Push(st1, Tag(ps[i].kind), ReadKind(ps[i].kind))
    ensures st1 == HandleData(st, text[at..ps[i].start]) && st2 == Run(st1, StartTokens(ps[i].kind))
    ensures NonEmpty(st2) && (CodeOnly(st) ==> CodeOnly(st2)) && st2.text == text[..ps[i].start] && st2.entities == st.entities
    ensures |Stack(st2, "code")| == |Stack(st, "code")| + (if ps[i].kind.Code? then 1 else 0)
    ensures |Stack(st2, "pre")| == |Stack(st, "pre")| + (if ps[i].kind.Pre? then 1 else 0)
  {
    hide Run, StartTokens, Push, Grow;
    var s, kind := ps[i].start, ps[i].kind;
    DataState(st, text, at, s);
    st1 := HandleData(st, text[at..s]);
    GrownAlike(st, st1, s - at);
    StartRuns(st1, kind);
    PushFacts(st1, kind);
    st2 := Run(st1, StartTokens(kind));
  }

  lemma LostOutwards(ps: seq<Piece>, n: nat, i: nat, preOpen: bool)
    requires WellFormed(ps, n) && i < |ps| && !ps[i].kind.Unsupported?
    requires Lost(ps, i + 1, EmitOne(ps, i).next, preOpen || ps[i].kind.Pre?)
    ensures Lost(ps, i, EmitOne(ps, i).next, preOpen)
  {
    var j :| i + 1 <= j < EmitOne(ps, i).next && ps[j].kind.Code?
      && (preOpen || ps[i].kind.Pre? || exists a :: i + 1 <= a < j && ps[a].kind.Pre? && Nested(ps, a, j));
    InnerNested(ps, n, i, j);
  }

  lemma NotLostInside(ps: seq<Piece>, n: nat, i: nat, preOpen: bool)
    requires WellFormed(ps, n) && i < |ps| && !ps[i].kind.Unsupported? && !Lost(ps, i, EmitOne(ps, i).next, preOpen)
    ensures !(preOpen && ps[i].kind.Code?) && !Lost(ps, i + 1, EmitOne(ps, i).next, preOpen || ps[i].kind.Pre?)
  {
    hide WellFormed, EmitOne;
    if Lost(ps, i + 1, EmitOne(ps, i).next, preOpen || ps[i].kind.Pre?) {
      LostOutwards(ps, n, i, preOpen);
      assert false;
    }
  }

  /** If the trouble is not further inside, piece i itself is the pre with a
      language inside an open code. */
  lemma OwnLanguage(ps: seq<Piece>, n: nat, i: nat, st: State, st2: State)
    requires WellFormed(ps, n) && i < |ps| && !ps[i].kind.Unsupported?
    requires if Stack(st, "code") != [] then HasLanguage(ps, i, EmitOne(ps, i).next) else Mismatched(ps, i, EmitOne(ps, i).next)
    requires |Stack(st2, "code")| == |Stack(st, "code")| + (if ps[i].kind.Code? then 1 else 0)
    requires if Stack(st2, "code") != [] then !HasLanguage(ps, i + 1, EmitOne(ps, i).next)
             else !Mismatched(ps, i + 1, EmitOne(ps, i).next)
    ensures WithLanguage(ps[i].kind) && Stack(st, "code") != [] && !HasLanguage(ps, i + 1, EmitOne(ps, i).next)
    ensures !Mismatched(ps, i + 1, EmitOne(ps, i).next)
  {}

  lemma ClosesCode(ps: seq<Piece>, st: State, st4: State, i: nat, ids: seq<nat>)
    requires i < |ps| && WithLanguage(ps[i].kind) && CodeOnly(st4) && Stack(st4, "code") != []
    requires |st4.entities| == |st.entities| + |ids|
    ensures Wrong(ps, |st.entities|, Run(st4, EndTokens(ps[i].kind)).entities, ids + [i])
  {
    hide Run, EndTokens;
    var kind := ps[i].kind;
    EndRuns(st4, kind);
    var st5 := HandleEnd(st4, "code");
    PopCounts(st5, Tag(kind));
    assert st5.entities[|st.entities| + |ids|].raw == RawCode;
    assert (ids + [i])[|ids|] == i;
  }

  lemma {:induction false} ForestGoesWrong(ps: seq<Piece>, text: Units, i: nat, limit: int, st: State, at: int)
    requires WellFormed(ps, |text|) && InUnits(text) && i <= |ps| && Fits(ps, i, limit) && 0 <= at <= limit && at <= |text|
    requires (i < |ps| ==> at <= ps[i].start) && st.text == text[..at]
    requires NonEmpty(st) && CodeOnly(st) && !Lost(ps, i, EmitForest(ps, i, limit).next, Stack(st, "pre") != [])
    requires if Stack(st, "code") != [] then HasLanguage(ps, i, EmitForest(ps, i, limit).next)
             else Mismatched(ps, i, EmitForest(ps, i, limit).next)
    ensures Placed(ps, EmitForest(ps, i, limit).ops, at, |text|)
    ensures Wrong(ps, |st.entities|, Play(ps, text, st, EmitForest(ps, i, limit).ops, at).entities,
                  Closes(EmitForest(ps, i, limit).ops))
    decreases |ps| - i, 1
  {
    hide HandleData, Run, HandleEnd, StartTokens, EndTokens, Play, Placed, EmitOne, EmitForest, Push, Wrong,
      Lost, HasLanguage, Mismatched, WellFormed, Closes, CodeOnly, NonEmpty, Grow, Fits;
    ForestStep(ps, i, limit);
    ForestPlaced(ps, |text|, i, limit, at);
    if i == |ps| || ps[i].start >= limit {
      NothingWrong(ps, i);
      assert false;
    }
    var one := EmitOne(ps, i);
    var rest := EmitForest(ps, one.next, limit);
    OneChecks(ps, |text|, i, [], at);
    var mid := LastOffset(one.ops, at);
    OnePlaced(ps, |text|, i, at);
    var st' := Play(ps, text, st, one.ops, at);
    LaterFits(ps, i, one.next, limit);
    ForestPlaced(ps, |text|, one.next, limit, mid);
    PlayConcat(ps, text, st, one.ops, rest.ops, at);
    ClosesConcat(one.ops, rest.ops);
    PlainPart(ps, st, i, one.next, rest.next);
    if if Stack(st, "code") != [] then HasLanguage(ps, i, one.next) else Mismatched(ps, i, one.next) {
      OneGoesWrong(ps, text, i, st, at);
      ForestCounts(ps, text, one.next, limit, st', mid);
      WrongExtends(ps, |st.entities|, st'.entities, Closes(one.ops),
                   Play(ps, text, st', rest.ops, mid).entities, Closes(rest.ops));
    } else {
      PlainIsQuiet(ps, st, i, one.next);
      OnePlays(ps, text, i, st, at);
      GrownAlike(st, st', mid - at);
      LaterWrong(ps, |text|, i, rest.next, st);
      ForestGoesWrong(ps, text, one.next, limit, st', mid);
      WrongShifts(ps, |st.entities|, Play(ps, text, st', rest.ops, mid).entities, Closes(one.ops), Closes(rest.ops));
    }
  }

  lemma PlainPart(ps: seq<Piece>, st: State, lo: nat, mid: nat, hi: nat)
    requires lo <= mid <= hi <= |ps| && !Lost(ps, lo, hi, Stack(st, "pre") != [])
    ensures !Lost(ps, lo, mid, Stack(st, "pre") != []) && !Lost(ps, mid, hi, Stack(st, "pre") != [])
    ensures !HasLanguage(ps, lo, mid) ==> !Mismatched(ps, lo, mid)
  {}

  lemma NothingWrong(ps: seq<Piece>, i: nat)
    requires i <= |ps|
    ensures !HasLanguage(ps, i, i) && !Mismatched(ps, i, i)
  {}

  lemma LaterFits(ps: seq<Piece>, i: nat, j: nat, limit: int)
    requires i <= j && i < |ps| && ps[i].start < limit && Fits(ps, i, limit)
    ensures Fits(ps, j, limit) && ps[i].end <= limit
  {}

  lemma NextStart(ps: seq<Piece>, n: nat, i: nat)
    requires WellFormed(ps, n) && i < |ps|
    ensures i + 1 < |ps| ==> ps[i].start <= ps[i + 1].start
  {}

  lemma LaterWrong(ps: seq<Piece>, n: nat, i: nat, hi: nat, st: State)
    requires WellFormed(ps, n) && i < |ps| && EmitOne(ps, i).next <= hi <= |ps|
    requires if Stack(st, "code") != [] then HasLanguage(ps, i, hi) else Mismatched(ps, i, hi)
    requires if Stack(st, "code") != [] then !HasLanguage(ps, i, EmitOne(ps, i).next)
             else !Mismatched(ps, i, EmitOne(ps, i).next)
    ensures if Stack(st, "code") != [] then HasLanguage(ps, EmitOne(ps, i).next, hi)
            else Mismatched(ps, EmitOne(ps, i).next, hi)
  {
    var mid := EmitOne(ps, i).next;
    if Stack(st, "code") == [] {
      var a, b :| i <= a < b < hi && ps[a].kind.Code? && WithLanguage(ps[b].kind) && Nested(ps, a, b);
      if a < mid <= b { NotAcross(ps, n, i, a, b); }
    }
  }

  // ------------------------------------------------------------ the round trip

  /** Every supported piece is read back as what it means. */
  ghost predicate AllReadBack(ps: seq<Piece>) {
    forall i :: 0 <= i < |ps| ==> ReadsBack(ps[i].kind)
  }

  lemma InitialState()
    ensures NonEmpty(INITIAL) && CodeOnly(INITIAL) && Grow(INITIAL.open, 0) == INITIAL.open
    ensures forall t :: Stack(INITIAL, t) == []
    ensures forall n: nat :: Grow(INITIAL.open, n) == map[]
  {}

  lemma EmitSupported(ps: seq<Piece>, n: nat)
    requires WellFormed(ps, n)
    ensures AllSupported(ps, Closes(Emit(ps)))
  {
    EmitAllForest(ps, n, 0);
    ForestSupported(ps, 0, n + 1);
  }

  lemma MeantIsRead(ps: seq<Piece>, n: nat)
    requires WellFormed(ps, n) && AllSupported(ps, Closes(Emit(ps)))
    ensures ReadAs(ps, Closes(Emit(ps))) == Meant(ps, Closes(Emit(ps))) <==> AllReadBack(ps)
  {
    hide Emit, WellFormed;
    var ids := Closes(Emit(ps));
    forall k | 0 <= k < |ids| ensures ReadAs(ps, ids)[k] == Meant(ps, ids)[k] <==> ReadsBack(ps[ids[k]].kind) {
      OpeningReads(ps[ids[k]].kind);
    }
    if ReadAs(ps, ids) == Meant(ps, ids) {
      forall i | 0 <= i < |ps| ensures ReadsBack(ps[i].kind) {
        if !ps[i].kind.Unsupported? {
          ClosesOnce(ps, n, i);
          assert i in ids by { assert i in multiset(ids); }
          var k :| 0 <= k < |ids| && ids[k] == i;
          assert ReadAs(ps, ids)[k] == Meant(ps, ids)[k];
        }
      }
    }
  }

  lemma MeantNotWrong(ps: seq<Piece>, ids: seq<nat>)
    requires AllSupported(ps, ids)
    ensures !Wrong(ps, 0, Meant(ps, ids), ids)
  {}

  lemma ClashKinds(ps: seq<Piece>)
    ensures !NoClash(ps, 0, |ps|) <==> Lost(ps, 0, |ps|, false) || Mismatched(ps, 0, |ps|)
  {}

  /** What the final tokens do after the last tag: only text is added. */
  lemma TailText(ps: seq<Piece>, text: Units, ops: seq<Op>)
    requires Placed(ps, ops, 0, |text|)
    ensures var st := Play(ps, text, INITIAL, ops, 0);
            Run(INITIAL, Tokens(ps, text, ops, 0)).entities == st.entities
  {
    PlayRuns(ps, text, INITIAL, ops, 0);
  }

  /** When nothing clashes: the text comes back, every tag has closed its own
      opening tag, and the closed entities are the pieces in closing order. */
  lemma CleanRun(ps: seq<Piece>, text: Units)
    requires WellFormed(ps, |text|) && InUnits(text) && NoClash(ps, 0, |ps|)
    ensures Placed(ps, Emit(ps), 0, |text|) && AllSupported(ps, Closes(Emit(ps)))
    ensures Run(INITIAL, Tokens(ps, text, Emit(ps), 0)) == State(text, ReadAs(ps, Closes(Emit(ps))), map[])
  {
    hide Play, Tokens, Placed, EmitForest, ReadAs, Run, HandleData, Grow;
    InitialState();
    EmitAllForest(ps, |text|, 0);
    WholeForest(ps, |text|);
    ForestPlays(ps, text, 0, |text| + 1, INITIAL, 0);
    PlayRuns(ps, text, INITIAL, Emit(ps), 0);
    var last := LastOffset(Emit(ps), 0);
    var st := Play(ps, text, INITIAL, Emit(ps), 0);
    DataState(st, text, last, |text|);
    GrowTwice(INITIAL.open, last, |text| - last);
    assert text[last..] == text[last..|text|] && text[..|text|] == text;
    assert [] + ReadAs(ps, Closes(Emit(ps))) == ReadAs(ps, Closes(Emit(ps)));
  }

  lemma WholeForest(ps: seq<Piece>, n: nat)
    requires WellFormed(ps, n)
    ensures EmitForest(ps, 0, n + 1).next == |ps| && Fits(ps, 0, n + 1)
    ensures |ps| > 0 ==> 0 <= ps[0].start
  {}

  /** When something does: the entities are not those that were written. */
  lemma ClashingRun(ps: seq<Piece>, text: Units)
    requires WellFormed(ps, |text|) && InUnits(text) && !NoClash(ps, 0, |ps|)
    ensures Placed(ps, Emit(ps), 0, |text|) && AllSupported(ps, Closes(Emit(ps)))
    ensures Run(INITIAL, Tokens(ps, text, Emit(ps), 0)).entities != Meant(ps, Closes(Emit(ps)))
  {
    hide Play, Tokens, Placed, EmitForest, EmitAll, Closes, AllSupported, Run, HandleData, Grow, Wrong, Lost, Mismatched, NoClash,
      WellFormed, InUnits, Fits, CodeOnly, NonEmpty, HasLanguage, EntityOf, RawOf, Stack, SameDepths;
    InitialState();
    EmitAllForest(ps, |text|, 0);
    WholeForest(ps, |text|);
    EmitSupported(ps, |text|);
    EmittedPlaced(ps, |text|);
    TailText(ps, text, Emit(ps));
    ClashKinds(ps);
    if Lost(ps, 0, |ps|, false) {
      ForestCounts(ps, text, 0, |text| + 1, INITIAL, 0);
    } else {
      ForestGoesWrong(ps, text, 0, |text| + 1, INITIAL, 0);
      MeantNotWrong(ps, Closes(Emit(ps)));
    }
  }

  /** The text, in any case. */
  lemma {:induction false} PlayText(ps: seq<Piece>, text: Units, st: State, ops: seq<Op>, at: int)
    requires 0 <= at <= |text| && Placed(ps, ops, at, |text|) && InUnits(text) && st.text == text[..at]
    ensures Run(st, Tokens(ps, text, ops, at)).text == text
    decreases |ops|
  {
    hide HandleData, OpTokens;
    if ops == [] {
      RunOne(st, Data(text[at..]));
      DataState(st, text, at, |text|);
      assert text[at..] == text[at..|text|] && text[..|text|] == text;
    } else {
      var data, tags, rest := Data(text[at..ops[0].offset]), OpTokens(ps, ops[0]), Tokens(ps, text, ops[1..], ops[0].offset);
      RunOne(st, data);
      RunConcat(st, [data] + tags, rest);
      RunConcat(st, [data], tags);
      DataState(st, text, at, ops[0].offset);
      var st1 := HandleData(st, data.text);
      TagsKeepText(st1, ps[ops[0].piece].kind);
      OpTokensAre(ps, ops[0]);
      PlayText(ps, text, Run(st1, tags), ops[1..], ops[0].offset);
    }
  }

  lemma OpTokensAre(ps: seq<Piece>, op: Op)
    requires Names(ps, op)
    ensures OpTokens(ps, op) == if op.opening then StartTokens(ps[op.piece].kind) else EndTokens(ps[op.piece].kind)
  {}

  lemma TagsKeepText(st: State, kind: Kind)
    requires !kind.Unsupported?
    ensures Run(st, StartTokens(kind)).text == st.text && Run(st, EndTokens(kind)).text == st.text
  {
    hide Run, StartTokens, EndTokens;
    StartRuns(st, kind);
    EndRuns(st, kind);
  }

  /** HTML round trip: for pieces as split_crossing_spans leaves them, feeding the
      tokens unparse writes to a fresh parser always gives the text back; it gives
      back exactly the spans, in closing order, if and only if no code lies inside
      a pre, no pre with a language lies inside a code, and no link's address
      reads as a mention. */
  lemma RoundTrip(ps: seq<Piece>, text: Units)
    requires WellFormed(ps, |text|) && InUnits(text)
    ensures Placed(ps, Emit(ps), 0, |text|) && AllSupported(ps, Closes(Emit(ps)))
    ensures var st := Run(INITIAL, Tokens(ps, text, Emit(ps), 0));
            && st.text == text
            && (st.entities == Meant(ps, Closes(Emit(ps))) <==> NoClash(ps, 0, |ps|) && AllReadBack(ps))
  {
    hide Play, Tokens, Placed, EmitForest, Run, NoClash, AllReadBack, Emit, ReadAs, Meant;
    EmittedPlaced(ps, |text|);
    EmitSupported(ps, |text|);
    PlayText(ps, text, INITIAL, Emit(ps), 0);
    if NoClash(ps, 0, |ps|) {
      CleanRun(ps, text);
      MeantIsRead(ps, |text|);
    } else {
      ClashingRun(ps, text);
    }
  }
}
