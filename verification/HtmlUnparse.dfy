/** pyrogram/parser/html.py, writing: the recursive emission of tags in
    HTML.unparse and the splice that puts them into the text from the end. */
module HtmlUnparse {
  import opened Spans
  import opened Markup
  import opened HtmlLexer
  import opened HtmlRender

  /** A span with the type of the entity it belongs to. */
  datatype Piece = Piece(start: int, end: int, kind: Kind)

  /** A tag to write at an offset: the start or the end tag of a piece. */
  datatype Op = Op(opening: bool, piece: nat, offset: int)

  /** Pieces inside a text of n units, sorted and without a crossing pair: what
      split_crossing_spans returns. */
  ghost predicate WellFormed(ps: seq<Piece>, n: nat) {
    && (forall i :: 0 <= i < |ps| ==> 0 <= ps[i].start <= ps[i].end <= n)
    && (forall i, j :: 0 <= i < j < |ps| ==> ps[i].start < ps[j].start || (ps[i].start == ps[j].start && ps[i].end >= ps[j].end))
    && (forall i, j :: 0 <= i < j < |ps| ==> !(ps[i].start < ps[j].start < ps[i].end < ps[j].end))
  }

  /** Piece j lies inside piece i. */
  predicate Nested(ps: seq<Piece>, i: nat, j: nat)
    requires i < |ps| && j < |ps|
  {
    i < j && ps[j].start < ps[i].end
  }

  // ---------------------------------------------------------------- emission

  datatype Emitted = Emitted(ops: seq<Op>, next: nat)

  /** recursive(i): the tags of piece i and everything inside it. */
  function EmitOne(ps: seq<Piece>, i: nat): (r: Emitted)
    requires i < |ps|
    ensures i < r.next <= |ps|
    decreases |ps| - i, 0
  {
    if ps[i].kind.Unsupported? then Emitted([], i + 1)
    else
      var inner := EmitForest(ps, i + 1, ps[i].end);
      Emitted([Op(true, i, ps[i].start)] + inner.ops + [Op(false, i, ps[i].end)], inner.next)
  }

  /** The while loops: every piece from i on that starts before limit. */
  function EmitForest(ps: seq<Piece>, i: nat, limit: int): (r: Emitted)
    requires i <= |ps|
    ensures i <= r.next <= |ps|
    ensures r.next == |ps| || ps[r.next].start >= limit
    decreases |ps| - i, 1
  {
    if i == |ps| || ps[i].start >= limit then Emitted([], i)
    else
      var one := EmitOne(ps, i);
      var rest := EmitForest(ps, one.next, limit);
      Emitted(one.ops + rest.ops, rest.next)
  }

  /** The outer loop: every piece from i on. */
  function EmitAll(ps: seq<Piece>, i: nat): seq<Op>
    requires i <= |ps|
    decreases |ps| - i
  {
    if i == |ps| then [] else EmitOne(ps, i).ops + EmitAll(ps, EmitOne(ps, i).next)
  }

  /** entities_offsets. */
  function Emit(ps: seq<Piece>): seq<Op> {
    EmitAll(ps, 0)
  }

  lemma {:induction false} EmitAllForest(ps: seq<Piece>, n: nat, i: nat)
    requires WellFormed(ps, n) && i <= |ps|
    ensures EmitAll(ps, i) == EmitForest(ps, i, n + 1).ops
    decreases |ps| - i
  {
    if i < |ps| { EmitAllForest(ps, n, EmitOne(ps, i).next); }
  }

  lemma OneStep(ps: seq<Piece>, i: nat)
    requires i < |ps|
    ensures EmitOne(ps, i) ==
            if ps[i].kind.Unsupported? then Emitted([], i + 1)
            else
              (var inner := EmitForest(ps, i + 1, ps[i].end);
               Emitted([Op(true, i, ps[i].start)] + inner.ops + [Op(false, i, ps[i].end)], inner.next))
  {}

  lemma AllStep(ps: seq<Piece>, i: nat)
    requires i <= |ps|
    ensures EmitAll(ps, i) == if i == |ps| then [] else EmitOne(ps, i).ops + EmitAll(ps, EmitOne(ps, i).next)
  {}

  lemma ForestStep(ps: seq<Piece>, j: nat, limit: int)
    requires j <= |ps|
    ensures if j == |ps| || ps[j].start >= limit
            then EmitForest(ps, j, limit) == Emitted([], j)
            else
              (var rest := EmitForest(ps, EmitOne(ps, j).next, limit);
               EmitForest(ps, j, limit) == Emitted(EmitOne(ps, j).ops + rest.ops, rest.next))
  {}

  lemma Regrouped(a: seq<Op>, b: seq<Op>, c: seq<Op>)
    ensures a + (b + c) == (a + b) + c
  {}

  lemma Wrapped(was: seq<Op>, first: Op, inner: seq<Op>, last: Op)
    ensures was + [first] + inner + [last] == was + ([first] + inner + [last])
  {}

  /** The class stands for the variables recursive closes over. */
  class Unparser {
    const ps: seq<Piece>
    var offsets: seq<Op>

    constructor (ps: seq<Piece>)
      ensures this.ps == ps && offsets == []
    {
      this.ps := ps;
      offsets := [];
    }

    method Recursive(i: nat) returns (count: nat)
      requires i < |ps|
      modifies this
      ensures offsets == old(offsets) + EmitOne(ps, i).ops
      ensures i + count == EmitOne(ps, i).next
      decreases |ps| - i
    {
      hide EmitForest, EmitOne;
      OneStep(ps, i);
      if ps[i].kind.Unsupported? { return 1; }
      ghost var was, inner := offsets, EmitForest(ps, i + 1, ps[i].end);
      offsets := offsets + [Op(true, i, ps[i].start)];
      var j := i + 1;
      ghost var head, done: seq<Op> := offsets, [];
      assert done + EmitForest(ps, j, ps[i].end).ops == inner.ops;
      while j < |ps| && ps[j].start < ps[i].end
        invariant i < j <= |ps|
        invariant offsets == head + done
        invariant done + EmitForest(ps, j, ps[i].end).ops == inner.ops
        invariant EmitForest(ps, j, ps[i].end).next == inner.next
        decreases |ps| - j
      {
        ForestStep(ps, j, ps[i].end);
        var n := Recursive(j);
        ghost var one, rest := EmitOne(ps, j).ops, EmitForest(ps, j + n, ps[i].end).ops;
        Regrouped(done, one, rest);
        Regrouped(head, done, one);
        done := done + one;
        j := j + n;
      }
      ForestStep(ps, j, ps[i].end);
      assert done == inner.ops;
      offsets := offsets + [Op(false, i, ps[i].end)];
      Wrapped(was, Op(true, i, ps[i].start), inner.ops, Op(false, i, ps[i].end));
      count := j - i;
    }

    /** The outer loop over all spans. */
    method All()
      requires offsets == []
      modifies this
      ensures offsets == Emit(ps)
    {
      hide EmitAll, EmitOne;
      var i := 0;
      assert offsets + EmitAll(ps, i) == Emit(ps);
      while i < |ps|
        invariant i <= |ps|
        invariant offsets + EmitAll(ps, i) == Emit(ps)
      {
        AllStep(ps, i);
        ghost var before := offsets;
        var count := Recursive(i);
        assert before + (EmitOne(ps, i).ops + EmitAll(ps, i + count)) == offsets + EmitAll(ps, i + count);
        i := i + count;
      }
      AllStep(ps, i);
    }
  }

  // ------------------------------------------- the tags form a bracket word

  /** Reading ops with a stack of open pieces; None if a closing tag is not the
      innermost open piece's, or offsets go down. */
  function Check(ops: seq<Op>, stack: seq<nat>, at: int): Option<seq<nat>>
    decreases |ops|
  {
    if ops == [] then Some(stack)
    else if ops[0].offset < at then None
    else if ops[0].opening then Check(ops[1..], stack + [ops[0].piece], ops[0].offset)
    else if stack != [] && stack[|stack| - 1] == ops[0].piece then Check(ops[1..], stack[..|stack| - 1], ops[0].offset)
    else None
  }

  function LastOffset(ops: seq<Op>, at: int): int {
    if ops == [] then at else ops[|ops| - 1].offset
  }

  lemma {:induction false} CheckConcat(a: seq<Op>, b: seq<Op>, stack: seq<nat>, at: int)
    requires Check(a, stack, at).Some?
    ensures Check(a + b, stack, at) == Check(b, Check(a, stack, at).value, LastOffset(a, at))
    decreases |a|
  {
    if a == [] {
      assert a + b == b;
    } else {
      assert (a + b)[1..] == a[1..] + b;
      CheckConcat(a[1..], b, if a[0].opening then stack + [a[0].piece] else stack[..|stack| - 1], a[0].offset);
    }
  }

  /** From piece i on, whatever starts before limit also ends by then. */
  ghost predicate Fits(ps: seq<Piece>, i: nat, limit: int) {
    forall j :: i <= j < |ps| && ps[j].start < limit ==> ps[j].end <= limit
  }

  lemma InnerFits(ps: seq<Piece>, n: nat, i: nat)
    requires WellFormed(ps, n) && i < |ps|
    ensures Fits(ps, i + 1, ps[i].end)
  {}

  lemma {:induction false} OneChecks(ps: seq<Piece>, n: nat, i: nat, stack: seq<nat>, at: int)
    requires WellFormed(ps, n) && i < |ps| && at <= ps[i].start
    ensures var ops := EmitOne(ps, i).ops;
            Check(ops, stack, at) == Some(stack) && at <= LastOffset(ops, at) <= Max(at, ps[i].end)
    ensures EmitOne(ps, i).next < |ps| ==> LastOffset(EmitOne(ps, i).ops, at) <= ps[EmitOne(ps, i).next].start
    decreases |ps| - i, 0
  {
    if !ps[i].kind.Unsupported? {
      var s, e := ps[i].start, ps[i].end;
      InnerFits(ps, n, i);
      var inner := EmitForest(ps, i + 1, e);
      ForestChecks(ps, n, i + 1, e, stack + [i], s);
      var open, close := [Op(true, i, s)], [Op(false, i, e)];
      CheckConcat(open + inner.ops, close, stack, at) by {
        CheckConcat(open, inner.ops, stack, at);
        assert open[1..] == [];
      }
      CheckConcat(open, inner.ops, stack, at);
      assert open[1..] == [] && close[1..] == [];
      assert (stack + [i])[..|stack|] == stack;
      assert LastOffset(open + inner.ops, at) == LastOffset(inner.ops, s);
    }
  }

  function Max(a: int, b: int): int { if a >= b then a else b }

  lemma {:induction false} ForestChecks(ps: seq<Piece>, n: nat, i: nat, limit: int, stack: seq<nat>, at: int)
    requires WellFormed(ps, n) && i <= |ps| && Fits(ps, i, limit) && at <= limit
    requires i < |ps| ==> at <= ps[i].start
    ensures var ops := EmitForest(ps, i, limit).ops;
            Check(ops, stack, at) == Some(stack) && at <= LastOffset(ops, at) <= limit
    decreases |ps| - i, 1
  {
    if i < |ps| && ps[i].start < limit {
      var one := EmitOne(ps, i);
      OneChecks(ps, n, i, stack, at);
      var at' := LastOffset(one.ops, at);
      ForestChecks(ps, n, one.next, limit, stack, at');
      CheckConcat(one.ops, EmitForest(ps, one.next, limit).ops, stack, at);
    }
  }

  /** The emitted tags need no sorting: their offsets never go down, and every
      closing tag closes the innermost piece still open. */
  lemma EmittedBalanced(ps: seq<Piece>, n: nat)
    requires WellFormed(ps, n)
    ensures Check(Emit(ps), [], 0) == Some([])
  {
    EmitAllForest(ps, n, 0);
    ForestChecks(ps, n, 0, n + 1, [], 0);
  }

  // ------------------------------------------------------------------ splicing

  function OpTokens(ps: seq<Piece>, op: Op): seq<Token>
    requires Names(ps, op)
  {
    if op.opening then StartTokens(ps[op.piece].kind) else EndTokens(ps[op.piece].kind)
  }

  predicate Names(ps: seq<Piece>, op: Op) {
    op.piece < |ps| && !ps[op.piece].kind.Unsupported?
  }

  /** The tags name supported pieces, at offsets from at up to n that never go down. */
  ghost predicate Placed(ps: seq<Piece>, ops: seq<Op>, at: int, n: nat)
    decreases |ops|
  {
    ops == [] || (Names(ps, ops[0]) && at <= ops[0].offset <= n && Placed(ps, ops[1..], ops[0].offset, n))
  }

  /** The token stream: the text between the tags, in order. */
  function Tokens(ps: seq<Piece>, text: Units, ops: seq<Op>, at: int): seq<Token>
    requires 0 <= at <= |text| && Placed(ps, ops, at, |text|)
    decreases |ops|
  {
    if ops == [] then [Data(text[at..])]
    else [Data(text[at..ops[0].offset])] + OpTokens(ps, ops[0]) + Tokens(ps, text, ops[1..], ops[0].offset)
  }

  lemma {:induction false} PlacedFrom(ps: seq<Piece>, ops: seq<Op>, at: int, n: nat, k: nat)
    requires Placed(ps, ops, at, n) && k <= |ops| && 0 <= at
    ensures Placed(ps, ops[k..], if k == 0 then at else ops[k - 1].offset, n)
    ensures k < |ops| ==> Names(ps, ops[k]) && 0 <= ops[k].offset <= FirstOffset(ops[k + 1..], n) <= n
    ensures Placed(ps, ops[k..], 0, n)
    decreases |ops|
  {
    if k > 0 {
      PlacedFrom(ps, ops[1..], ops[0].offset, n, k - 1);
      assert ops[1..][k - 1..] == ops[k..];
      if k < |ops| { assert ops[1..][k..] == ops[k + 1..]; }
    } else {
      assert ops[0..] == ops;
      if ops != [] { assert Placed(ps, ops[1..], ops[0].offset, n); }
    }
  }

  function FirstOffset(ops: seq<Op>, n: nat): int {
    if ops == [] then n else ops[0].offset
  }

  /** The text from the first tag on, written out. */
  ghost function After(ps: seq<Piece>, text: Units, ops: seq<Op>): Units
    requires Placed(ps, ops, 0, |text|)
  {
    if ops == [] then []
    else Render(OpTokens(ps, ops[0])) + Render(Tokens(ps, text, ops[1..], ops[0].offset))
  }

  lemma RenderTokens(ps: seq<Piece>, text: Units, ops: seq<Op>, at: int)
    requires 0 <= at <= |text| && Placed(ps, ops, at, |text|) && Placed(ps, ops, 0, |text|)
    ensures at <= FirstOffset(ops, |text|) <= |text|
    ensures Render(Tokens(ps, text, ops, at)) == Escape(text[at..FirstOffset(ops, |text|)]) + After(ps, text, ops)
  {
    hide Escape, OpTokens;
    if ops == [] {
      assert [Data(text[at..])][1..] == [];
      assert text[at..] == text[at..|text|];
    } else {
      var o := ops[0];
      var data, rest := Data(text[at..o.offset]), OpTokens(ps, o) + Tokens(ps, text, ops[1..], o.offset);
      assert Tokens(ps, text, ops, at) == [data] + rest;
      assert ([data] + rest)[1..] == rest;
      RenderConcat(OpTokens(ps, o), Tokens(ps, text, ops[1..], o.offset));
    }
  }

  /** The splice from the end: text[:offset] + tag + escape(text[offset:last]) +
      text[last:], with the offsets of the original text, gives what writing the
      tokens from front to back gives. */
  method Splice(ps: seq<Piece>, text0: Units, ops: seq<Op>) returns (text: Units)
    requires Placed(ps, ops, 0, |text0|)
    ensures text == Render(Tokens(ps, text0, ops, 0))
  {
    text := text0;
    var last := |text0|;
    var k := |ops|;
    PlacedFrom(ps, ops, 0, |text0|, k);
    while k > 0
      invariant 0 <= k <= |ops|
      invariant last == FirstOffset(ops[k..], |text0|) && 0 <= last <= |text0|
      invariant Placed(ps, ops[k..], 0, |text0|)
      invariant text == text0[..last] + After(ps, text0, ops[k..])
    {
      k := k - 1;
      PlacedFrom(ps, ops, 0, |text0|, k);
      var op := ops[k];
      SpliceStep(ps, text0, ops[k..], text, last);
      text := text[..op.offset] + Render(OpTokens(ps, op)) + Escape(text[op.offset..last]) + text[last..];
      last := op.offset;
    }
    assert ops[0..] == ops;
    RenderTokens(ps, text0, ops, 0);
    assert text[..last] == text0[0..last];
    text := Escape(text[..last]) + text[last..];
  }

  lemma SpliceStep(ps: seq<Piece>, text0: Units, ops: seq<Op>, text: Units, last: int)
    requires ops != [] && Placed(ps, ops, 0, |text0|) && Placed(ps, ops[1..], 0, |text0|)
    requires last == FirstOffset(ops[1..], |text0|) && 0 <= ops[0].offset <= last <= |text0|
    requires text == text0[..last] + After(ps, text0, ops[1..])
    ensures var o := ops[0].offset;
            text[..o] + Render(OpTokens(ps, ops[0])) + Escape(text[o..last]) + text[last..]
              == text0[..o] + After(ps, text0, ops)
  {
    hide Escape, Render, OpTokens;
    var o := ops[0].offset;
    RenderTokens(ps, text0, ops[1..], o);
    assert text[..o] == text0[..o];
    assert text[o..last] == text0[o..last];
    assert text[last..] == After(ps, text0, ops[1..]);
    var tag, escaped, tail := Render(OpTokens(ps, ops[0])), Escape(text0[o..last]), After(ps, text0, ops[1..]);
    assert After(ps, text0, ops) == tag + (escaped + tail);
    Reassociate(text0[..o], tag, escaped, tail);
  }

  lemma Reassociate(a: Units, b: Units, c: Units, d: Units)
    ensures a + b + c + d == a + (b + (c + d))
  {}

  // --------------------------------------------------- what is emitted is placed

  lemma {:induction false} PlacedConcat(ps: seq<Piece>, a: seq<Op>, b: seq<Op>, at: int, n: nat)
    requires Placed(ps, a, at, n) && Placed(ps, b, LastOffset(a, at), n)
    ensures Placed(ps, a + b, at, n)
    decreases |a|
  {
    if a == [] {
      assert a + b == b;
    } else {
      assert (a + b)[1..] == a[1..] + b;
      PlacedConcat(ps, a[1..], b, a[0].offset, n);
    }
  }

  lemma {:induction false} OnePlaced(ps: seq<Piece>, n: nat, i: nat, at: int)
    requires WellFormed(ps, n) && i < |ps| && at <= ps[i].start
    ensures Placed(ps, EmitOne(ps, i).ops, at, n)
    decreases |ps| - i, 0
  {
    if !ps[i].kind.Unsupported? {
      var s, e := ps[i].start, ps[i].end;
      InnerFits(ps, n, i);
      var inner := EmitForest(ps, i + 1, e).ops;
      ForestPlaced(ps, n, i + 1, e, s);
      ForestChecks(ps, n, i + 1, e, [], s);
      var open, close := [Op(true, i, s)], [Op(false, i, e)];
      assert open[1..] == [] && close[1..] == [];
      PlacedConcat(ps, inner, close, s, n);
      assert (open + (inner + close))[1..] == inner + close;
      assert open + inner + close == open + (inner + close);
    }
  }

  lemma {:induction false} ForestPlaced(ps: seq<Piece>, n: nat, i: nat, limit: int, at: int)
    requires WellFormed(ps, n) && i <= |ps| && Fits(ps, i, limit)
    requires i < |ps| ==> at <= ps[i].start
    ensures Placed(ps, EmitForest(ps, i, limit).ops, at, n)
    decreases |ps| - i, 1
  {
    if i < |ps| && ps[i].start < limit {
      var one := EmitOne(ps, i);
      OnePlaced(ps, n, i, at);
      OneChecks(ps, n, i, [], at);
      ForestPlaced(ps, n, one.next, limit, LastOffset(one.ops, at));
      PlacedConcat(ps, one.ops, EmitForest(ps, one.next, limit).ops, at, n);
    }
  }

  lemma EmittedPlaced(ps: seq<Piece>, n: nat)
    requires WellFormed(ps, n)
    ensures Placed(ps, Emit(ps), 0, n)
  {
    EmitAllForest(ps, n, 0);
    ForestPlaced(ps, n, 0, n + 1, 0);
  }

  // ------------------------------------------------------------------ the whole

  /** The pieces unparse works on. */
  ghost function PiecesOf(text: Units, entities: seq<Extent>, kinds: seq<Kind>): (ps: seq<Piece>)
    requires |kinds| == |entities|
    ensures |ps| == |SplitSpans(text, entities)|
  {
    var spans := SplitSpans(text, entities);
    seq(|spans|, k requires 0 <= k < |spans| => PieceOfSpan(spans[k], kinds))
  }

  function PieceOfSpan(span: Span, kinds: seq<Kind>): Piece {
    Piece(span.start, span.end, if span.owner < |kinds| then kinds[span.owner] else Unsupported)
  }

  /** The splitter's result is what the emission needs. */
  lemma SplitWellFormed(text: Units, entities: seq<Extent>, kinds: seq<Kind>)
    requires |kinds| == |entities| && forall k :: 0 <= k < |entities| ==> InText(text, entities[k])
    ensures WellFormed(PiecesOf(text, entities, kinds), |text|)
  {
    var spans, ps := SplitSpans(text, entities), PiecesOf(text, entities, kinds);
    SplitSpansCorrect(text, entities);
    SpansInBounds(text, entities, spans);
    assert forall k :: 0 <= k < |spans| ==> ps[k] == PieceOfSpan(spans[k], kinds) && spans[k] in spans;
    forall i, j | 0 <= i < j < |ps|
      ensures ps[i].start < ps[j].start || (ps[i].start == ps[j].start && ps[i].end >= ps[j].end)
      ensures !(ps[i].start < ps[j].start < ps[i].end < ps[j].end)
    {
      assert Leq(spans[i], spans[j]) && !Crosses(spans[i], spans[j]);
    }
  }

  lemma {:induction false} TokensReadable(ps: seq<Piece>, text: Units, ops: seq<Op>, at: int)
    requires 0 <= at <= |text| && Placed(ps, ops, at, |text|)
    requires forall k :: 0 <= k < |ps| ==> ReadableKind(ps[k].kind)
    ensures AllReadable(Tokens(ps, text, ops, at))
    decreases |ops|
  {
    hide Readable, ReadableKind, StartTokens, EndTokens;
    if ops == [] {
      DataReadable(text[at..]);
    } else {
      DataReadable(text[at..ops[0].offset]);
      KindReadable(ps[ops[0].piece].kind);
      TokensReadable(ps, text, ops[1..], ops[0].offset);
    }
  }

  lemma DataReadable(text: Units)
    ensures Readable(Data(text))
  {}

  /** HTML.unparse, up to the final joining of surrogates, on text in code units. */
  method Unparse(text: Units, entities: seq<Extent>, kinds: seq<Kind>) returns (html: Units)
    requires |kinds| == |entities| && forall k :: 0 <= k < |entities| ==> InText(text, entities[k])
    ensures WellFormed(PiecesOf(text, entities, kinds), |text|)
    ensures Placed(PiecesOf(text, entities, kinds), Emit(PiecesOf(text, entities, kinds)), 0, |text|)
    ensures html == Render(Tokens(PiecesOf(text, entities, kinds), text, Emit(PiecesOf(text, entities, kinds)), 0))
    ensures (forall k :: 0 <= k < |kinds| ==> ReadableKind(kinds[k])) ==>
      Lex(html) == Some(Joined(Tokens(PiecesOf(text, entities, kinds), text, Emit(PiecesOf(text, entities, kinds)), 0)))
  {
    hide Render, Lex, Tokens, Emit, ReadableKind, Joined;
    SplitWellFormed(text, entities, kinds);
    EmittedPlaced(PiecesOf(text, entities, kinds), |text|);
    var spans := SplitCrossingSpans(text, entities);
    var ps := seq(|spans|, k requires 0 <= k < |spans| => PieceOfSpan(spans[k], kinds));
    assert ps == PiecesOf(text, entities, kinds);
    var unparser := new Unparser(ps);
    unparser.All();
    html := Splice(ps, text, unparser.offsets);
    if forall k :: 0 <= k < |kinds| ==> ReadableKind(kinds[k]) {
      NothingReadable();
      TokensReadable(ps, text, Emit(ps), 0);
      RenderReads(Tokens(ps, text, Emit(ps), 0));
    }
  }

  lemma NothingReadable()
    ensures ReadableKind(Unsupported)
  {}
}
