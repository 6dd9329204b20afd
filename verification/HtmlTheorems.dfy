/** The results about pyrogram/parser/html.py that join the splitter, the writer
    and the reader. */
module HtmlTheorems {
  import opened Spans
  import opened Markup
  import opened HtmlParser
  import opened HtmlLexer
  import opened HtmlRender
  import opened HtmlUnparse
  import opened HtmlRoundTrip

  // ------------------------------------------------- unparse can be decoded

  ghost predicate Decodes(units: Units) {
    RemoveSurrogates(units).Some?
  }

  lemma DecodesConcat(a: Units, b: Units)
    requires Decodes(a) && Decodes(b)
    ensures Decodes(a + b)
  {
    RemoveConcat(a, b);
  }

  lemma SliceDecodes(text: Units, a: int, b: int)
    requires Decodes(text) && 0 <= a <= b <= |text| && !Tears(text, a) && !Tears(text, b)
    ensures Decodes(text[a..b])
  {
    RemoveSplits(text, b);
    var head := text[..b];
    assert !Tears(head, a);
    RemoveSplits(head, a);
    assert head[a..] == text[a..b];
  }

  lemma {:induction false} CleanDecodes(units: Units)
    requires NoSurrogates(units)
    ensures Decodes(units)
  {
    if units != [] { CleanDecodes(units[1..]); }
  }

  lemma CharsDecode(s: string)
    ensures Decodes(Chars(s))
  {
    CleanDecodes(Chars(s));
  }

  lemma EscapeUnitDecodes(u: nat)
    requires !IsHigh(u) && !IsLow(u)
    ensures Decodes(EscapeUnit(u))
  {
    CharsDecode("&amp;");
    CharsDecode("&lt;");
    CharsDecode("&gt;");
    CharsDecode("&quot;");
    CharsDecode("&#x27;");
    CleanDecodes([u]);
  }

  lemma {:induction false} EscapeDecodes(text: Units)
    requires Decodes(text)
    ensures Decodes(Escape(text))
    decreases |text|
  {
    if text == [] {
    } else if IsHigh(text[0]) {
      EscapeDecodes(text[2..]);
      assert text[1..][1..] == text[2..];
      assert EscapeUnit(text[0]) == [text[0]] && EscapeUnit(text[1]) == [text[1]];
      assert Escape(text) == [text[0]] + ([text[1]] + Escape(text[2..]));
      assert Escape(text)[2..] == Escape(text[2..]);
    } else {
      EscapeUnitDecodes(text[0]);
      EscapeDecodes(text[1..]);
      DecodesConcat(EscapeUnit(text[0]), Escape(text[1..]));
    }
  }

  lemma {:induction false} TagsDecode(tokens: seq<Token>)
    requires forall k :: 0 <= k < |tokens| ==> !tokens[k].Data?
    ensures Decodes(Render(tokens))
    decreases |tokens|
  {
    if tokens != [] {
      TagsDecode(tokens[1..]);
      match tokens[0] {
        case Start(tag, attrs) => CharsDecode("<" + tag + RenderAttrs(attrs) + ">");
        case End(tag) => CharsDecode("</" + tag + ">");
      }
      DecodesConcat(RenderToken(tokens[0]), Render(tokens[1..]));
    }
  }

  /** Every tag is written at an end of its piece. */
  ghost predicate AtEnds(ps: seq<Piece>, ops: seq<Op>) {
    forall k :: 0 <= k < |ops| ==> AtEnd(ps, ops[k])
  }

  predicate AtEnd(ps: seq<Piece>, op: Op) {
    op.piece < |ps| && op.offset == if op.opening then ps[op.piece].start else ps[op.piece].end
  }

  lemma {:induction false} OneAtEnds(ps: seq<Piece>, i: nat)
    requires i < |ps|
    ensures AtEnds(ps, EmitOne(ps, i).ops)
    decreases |ps| - i, 0
  {
    if !ps[i].kind.Unsupported? { ForestAtEnds(ps, i + 1, ps[i].end); }
  }

  lemma {:induction false} ForestAtEnds(ps: seq<Piece>, i: nat, limit: int)
    requires i <= |ps|
    ensures AtEnds(ps, EmitForest(ps, i, limit).ops)
    decreases |ps| - i, 1
  {
    if i < |ps| && ps[i].start < limit {
      OneAtEnds(ps, i);
      ForestAtEnds(ps, EmitOne(ps, i).next, limit);
    }
  }

  lemma {:induction false} TokensDecode(ps: seq<Piece>, text: Units, ops: seq<Op>, at: int)
    requires 0 <= at <= |text| && Placed(ps, ops, at, |text|) && Decodes(text) && !Tears(text, at)
    requires forall k :: 0 <= k < |ops| ==> !Tears(text, ops[k].offset)
    ensures Decodes(Render(Tokens(ps, text, ops, at)))
    decreases |ops|
  {
    hide Escape, RenderToken, StartTokens, EndTokens, RemoveSurrogates;
    if ops == [] {
      SliceDecodes(text, at, |text|);
      assert text[at..] == text[at..|text|];
      OneDataDecodes(text[at..]);
    } else {
      var data, tags, rest := Data(text[at..ops[0].offset]), OpTokens(ps, ops[0]), Tokens(ps, text, ops[1..], ops[0].offset);
      SliceDecodes(text, at, ops[0].offset);
      OneDataDecodes(data.text);
      OpTagsOnly(ps, ops[0]);
      TagsDecode(tags);
      TokensDecode(ps, text, ops[1..], ops[0].offset);
      RenderConcat([data] + tags, rest);
      RenderConcat([data], tags);
      DecodesConcat(Render([data]), Render(tags));
      DecodesConcat(Render([data] + tags), Render(rest));
    }
  }

  lemma OneDataDecodes(text: Units)
    requires Decodes(text)
    ensures Decodes(Render([Data(text)]))
  {
    EscapeDecodes(text);
    assert [Data(text)][1..] == [];
    assert Render([Data(text)]) == Escape(text) + [];
    assert Escape(text) + [] == Escape(text);
  }

  lemma OpTagsOnly(ps: seq<Piece>, op: Op)
    requires Names(ps, op)
    ensures forall k :: 0 <= k < |OpTokens(ps, op)| ==> !OpTokens(ps, op)[k].Data?
  {}

  /** unparse never tears a surrogate pair: for any text free of surrogates of its
      own and any entities inside it, the final decoding cannot raise. */
  lemma UnparseDecodes(points: seq<nat>, entities: seq<Extent>, kinds: seq<Kind>)
    requires CodePoints(points) && NoSurrogates(points)
    requires |kinds| == |entities| && forall k :: 0 <= k < |entities| ==> InText(AddSurrogates(points), entities[k])
    ensures var text := AddSurrogates(points);
            var ps := PiecesOf(text, entities, kinds);
            && WellFormed(ps, |text|) && Placed(ps, Emit(ps), 0, |text|)
            && Decodes(Render(Tokens(ps, text, Emit(ps), 0)))
  {
    hide Tokens, Emit, RemoveSurrogates;
    var text := AddSurrogates(points);
    var ps := PiecesOf(text, entities, kinds);
    SplitWellFormed(text, entities, kinds);
    EmittedPlaced(ps, |text|);
    AddThenRemove(points);
    OpsTearNothing(text, entities, kinds);
    TokensDecode(ps, text, Emit(ps), 0);
  }

  lemma EmitAtEnds(ps: seq<Piece>, n: nat)
    requires WellFormed(ps, n)
    ensures AtEnds(ps, Emit(ps))
  {
    EmitAllForest(ps, n, 0);
    ForestAtEnds(ps, 0, n + 1);
  }

  // ------------------------------------------------------ from entity to entity

  /** The round trip from the entities a caller passes: the text always comes
      back, and exactly the pieces split_crossing_spans makes of the entities come
      back if and only if nothing clashes and no link reads as a mention. */
  lemma EntitiesRoundTrip(points: seq<nat>, entities: seq<Extent>, kinds: seq<Kind>)
    requires CodePoints(points)
    requires |kinds| == |entities| && forall k :: 0 <= k < |entities| ==> InText(AddSurrogates(points), entities[k])
    ensures var text := AddSurrogates(points);
            var ps := PiecesOf(text, entities, kinds);
            && WellFormed(ps, |text|) && Placed(ps, Emit(ps), 0, |text|) && AllSupported(ps, Closes(Emit(ps)))
            && var st := Run(INITIAL, Tokens(ps, text, Emit(ps), 0));
               && st.text == text
               && (st.entities == Meant(ps, Closes(Emit(ps))) <==> NoClash(ps, 0, |ps|) && AllReadBack(ps))
  {
    var text := AddSurrogates(points);
    AddSurrogatesBelow(points);
    SplitWellFormed(text, entities, kinds);
    RoundTrip(PiecesOf(text, entities, kinds), text);
  }

  /** A code inside a pre does not come back. */
  lemma CodeInPreLost(ps: seq<Piece>, text: Units)
    requires ps == [Piece(0, 1, Pre("")), Piece(0, 1, Code)] && text == [120]
    ensures WellFormed(ps, |text|) && Placed(ps, Emit(ps), 0, |text|) && AllSupported(ps, Closes(Emit(ps)))
    ensures Run(INITIAL, Tokens(ps, text, Emit(ps), 0)).entities != Meant(ps, Closes(Emit(ps)))
  {
    hide Run, Tokens, Emit, Meant;
    assert Nested(ps, 0, 1) && Clash(ps[0].kind, ps[1].kind);
    RoundTrip(ps, text);
  }

  /** Nor does a pre with a language inside a code. */
  lemma LanguagePreInCodeLost(ps: seq<Piece>, text: Units)
    requires ps == [Piece(0, 1, Code), Piece(0, 1, Pre("py"))] && text == [120]
    ensures WellFormed(ps, |text|) && Placed(ps, Emit(ps), 0, |text|) && AllSupported(ps, Closes(Emit(ps)))
    ensures Run(INITIAL, Tokens(ps, text, Emit(ps), 0)).entities != Meant(ps, Closes(Emit(ps)))
  {
    hide Run, Tokens, Emit, Meant;
    assert Nested(ps, 0, 1) && Clash(ps[0].kind, ps[1].kind);
    RoundTrip(ps, text);
  }

  /** Nor does a link with a mention's prefix and one digit, of whatever script. */
  lemma MentionLinkLost(ps: seq<Piece>, text: Units, c: char)
    requires IsDigit(c) && ps == [Piece(0, 1, TextLink(MENTION_PREFIX + [c]))] && text == [120]
    ensures WellFormed(ps, |text|) && Placed(ps, Emit(ps), 0, |text|) && AllSupported(ps, Closes(Emit(ps)))
    ensures Run(INITIAL, Tokens(ps, text, Emit(ps), 0)).entities != Meant(ps, Closes(Emit(ps)))
  {
    hide Run, Tokens, Emit, Meant, IsDigit, ReadsBack;
    LinkReadAsMention(c);
    assert !ReadsBack(ps[0].kind);
    RoundTrip(ps, text);
  }

  /** After HTML.parse has clipped the closed entities to the stripped message,
      each of them is non-empty, inside the message, and part of an entity that
      covered the text between its own start tag and an end tag. */
  lemma ParseKeepsInside(tokens: seq<Token>, limit: nat, e: Entity)
    requires limit <= |Run(INITIAL, tokens).text| && e in ClipAll(Run(INITIAL, tokens).entities, limit)
    ensures 0 < e.length && e.offset + e.length <= limit
    ensures exists whole :: Explained(tokens, whole) && whole.offset == e.offset && e.length <= whole.length && whole.raw == e.raw
  {
    hide Run, Explained;
    var st := Run(INITIAL, tokens);
    AlwaysConsistent(tokens);
    ClippedInside(st.entities, limit);
    var k :| 0 <= k < |st.entities| && Clip(st.entities[k], limit) == Some(e);
    assert Explained(tokens, st.entities[k]);
  }

  // ---------------------------------------------------------- from text to text

  /** The token with its text decoded. */
  function Decoded(t: Token): Token
    requires t.Data? ==> RemoveSurrogates(t.text).Some?
  {
    if t.Data? then Data(RemoveSurrogates(t.text).value) else t
  }

  ghost predicate AllDecode(tokens: seq<Token>) {
    forall k :: 0 <= k < |tokens| ==> tokens[k].Data? ==> RemoveSurrogates(tokens[k].text).Some?
  }

  function AllDecoded(tokens: seq<Token>): (r: seq<Token>)
    requires AllDecode(tokens)
    ensures |r| == |tokens|
  {
    seq(|tokens|, k requires 0 <= k < |tokens| => Decoded(tokens[k]))
  }

  lemma {:induction false} CleanStays(units: Units)
    requires NoSurrogates(units)
    ensures RemoveSurrogates(units) == Some(units)
  {
    if units != [] {
      CleanStays(units[1..]);
      assert [units[0]] + units[1..] == units;
    }
  }

  lemma EscapeUnitStays(u: nat)
    requires !IsHigh(u) && !IsLow(u)
    ensures RemoveSurrogates(EscapeUnit(u)) == Some(EscapeUnit(u))
  {
    CleanStays(EscapeUnit(u));
  }

  /** Escaping and decoding can be done in either order. */
  lemma {:induction false} EscapeCommutes(text: Units)
    requires RemoveSurrogates(text).Some?
    ensures RemoveSurrogates(Escape(text)) == Some(Escape(RemoveSurrogates(text).value))
    decreases |text|
  {
    if text == [] {
    } else if IsHigh(text[0]) {
      EscapeCommutes(text[2..]);
      PairCommutes(text);
    } else {
      EscapeCommutes(text[1..]);
      UnitCommutes(text);
    }
  }

  lemma PairCommutes(text: Units)
    requires text != [] && IsHigh(text[0]) && RemoveSurrogates(text).Some?
    requires RemoveSurrogates(Escape(text[2..])) == Some(Escape(RemoveSurrogates(text[2..]).value))
    ensures RemoveSurrogates(Escape(text)) == Some(Escape(RemoveSurrogates(text).value))
  {
    hide Escape;
    var p, rest := Join(text[0], text[1]), RemoveSurrogates(text[2..]).value;
    EscapeFirst(text);
    EscapeFirst(text[1..]);
    EscapeFirst([p] + rest);
    assert text[1..][1..] == text[2..] && ([p] + rest)[1..] == rest;
    assert EscapeUnit(text[0]) == [text[0]] && EscapeUnit(text[1]) == [text[1]] && EscapeUnit(p) == [p];
    assert [text[0]] + ([text[1]] + Escape(text[2..])) == [text[0], text[1]] + Escape(text[2..]);
    assert ([text[0], text[1]] + Escape(text[2..]))[2..] == Escape(text[2..]);
  }

  lemma UnitCommutes(text: Units)
    requires text != [] && !IsHigh(text[0]) && RemoveSurrogates(text).Some?
    requires RemoveSurrogates(Escape(text[1..])) == Some(Escape(RemoveSurrogates(text[1..]).value))
    ensures RemoveSurrogates(Escape(text)) == Some(Escape(RemoveSurrogates(text).value))
  {
    hide Escape, EscapeUnit;
    EscapeFirst(text);
    EscapeUnitStays(text[0]);
    RemoveConcat(EscapeUnit(text[0]), Escape(text[1..]));
    var rest := RemoveSurrogates(text[1..]).value;
    EscapeFirst([text[0]] + rest);
    assert ([text[0]] + rest)[1..] == rest;
  }

  lemma EscapeFirst(text: Units)
    requires text != []
    ensures Escape(text) == EscapeUnit(text[0]) + Escape(text[1..])
  {}

  lemma TokenCommutes(t: Token)
    requires t.Data? ==> RemoveSurrogates(t.text).Some?
    ensures RemoveSurrogates(RenderToken(t)) == Some(RenderToken(Decoded(t)))
  {
    if t.Data? { EscapeCommutes(t.text); } else { CleanStays(RenderToken(t)); }
  }

  lemma {:induction false} RenderCommutes(tokens: seq<Token>)
    requires AllDecode(tokens)
    ensures RemoveSurrogates(Render(tokens)) == Some(Render(AllDecoded(tokens)))
    decreases |tokens|
  {
    hide RenderToken, Decoded, RemoveSurrogates;
    if tokens == [] {
      NothingRemoved();
    } else {
      RenderCommutes(tokens[1..]);
      TokenCommutes(tokens[0]);
      RemoveConcat(RenderToken(tokens[0]), Render(tokens[1..]));
      assert AllDecoded(tokens)[1..] == AllDecoded(tokens[1..]);
    }
  }

  lemma NothingRemoved()
    ensures RemoveSurrogates([]) == Some([])
  {}

  /** What is decoded is encoded to the same units again. */
  lemma {:induction false} RemoveThenAdd(units: Units)
    requires RemoveSurrogates(units).Some? && forall k :: 0 <= k < |units| ==> units[k] <= 0xFFFF
    ensures AddSurrogates(RemoveSurrogates(units).value) == units
    decreases |units|
  {
    hide UnitsOf, Join;
    if units == [] {
    } else if IsHigh(units[0]) {
      RemoveThenAdd(units[2..]);
      var p, rest := Join(units[0], units[1]), RemoveSurrogates(units[2..]).value;
      JoinSplits(units[0], units[1]);
      assert ([p] + rest)[0] == p && ([p] + rest)[1..] == rest;
      assert [units[0], units[1]] + units[2..] == units;
    } else {
      RemoveThenAdd(units[1..]);
      var rest := RemoveSurrogates(units[1..]).value;
      SmallStays(units[0]);
      assert ([units[0]] + rest)[0] == units[0] && ([units[0]] + rest)[1..] == rest;
      assert [units[0]] + units[1..] == units;
    }
  }

  lemma JoinSplits(high: nat, low: nat)
    requires IsHigh(high) && IsLow(low)
    ensures UnitsOf(Join(high, low)) == [high, low]
  {}

  lemma SmallStays(u: nat)
    requires u <= 0xFFFF
    ensures UnitsOf(u) == [u]
  {}

  lemma {:induction false} UnitsStay(units: Units)
    requires forall k :: 0 <= k < |units| ==> units[k] <= 0xFFFF
    ensures AddSurrogates(units) == units
  {
    if units != [] {
      UnitsStay(units[1..]);
      assert [units[0]] + units[1..] == units;
    }
  }

  /** To the parser, decoded text is the text. */
  lemma {:induction false} DecodedRuns(st: State, tokens: seq<Token>)
    requires AllDecode(tokens) && AllUnits(tokens)
    ensures Run(st, AllDecoded(tokens)) == Run(st, tokens)
    decreases |tokens|
  {
    hide HandleStart, HandleEnd, RemoveSurrogates, AddSurrogates;
    if tokens != [] {
      var t := tokens[0];
      if t.Data? {
        RemoveThenAdd(t.text);
        UnitsStay(t.text);
      }
      DecodedRuns(Step(st, t), tokens[1..]);
      assert AllDecoded(tokens)[1..] == AllDecoded(tokens[1..]);
    }
  }

  ghost predicate AllUnits(tokens: seq<Token>) {
    forall i, j :: 0 <= i < |tokens| && tokens[i].Data? && 0 <= j < |tokens[i].text| ==> tokens[i].text[j] <= 0xFFFF
  }

  /** Nor does it notice how text is cut. */
  lemma {:induction false} JoinedRuns(st: State, tokens: seq<Token>)
    ensures Run(st, Joined(tokens)) == Run(st, tokens)
    decreases |tokens|
  {
    hide HandleData, HandleStart, HandleEnd;
    if tokens != [] {
      var t, rest := tokens[0], Joined(tokens[1..]);
      JoinedRuns(Step(st, t), tokens[1..]);
      if !t.Data? {
        assert ([t] + rest)[1..] == rest;
      } else {
        DataSplits(st, t.text, []);
        if t.text == [] {
        } else if rest != [] && rest[0].Data? {
          DataSplits(st, t.text, rest[0].text);
          assert ([Data(t.text + rest[0].text)] + rest[1..])[1..] == rest[1..];
        } else {
          assert ([t] + rest)[1..] == rest;
        }
      }
    }
  }

  lemma {:induction false} TokensInUnits(ps: seq<Piece>, text: Units, ops: seq<Op>, at: int)
    requires 0 <= at <= |text| && Placed(ps, ops, at, |text|) && Decodes(text) && !Tears(text, at)
    requires forall k :: 0 <= k < |ops| ==> !Tears(text, ops[k].offset)
    requires forall k :: 0 <= k < |text| ==> text[k] <= 0xFFFF
    ensures AllDecode(Tokens(ps, text, ops, at)) && AllUnits(Tokens(ps, text, ops, at))
    decreases |ops|
  {
    hide StartTokens, EndTokens, RemoveSurrogates;
    if ops == [] {
      SliceDecodes(text, at, |text|);
      assert text[at..] == text[at..|text|];
    } else {
      SliceDecodes(text, at, ops[0].offset);
      OpTagsOnly(ps, ops[0]);
      TokensInUnits(ps, text, ops[1..], ops[0].offset);
    }
  }

  lemma {:induction false} PointsInUnits(points: seq<nat>)
    requires CodePoints(points)
    ensures forall k :: 0 <= k < |AddSurrogates(points)| ==> AddSurrogates(points)[k] <= 0xFFFF
  {
    if points != [] { PointsInUnits(points[1..]); }
  }

  lemma DecodedReadable(tokens: seq<Token>)
    requires AllDecode(tokens) && AllReadable(tokens)
    ensures AllReadable(AllDecoded(tokens))
  {
    hide Readable;
    forall k | 0 <= k < |tokens| ensures Readable(AllDecoded(tokens)[k]) {
      assert Readable(tokens[k]);
      if tokens[k].Data? { DataReadable(RemoveSurrogates(tokens[k].text).value); }
    }
  }

  /** unparse and then parse, from text to text: for any text without surrogates of its
      own and any entities inside it whose values come through quotes, what unparse
      returns can be read, the text comes back, and the pieces of the entities do
      exactly if nothing clashes and no link reads as a mention. */
  lemma HtmlComesBack(points: seq<nat>, entities: seq<Extent>, kinds: seq<Kind>)
    requires CodePoints(points) && NoSurrogates(points)
    requires |kinds| == |entities| && forall k :: 0 <= k < |entities| ==> InText(AddSurrogates(points), entities[k])
    requires forall k :: 0 <= k < |kinds| ==> ReadableKind(kinds[k])
    ensures var text := AddSurrogates(points);
            var ps := PiecesOf(text, entities, kinds);
            && WellFormed(ps, |text|) && Placed(ps, Emit(ps), 0, |text|) && AllSupported(ps, Closes(Emit(ps)))
            && var html := RemoveSurrogates(Render(Tokens(ps, text, Emit(ps), 0)));
               && html.Some? && Lex(html.value).Some?
               && var st := Run(INITIAL, Lex(html.value).value);
                  && st.text == text && RemoveSurrogates(st.text) == Some(points)
                  && (st.entities == Meant(ps, Closes(Emit(ps))) <==> NoClash(ps, 0, |ps|) && AllReadBack(ps))
  {
    hide Tokens, Emit, RemoveSurrogates, Render, Lex, Run, Joined, ReadableKind, AllReadable, AllDecoded, PiecesOf;
    var text := AddSurrogates(points);
    var ps := PiecesOf(text, entities, kinds);
    EntitiesRoundTrip(points, entities, kinds);
    var tokens := Tokens(ps, text, Emit(ps), 0);
    WrittenTokens(points, entities, kinds);
    AddThenRemove(points);
    RenderCommutes(tokens);
    DecodedReadable(tokens);
    RenderReads(AllDecoded(tokens));
    JoinedRuns(INITIAL, AllDecoded(tokens));
    DecodedRuns(INITIAL, tokens);
  }

  lemma WrittenTokens(points: seq<nat>, entities: seq<Extent>, kinds: seq<Kind>)
    requires CodePoints(points) && NoSurrogates(points)
    requires |kinds| == |entities| && forall k :: 0 <= k < |entities| ==> InText(AddSurrogates(points), entities[k])
    requires forall k :: 0 <= k < |kinds| ==> ReadableKind(kinds[k])
    ensures var text := AddSurrogates(points);
            var ps := PiecesOf(text, entities, kinds);
            && Placed(ps, Emit(ps), 0, |text|)
            && var tokens := Tokens(ps, text, Emit(ps), 0);
               AllDecode(tokens) && AllUnits(tokens) && AllReadable(tokens)
  {
    hide Tokens, RemoveSurrogates, ReadableKind, AllReadable, AllDecode, AllUnits;
    var text := AddSurrogates(points);
    var ps := PiecesOf(text, entities, kinds);
    SplitWellFormed(text, entities, kinds);
    EmittedPlaced(ps, |text|);
    AddThenRemove(points);
    PointsInUnits(points);
    OpsTearNothing(text, entities, kinds);
    TokensInUnits(ps, text, Emit(ps), 0);
    NothingReadable();
    TokensReadable(ps, text, Emit(ps), 0);
  }

  lemma OpsTearNothing(text: Units, entities: seq<Extent>, kinds: seq<Kind>)
    requires |kinds| == |entities| && forall k :: 0 <= k < |entities| ==> InText(text, entities[k])
    ensures var ops := Emit(PiecesOf(text, entities, kinds));
            forall k :: 0 <= k < |ops| ==> !Tears(text, ops[k].offset)
  {
    hide Emit;
    var ps, spans := PiecesOf(text, entities, kinds), SplitSpans(text, entities);
    SplitWellFormed(text, entities, kinds);
    SplitSpansCorrect(text, entities);
    NothingTorn(text, entities, spans);
    EmitAtEnds(ps, |text|);
    forall k | 0 <= k < |Emit(ps)| ensures !Tears(text, Emit(ps)[k].offset) {
      var op := Emit(ps)[k];
      assert AtEnd(ps, op);
      assert spans[op.piece] in spans;
    }
  }
}
