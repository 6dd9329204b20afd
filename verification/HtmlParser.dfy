/** pyrogram/parser/html.py, reading: the Parser callbacks as steps on a state,
    the class that performs them in place, and the clipping in HTML.parse. */
module HtmlParser {
  import opened Spans
  import opened Markup

  datatype Entity = Entity(raw: Raw, offset: nat, length: nat)

  /** text, entities and tag_entities of the source's Parser. */
  datatype State = State(text: Units, entities: seq<Entity>, open: map<string, seq<Entity>>)

  const INITIAL: State := State([], [], map[])

  function Stack(st: State, tag: string): seq<Entity> {
    if tag in st.open then st.open[tag] else []
  }

  function GrowAll(es: seq<Entity>, n: nat): (r: seq<Entity>)
    ensures |r| == |es|
    ensures forall k :: 0 <= k < |es| ==> r[k] == es[k].(length := es[k].length + n)
  {
    seq(|es|, k requires 0 <= k < |es| => es[k].(length := es[k].length + n))
  }

  /** Every open entity gets longer by n. */
  function Grow(open: map<string, seq<Entity>>, n: nat): map<string, seq<Entity>> {
    map t | t in open :: GrowAll(open[t], n)
  }

  function SetLanguage(e: Entity, language: string): Entity {
    if e.raw.RawPre? then e.(raw := RawPre(language)) else e
  }

  function Push(st: State, tag: string, raw: Raw): State {
    st.(open := st.open[tag := Stack(st, tag) + [Entity(raw, |st.text|, 0)]])
  }

  function HandleStart(st: State, tag: string, attrs: seq<Attr>): State {
    var pres := Stack(st, "pre");
    if tag == "code" && pres != [] then
      var class_ := TextOr(attrs, "class", "");
      if |class_| >= 9 && class_[..9] == LANGUAGE_PREFIX
      then st.(open := st.open["pre" := pres[..|pres| - 1] + [SetLanguage(pres[|pres| - 1], class_[9..])]])
      else st
    else
      match Opening(tag, attrs)
      case None => st
      case Some(raw) => Push(st, tag, raw)
  }

  function HandleData(st: State, data: seq<nat>): State {
    var units := AddSurrogates(data);
    State(st.text + units, st.entities, Grow(st.open, |units|))
  }

  function HandleEnd(st: State, tag: string): State {
    var es := Stack(st, tag);
    if es == [] then st
    else
      State(st.text, st.entities + [es[|es| - 1]],
            if |es| == 1 then st.open - {tag} else st.open[tag := es[..|es| - 1]])
  }

  function Step(st: State, token: Token): State {
    match token
    case Start(tag, attrs) => HandleStart(st, tag, attrs)
    case Data(text) => HandleData(st, text)
    case End(tag) => HandleEnd(st, tag)
  }

  function Run(st: State, tokens: seq<Token>): State
    decreases |tokens|
  {
    if tokens == [] then st else Run(Step(st, tokens[0]), tokens[1..])
  }

  /** A code inside an open pre opens nothing: a class that begins with language- names
      the language of the innermost pre, any other does nothing. */
  lemma CodeInsidePre(st: State, attrs: seq<Attr>, language: string)
    requires Stack(st, "pre") != []
    ensures TextOr(attrs, "class", "") == "language-" + language ==>
      var pres := Stack(st, "pre");
      var t, last := HandleStart(st, "code", attrs), pres[|pres| - 1];
      && t.text == st.text && t.entities == st.entities
      && t.open == st.open["pre" := pres[..|pres| - 1] + [SetLanguage(last, language)]]
    ensures !("language-" <= TextOr(attrs, "class", "")) ==> HandleStart(st, "code", attrs) == st
  {
    var class_ := TextOr(attrs, "class", "");
    if class_ == "language-" + language { assert class_[9..] == language && class_[..9] == "language-"; }
  }

  lemma {:induction false} RunConcat(st: State, a: seq<Token>, b: seq<Token>)
    ensures Run(st, a + b) == Run(Run(st, a), b)
    decreases |a|
  {
    hide Step;
    if a == [] {
      assert a + b == b;
    } else {
      RunConcat(Step(st, a[0]), a[1..], b);
      assert (a + b)[1..] == a[1..] + b;
    }
  }

  lemma RunSnoc(st: State, a: seq<Token>, t: Token)
    ensures Run(st, a + [t]) == Step(Run(st, a), t)
  {
    RunConcat(st, a, [t]);
    assert [t][1..] == [];
    assert Run(Run(st, a), [t]) == Run(Step(Run(st, a), t), []);
  }

  // --------------------------------------------------------- growing commutes

  lemma GrowZero(open: map<string, seq<Entity>>)
    ensures Grow(open, 0) == open
  {
    forall t | t in open ensures GrowAll(open[t], 0) == open[t] {}
  }

  lemma GrowTwice(open: map<string, seq<Entity>>, a: nat, b: nat)
    ensures Grow(Grow(open, a), b) == Grow(open, a + b)
  {
    forall t | t in open ensures GrowAll(GrowAll(open[t], a), b) == GrowAll(open[t], a + b) {}
  }

  lemma {:induction false} AddSurrogatesConcat(a: seq<nat>, b: seq<nat>)
    ensures AddSurrogates(a + b) == AddSurrogates(a) + AddSurrogates(b)
  {
    hide UnitsOf;
    if a == [] {
      assert a + b == b;
    } else {
      AddSurrogatesConcat(a[1..], b);
      assert (a + b)[0] == a[0] && (a + b)[1..] == a[1..] + b;
      var first := UnitsOf(a[0]);
      assert first + (AddSurrogates(a[1..]) + AddSurrogates(b)) == (first + AddSurrogates(a[1..])) + AddSurrogates(b);
    }
  }

  /** The tokenizer may deliver a run of text in any number of pieces. */
  lemma DataSplits(st: State, a: seq<nat>, b: seq<nat>)
    ensures HandleData(HandleData(st, a), b) == HandleData(st, a + b)
    ensures HandleData(st, []) == st
  {
    AddSurrogatesConcat(a, b);
    GrowTwice(st.open, |AddSurrogates(a)|, |AddSurrogates(b)|);
    GrowZero(st.open);
    assert st.text + AddSurrogates([]) == st.text;
    assert st.text + AddSurrogates(a) + AddSurrogates(b) == st.text + (AddSurrogates(a) + AddSurrogates(b));
  }

  // ------------------------------------------------- any sequence of events

  /** All text in the data tokens. */
  function TextOf(tokens: seq<Token>): Units {
    if tokens == [] then []
    else TextOf(tokens[..|tokens| - 1])
         + match tokens[|tokens| - 1]
           case Data(t) => AddSurrogates(t)
           case _ => []
  }

  /** What is left of a raw entity when a pre's language is ignored. */
  function Shape(raw: Raw): Raw {
    if raw.RawPre? then RawPre("") else raw
  }

  /** Token i opened e under tag: it is e's start tag and e starts where the text
      stood there. */
  ghost predicate OpenedAt(tokens: seq<Token>, i: nat, tag: string, e: Entity) {
    && i < |tokens| && tokens[i].Start? && tokens[i].tag == tag
    && Opening(tag, tokens[i].attrs).Some?
    && Shape(Opening(tag, tokens[i].attrs).value) == Shape(e.raw)
    && e.offset == |TextOf(tokens[..i])|
  }

  /** e covers exactly the text between its start tag, token i, and token j. */
  ghost predicate Covers(tokens: seq<Token>, i: nat, j: nat, e: Entity) {
    && i < j < |tokens| && tokens[j].End?
    && OpenedAt(tokens, i, tokens[j].tag, e)
    && e.offset + e.length == |TextOf(tokens[..j])|
  }

  ghost predicate Explained(tokens: seq<Token>, e: Entity) {
    exists i: nat, j: nat :: Covers(tokens, i, j, e)
  }

  ghost predicate Pending(tokens: seq<Token>, tag: string, e: Entity) {
    && e.offset + e.length == |TextOf(tokens)|
    && exists i: nat :: OpenedAt(tokens, i, tag, e)
  }

  /** What holds after any tokens, well nested or not: every stack is non-empty,
      every open entity reaches from its start tag to the end of the text, every
      closed one covers the text between its start tag and an end tag of the same
      name. */
  ghost predicate Consistent(tokens: seq<Token>, st: State) {
    && st.text == TextOf(tokens)
    && (forall t :: t in st.open ==> st.open[t] != [])
    && (forall t, k :: t in st.open && 0 <= k < |st.open[t]| ==> Pending(tokens, t, st.open[t][k]))
    && (forall k :: 0 <= k < |st.entities| ==> Explained(tokens, st.entities[k]))
  }

  lemma OpenedStays(tokens: seq<Token>, t: Token, i: nat, tag: string, e: Entity, e': Entity)
    requires OpenedAt(tokens, i, tag, e) && e'.offset == e.offset && Shape(e'.raw) == Shape(e.raw)
    ensures OpenedAt(tokens + [t], i, tag, e')
  {
    assert (tokens + [t])[..i] == tokens[..i];
  }

  lemma PendingStays(tokens: seq<Token>, t: Token, tag: string, e: Entity, e': Entity)
    requires Pending(tokens, tag, e) && e'.offset == e.offset && Shape(e'.raw) == Shape(e.raw)
    requires e'.offset + e'.length == |TextOf(tokens + [t])|
    ensures Pending(tokens + [t], tag, e')
  {
    var i: nat :| OpenedAt(tokens, i, tag, e);
    OpenedStays(tokens, t, i, tag, e, e');
  }

  lemma ExplainedStays(tokens: seq<Token>, t: Token, e: Entity)
    requires Explained(tokens, e)
    ensures Explained(tokens + [t], e)
  {
    var i: nat, j: nat :| Covers(tokens, i, j, e);
    OpenedStays(tokens, t, i, tokens[j].tag, e, e);
    assert (tokens + [t])[..j] == tokens[..j];
    assert Covers(tokens + [t], i, j, e);
  }

  lemma TextOfSnoc(tokens: seq<Token>, t: Token)
    ensures TextOf(tokens + [t]) == TextOf(tokens) + if t.Data? then AddSurrogates(t.text) else []
  {
    assert (tokens + [t])[..|tokens|] == tokens;
  }

  lemma StepConsistent(tokens: seq<Token>, st: State, t: Token)
    requires Consistent(tokens, st)
    ensures Consistent(tokens + [t], Step(st, t))
  {
    TextOfSnoc(tokens, t);
    forall k | 0 <= k < |st.entities| ensures Explained(tokens + [t], st.entities[k]) {
      ExplainedStays(tokens, t, st.entities[k]);
    }
    match t {
      case Start(tag, attrs) => StartConsistent(tokens, st, tag, attrs);
      case Data(text) => DataConsistent(tokens, st, text);
      case End(tag) => EndConsistent(tokens, st, tag);
    }
  }

  lemma DataConsistent(tokens: seq<Token>, st: State, text: Units)
    requires Consistent(tokens, st)
    requires forall k :: 0 <= k < |st.entities| ==> Explained(tokens + [Data(text)], st.entities[k])
    ensures Consistent(tokens + [Data(text)], HandleData(st, text))
  {
    var t, st' := Data(text), HandleData(st, text);
    TextOfSnoc(tokens, t);
    forall g, k | g in st'.open && 0 <= k < |st'.open[g]| ensures Pending(tokens + [t], g, st'.open[g][k]) {
      PendingStays(tokens, t, g, st.open[g][k], st'.open[g][k]);
    }
  }

  lemma StartConsistent(tokens: seq<Token>, st: State, tag: string, attrs: seq<Attr>)
    requires Consistent(tokens, st)
    requires forall k :: 0 <= k < |st.entities| ==> Explained(tokens + [Start(tag, attrs)], st.entities[k])
    ensures Consistent(tokens + [Start(tag, attrs)], HandleStart(st, tag, attrs))
  {
    hide Opening, TextOf, TextOr, OpenedAt, Explained;
    var t, st' := Start(tag, attrs), HandleStart(st, tag, attrs);
    if (tag == "code" && Stack(st, "pre") != []) || Opening(tag, attrs).None? {
      TextOfSnoc(tokens, t);
      forall g, k | g in st'.open && 0 <= k < |st'.open[g]| ensures Pending(tokens + [t], g, st'.open[g][k]) {
        PendingStays(tokens, t, g, st.open[g][k], st'.open[g][k]);
      }
    } else {
      PushConsistent(tokens, st, tag, attrs);
    }
  }

  lemma PushConsistent(tokens: seq<Token>, st: State, tag: string, attrs: seq<Attr>)
    requires Consistent(tokens, st) && Opening(tag, attrs).Some?
    requires forall k :: 0 <= k < |st.entities| ==> Explained(tokens + [Start(tag, attrs)], st.entities[k])
    ensures Consistent(tokens + [Start(tag, attrs)], Push(st, tag, Opening(tag, attrs).value))
  {
    hide Opening, Explained, OpenedAt, TextOf;
    var t, st' := Start(tag, attrs), Push(st, tag, Opening(tag, attrs).value);
    TextOfSnoc(tokens, t);
    forall g, k | g in st'.open && 0 <= k < |st'.open[g]| ensures Pending(tokens + [t], g, st'.open[g][k]) {
      if g in st.open && k < |st.open[g]| {
        PendingStays(tokens, t, g, st.open[g][k], st'.open[g][k]);
      } else {
        PendingOpened(tokens, tag, attrs, st'.open[g][k]);
      }
    }
  }

  lemma PendingOpened(tokens: seq<Token>, tag: string, attrs: seq<Attr>, e: Entity)
    requires Opening(tag, attrs).Some?
    requires e == Entity(Opening(tag, attrs).value, |TextOf(tokens)|, 0)
    ensures TextOf(tokens + [Start(tag, attrs)]) == TextOf(tokens) && Pending(tokens + [Start(tag, attrs)], tag, e)
  {
    var t := Start(tag, attrs);
    TextOfSnoc(tokens, t);
    assert (tokens + [t])[..|tokens|] == tokens;
    assert OpenedAt(tokens + [t], |tokens|, tag, e);
  }

  lemma EndConsistent(tokens: seq<Token>, st: State, tag: string)
    requires Consistent(tokens, st)
    requires forall k :: 0 <= k < |st.entities| ==> Explained(tokens + [End(tag)], st.entities[k])
    ensures Consistent(tokens + [End(tag)], HandleEnd(st, tag))
  {
    var t, st' := End(tag), HandleEnd(st, tag);
    TextOfSnoc(tokens, t);
    forall g, k | g in st'.open && 0 <= k < |st'.open[g]| ensures Pending(tokens + [t], g, st'.open[g][k]) {
      PendingStays(tokens, t, g, st.open[g][k], st'.open[g][k]);
    }
    if Stack(st, tag) != [] {
      var e := Stack(st, tag)[|Stack(st, tag)| - 1];
      var i: nat :| OpenedAt(tokens, i, tag, e);
      OpenedStays(tokens, t, i, tag, e, e);
      assert (tokens + [t])[..|tokens|] == tokens;
      assert Covers(tokens + [t], i, |tokens|, e);
    }
  }

  /** Every state the parser can reach, from any token sequence, is consistent. */
  lemma {:induction false} AlwaysConsistent(tokens: seq<Token>)
    ensures Consistent(tokens, Run(INITIAL, tokens))
  {
    if tokens != [] {
      var init, t := tokens[..|tokens| - 1], tokens[|tokens| - 1];
      assert tokens == init + [t];
      AlwaysConsistent(init);
      RunSnoc(INITIAL, init, t);
      StepConsistent(init, Run(INITIAL, init), t);
    }
  }

  // ----------------------------------------------------------------- clipping

  /** One entity against the right-stripped message. */
  function Clip(e: Entity, limit: nat): Option<Entity> {
    if e.offset >= limit then None
    else
      var length := if e.length < limit - e.offset then e.length else limit - e.offset;
      if length > 0 then Some(e.(length := length)) else None
  }

  function ClipAll(es: seq<Entity>, limit: nat): seq<Entity> {
    if es == [] then []
    else
      ClipAll(es[..|es| - 1], limit)
      + match Clip(es[|es| - 1], limit)
        case Some(e) => [e]
        case None => []
  }

  method KeepInside(entities: seq<Entity>, limit: nat) returns (kept: seq<Entity>)
    ensures kept == ClipAll(entities, limit)
  {
    kept := [];
    for n := 0 to |entities|
      invariant kept == ClipAll(entities[..n], limit)
    {
      assert entities[..n + 1][..n] == entities[..n];
      var entity := entities[n];
      if entity.offset >= limit { continue; }
      var length := if entity.length < limit - entity.offset then entity.length else limit - entity.offset;
      if length > 0 {
        kept := kept + [entity.(length := length)];
      }
    }
    assert entities[..|entities|] == entities;
  }

  /** Every kept entity is non-empty, inside the message, and a closed entity cut
      at the message's end; one is dropped only if none of it is in the message. */
  lemma {:induction false} ClippedInside(es: seq<Entity>, limit: nat)
    ensures forall e :: e in ClipAll(es, limit) ==>
              && 0 < e.length && e.offset + e.length <= limit
              && exists k :: 0 <= k < |es| && Clip(es[k], limit) == Some(e)
    ensures forall k :: 0 <= k < |es| ==>
              if es[k].length > 0 && es[k].offset < limit
              then Clip(es[k], limit).Some? && Clip(es[k], limit).value in ClipAll(es, limit)
              else Clip(es[k], limit).None?
  {
    if es != [] {
      var init := es[..|es| - 1];
      ClippedInside(init, limit);
      forall e | e in ClipAll(init, limit) ensures exists k :: 0 <= k < |es| && Clip(es[k], limit) == Some(e) {
        var k :| 0 <= k < |init| && Clip(init[k], limit) == Some(e);
        assert es[k] == init[k];
      }
      assert forall k :: 0 <= k < |init| ==> es[k] == init[k];
    }
  }

  // ---------------------------------------------------------------- the class

  class Parser {
    var text: Units
    var entities: seq<Entity>
    var tagEntities: map<string, seq<Entity>>

    ghost function Value(): State
      reads this
    {
      State(text, entities, tagEntities)
    }

    constructor ()
      ensures Value() == INITIAL
    {
      text, entities, tagEntities := [], [], map[];
    }

    method HandleStartTag(tag: string, attrs: seq<Attr>)
      modifies this
      ensures Value() == HandleStart(old(Value()), tag, attrs)
    {
      if tag == "code" {
        var activePres := if "pre" in tagEntities then tagEntities["pre"] else [];
        if activePres != [] {
          var class_ := TextOr(attrs, "class", "");
          if |class_| >= 9 && class_[..9] == LANGUAGE_PREFIX {
            var last := activePres[|activePres| - 1];
            tagEntities := tagEntities["pre" := activePres[..|activePres| - 1] + [SetLanguage(last, class_[9..])]];
          }
          return;
        }
      }
      var opening := Opening(tag, attrs);
      if opening.None? { return; }
      if tag !in tagEntities {
        tagEntities := tagEntities[tag := []];
      }
      tagEntities := tagEntities[tag := tagEntities[tag] + [Entity(opening.value, |text|, 0)]];
    }

    method HandleDataText(data: seq<nat>)
      modifies this
      ensures Value() == HandleData(old(Value()), data)
    {
      var units := AddSurrogates(data);
      var pending := tagEntities.Keys;
      while pending != {}
        invariant pending <= old(tagEntities).Keys == tagEntities.Keys
        invariant text == old(text) && entities == old(entities)
        invariant forall t :: t in tagEntities ==>
                    tagEntities[t] == if t in pending then old(tagEntities)[t] else GrowAll(old(tagEntities)[t], |units|)
        decreases pending
      {
        var t :| t in pending;
        var stack := tagEntities[t];
        for k := 0 to |stack|
          invariant |stack| == |old(tagEntities)[t]|
          invariant forall i :: 0 <= i < |stack| ==>
                      stack[i] == if i < k then GrowAll(old(tagEntities)[t], |units|)[i] else old(tagEntities)[t][i]
        {
          stack := stack[k := stack[k].(length := stack[k].length + |units|)];
        }
        tagEntities := tagEntities[t := stack];
        pending := pending - {t};
      }
      text := text + units;
    }

    method HandleEndTag(tag: string)
      modifies this
      ensures Value() == HandleEnd(old(Value()), tag)
    {
      if tag !in tagEntities || tagEntities[tag] == [] { return; }
      var stack := tagEntities[tag];
      entities := entities + [stack[|stack| - 1]];
      tagEntities := tagEntities[tag := stack[..|stack| - 1]];
      if tagEntities[tag] == [] {
        tagEntities := tagEntities - {tag};
      }
    }
  }

  /** Feeding tokens to a fresh parser. */
  method Feed(tokens: seq<Token>) returns (parser: Parser)
    ensures fresh(parser) && parser.Value() == Run(INITIAL, tokens)
  {
    parser := new Parser();
    for n := 0 to |tokens|
      invariant fresh(parser) && parser.Value() == Run(INITIAL, tokens[..n])
    {
      RunSnoc(INITIAL, tokens[..n], tokens[n]);
      assert tokens[..n + 1] == tokens[..n] + [tokens[n]];
      match tokens[n] {
        case Start(tag, attrs) => parser.HandleStartTag(tag, attrs);
        case Data(text) => parser.HandleDataText(text);
        case End(tag) => parser.HandleEndTag(tag);
      }
    }
    assert tokens[..|tokens|] == tokens;
  }
}
