/** pyrogram/parser/html.py: how tokens are spelled, and that the lexer reads the
    spelling back. */
module HtmlRender {
  import opened Spans
  import opened Markup
  import opened HtmlLexer

  function EscapeUnit(u: nat): Units {
    if u == '&' as int then Chars("&amp;")
    else if u == '<' as int then Chars("&lt;")
    else if u == '>' as int then Chars("&gt;")
    else if u == '"' as int then Chars("&quot;")
    else if u == '\'' as int then Chars("&#x27;")
    else [u]
  }

  /** html.escape. */
  function Escape(text: Units): Units {
    if text == [] then [] else EscapeUnit(text[0]) + Escape(text[1..])
  }

  function RenderAttr(a: Attr): string {
    " " + a.name + match a.value
                   case Some(v) => "=\"" + v + "\""
                   case None => ""
  }

  function RenderAttrs(attrs: seq<Attr>): string {
    if attrs == [] then "" else RenderAttr(attrs[0]) + RenderAttrs(attrs[1..])
  }

  /** How a token is spelled. */
  function RenderToken(t: Token): Units {
    match t
    case Start(tag, attrs) => Chars("<" + tag + RenderAttrs(attrs) + ">")
    case End(tag) => Chars("</" + tag + ">")
    case Data(text) => Escape(text)
  }

  function Render(tokens: seq<Token>): Units
    decreases |tokens|
  {
    if tokens == [] then [] else RenderToken(tokens[0]) + Render(tokens[1..])
  }

  lemma {:induction false} RenderConcat(a: seq<Token>, b: seq<Token>)
    ensures Render(a + b) == Render(a) + Render(b)
    decreases |a|
  {
    hide RenderToken;
    if a == [] {
      assert a + b == b;
    } else {
      RenderConcat(a[1..], b);
      assert (a + b)[1..] == a[1..] + b;
    }
  }

  // ------------------------------------------------------------------ escaping

  /** One escaped unit reads as that unit. */
  lemma EscapedUnit(x: nat, rest: Units)
    ensures EscapeUnit(x) != []
    ensures Unescape(EscapeUnit(x) + rest) == [x] + Unescape(rest)
    ensures forall k :: 0 <= k < |EscapeUnit(x)| ==> EscapeUnit(x)[k] !in {LESS, GREATER, QUOTE, '\'' as nat}
  {
    hide Unescape;
    var e := EscapeUnit(x);
    var u := e + rest;
    assert u[|e|..] == rest && u[..|e|] == e;
    if x !in {'&' as nat, LESS, GREATER, QUOTE, '\'' as nat} {
      NotReference(u);
    } else {
      SecondUnit(u, e);
      assert Reference(u) == ([x], |e|);
    }
    UnescapeStep(u);
  }

  /** Two different references differ by their second or third unit. */
  lemma SecondUnit(u: Units, e: Units)
    requires e <= u && |e| >= 4
    ensures u[1] == e[1]
    ensures Starts(u, "&lt;") ==> e[1] == 'l' as nat
    ensures Starts(u, "&gt;") ==> e[1] == 'g' as nat
    ensures Starts(u, "&amp;") ==> e[1] == 'a' as nat
    ensures Starts(u, "&quot;") ==> e[1] == 'q' as nat
    ensures Starts(u, "&#x27;") ==> e[1] == '#' as nat
  {
    assert Starts(u, "&lt;") ==> u[..4][1] == u[1];
    assert Starts(u, "&gt;") ==> u[..4][1] == u[1];
    assert Starts(u, "&amp;") ==> u[..5][1] == u[1];
    assert Starts(u, "&quot;") ==> u[..6][1] == u[1];
    assert Starts(u, "&#x27;") ==> u[..6][1] == u[1];
  }

  /** Escaped text reads as the text, and nothing in it can end it or a quoted value. */
  lemma {:induction false} EscapedText(text: Units, rest: Units)
    ensures Unescape(Escape(text) + rest) == text + Unescape(rest)
    ensures forall k :: 0 <= k < |Escape(text)| ==> Escape(text)[k] !in {LESS, GREATER, QUOTE, '\'' as nat}
    ensures text != [] ==> Escape(text) != []
    decreases |text|
  {
    hide EscapeUnit, Unescape;
    if text == [] {
      assert [] + rest == rest && [] + Unescape(rest) == Unescape(rest);
    } else {
      var tail := Escape(text[1..]) + rest;
      EscapedText(text[1..], rest);
      EscapedUnit(text[0], tail);
      assert Escape(text) + rest == EscapeUnit(text[0]) + tail;
      assert [text[0]] + (text[1..] + Unescape(rest)) == text + Unescape(rest);
    }
  }

  // -------------------------------------------------------------- reading it back

  predicate ReadableAttr(a: Attr) { PlainName(a.name) && (a.value.Some? ==> PlainValue(a.value.value)) }

  /** A token whose names are names and whose values come through quotes. */
  predicate Readable(t: Token) {
    match t
    case Start(tag, attrs) => PlainName(tag) && forall k :: 0 <= k < |attrs| ==> ReadableAttr(attrs[k])
    case End(tag) => PlainName(tag)
    case Data(_) => true
  }

  ghost predicate AllReadable(tokens: seq<Token>) { forall k :: 0 <= k < |tokens| ==> Readable(tokens[k]) }

  /** A token in front of others: text is joined with text, and empty text is none. */
  function WithFirst(t: Token, rest: seq<Token>): seq<Token> {
    if !t.Data? then [t] + rest
    else if t.text == [] then rest
    else if rest != [] && rest[0].Data? then [Data(t.text + rest[0].text)] + rest[1..]
    else [t] + rest
  }

  function Joined(tokens: seq<Token>): seq<Token>
    decreases |tokens|
  {
    if tokens == [] then [] else WithFirst(tokens[0], Joined(tokens[1..]))
  }

  lemma NameUntil(name: string, rest: Units, stops: set<nat>)
    requires PlainName(name) && stops <= {SPACE, EQUALS, GREATER} && rest != [] && rest[0] in stops
    ensures Until(Chars(name) + rest, stops) == |name|
    ensures (Chars(name) + rest)[..|name|] == Chars(name) && (Chars(name) + rest)[|name|..] == rest
  {
    UntilAt(Chars(name), rest, stops);
    assert Until(rest, stops) == 0;
  }

  /** One attribute with a value, in front of what follows it in the tag. */
  lemma ValueReads(name: string, v: string, rest: Units)
    requires PlainName(name) && '"' !in v
    ensures LexAttrs(Chars(RenderAttr(Attr(name, Some(v)))) + rest)
         == WithAttr(Attr(name, Some(AsString(Unescape(Chars(v))))), LexAttrs(rest))
  {
    hide LexAttrs, Unescape, Until, WithAttr, AsString;
    var inner := Chars(v) + ([QUOTE] + rest);
    var behind := [EQUALS, QUOTE] + inner;
    var u := [SPACE] + (Chars(name) + behind);
    Spelled(name, v, rest);
    NameUntil(name, behind, {SPACE, EQUALS, GREATER});
    assert u[1..] == Chars(name) + behind;
    assert u[1..1 + |name|] == u[1..][..|name|] == Chars(name);
    assert u[1 + |name|..] == behind;
    CharsBack(name);
    forall k | 0 <= k < |v| ensures Chars(v)[k] != QUOTE { assert v[k] in v; }
    UntilAt(Chars(v), [QUOTE] + rest, {QUOTE});
    QuoteFirst(rest);
    ValueStep(u, behind, inner, |v|);
    assert inner[..|v|] == Chars(v) && inner[|v| + 1..] == rest;
  }

  /** The lexer at an attribute whose name ends in front of an equals sign and a
      quote. */
  lemma ValueStep(u: Units, behind: Units, inner: Units, m: nat)
    requires u != [] && u[0] == SPACE && behind == [EQUALS, QUOTE] + inner
    requires var n := 1 + Until(u[1..], {SPACE, EQUALS, GREATER}); u[n..] == behind
    requires m == Until(inner, {QUOTE}) < |inner|
    ensures var n := 1 + Until(u[1..], {SPACE, EQUALS, GREATER});
            LexAttrs(u) == WithAttr(Attr(AsString(u[1..n]), Some(AsString(Unescape(inner[..m])))), LexAttrs(inner[m + 1..]))
  {
    hide Unescape, Until, WithAttr, AsString;
    assert behind[0] == EQUALS && behind[1] == QUOTE && behind[2..] == inner;
    assert behind[2..2 + m] == inner[..m] && behind[2 + m + 1..] == inner[m + 1..];
  }

  /** A value written in quotes comes back exactly if it has no quote of its own and no
      character reference in it. */
  lemma ValueExactly(name: string, v: string, rest: Units)
    requires PlainName(name)
    ensures LexAttrs(Chars(RenderAttr(Attr(name, Some(v)))) + ([GREATER] + rest)) == Some(([Attr(name, Some(v))], rest))
       <==> PlainValue(v)
  {
    hide LexAttrs, RenderAttr, Unescape;
    TagCloses(rest);
    if '"' !in v {
      ValueReads(name, v, [GREATER] + rest);
      var back := Unescape(Chars(v));
      UnescapedChars(Chars(v));
      CharsBack(v);
      assert AsString(back) == v <==> back == Chars(v);
      var a := Attr(name, Some(AsString(back)));
      assert [a] + [] == [a] && [a][0] == a && [Attr(name, Some(v))][0].value == Some(v);
    } else {
      CutAtQuote(name, v, [GREATER] + rest);
    }
  }

  lemma CutAtQuote(name: string, v: string, rest: Units)
    requires PlainName(name) && '"' in v
    ensures var r := LexAttrs(Chars(RenderAttr(Attr(name, Some(v)))) + rest);
            r.Some? ==> r.value.0 != [] && r.value.0[0] != Attr(name, Some(v))
  {
    hide LexAttrs, Unescape;
    var inner := Chars(v) + ([QUOTE] + rest);
    var behind := [EQUALS, QUOTE] + inner;
    var u := [SPACE] + (Chars(name) + behind);
    Spelled(name, v, rest);
    NameUntil(name, behind, {SPACE, EQUALS, GREATER});
    assert u[1..] == Chars(name) + behind;
    assert u[1 + |name|..] == behind;
    var q :| 0 <= q < |v| && v[q] == '"';
    assert inner[q] == QUOTE;
    var m := Until(inner, {QUOTE});
    ValueStep(u, behind, inner, m);
    assert |AsString(Unescape(inner[..m]))| <= m < |v|;
  }

  /** Unescaping characters gives characters. */
  lemma {:induction false} UnescapedChars(u: Units)
    requires forall k :: 0 <= k < |u| ==> IsChar(u[k])
    ensures Chars(AsString(Unescape(u))) == Unescape(u)
    decreases |u|
  {
    hide Reference;
    if u != [] {
      var n := Reference(u).1;
      ReferenceIsChar(u);
      UnescapedChars(u[n..]);
      var first, others := Reference(u).0, Unescape(u[n..]);
      assert AsString(first + others) == AsString(first) + AsString(others);
      CharsConcat(AsString(first), AsString(others));
      assert Chars(AsString(first)) == first;
    }
  }

  lemma ReferenceIsChar(u: Units)
    requires u != [] && IsChar(u[0])
    ensures forall k :: 0 <= k < |Reference(u).0| ==> IsChar(Reference(u).0[k])
  {}

  lemma QuoteFirst(rest: Units)
    ensures Until([QUOTE] + rest, {QUOTE}) == 0
  {}

  lemma Spelled(name: string, v: string, rest: Units)
    ensures Chars(RenderAttr(Attr(name, Some(v)))) + rest
         == [SPACE] + (Chars(name) + ([EQUALS, QUOTE] + (Chars(v) + ([QUOTE] + rest))))
  {
    CharsConcat(" " + name, "=\"" + v + "\"");
    CharsConcat(" ", name);
    CharsConcat("=\"" + v, "\"");
    CharsConcat("=\"", v);
    assert Chars(" ") == [SPACE] && Chars("=\"") == [EQUALS, QUOTE] && Chars("\"") == [QUOTE];
    assert " " + name + ("=\"" + v + "\"") == RenderAttr(Attr(name, Some(v)));
  }

  lemma FlagReads(name: string, rest: Units)
    requires PlainName(name) && rest != [] && rest[0] in {SPACE, GREATER}
    ensures LexAttrs(Chars(RenderAttr(Attr(name, None))) + rest) == WithAttr(Attr(name, None), LexAttrs(rest))
  {
    hide WithAttr, AsString, Until;
    var u := Chars(RenderAttr(Attr(name, None))) + rest;
    CharsConcat(" ", name);
    assert " " + name + "" == " " + name && Chars(" ") == [SPACE];
    assert u == [SPACE] + (Chars(name) + rest);
    NameUntil(name, rest, {SPACE, EQUALS, GREATER});
    assert u[1..] == Chars(name) + rest;
    assert u[1..1 + |name|] == u[1..][..|name|] == Chars(name);
    assert u[1 + |name|..] == rest;
    CharsBack(name);
  }

  lemma {:induction false} AttrsRead(attrs: seq<Attr>, rest: Units)
    requires forall k :: 0 <= k < |attrs| ==> ReadableAttr(attrs[k])
    ensures LexAttrs(Chars(RenderAttrs(attrs)) + ([GREATER] + rest)) == Some((attrs, rest))
    ensures var u := Chars(RenderAttrs(attrs)) + ([GREATER] + rest); u[0] in {SPACE, GREATER}
    decreases |attrs|
  {
    hide LexAttrs, RenderAttr, Unescape;
    if attrs == [] {
      assert Chars("") + ([GREATER] + rest) == [GREATER] + rest;
      TagCloses(rest);
    } else {
      var a, tail := attrs[0], Chars(RenderAttrs(attrs[1..])) + ([GREATER] + rest);
      AttrsRead(attrs[1..], rest);
      CharsConcat(RenderAttr(a), RenderAttrs(attrs[1..]));
      assert Chars(RenderAttrs(attrs)) + ([GREATER] + rest) == Chars(RenderAttr(a)) + tail;
      match a.value {
        case Some(v) => ValueReads(a.name, v, tail); CharsBack(v);
        case None => FlagReads(a.name, tail);
      }
      assert [a] + attrs[1..] == attrs;
      AttrBegins(a);
    }
  }

  lemma TagCloses(rest: Units)
    ensures LexAttrs([GREATER] + rest) == Some(([], rest))
  {
    assert ([GREATER] + rest)[1..] == rest;
  }

  lemma AttrBegins(a: Attr)
    ensures Chars(RenderAttr(a)) != [] && Chars(RenderAttr(a))[0] == SPACE
  {}

  lemma StartReads(tag: string, attrs: seq<Attr>, rest: Units)
    requires Readable(Start(tag, attrs))
    ensures Lex(RenderToken(Start(tag, attrs)) + rest) == WithToken(Start(tag, attrs), Lex(rest))
  {
    hide Lex, LexTag, LexAttrs, RenderAttrs, Until, WithToken, AsString;
    var behind := Chars(RenderAttrs(attrs)) + ([GREATER] + rest);
    AttrsRead(attrs, rest);
    var u := [LESS] + (Chars(tag) + behind);
    StartSpelled(tag, attrs, rest);
    assert u[1..] == Chars(tag) + behind;
    NameUntil(tag, behind, {SPACE, GREATER});
    CharsBack(tag);
    assert u[1..][0] == Chars(tag)[0] != SLASH;
    LexAtTag(u);
    TagStep(u[1..]);
  }

  lemma StartSpelled(tag: string, attrs: seq<Attr>, rest: Units)
    ensures RenderToken(Start(tag, attrs)) + rest
         == [LESS] + (Chars(tag) + (Chars(RenderAttrs(attrs)) + ([GREATER] + rest)))
  {
    hide RenderAttrs;
    CharsConcat("<" + tag + RenderAttrs(attrs), ">");
    CharsConcat("<" + tag, RenderAttrs(attrs));
    CharsConcat("<", tag);
    assert Chars("<") == [LESS] && Chars(">") == [GREATER];
  }

  lemma LexAtTag(u: Units)
    requires u != [] && u[0] == LESS
    ensures var r := LexTag(u[1..]);
            Lex(u) == if r.None? then None else WithToken(r.value.0, Lex(r.value.1))
  {
    hide LexTag, WithToken;
  }

  lemma TagStep(u: Units)
    requires u != [] && u[0] != SLASH
    ensures var n := Until(u, {SPACE, GREATER});
            LexTag(u) == if LexAttrs(u[n..]).None? then None
                         else Some((Start(AsString(u[..n]), LexAttrs(u[n..]).value.0), LexAttrs(u[n..]).value.1))
  {
    hide LexAttrs, Until, AsString;
  }

  lemma EndReads(tag: string, rest: Units)
    requires PlainName(tag)
    ensures Lex(RenderToken(End(tag)) + rest) == WithToken(End(tag), Lex(rest))
  {
    hide Lex, Until, WithToken, AsString;
    var u := RenderToken(End(tag)) + rest;
    CharsConcat("</" + tag, ">");
    CharsConcat("</", tag);
    assert Chars("</") == [LESS, SLASH] && Chars(">") == [GREATER];
    var name := [SLASH] + Chars(tag);
    assert u == [LESS] + (name + ([GREATER] + rest));
    assert u[1..] == name + ([GREATER] + rest);
    UntilAt(name, [GREATER] + rest, {GREATER});
    CloseFirst(rest);
    assert u[1..][1..|name|] == Chars(tag) && u[1..][|name| + 1..] == rest;
    CharsBack(tag);
    LexAtTag(u);
  }

  lemma CloseFirst(rest: Units)
    ensures Until([GREATER] + rest, {GREATER}) == 0
  {}

  /** Escaped text in front of something that reads as tokens. */
  lemma DataReads(text: Units, rest: Units, tokens: seq<Token>)
    requires Lex(rest) == Some(tokens)
    ensures Lex(Escape(text) + rest) == Some(WithFirst(Data(text), tokens))
  {
    hide Until, Unescape, Escape, LexTag;
    if text == [] {
      NothingEscaped();
      assert [] + rest == rest;
    } else {
      var e, m := Escape(text), Until(rest, {LESS});
      EscapedText(text, rest[..m]);
      var u := e + rest;
      assert u[0] == e[0];
      UntilAt(e, rest, {LESS});
      assert u[..|e| + m] == e + rest[..m] && u[|e| + m..] == rest[m..];
      if m == 0 {
        NothingUnescaped();
        assert text + [] == text;
        assert rest[..0] == [] && rest[0..] == rest;
      }
    }
  }

  lemma NothingEscaped()
    ensures Escape([]) == []
  {}

  lemma NothingUnescaped()
    ensures Unescape([]) == []
  {}

  /** What is written reads back: the tokens, with adjacent text joined. */
  lemma {:induction false} RenderReads(tokens: seq<Token>)
    requires AllReadable(tokens)
    ensures Lex(Render(tokens)) == Some(Joined(tokens))
    decreases |tokens|
  {
    hide Lex, RenderToken, Readable;
    if tokens == [] {
      NothingLexed();
    } else {
      var t, rest := tokens[0], Render(tokens[1..]);
      RenderReads(tokens[1..]);
      match t {
        case Start(tag, attrs) => StartReads(tag, attrs, rest);
        case End(tag) => EndTagReads(t, rest);
        case Data(text) => DataSpelled(text); DataReads(text, rest, Joined(tokens[1..]));
      }
    }
  }

  lemma NothingLexed()
    ensures Lex([]) == Some([])
  {}

  lemma DataSpelled(text: Units)
    ensures RenderToken(Data(text)) == Escape(text)
  {}

  lemma EndTagReads(t: Token, rest: Units)
    requires t.End? && Readable(t)
    ensures Lex(RenderToken(t) + rest) == WithToken(t, Lex(rest))
  {
    EndReads(t.tag, rest);
  }

  // ------------------------------------------------------------ what kinds can have

  /** The texts of an entity that are written as values come through them. */
  predicate ReadableKind(kind: Kind) {
    match kind
    case Pre(language) => PlainValue(language)
    case TextLink(url) => PlainValue(url)
    case DateTime(_, format) => PlainValue(format)
    case _ => true
  }

  lemma {:induction false} NumeralPlain(n: nat)
    ensures forall k :: 0 <= k < |NatToString(n)| ==> '0' <= NatToString(n)[k] <= '9'
  {
    assert forall d :: 0 <= d < 10 ==> '0' <= DIGITS[d] <= '9' by {
      assert DIGITS[0] == '0' && DIGITS[1] == '1' && DIGITS[2] == '2' && DIGITS[3] == '3' && DIGITS[4] == '4';
      assert DIGITS[5] == '5' && DIGITS[6] == '6' && DIGITS[7] == '7' && DIGITS[8] == '8' && DIGITS[9] == '9';
    }
    if n >= 10 { NumeralPlain(n / 10); }
  }

  lemma IntPlain(i: int)
    ensures PlainValue(IntToString(i))
  {
    NumeralPlain(if i < 0 then -i else i);
    PlainWithout(IntToString(i));
  }

  lemma MentionPlain(user: nat)
    ensures PlainValue(MENTION_PREFIX + NatToString(user))
  {
    NumeralPlain(user);
    PlainWithout(MENTION_PREFIX + NatToString(user));
  }

  /** Every tag of an entity is readable exactly if its texts are. */
  lemma KindReadable(kind: Kind)
    requires !kind.Unsupported?
    ensures AllReadable(StartTokens(kind)) <==> ReadableKind(kind)
    ensures AllReadable(EndTokens(kind))
  {
    hide PlainValue, PlainName, Readable, AllReadable, Tag, Attrs;
    TagPlain(kind);
    EndPlain(Tag(kind));
    EndsReadable(kind);
    if WithLanguage(kind) {
      LanguageReadable(kind.language);
    } else {
      assert StartTokens(kind) == [Start(Tag(kind), Attrs(kind))];
      NoTextReadable(kind);
      ValueKindReadable(kind);
    }
  }

  lemma EndsReadable(kind: Kind)
    requires !kind.Unsupported? && Readable(End(Tag(kind))) && Readable(End("code"))
    ensures AllReadable(EndTokens(kind))
  {
    hide Readable, Tag;
  }

  /** A tag without a text in it is always readable. */
  lemma NoTextReadable(kind: Kind)
    requires !kind.Unsupported? && PlainName(Tag(kind))
    ensures Attrs(kind) == [] || Attrs(kind) == [Attr("expandable", None)] ==> AllReadable([Start(Tag(kind), Attrs(kind))])
  {
    hide PlainName, Readable, Tag, Attrs;
    NamesPlain();
    NoAttrs(Tag(kind));
    OneAttr(Tag(kind), Attr("expandable", None));
  }

  lemma ValueKindReadable(kind: Kind)
    requires !kind.Unsupported? && !WithLanguage(kind) && PlainName(Tag(kind))
    requires Attrs(kind) == [] || Attrs(kind) == [Attr("expandable", None)] ==> AllReadable([Start(Tag(kind), Attrs(kind))])
    ensures AllReadable([Start(Tag(kind), Attrs(kind))]) <==> ReadableKind(kind)
  {
    hide PlainValue, PlainName, NatToString, IntToString, Readable, AllReadable, Tag;
    NamesPlain();
    match kind {
      case TextLink(url) => OneAttr(Tag(kind), Attr("href", Some(url)));
      case TextMention(user) =>
        MentionPlain(user);
        OneAttr(Tag(kind), Attr("href", Some(MENTION_PREFIX + NatToString(user))));
      case CustomEmoji(id) =>
        IntPlain(id);
        OneAttr(Tag(kind), Attr("emoji-id", Some(IntToString(id))));
      case DateTime(unix, format) =>
        IntPlain(unix);
        TwoAttrs(Tag(kind), Attr("unix", Some(IntToString(unix))), Attr("format", Some(format)));
      case _ => PlainWithout("");
    }
  }

  lemma NamesPlain()
    ensures PlainName("code") && PlainName("pre") && PlainName("expandable") && PlainName("href") && PlainName("emoji-id")
    ensures PlainName("unix") && PlainName("format") && PlainName("class")
  {}

  lemma TagPlain(kind: Kind)
    requires !kind.Unsupported?
    ensures PlainName(Tag(kind))
  {}

  lemma NoAttrs(tag: string)
    requires PlainName(tag)
    ensures AllReadable([Start(tag, [])])
  {}

  lemma EndPlain(tag: string)
    requires PlainName(tag)
    ensures Readable(End(tag)) && Readable(End("code"))
  {}

  lemma TwoAttrs(tag: string, a: Attr, b: Attr)
    requires PlainName(tag)
    ensures AllReadable([Start(tag, [a, b])]) <==> ReadableAttr(a) && ReadableAttr(b)
  {
    var t := Start(tag, [a, b]);
    assert AllReadable([t]) ==> Readable([t][0]);
    assert Readable(t) ==> ReadableAttr(t.attrs[0]) && ReadableAttr(t.attrs[1]);
  }

  lemma OneAttr(tag: string, a: Attr)
    requires PlainName(tag)
    ensures Readable(Start(tag, [a])) <==> ReadableAttr(a)
    ensures AllReadable([Start(tag, [a])]) <==> ReadableAttr(a)
  {
    var t := Start(tag, [a]);
    assert AllReadable([t]) ==> Readable([t][0]);
    assert Readable(t) ==> ReadableAttr(t.attrs[0]);
  }

  lemma LanguageReadable(language: string)
    requires language != ""
    ensures AllReadable(StartTokens(Pre(language))) <==> PlainValue(language)
  {
    hide PlainValue, PlainName, Readable, AllReadable, StartTokens;
    NamesPlain();
    var a := Attr("class", Some(LANGUAGE_PREFIX + language));
    LanguageTokens(language);
    LanguageBehind(language);
    OneAttr("code", a);
    NoAttrs("pre");
    TwoTokens(Start("pre", []), Start("code", [a]));
  }

  lemma LanguageTokens(language: string)
    requires language != ""
    ensures StartTokens(Pre(language))
         == [Start("pre", []), Start("code", [Attr("class", Some(LANGUAGE_PREFIX + language))])]
  {}

  lemma LanguageBehind(language: string)
    ensures PlainValue(LANGUAGE_PREFIX + language) <==> PlainValue(language)
  {
    hide PlainValue;
    PlainBehind(LANGUAGE_PREFIX, language);
  }

  lemma TwoTokens(a: Token, b: Token)
    ensures AllReadable([a, b]) <==> AllReadable([a]) && AllReadable([b])
  {
    hide Readable;
    var all := [a, b];
    assert AllReadable(all) ==> Readable(all[0]) && Readable(all[1]);
    assert AllReadable([a]) ==> Readable([a][0]);
    assert AllReadable([b]) ==> Readable([b][0]);
  }
}
