/** The vocabulary shared by the two halves of pyrogram/parser/html.py: message
    entities, the tokens they are written as, and the entities tokens are read
    back to.  The tokens stand at the boundary of Python's HTMLParser. */
module Markup {
  import opened Spans

  /** A message entity's type with the fields HTML.unparse looks at. */
  datatype Kind =
    | Bold | Italic | Underline | Strikethrough | Code | Spoiler
    | Pre(language: string)
    | Blockquote(expandable: bool)
    | TextLink(url: string)
    | TextMention(user: nat)
    | CustomEmoji(id: int)
    | DateTime(unix: int, format: string)
    | Unsupported

  datatype DateFlags = DateFlags(relative: bool, shortTime: bool, longTime: bool,
                                 shortDate: bool, longDate: bool, dayOfWeek: bool)

  /** The raw entity types the parser builds. */
  datatype Raw =
    | RawBold | RawItalic | RawUnderline | RawStrike | RawCode | RawSpoiler
    | RawPre(language: string)
    | RawBlockquote(collapsed: bool)
    | RawTextUrl(url: string)
    | RawMentionName(user: nat)
    | RawCustomEmoji(id: int)
    | RawFormattedDate(date: int, flags: DateFlags)

  datatype Attr = Attr(name: string, value: Option<string>)

  datatype Token =
    | Start(tag: string, attrs: seq<Attr>)
    | Data(text: Units)
    | End(tag: string)

  // --------------------------------------------------------------- numerals

  const DIGITS: string := "0123456789"

  function AsciiDigit(c: char): Option<nat> { if '0' <= c <= '9' then Some(c as int - '0' as int) else None }

  /** What may count as a decimal digit, and its value: the ASCII digits as
      themselves, and any other characters but the minus sign. */
  ghost predicate Decimal(f: char -> Option<nat>) {
    && f('-').None?
    && (forall c :: '0' <= c <= '9' ==> f(c) == AsciiDigit(c))
    && (forall c :: f(c).Some? ==> f(c).value < 10)
  }

  type DigitClass = f: char -> Option<nat> | Decimal(f) witness AsciiDigit

  /** The digits of `\d` and int(), which are those of Unicode. Nothing is said of
      them but that they are such a class: what is proved holds for every one. */
  const DECIMAL_DIGIT: DigitClass

  predicate IsDigit(c: char) { DECIMAL_DIGIT(c).Some? }

  function NatToString(n: nat): (s: string)
    ensures |s| > 0
  {
    if n < 10 then [DIGITS[n]] else NatToString(n / 10) + [DIGITS[n % 10]]
  }

  function IntToString(i: int): string {
    if i < 0 then "-" + NatToString(-i) else NatToString(i)
  }

  function DigitOf(c: char): (d: nat)
    requires IsDigit(c)
    ensures d < 10
  {
    DECIMAL_DIGIT(c).value
  }

  function DigitsValue(s: string): nat
    requires forall k :: 0 <= k < |s| ==> IsDigit(s[k])
  {
    if s == "" then 0 else 10 * DigitsValue(s[..|s| - 1]) + DigitOf(s[|s| - 1])
  }

  /** How many characters of s from the front are digits. */
  function DigitRun(s: string): (n: nat)
    ensures n <= |s| && forall k :: 0 <= k < n ==> IsDigit(s[k])
    ensures n < |s| ==> !IsDigit(s[n])
  {
    if s == "" || !IsDigit(s[0]) then 0 else 1 + DigitRun(s[1..])
  }

  function ParseInt(s: string): Option<int> {
    var body := if s != "" && s[0] == '-' then s[1..] else s;
    if body == "" || DigitRun(body) < |body| then None
    else
      var magnitude: int := DigitsValue(body);
      Some(if s[0] == '-' then -magnitude else magnitude)
  }

  lemma {:induction false} NumeralDigits(n: nat)
    ensures forall k :: 0 <= k < |NatToString(n)| ==> IsDigit(NatToString(n)[k])
    ensures DigitsValue(NatToString(n)) == n
  {
    DigitFacts(n % 10);
    if n < 10 {
      assert NatToString(n)[..0] == "";
    } else {
      NumeralDigits(n / 10);
      var head := NatToString(n / 10);
      assert (head + [DIGITS[n % 10]])[..|head|] == head;
    }
  }

  lemma DigitFacts(d: nat)
    requires d < 10
    ensures IsDigit(DIGITS[d]) && DigitOf(DIGITS[d]) == d
  {
    assert DIGITS[0] == '0' && DIGITS[1] == '1' && DIGITS[2] == '2' && DIGITS[3] == '3' && DIGITS[4] == '4';
    assert DIGITS[5] == '5' && DIGITS[6] == '6' && DIGITS[7] == '7' && DIGITS[8] == '8' && DIGITS[9] == '9';
  }

  /** int(str(i)) is i. */
  lemma IntRoundTrip(i: int)
    ensures ParseInt(IntToString(i)) == Some(i)
  {
    hide NatToString, DigitRun, DigitsValue, IsDigit, ParseInt;
    var n: nat := if i < 0 then -i else i;
    var s := NatToString(n);
    NumeralDigits(n);
    MinusIsNoDigit();
    ParsesDigits(s);
  }

  lemma MinusIsNoDigit()
    ensures !IsDigit('-')
  {}

  lemma ParsesDigits(s: string)
    requires s != "" && forall k :: 0 <= k < |s| ==> IsDigit(s[k])
    ensures ParseInt(s) == Some(DigitsValue(s)) && ParseInt("-" + s) == Some(-(DigitsValue(s) as int))
  {
    hide DigitsValue, IsDigit, DigitRun;
    MinusIsNoDigit();
    assert s[0] != '-';
    assert DigitRun(s) == |s|;
    assert ("-" + s)[1..] == s;
  }

  // --------------------------------------------------------------- mentions

  const MENTION_PREFIX: string := "tg://user?id="

  /** MENTION_RE.match: the prefix and at least one digit. */
  predicate IsMention(url: string) {
    |MENTION_PREFIX| < |url| && url[..|MENTION_PREFIX|] == MENTION_PREFIX && IsDigit(url[|MENTION_PREFIX|])
  }

  function MentionedUser(url: string): nat
    requires IsMention(url)
  {
    var rest := url[|MENTION_PREFIX|..];
    DigitsValue(rest[..DigitRun(rest)])
  }

  lemma MentionRoundTrip(user: nat)
    ensures IsMention(MENTION_PREFIX + NatToString(user))
    ensures MentionedUser(MENTION_PREFIX + NatToString(user)) == user
  {
    NumeralDigits(user);
    var digits := NatToString(user);
    assert (MENTION_PREFIX + digits)[|MENTION_PREFIX|..] == digits;
    assert digits[..DigitRun(digits)] == digits;
  }

  // -------------------------------------------------------------------- dates

  /** _parse_date_time_format. */
  function ParseDateFormat(format: string): DateFlags {
    if format == "r" then DateFlags(true, false, false, false, false, false)
    else DateFlags(false, 't' in format, 't' !in format && 'T' in format,
                   'd' in format, 'd' !in format && 'D' in format, 'w' in format)
  }

  // -------------------------------------------------------------- writing tags

  function Tag(kind: Kind): string
    requires !kind.Unsupported?
  {
    match kind
    case Bold => "b"
    case Italic => "i"
    case Underline => "u"
    case Strikethrough => "s"
    case Code => "code"
    case Spoiler => "tg-spoiler"
    case Pre(_) => "pre"
    case Blockquote(_) => "blockquote"
    case TextLink(_) => "a"
    case TextMention(_) => "a"
    case CustomEmoji(_) => "tg-emoji"
    case DateTime(_, _) => "tg-time"
  }

  function Attrs(kind: Kind): seq<Attr>
    requires !kind.Unsupported?
  {
    match kind
    case Blockquote(true) => [Attr("expandable", None)]
    case TextLink(url) => [Attr("href", Some(url))]
    case TextMention(user) => [Attr("href", Some(MENTION_PREFIX + NatToString(user)))]
    case CustomEmoji(id) => [Attr("emoji-id", Some(IntToString(id)))]
    case DateTime(unix, format) => [Attr("unix", Some(IntToString(unix))), Attr("format", Some(format))]
    case _ => []
  }

  predicate WithLanguage(kind: Kind) { kind.Pre? && kind.language != "" }

  const LANGUAGE_PREFIX: string := "language-"

  /** parse_one's start tag. */
  function StartTokens(kind: Kind): seq<Token>
    requires !kind.Unsupported?
  {
    [Start(Tag(kind), Attrs(kind))]
    + if WithLanguage(kind) then [Start("code", [Attr("class", Some(LANGUAGE_PREFIX + kind.language))])] else []
  }

  /** parse_one's end tag. */
  function EndTokens(kind: Kind): seq<Token>
    requires !kind.Unsupported?
  {
    (if WithLanguage(kind) then [End("code")] else []) + [End(Tag(kind))]
  }

  // -------------------------------------------------------------- reading tags

  /** dict(attrs).get(name): the last occurrence counts. */
  function Lookup(attrs: seq<Attr>, name: string): Option<Option<string>> {
    if attrs == [] then None
    else if attrs[|attrs| - 1].name == name then Some(attrs[|attrs| - 1].value)
    else Lookup(attrs[..|attrs| - 1], name)
  }

  function TextOr(attrs: seq<Attr>, name: string, default: string): string {
    match Lookup(attrs, name)
    case Some(Some(v)) => v
    case Some(None) => ""
    case None => default
  }

  /** The entity a start tag opens; code inside pre is decided by the parser. */
  function Opening(tag: string, attrs: seq<Attr>): Option<Raw> {
    if tag in ["b", "strong"] then Some(RawBold)
    else if tag in ["i", "em"] then Some(RawItalic)
    else if tag in ["u", "ins"] then Some(RawUnderline)
    else if tag in ["s", "del", "strike"] then Some(RawStrike)
    else if tag == "blockquote" then Some(RawBlockquote(Lookup(attrs, "expandable").Some?))
    else if tag == "pre" then Some(RawPre(TextOr(attrs, "language", "")))
    else if tag == "code" then Some(RawCode)
    else if tag in ["spoiler", "tg-spoiler"] then Some(RawSpoiler)
    else if tag == "span" && TextOr(attrs, "class", "") == "tg-spoiler" then Some(RawSpoiler)
    else if tag == "a" then
      var url := TextOr(attrs, "href", "");
      Some(if IsMention(url) then RawMentionName(MentionedUser(url)) else RawTextUrl(url))
    else if tag in ["emoji", "tg-emoji"] then
      var id := TextOr(attrs, "emoji-id", "");
      match ParseInt(if id != "" then id else TextOr(attrs, "id", ""))
      case Some(i) => Some(RawCustomEmoji(i))
      case None => None
    else if tag == "tg-time" then
      match ParseInt(TextOr(attrs, "unix", ""))
      case Some(i) => Some(RawFormattedDate(i, ParseDateFormat(TextOr(attrs, "format", ""))))
      case None => None
    else None
  }

  /** The last attribute of a name is the one that counts. */
  lemma {:induction false} LookupLast(attrs: seq<Attr>, name: string)
    ensures Lookup(attrs, name).None? <==> forall k :: 0 <= k < |attrs| ==> attrs[k].name != name
    ensures forall k :: 0 <= k < |attrs| && attrs[k].name == name && (forall j :: k < j < |attrs| ==> attrs[j].name != name) ==>
              Lookup(attrs, name) == Some(attrs[k].value)
  {
    if attrs != [] {
      LookupLast(attrs[..|attrs| - 1], name);
      if attrs[|attrs| - 1].name != name {
        assert forall k :: 0 <= k < |attrs| - 1 ==> attrs[..|attrs| - 1][k] == attrs[k];
      }
    }
  }

  lemma TextOrLast(attrs: seq<Attr>, name: string, default: string)
    ensures TextOr(attrs, name, default) ==
            if Lookup(attrs, name) == None then default
            else if Lookup(attrs, name) == Some(None) then "" else Lookup(attrs, name).value.value
  {}

  /** r stands alone; otherwise each letter asks for its part, and the small one of a
      pair has precedence. */
  lemma DateFormatExactly(format: string)
    ensures var f := ParseDateFormat(format);
            && (f.relative <==> format == "r") && (f.dayOfWeek <==> 'w' in format)
            && (f.shortTime <==> 't' in format) && (f.longTime <==> 'T' in format && 't' !in format)
            && (f.shortDate <==> 'd' in format) && (f.longDate <==> 'D' in format && 'd' !in format)
  {}

  /** Which tags open what, in all their spellings. */
  lemma StyleTags(tag: string, attrs: seq<Attr>)
    ensures Opening(tag, attrs) == Some(RawBold) <==> tag == "b" || tag == "strong"
    ensures Opening(tag, attrs) == Some(RawItalic) <==> tag == "i" || tag == "em"
    ensures Opening(tag, attrs) == Some(RawUnderline) <==> tag == "u" || tag == "ins"
    ensures Opening(tag, attrs) == Some(RawStrike) <==> tag == "s" || tag == "del" || tag == "strike"
    ensures Opening(tag, attrs) == Some(RawCode) <==> tag == "code"
    ensures Opening(tag, attrs) == Some(RawSpoiler) <==>
      tag == "spoiler" || tag == "tg-spoiler" || (tag == "span" && TextOr(attrs, "class", "") == "tg-spoiler")
  {
    hide ParseInt, IsMention, MentionedUser, TextOr, Lookup, ParseDateFormat;
  }

  lemma BlockTags(tag: string, attrs: seq<Attr>)
    ensures tag == "blockquote" ==> Opening(tag, attrs) == Some(RawBlockquote(Lookup(attrs, "expandable") != None))
    ensures tag == "pre" ==> Opening(tag, attrs) == Some(RawPre(TextOr(attrs, "language", "")))
    ensures tag == "a" ==>
      var url := TextOr(attrs, "href", "");
      Opening(tag, attrs) == Some(if IsMention(url) then RawMentionName(MentionedUser(url)) else RawTextUrl(url))
    ensures tag == "emoji" || tag == "tg-emoji" ==>
      var first, second := TextOr(attrs, "emoji-id", ""), TextOr(attrs, "id", "");
      var id := ParseInt(if first == "" then second else first);
      Opening(tag, attrs) == if id == None then None else Some(RawCustomEmoji(id.value))
    ensures tag == "tg-time" ==>
      var unix := ParseInt(TextOr(attrs, "unix", ""));
      Opening(tag, attrs)
      == if unix == None then None else Some(RawFormattedDate(unix.value, ParseDateFormat(TextOr(attrs, "format", ""))))
  {
    hide ParseInt, IsMention, MentionedUser, TextOr, Lookup, ParseDateFormat;
  }

  const TAGS: set<string> :=
    {"b", "strong", "i", "em", "u", "ins", "s", "del", "strike", "code", "spoiler", "tg-spoiler", "span",
     "blockquote", "pre", "a", "emoji", "tg-emoji", "tg-time"}

  lemma OtherTags(tag: string, attrs: seq<Attr>)
    requires tag !in TAGS
    ensures Opening(tag, attrs) == None
  {
    hide ParseInt, IsMention, MentionedUser, TextOr, Lookup, ParseDateFormat;
  }

  /** What an entity means, as MessageEntity.write sends it. */
  function RawOf(kind: Kind): Raw
    requires !kind.Unsupported?
  {
    match kind
    case Bold => RawBold
    case Italic => RawItalic
    case Underline => RawUnderline
    case Strikethrough => RawStrike
    case Code => RawCode
    case Spoiler => RawSpoiler
    case Pre(language) => RawPre(language)
    case Blockquote(expandable) => RawBlockquote(expandable)
    case TextLink(url) => RawTextUrl(url)
    case TextMention(user) => RawMentionName(user)
    case CustomEmoji(id) => RawCustomEmoji(id)
    case DateTime(unix, format) => RawFormattedDate(unix, ParseDateFormat(format))
  }

  /** A link whose address reads as a mention comes back as one. */
  predicate ReadsBack(kind: Kind) {
    !(kind.TextLink? && IsMention(kind.url))
  }

  /** What the parser makes of an entity's own start tag. */
  function ReadKind(kind: Kind): Raw
    requires !kind.Unsupported?
  {
    if ReadsBack(kind) then RawOf(kind) else RawMentionName(MentionedUser(kind.url))
  }

  /** A digit of any script behind the prefix makes a link a mention, which is how it
      comes back. */
  lemma LinkReadAsMention(c: char)
    requires IsDigit(c)
    ensures Opening(Tag(TextLink(MENTION_PREFIX + [c])), Attrs(TextLink(MENTION_PREFIX + [c])))
         == Some(RawMentionName(DigitOf(c)))
    ensures !ReadsBack(TextLink(MENTION_PREFIX + [c]))
  {
    var url := MENTION_PREFIX + [c];
    assert url[..|MENTION_PREFIX|] == MENTION_PREFIX && url[|MENTION_PREFIX|] == c;
    assert url[|MENTION_PREFIX|..] == [c] && [c][..1] == [c] && [c][1..] == "" && [c][..0] == "";
    assert IsMention(url) && DigitRun([c]) == 1;
    assert DigitsValue([c]) == DigitOf(c) by { assert DigitsValue("") == 0; }
    OpeningReads(TextLink(url));
  }

  /** Reading the start tag of a kind gives the raw entity the kind stands for,
      unless it is a link that looks like a mention. */
  lemma OpeningReads(kind: Kind)
    requires !kind.Unsupported?
    ensures !WithLanguage(kind) ==> Opening(Tag(kind), Attrs(kind)) == Some(ReadKind(kind))
    ensures WithLanguage(kind) ==> Opening(Tag(kind), Attrs(kind)) == Some(RawPre(""))
    ensures ReadKind(kind) == RawOf(kind) <==> ReadsBack(kind)
  {
    match kind {
      case TextMention(user) => MentionTag(user);
      case CustomEmoji(id) => EmojiTag(id);
      case DateTime(unix, format) => DateTag(unix, format);
      case _ =>
    }
  }

  lemma MentionTag(user: nat)
    ensures Opening("a", Attrs(TextMention(user))) == Some(RawMentionName(user))
  {
    hide MentionedUser, IsMention;
    MentionRoundTrip(user);
    assert TextOr(Attrs(TextMention(user)), "href", "") == MENTION_PREFIX + NatToString(user);
  }

  lemma EmojiTag(id: int)
    ensures Opening("tg-emoji", Attrs(CustomEmoji(id))) == Some(RawCustomEmoji(id))
  {
    hide ParseInt, NatToString;
    IntRoundTrip(id);
    assert TextOr(Attrs(CustomEmoji(id)), "emoji-id", "") == IntToString(id);
  }

  lemma DateTag(unix: int, format: string)
    ensures Opening("tg-time", Attrs(DateTime(unix, format))) == Some(RawFormattedDate(unix, ParseDateFormat(format)))
  {
    hide ParseInt, NatToString;
    IntRoundTrip(unix);
    var attrs := Attrs(DateTime(unix, format));
    assert attrs[..1] == [Attr("unix", Some(IntToString(unix)))];
    assert "format" != "unix" by { assert |"format"| != |"unix"|; }
    assert Lookup(attrs, "unix") == Lookup(attrs[..1], "unix");
    assert TextOr(attrs, "unix", "") == IntToString(unix);
    assert TextOr(attrs, "format", "") == format;
  }

  lemma LanguageReads(kind: Kind)
    requires WithLanguage(kind)
    ensures var c := TextOr([Attr("class", Some(LANGUAGE_PREFIX + kind.language))], "class", "");
            |c| >= 9 && c[..9] == LANGUAGE_PREFIX && c[9..] == kind.language
  {}
}
