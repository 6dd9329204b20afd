/** How HTML text reads: a lexer of tags, attributes and text with a table of its own
    for the character references.  Python's HTMLParser, which pyrogram/parser/html.py
    reads with, does the same for lower-case tags with quoted values. */
module HtmlLexer {
  import opened Spans
  import opened Markup

  const LESS: nat := '<' as nat
  const GREATER: nat := '>' as nat
  const SPACE: nat := ' ' as nat
  const EQUALS: nat := '=' as nat
  const SLASH: nat := '/' as nat
  const QUOTE: nat := '"' as nat

  /** The code points of a string. */
  function Chars(s: string): Units {
    seq(|s|, k requires 0 <= k < |s| => s[k] as int)
  }

  predicate IsChar(u: nat) { u < 0xD800 || 0xE000 <= u < 0x11_0000 }

  function AsChar(u: nat): char { if IsChar(u) then u as char else '?' }

  function AsString(u: Units): string { seq(|u|, k requires 0 <= k < |u| => AsChar(u[k])) }

  predicate Starts(u: Units, s: string) { |s| <= |u| && u[..|s|] == Chars(s) }

  /** References besides the five below: each begins with an ampersand and is at least
      as long as the characters it stands for. */
  ghost predicate IsTable(f: Units -> Option<(Units, nat)>) {
    forall u :: f(u).Some? ==>
      && u != [] && u[0] == '&' as nat && 1 <= f(u).value.1 <= |u| && |f(u).value.0| <= f(u).value.1
      && forall k :: 0 <= k < |f(u).value.0| ==> IsChar(f(u).value.0[k])
  }

  function NoOther(u: Units): Option<(Units, nat)> { None }

  type Table = f: Units -> Option<(Units, nat)> | IsTable(f) witness NoOther

  /** The named and numbered references of HTML. Nothing is said of them but that they
      are such a table: what is proved holds for every one. */
  const OTHER_REFERENCES: Table

  /** The characters a reference stands for and the length of the reference; any other
      unit stands for itself. */
  function Reference(u: Units): (r: (Units, nat))
    requires u != []
    ensures 1 <= r.1 <= |u| && |r.0| <= r.1
  {
    if Starts(u, "&lt;") then ([LESS], 4)
    else if Starts(u, "&gt;") then ([GREATER], 4)
    else if Starts(u, "&amp;") then (['&' as nat], 5)
    else if Starts(u, "&quot;") then ([QUOTE], 6)
    else if Starts(u, "&#x27;") then (['\'' as nat], 6)
    else if OTHER_REFERENCES(u).Some? then OTHER_REFERENCES(u).value
    else ([u[0]], 1)
  }

  function Unescape(u: Units): (r: Units)
    ensures |r| <= |u|
  {
    if u == [] then [] else Reference(u).0 + Unescape(u[Reference(u).1..])
  }

  /** How many units come before the first of these. */
  function Until(u: Units, stops: set<nat>): (n: nat)
    ensures n <= |u| && (forall k :: 0 <= k < n ==> u[k] !in stops) && (n < |u| ==> u[n] in stops)
  {
    if u == [] || u[0] in stops then 0 else 1 + Until(u[1..], stops)
  }

  /** Attributes up to the end of the tag: a name, and a value in double quotes if an
      equals sign follows it. */
  function LexAttrs(u: Units): (r: Option<(seq<Attr>, Units)>)
    ensures r.Some? ==> |r.value.1| < |u|
    decreases |u|
  {
    if u == [] then None
    else if u[0] == GREATER then Some(([], u[1..]))
    else if u[0] != SPACE then None
    else
      var n := 1 + Until(u[1..], {SPACE, EQUALS, GREATER});
      var name, rest := AsString(u[1..n]), u[n..];
      if rest == [] || rest[0] != EQUALS then WithAttr(Attr(name, None), LexAttrs(rest))
      else if |rest| == 1 || rest[1] != QUOTE then None
      else
        var m := 2 + Until(rest[2..], {QUOTE});
        if m == |rest| then None
        else WithAttr(Attr(name, Some(AsString(Unescape(rest[2..m])))), LexAttrs(rest[m + 1..]))
  }

  function WithAttr(a: Attr, r: Option<(seq<Attr>, Units)>): Option<(seq<Attr>, Units)> {
    if r.Some? then Some(([a] + r.value.0, r.value.1)) else None
  }

  /** What stands behind a less-than sign. */
  function LexTag(u: Units): (r: Option<(Token, Units)>)
    ensures r.Some? ==> |r.value.1| < |u| && !r.value.0.Data?
  {
    if u != [] && u[0] == SLASH then
      var n := Until(u, {GREATER});
      if n == |u| then None else Some((End(AsString(u[1..n])), u[n + 1..]))
    else
      var n := Until(u, {SPACE, GREATER});
      match LexAttrs(u[n..])
      case None => None
      case Some((attrs, rest)) => Some((Start(AsString(u[..n]), attrs), rest))
  }

  function Lex(html: Units): Option<seq<Token>>
    decreases |html|
  {
    if html == [] then Some([])
    else if html[0] == LESS then
      match LexTag(html[1..])
      case None => None
      case Some((tag, rest)) => WithToken(tag, Lex(rest))
    else
      var n := Until(html, {LESS});
      WithToken(Data(Unescape(html[..n])), Lex(html[n..]))
  }

  function WithToken(t: Token, r: Option<seq<Token>>): Option<seq<Token>> {
    if r.Some? then Some([t] + r.value) else None
  }

  // ----------------------------------------------------------------- small facts

  lemma CharsConcat(a: string, b: string)
    ensures Chars(a + b) == Chars(a) + Chars(b)
  {}

  lemma CharsBack(s: string)
    ensures AsString(Chars(s)) == s
  {}

  lemma {:induction false} UntilAt(a: Units, b: Units, stops: set<nat>)
    requires forall k :: 0 <= k < |a| ==> a[k] !in stops
    ensures Until(a + b, stops) == |a| + Until(b, stops)
  {
    if a == [] {
      assert a + b == b;
    } else {
      assert (a + b)[0] == a[0] && (a + b)[1..] == a[1..] + b;
      UntilAt(a[1..], b, stops);
    }
  }

  /** A name a tag or an attribute can have. */
  predicate PlainName(s: string) {
    s != "" && forall k :: 0 <= k < |s| ==> s[k] !in {' ', '=', '>', '/', '<', '"'}
  }

  /** A value that comes through quotes and references as it is. */
  predicate PlainValue(v: string) { '"' !in v && Unescape(Chars(v)) == Chars(v) }

  lemma {:induction false} NoReference(u: Units)
    requires '&' as nat !in u
    ensures Unescape(u) == u
  {
    if u != [] {
      NotReference(u);
      UnescapeStep(u);
      NoReference(u[1..]);
      assert [u[0]] + u[1..] == u;
    }
  }

  lemma UnescapeStep(u: Units)
    requires u != []
    ensures Unescape(u) == Reference(u).0 + Unescape(u[Reference(u).1..])
  {}

  lemma NotReference(u: Units)
    requires u != [] && u[0] != '&' as nat
    ensures Reference(u) == ([u[0]], 1)
  {
    assert forall s: string :: s != "" && Starts(u, s) ==> u[0] == u[..|s|][0] == s[0] as nat;
  }

  lemma {:induction false} UnescapeBehind(a: Units, b: Units)
    requires '&' as nat !in a
    ensures Unescape(a + b) == a + Unescape(b)
  {
    hide Unescape, Reference;
    if a == [] {
      assert a + b == b && [] + Unescape(b) == Unescape(b);
    } else {
      var u := a + b;
      assert u[0] == a[0] && u[1..] == a[1..] + b;
      NotReference(u);
      UnescapeStep(u);
      UnescapeBehind(a[1..], b);
      assert [a[0]] + (a[1..] + Unescape(b)) == a + Unescape(b);
    }
  }

  /** A prefix without references makes no difference. */
  lemma PlainBehind(a: string, v: string)
    requires '&' !in a && '"' !in a
    ensures PlainValue(a + v) <==> PlainValue(v)
  {
    CharsConcat(a, v);
    forall k | 0 <= k < |a| ensures Chars(a)[k] != '&' as nat { assert a[k] in a; }
    UnescapeBehind(Chars(a), Chars(v));
    assert '"' in a + v <==> '"' in v;
    if Chars(a) + Unescape(Chars(v)) == Chars(a) + Chars(v) {
      assert (Chars(a) + Unescape(Chars(v)))[|a|..] == (Chars(a) + Chars(v))[|a|..];
    }
  }

  lemma PlainWithout(v: string)
    requires '&' !in v && '"' !in v
    ensures PlainValue(v)
  {
    forall k | 0 <= k < |v| ensures Chars(v)[k] != '&' as nat { assert v[k] in v; }
    NoReference(Chars(v));
  }
}
