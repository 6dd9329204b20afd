/** pyrogram/utils.py: split_text, which cuts a long message at newlines, failing that
    at spaces, failing that anywhere. */
module SplitText {

  /** str.rfind of one character. */
  function LastIndex(s: string, c: char): (i: int)
    ensures -1 <= i < |s|
    ensures i >= 0 ==> s[i] == c
    ensures forall k :: i < k < |s| ==> s[k] != c
  {
    if s == "" then -1
    else if s[|s| - 1] == c then |s| - 1
    else LastIndex(s[..|s| - 1], c)
  }

  /** A chunk and the separator dropped behind it. */
  datatype Piece = Piece(chunk: string, sep: string)

  /** One turn of the loop on a text longer than the limit. */
  function Cut(s: string, max: nat): (p: Piece)
    requires |s| > max
    ensures p.chunk + p.sep <= s
    ensures |p.chunk| <= max && |p.sep| <= 1
  {
    var window := s[..max];
    var newline := LastIndex(window, '\n');
    var space := LastIndex(window, ' ');
    if newline > 0 then Whole(s, newline); Piece(window[..newline], "\n")
    else if space > 0 && space > |window| / 2 then Whole(s, space); Piece(window[..space], " ")
    else Piece(window, "")
  }

  lemma Whole(s: string, k: nat)
    requires k < |s|
    ensures s[..k] + [s[k]] <= s
  {}

  /** A turn shortens the text, and takes a chunk, exactly when the limit is
      positive: split_text does not return for a longer text and limit 0. */
  lemma TurnProgresses(s: string, max: nat)
    requires |s| > max
    ensures |Cut(s, max).chunk + Cut(s, max).sep| > 0 <==> max > 0
    ensures max > 0 ==> Cut(s, max).chunk != ""
  {}

  function Text(ps: seq<Piece>): string { if ps == [] then "" else ps[0].chunk + ps[0].sep + Text(ps[1..]) }

  function Chunks(ps: seq<Piece>): seq<string> { if ps == [] then [] else [ps[0].chunk] + Chunks(ps[1..]) }

  function Joined(chunks: seq<string>): string { if chunks == [] then "" else chunks[0] + Joined(chunks[1..]) }

  /** No newline at or after position k. */
  predicate Without(s: string, c: char, k: nat) { forall i :: k <= i < |s| ==> s[i] != c }

  /** What a chunk may be, given the text from it on: the whole of a text that fits;
      up to the last newline of the window; up to its last space, past the middle,
      when only a leading newline is there; and a full window otherwise. */
  predicate WellCutAt(p: Piece, s: string, max: nat)
    requires p.chunk + p.sep <= s
  {
    var n := |p.chunk|;
    && n > 0
    && if |s| <= max then n == |s|
       else
         && |s| > max
         && var window := s[..max];
            if p.sep == "\n" then n < max && Without(window, '\n', n + 1)
            else
              && Without(window, '\n', 1)
              && if p.sep == " " then n < max && n > max / 2 && Without(window, ' ', n + 1)
                 else p.sep == "" && n == max && forall k :: 0 < k < max && k > max / 2 ==> window[k] != ' '
  }

  ghost predicate WellCut(ps: seq<Piece>, max: nat) {
    ps == [] ||
    (Prefix(ps); WellCutAt(ps[0], Text(ps), max) && WellCut(ps[1..], max))
  }

  lemma Prefix(ps: seq<Piece>)
    requires ps != []
    ensures ps[0].chunk + ps[0].sep <= Text(ps)
  {}

  lemma CutIsWell(s: string, max: nat)
    requires |s| > max > 0
    ensures WellCutAt(Cut(s, max), s, max)
  {
    var window := s[..max];
    var newline := LastIndex(window, '\n');
    var space := LastIndex(window, ' ');
    if newline > 0 {
      assert Cut(s, max) == Piece(window[..newline], "\n");
    } else {
      assert Without(window, '\n', 1);
      if space > 0 && space > max / 2 {
        assert Cut(s, max) == Piece(window[..space], " ");
      }
    }
  }

  function After(s: string, p: Piece): (r: string)
    requires p.chunk + p.sep <= s
    ensures p.chunk + p.sep + r == s
  {
    s[|p.chunk + p.sep|..]
  }

  /** The cuts of a text, one turn after the other. */
  function Pieces(s: string, max: nat): seq<Piece>
    requires max > 0
    decreases |s|
  {
    if s == "" then []
    else if |s| <= max then [Piece(s, "")]
    else
      TurnProgresses(s, max);
      [Cut(s, max)] + Pieces(After(s, Cut(s, max)), max)
  }

  method Split(text: string, max: nat) returns (chunks: seq<string>)
    requires max > 0
    ensures chunks == if |text| <= max then [text] else Chunks(Pieces(text, max))
  {
    hide LastIndex, WellCut, Chunks, Pieces;
    if |text| <= max { return [text]; }
    chunks := [];
    var remaining := text;
    while remaining != ""
      invariant chunks + Chunks(Pieces(remaining, max)) == Chunks(Pieces(text, max))
      decreases |remaining|
    {
      ChunksStep(remaining, max);
      if |remaining| <= max {
        chunks := chunks + [remaining];
        break;
      }
      ghost var p := Cut(remaining, max);
      ghost var rest := After(remaining, p);
      TurnProgresses(remaining, max);
      var window := remaining[..max];
      var chunk;
      var newline := LastIndex(window, '\n');
      if newline > 0 {
        chunk := window[..newline];
        remaining := remaining[newline + 1..];
      } else {
        var space := LastIndex(window, ' ');
        if space > 0 && space > |window| / 2 {
          chunk := window[..space];
          remaining := remaining[space + 1..];
        } else {
          chunk := window;
          remaining := remaining[max..];
        }
      }
      assert chunk == p.chunk && remaining == rest;
      if chunk != "" { chunks := chunks + [chunk]; }
    }
    ChunksStep("", max);
  }

  lemma ChunksStep(s: string, max: nat)
    requires max > 0
    ensures Chunks(Pieces(s, max))
         == if s == "" then []
            else if |s| <= max then [s]
            else [Cut(s, max).chunk] + Chunks(Pieces(After(s, Cut(s, max)), max))
  {
    hide Cut;
    if |s| > max {
      TurnProgresses(s, max);
      ChunksOf(Cut(s, max), Pieces(After(s, Cut(s, max)), max));
    } else if s != "" {
      assert Chunks([Piece(s, "")]) == [s];
    }
  }

  lemma ChunksOf(p: Piece, ps: seq<Piece>)
    ensures Chunks([p] + ps) == [p.chunk] + Chunks(ps)
    ensures Text([p] + ps) == p.chunk + p.sep + Text(ps)
  {
    assert ([p] + ps)[1..] == ps;
  }

  /** The cuts give back the text, and each is made where it should be. */
  lemma {:induction false} PiecesRight(s: string, max: nat)
    requires max > 0
    ensures Text(Pieces(s, max)) == s && WellCut(Pieces(s, max), max)
    decreases |s|
  {
    hide LastIndex, Cut;
    if s == "" {
    } else if |s| <= max {
      var p := Piece(s, "");
      ChunksOf(p, []);
      assert Pieces(s, max) == [p] + [] && s + "" + "" == s;
      assert Pieces(s, max)[1..] == [];
    } else {
      var p := Cut(s, max);
      var rest := Pieces(After(s, p), max);
      TurnProgresses(s, max);
      PiecesRight(After(s, p), max);
      ChunksOf(p, rest);
      CutIsWell(s, max);
      assert ([p] + rest)[1..] == rest;
    }
  }

  /** There is only one way to cut a text well. */
  lemma {:induction false} WellCutUnique(ps: seq<Piece>, qs: seq<Piece>, max: nat)
    requires WellCut(ps, max) && WellCut(qs, max) && Text(ps) == Text(qs)
    ensures ps == qs
    decreases |ps|
  {
    if ps == [] || qs == [] {
      if ps != [] { Prefix(ps); }
      if qs != [] { Prefix(qs); }
    } else {
      Prefix(ps);
      Prefix(qs);
      SameCut(ps[0], qs[0], Text(ps), max);
      assert Text(ps[1..]) == Text(ps)[|ps[0].chunk + ps[0].sep|..] == Text(qs[1..]);
      WellCutUnique(ps[1..], qs[1..], max);
    }
  }

  lemma SameCut(p: Piece, q: Piece, s: string, max: nat)
    requires p.chunk + p.sep <= s && q.chunk + q.sep <= s
    requires WellCutAt(p, s, max) && WellCutAt(q, s, max)
    ensures p == q
  {
    SepOf(p, s, max);
    SepOf(q, s, max);
    var n, m := |p.chunk|, |q.chunk|;
    if |s| > max {
      var window := s[..max];
      if p.sep == "\n" { assert n > 0 && window[n] == '\n'; }
      if q.sep == "\n" { assert m > 0 && window[m] == '\n'; }
      if p.sep == " " { assert window[n] == ' '; }
      if q.sep == " " { assert window[m] == ' '; }
    }
    assert n == m;
    assert p.chunk == s[..n] && q.chunk == s[..m];
  }

  /** A well cut piece's separator stands behind its chunk. */
  lemma SepOf(p: Piece, s: string, max: nat)
    requires p.chunk + p.sep <= s && WellCutAt(p, s, max)
    ensures p.sep == "" || p.sep == "\n" || p.sep == " "
    ensures |p.chunk| < |s| || p.sep == ""
    ensures p.sep != "" ==> |s| > max && s[|p.chunk|] == p.sep[0]
    ensures p.chunk == s[..|p.chunk|] && |p.chunk| <= max
  {
    var n := |p.chunk|;
    assert (p.chunk + p.sep)[n..] == p.sep;
    if p.sep != "" { assert (p.chunk + p.sep)[n] == p.sep[0]; }
  }

  /** Limits and losses over the whole of a long text: no chunk is empty or over the
      limit, and only newlines and spaces are dropped, one behind a chunk at most. */
  lemma SplitKeeps(text: string, max: nat)
    requires |text| > max > 0
    ensures var chunks := Chunks(Pieces(text, max));
            && (forall k :: 0 <= k < |chunks| ==> 0 < |chunks[k]| <= max)
            && Solid(Joined(chunks)) == Solid(text)
            && |Joined(chunks)| <= |text| <= |Joined(chunks)| + |chunks|
  {
    PiecesRight(text, max);
    WellCutKeeps(Pieces(text, max), max);
  }

  /** The text without its newlines and spaces. */
  function Solid(s: string): string {
    if s == "" then ""
    else (if s[0] == '\n' || s[0] == ' ' then "" else [s[0]]) + Solid(s[1..])
  }

  lemma {:induction false} SolidAppend(a: string, b: string)
    ensures Solid(a + b) == Solid(a) + Solid(b)
  {
    if a == "" {
      assert a + b == b;
    } else {
      assert (a + b)[1..] == a[1..] + b;
      SolidAppend(a[1..], b);
    }
  }

  lemma {:induction false} WellCutKeeps(ps: seq<Piece>, max: nat)
    requires WellCut(ps, max)
    ensures var chunks := Chunks(ps);
            && |chunks| == |ps|
            && (forall k :: 0 <= k < |chunks| ==> 0 < |chunks[k]| <= max)
            && Solid(Joined(chunks)) == Solid(Text(ps))
            && |Joined(chunks)| <= |Text(ps)| <= |Joined(chunks)| + |chunks|
  {
    hide Solid, WellCutAt;
    if ps == [] {
      assert Joined([]) == Text([]) == "";
    } else {
      var p, rest := ps[0], ps[1..];
      Prefix(ps);
      WellCutKeeps(rest, max);
      Separator(p, Text(ps), max);
      SolidOfPiece(p, Joined(Chunks(rest)), Text(rest));
      assert Chunks(ps)[1..] == Chunks(rest);
      assert Joined(Chunks(ps)) == p.chunk + Joined(Chunks(rest));
    }
  }

  lemma SolidOfPiece(p: Piece, joined: string, text: string)
    requires Solid(p.sep) == "" && Solid(joined) == Solid(text)
    ensures Solid(p.chunk + joined) == Solid(p.chunk + p.sep + text)
  {
    SolidAppend(p.chunk, joined);
    SolidAppend(p.chunk + p.sep, text);
    SolidAppend(p.chunk, p.sep);
  }

  lemma Separator(p: Piece, s: string, max: nat)
    requires p.chunk + p.sep <= s && WellCutAt(p, s, max)
    ensures |p.sep| <= 1 && Solid(p.sep) == ""
    ensures 0 < |p.chunk| <= max
  {
    SepOf(p, s, max);
    if p.sep != "" { assert p.sep[1..] == ""; }
  }
}
