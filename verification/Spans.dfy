/** pyrogram/parser/utils.py: UTF-16 code units, offsets that respect surrogate
    pairs, and the splitting of crossing entity spans. */
module Spans {

  // ------------------------------------------------------------- code units

  type Units = seq<nat>

  predicate IsHigh(u: nat) { 0xD800 <= u <= 0xDBFF }

  predicate IsLow(u: nat) { 0xDC00 <= u <= 0xDFFF }

  /** An insertion at this offset would separate a surrogate pair. */
  predicate Tears(text: Units, offset: int) {
    0 < offset < |text| && IsHigh(text[offset - 1]) && IsLow(text[offset])
  }

  /** add_surrogates: code points above 0xFFFF become a high and a low surrogate. */
  function AddSurrogates(points: seq<nat>): Units {
    if points == [] then []
    else UnitsOf(points[0]) + AddSurrogates(points[1..])
  }

  function UnitsOf(p: nat): Units {
    if 0x10000 <= p <= 0x10FFFF
    then [0xD800 + (p - 0x10000) / 0x400, 0xDC00 + (p - 0x10000) % 0x400]
    else [p]
  }

  datatype Option<T> = None | Some(value: T)

  /** remove_surrogates: pairs are joined; a surrogate without its partner makes
      the UTF-16 decoder raise. */
  function RemoveSurrogates(units: Units): Option<seq<nat>> {
    if units == [] then Some([])
    else if IsHigh(units[0]) then
      if |units| >= 2 && IsLow(units[1]) then
        match RemoveSurrogates(units[2..])
        case None => None
        case Some(rest) => Some([Join(units[0], units[1])] + rest)
      else None
    else if IsLow(units[0]) then None
    else
      match RemoveSurrogates(units[1..])
      case None => None
      case Some(rest) => Some([units[0]] + rest)
  }

  function Join(high: nat, low: nat): nat
    requires IsHigh(high) && IsLow(low)
  {
    0x10000 + (high - 0xD800) * 0x400 + (low - 0xDC00)
  }

  predicate CodePoints(points: seq<nat>) {
    forall k :: 0 <= k < |points| ==> points[k] <= 0x10FFFF
  }

  predicate NoSurrogates(points: seq<nat>) {
    forall k :: 0 <= k < |points| ==> !IsHigh(points[k]) && !IsLow(points[k])
  }

  /** The two helpers are inverse on exactly the strings without surrogate code
      points of their own. */
  lemma {:induction false} SurrogateRoundTrip(points: seq<nat>)
    requires CodePoints(points)
    ensures RemoveSurrogates(AddSurrogates(points)) == Some(points) <==> NoSurrogates(points)
  {
    if NoSurrogates(points) {
      AddThenRemove(points);
    } else if RemoveSurrogates(AddSurrogates(points)) == Some(points) {
      RemoveClean(AddSurrogates(points));
      assert false;
    }
  }

  lemma {:induction false} AddThenRemove(points: seq<nat>)
    requires CodePoints(points) && NoSurrogates(points)
    ensures RemoveSurrogates(AddSurrogates(points)) == Some(points)
  {
    if points != [] {
      var p, rest := points[0], AddSurrogates(points[1..]);
      AddThenRemove(points[1..]);
      var units := AddSurrogates(points);
      if 0x10000 <= p {
        assert units[2..] == rest && units[0] == UnitsOf(p)[0] && units[1] == UnitsOf(p)[1];
      } else {
        assert units[1..] == rest;
      }
      assert points == [p] + points[1..];
    }
  }

  /** Whatever remove_surrogates returns holds no surrogates. */
  lemma {:induction false} RemoveClean(units: Units)
    ensures RemoveSurrogates(units).Some? ==> NoSurrogates(RemoveSurrogates(units).value)
  {
    if units == [] {
    } else if IsHigh(units[0]) {
      if |units| >= 2 && IsLow(units[1]) { RemoveClean(units[2..]); }
    } else {
      RemoveClean(units[1..]);
    }
  }

  /** Decodable text may be cut wherever no pair is torn, and the halves decode. */
  lemma {:induction false} RemoveSplits(units: Units, cut: nat)
    requires cut <= |units| && !Tears(units, cut)
    requires RemoveSurrogates(units).Some?
    ensures RemoveSurrogates(units[..cut]).Some? && RemoveSurrogates(units[cut..]).Some?
  {
    if cut == 0 {
      assert units[cut..] == units;
    } else if IsHigh(units[0]) {
      assert cut >= 2;
      assert !Tears(units[2..], cut - 2);
      RemoveSplits(units[2..], cut - 2);
      assert units[2..][cut - 2..] == units[cut..];
      assert units[..cut][2..] == units[2..][..cut - 2];
    } else {
      assert !Tears(units[1..], cut - 1);
      RemoveSplits(units[1..], cut - 1);
      assert units[1..][cut - 1..] == units[cut..];
      assert units[..cut][1..] == units[1..][..cut - 1];
    }
  }

  lemma {:induction false} RemoveConcat(a: Units, b: Units)
    requires RemoveSurrogates(a).Some? && RemoveSurrogates(b).Some?
    ensures RemoveSurrogates(a + b) == Some(RemoveSurrogates(a).value + RemoveSurrogates(b).value)
  {
    var rb := RemoveSurrogates(b).value;
    if a == [] {
      assert a + b == b;
      assert RemoveSurrogates(a).value + rb == rb;
    } else {
      var width := if IsHigh(a[0]) then 2 else 1;
      RemoveConcat(a[width..], b);
      assert (a + b)[width..] == a[width..] + b;
      var head := [if IsHigh(a[0]) then Join(a[0], a[1]) else a[0]];
      var ra := RemoveSurrogates(a[width..]).value;
      assert head + (ra + rb) == (head + ra) + rb;
    }
  }

  /** add_surrogates leaves text that is already in code units alone. */
  lemma {:induction false} AddSurrogatesIdempotent(units: Units)
    requires forall k :: 0 <= k < |units| ==> units[k] < 0x10000
    ensures AddSurrogates(units) == units
  {
    if units != [] { AddSurrogatesIdempotent(units[1..]); }
  }

  lemma {:induction false} AddSurrogatesBelow(points: seq<nat>)
    requires CodePoints(points)
    ensures forall k :: 0 <= k < |AddSurrogates(points)| ==> AddSurrogates(points)[k] < 0x10000
  {
    if points != [] { AddSurrogatesBelow(points[1..]); }
  }

  // ---------------------------------------------------------------- clamping

  /** Where an offset goes: outwards by one when it would tear a pair. */
  function Clamp(text: Units, offset: int, start: bool): int {
    if Tears(text, offset) then (if start then offset - 1 else offset + 1) else offset
  }

  method ClampToCodePoint(text: Units, offset: int, start: bool) returns (r: int)
    ensures r == Clamp(text, offset, start)
  {
    r := offset;
    while 0 < r < |text|
      invariant r == offset || (r == Clamp(text, offset, start) && !Tears(text, r))
      decreases r == offset, if start then r else |text| - r
    {
      if IsHigh(text[r - 1]) && IsLow(text[r]) {
        r := r + if start then -1 else 1;
      } else {
        break;
      }
    }
  }

  /** The clamped offset tears nothing, stays in bounds, and is the nearest such
      offset on its side. */
  lemma ClampNearest(text: Units, offset: int, start: bool)
    ensures var r := Clamp(text, offset, start);
            && !Tears(text, r)
            && (if start then r <= offset else offset <= r)
            && (0 <= offset <= |text| ==> 0 <= r <= |text|)
            && forall other :: !Tears(text, other) && (if start then other <= offset else offset <= other)
                 ==> (if start then other <= r else r <= other)
  {}

  // ------------------------------------------------------------------- spans

  /** A span and the index of the entity it is a piece of. */
  datatype Span = Span(start: int, end: int, owner: nat)

  datatype Extent = Extent(offset: int, length: int)

  /** The sort key: by start, longer spans first. */
  predicate Leq(a: Span, b: Span) {
    a.start < b.start || (a.start == b.start && a.end >= b.end)
  }

  predicate Crosses(a: Span, b: Span) {
    a.start < b.start < a.end < b.end
  }

  ghost predicate Sorted(spans: seq<Span>) {
    forall i, j :: 0 <= i < j < |spans| ==> Leq(spans[i], spans[j])
  }

  ghost predicate Laminar(spans: seq<Span>) {
    forall i, j :: 0 <= i < |spans| && 0 <= j < |spans| ==> !Crosses(spans[i], spans[j])
  }

  /** Sum of a measure over the spans. */
  ghost function Sum(f: Span -> nat, spans: seq<Span>): nat {
    if spans == [] then 0 else f(spans[0]) + Sum(f, spans[1..])
  }

  lemma {:induction false} SumConcat(f: Span -> nat, a: seq<Span>, b: seq<Span>)
    ensures Sum(f, a + b) == Sum(f, a) + Sum(f, b)
  {
    if a == [] {
      assert a + b == b;
    } else {
      SumConcat(f, a[1..], b);
      assert (a + b)[1..] == a[1..] + b;
    }
  }

  lemma SumOne(f: Span -> nat, x: Span)
    ensures Sum(f, [x]) == f(x)
  {
    assert Sum(f, [x][1..]) == 0;
  }

  /** How often entity owner's pieces cover position p. */
  function CoverF(owner: nat, p: int): Span -> nat {
    (s: Span) => if s.owner == owner && s.start <= p < s.end then 1 else 0
  }

  /** How often a given degenerate span occurs. */
  function CountF(x: Span): Span -> nat {
    (s: Span) => if s == x then 1 else 0
  }

  /** How many more pieces a span could still be cut into. */
  function CutsF(): Span -> nat {
    (s: Span) => if s.end - s.start >= 1 then s.end - s.start - 1 else 0
  }

  /** Sums are unchanged by the sort. */
  function Insert(spans: seq<Span>, x: Span): seq<Span> {
    if spans == [] || Leq(spans[|spans| - 1], x) then spans + [x]
    else Insert(spans[..|spans| - 1], x) + [spans[|spans| - 1]]
  }

  /** list.sort: a stable insertion sort by the key. */
  function SortSpans(spans: seq<Span>): seq<Span> {
    if spans == [] then [] else Insert(SortSpans(spans[..|spans| - 1]), spans[|spans| - 1])
  }

  lemma {:induction false} InsertSorted(spans: seq<Span>, x: Span)
    requires Sorted(spans)
    ensures Sorted(Insert(spans, x))
    ensures multiset(Insert(spans, x)) == multiset(spans) + multiset{x}
  {
    if spans == [] || Leq(spans[|spans| - 1], x) {
    } else {
      var init, last := spans[..|spans| - 1], spans[|spans| - 1];
      assert spans == init + [last];
      InsertSorted(init, x);
      var t := Insert(init, x);
      forall i | 0 <= i < |t| ensures Leq(t[i], last) {
        assert t[i] in multiset(t);
      }
    }
  }

  lemma {:induction false} SortSorted(spans: seq<Span>)
    ensures Sorted(SortSpans(spans)) && multiset(SortSpans(spans)) == multiset(spans)
  {
    if spans != [] {
      var init, last := spans[..|spans| - 1], spans[|spans| - 1];
      assert spans == init + [last];
      SortSorted(init);
      InsertSorted(SortSpans(init), last);
    }
  }

  ghost function WithKey(spans: seq<Span>, start: int, end: int): seq<Span> {
    if spans == [] then []
    else
      var rest := WithKey(spans[..|spans| - 1], start, end);
      var last := spans[|spans| - 1];
      if last.start == start && last.end == end then rest + [last] else rest
  }

  lemma {:induction false} InsertStable(spans: seq<Span>, x: Span, start: int, end: int)
    ensures WithKey(Insert(spans, x), start, end) == WithKey(spans + [x], start, end)
  {
    if spans == [] || Leq(spans[|spans| - 1], x) {
    } else {
      var init, last := spans[..|spans| - 1], spans[|spans| - 1];
      InsertStable(init, x, start, end);
      var t := Insert(init, x);
      assert (t + [last])[..|t|] == t;
      assert (spans + [x])[..|spans|] == spans;
      assert (init + [x])[..|init|] == init;
    }
  }

  /** Spans with the same key keep the order they came in. */
  lemma {:induction false} SortStable(spans: seq<Span>, start: int, end: int)
    ensures WithKey(SortSpans(spans), start, end) == WithKey(spans, start, end)
  {
    if spans != [] {
      var init, last := spans[..|spans| - 1], spans[|spans| - 1];
      SortStable(init, start, end);
      InsertStable(SortSpans(init), last, start, end);
      assert (SortSpans(init) + [last])[..|SortSpans(init)|] == SortSpans(init);
    }
  }

  lemma {:induction false} InsertSum(f: Span -> nat, spans: seq<Span>, x: Span)
    ensures Sum(f, Insert(spans, x)) == Sum(f, spans) + f(x)
  {
    SumOne(f, x);
    if spans == [] || Leq(spans[|spans| - 1], x) {
      SumConcat(f, spans, [x]);
    } else {
      var init, last := spans[..|spans| - 1], spans[|spans| - 1];
      InsertSum(f, init, x);
      SumConcat(f, Insert(init, x), [last]);
      SumConcat(f, init, [last]);
      assert spans == init + [last];
    }
  }

  lemma {:induction false} SortSum(f: Span -> nat, spans: seq<Span>)
    ensures Sum(f, SortSpans(spans)) == Sum(f, spans)
  {
    if spans != [] {
      var init, last := spans[..|spans| - 1], spans[|spans| - 1];
      SortSum(f, init);
      InsertSum(f, SortSpans(init), last);
      SumOne(f, last);
      SumConcat(f, init, [last]);
      assert spans == init + [last];
    }
  }

  // --------------------------------------------------------------- splitting

  /** spans[k:k+1] = [left, right], then sort again. */
  function Cut(spans: seq<Span>, k: nat, at: int): seq<Span>
    requires k < |spans|
  {
    var b := spans[k];
    SortSpans(spans[..k] + [Span(b.start, at, b.owner), Span(at, b.end, b.owner)] + spans[k + 1..])
  }

  lemma CutSum(f: Span -> nat, spans: seq<Span>, k: nat, at: int)
    requires k < |spans|
    ensures var b := spans[k];
            Sum(f, Cut(spans, k, at)) + f(b)
              == Sum(f, spans) + f(Span(b.start, at, b.owner)) + f(Span(at, b.end, b.owner))
  {
    hide Sum, SortSpans;
    var b := spans[k];
    var l, r := Span(b.start, at, b.owner), Span(at, b.end, b.owner);
    SortSum(f, spans[..k] + [l, r] + spans[k + 1..]);
    SumParts(f, spans[..k], [l, r], spans[k + 1..]);
    assert [l, r] == [l] + [r];
    SumConcat(f, [l], [r]);
    SumOne(f, l);
    SumOne(f, r);
    SumOne(f, b);
    assert spans == spans[..k] + [b] + spans[k + 1..];
    SumParts(f, spans[..k], [b], spans[k + 1..]);
  }

  lemma SumParts(f: Span -> nat, a: seq<Span>, b: seq<Span>, c: seq<Span>)
    ensures Sum(f, a + b + c) == Sum(f, a) + Sum(f, b) + Sum(f, c)
  {
    SumConcat(f, a + b, c);
    SumConcat(f, a, b);
  }

  /** p is an endpoint of one of the spans. */
  ghost predicate IsEndpoint(spans: seq<Span>, p: int) {
    exists k :: 0 <= k < |spans| && (spans[k].start == p || spans[k].end == p)
  }

  /** x is y, or a non-empty part of it. */
  predicate PieceOf(x: Span, y: Span) {
    x == y || (x.owner == y.owner && y.start <= x.start < x.end <= y.end)
  }

  ghost predicate From(was: seq<Span>, x: Span) {
    exists y :: y in was && PieceOf(x, y)
  }

  /** now is a sorted refinement of was: every entity covers exactly the same
      positions equally often, empty and reversed spans are untouched, every span
      is a piece of an old one, and no new endpoint appears. */
  ghost predicate Refines(was: seq<Span>, now: seq<Span>) {
    && Sorted(now)
    && (forall o, p :: Sum(CoverF(o, p), now) == Sum(CoverF(o, p), was))
    && (forall x: Span :: x.start >= x.end ==> Sum(CountF(x), now) == Sum(CountF(x), was))
    && (forall x :: x in now ==> From(was, x))
    && (forall x :: x in now ==> IsEndpoint(was, x.start) && IsEndpoint(was, x.end))
  }

  lemma CutMembers(spans: seq<Span>, k: nat, at: int)
    requires k < |spans|
    ensures Sorted(Cut(spans, k, at))
    ensures forall x :: x in Cut(spans, k, at) ==>
              x in spans || x == Span(spans[k].start, at, spans[k].owner) || x == Span(at, spans[k].end, spans[k].owner)
  {
    var b := spans[k];
    var t := spans[..k] + [Span(b.start, at, b.owner), Span(at, b.end, b.owner)] + spans[k + 1..];
    SortSorted(t);
    forall x | x in Cut(spans, k, at) ensures x in t { assert x in multiset(SortSpans(t)); }
  }

  /** Cutting a span at the end of one it crosses keeps the refinement and uses
      up one possible cut. */
  lemma CutRefines(was: seq<Span>, spans: seq<Span>, i: nat, k: nat)
    requires Refines(was, spans) && i < |spans| && k < |spans| && Crosses(spans[i], spans[k])
    ensures Refines(was, Cut(spans, k, spans[i].end))
    ensures Sum(CutsF(), Cut(spans, k, spans[i].end)) + 1 == Sum(CutsF(), spans)
  {
    hide Sum, CoverF, CountF, CutsF, Cut, From, IsEndpoint, Sorted;
    var at := spans[i].end;
    CutMembers(spans, k, at);
    CutsFewer(spans, i, k);
    forall o: nat, p ensures Sum(CoverF(o, p), Cut(spans, k, at)) == Sum(CoverF(o, p), was) {
      CutCovers(spans, i, k, o, p);
    }
    forall x: Span | x.start >= x.end ensures Sum(CountF(x), Cut(spans, k, at)) == Sum(CountF(x), was) {
      CutCounts(spans, i, k, x);
    }
    forall x | x in Cut(spans, k, at) ensures From(was, x) && IsEndpoint(was, x.start) && IsEndpoint(was, x.end) {
      assert spans[k] in spans && spans[i] in spans;
      if x !in spans { PieceFrom(was, x, spans[k]); }
    }
  }

  lemma CutsFewer(spans: seq<Span>, i: nat, k: nat)
    requires i < |spans| && k < |spans| && Crosses(spans[i], spans[k])
    ensures Sum(CutsF(), Cut(spans, k, spans[i].end)) + 1 == Sum(CutsF(), spans)
  {
    hide Sum, Cut;
    CutSum(CutsF(), spans, k, spans[i].end);
  }

  lemma CutCovers(spans: seq<Span>, i: nat, k: nat, o: nat, p: int)
    requires i < |spans| && k < |spans| && Crosses(spans[i], spans[k])
    ensures Sum(CoverF(o, p), Cut(spans, k, spans[i].end)) == Sum(CoverF(o, p), spans)
  {
    hide Sum, Cut;
    CutSum(CoverF(o, p), spans, k, spans[i].end);
  }

  lemma CutCounts(spans: seq<Span>, i: nat, k: nat, x: Span)
    requires i < |spans| && k < |spans| && Crosses(spans[i], spans[k]) && x.start >= x.end
    ensures Sum(CountF(x), Cut(spans, k, spans[i].end)) == Sum(CountF(x), spans)
  {
    hide Sum, Cut;
    CutSum(CountF(x), spans, k, spans[i].end);
  }

  lemma PieceFrom(was: seq<Span>, x: Span, b: Span)
    requires From(was, b) && PieceOf(x, b)
    ensures From(was, x)
  {
    var y :| y in was && PieceOf(b, y);
    assert PieceOf(x, y);
  }

  /** The spans before splitting: both ends of every entity clamped outwards. */
  function Clamped(text: Units, entities: seq<Extent>): (spans: seq<Span>)
    ensures |spans| == |entities|
    ensures forall k :: 0 <= k < |spans| ==> spans[k] == ClampedSpan(text, entities[k], k)
  {
    seq(|entities|, k requires 0 <= k < |entities| => ClampedSpan(text, entities[k], k))
  }

  function ClampedSpan(text: Units, e: Extent, k: nat): Span {
    Span(Clamp(text, e.offset, true), Clamp(text, e.offset + e.length, false), k)
  }

  lemma SortRefines(spans: seq<Span>)
    ensures Refines(spans, SortSpans(spans))
  {
    var now := SortSpans(spans);
    SortSorted(spans);
    forall o, p ensures Sum(CoverF(o, p), now) == Sum(CoverF(o, p), spans) { SortSum(CoverF(o, p), spans); }
    forall x: Span | x.start >= x.end ensures Sum(CountF(x), now) == Sum(CountF(x), spans) { SortSum(CountF(x), spans); }
    forall x | x in now ensures From(spans, x) && IsEndpoint(spans, x.start) && IsEndpoint(spans, x.end) {
      assert x in multiset(now);
      assert x in spans;
      var k :| 0 <= k < |spans| && spans[k] == x;
      assert PieceOf(x, x);
    }
  }

  /** The first crossing pair at or after (i, k), in the order of the two loops. */
  function NextCrossing(spans: seq<Span>, i: nat, k: nat): (r: Option<(nat, nat)>)
    requires i <= |spans| && k <= |spans|
    ensures r.Some? ==> r.value.0 < |spans| && r.value.1 < |spans| && Crosses(spans[r.value.0], spans[r.value.1])
    decreases |spans| - i, |spans| - k
  {
    if i == |spans| then None
    else if k == |spans| then NextCrossing(spans, i + 1, 0)
    else if Crosses(spans[i], spans[k]) then Some((i, k))
    else NextCrossing(spans, i, k + 1)
  }

  lemma {:induction false} NoCrossingFrom(spans: seq<Span>, i: nat, k: nat)
    requires i <= |spans| && k <= |spans| && NextCrossing(spans, i, k).None?
    ensures forall b :: i < |spans| && k <= b < |spans| ==> !Crosses(spans[i], spans[b])
    ensures forall a, b :: i < a < |spans| && 0 <= b < |spans| ==> !Crosses(spans[a], spans[b])
    decreases |spans| - i, |spans| - k
  {
    if i == |spans| {
    } else if k == |spans| {
      NoCrossingFrom(spans, i + 1, 0);
    } else {
      NoCrossingFrom(spans, i, k + 1);
    }
  }

  lemma CutShrinks(spans: seq<Span>, i: nat, k: nat)
    requires i < |spans| && k < |spans| && Crosses(spans[i], spans[k])
    ensures Sum(CutsF(), Cut(spans, k, spans[i].end)) + 1 == Sum(CutsF(), spans)
  {
    CutSum(CutsF(), spans, k, spans[i].end);
  }

  /** While some span crosses another, the later one is cut where the earlier
      ends, and the search starts over. */
  ghost function Split(spans: seq<Span>): seq<Span>
    decreases Sum(CutsF(), spans)
  {
    match NextCrossing(spans, 0, 0)
    case None => spans
    case Some((i, k)) =>
      CutShrinks(spans, i, k);
      Split(Cut(spans, k, spans[i].end))
  }

  lemma {:induction false} SplitRefines(was: seq<Span>, spans: seq<Span>)
    requires Refines(was, spans)
    ensures Refines(was, Split(spans)) && Laminar(Split(spans))
    decreases Sum(CutsF(), spans)
  {
    match NextCrossing(spans, 0, 0)
    case None =>
      NoCrossingFrom(spans, 0, 0);
    case Some((i, k)) =>
      CutShrinks(spans, i, k);
      CutRefines(was, spans, i, k);
      SplitRefines(was, Cut(spans, k, spans[i].end));
  }

  /** The spans split_crossing_spans returns. */
  ghost function SplitSpans(text: Units, entities: seq<Extent>): seq<Span> {
    Split(SortSpans(Clamped(text, entities)))
  }

  /** They refine the clamped entities, sorted, and no two of them cross. */
  lemma SplitSpansCorrect(text: Units, entities: seq<Extent>)
    ensures Refines(Clamped(text, entities), SplitSpans(text, entities))
    ensures Laminar(SplitSpans(text, entities))
  {
    SortRefines(Clamped(text, entities));
    SplitRefines(Clamped(text, entities), SortSpans(Clamped(text, entities)));
  }

  /** split_crossing_spans. */
  method SplitCrossingSpans(text: Units, entities: seq<Extent>) returns (spans: seq<Span>)
    ensures spans == SplitSpans(text, entities)
  {
    ghost var was := Clamped(text, entities);
    spans := [];
    for n := 0 to |entities|
      invariant spans == was[..n]
    {
      var start := ClampToCodePoint(text, entities[n].offset, true);
      var end := ClampToCodePoint(text, entities[n].offset + entities[n].length, false);
      spans := spans + [Span(start, end, n)];
    }
    assert spans == was;
    spans := SortSpans(spans);
    var crossing := true;
    while crossing
      invariant Split(spans) == Split(SortSpans(was))
      invariant !crossing ==> NextCrossing(spans, 0, 0).None?
      decreases Sum(CutsF(), spans), crossing
    {
      var i, k;
      crossing, i, k := FindCrossing(spans);
      if crossing {
        CutShrinks(spans, i, k);
        spans := Cut(spans, k, spans[i].end);
      }
    }
  }

  /** The nested search loops of split_crossing_spans. */
  method FindCrossing(spans: seq<Span>) returns (crossing: bool, i: nat, k: nat)
    ensures NextCrossing(spans, 0, 0) == if crossing then Some((i, k)) else None
    ensures crossing ==> i < |spans| && k < |spans| && Crosses(spans[i], spans[k])
  {
    crossing, i, k := false, 0, 0;
    while i < |spans|
      invariant i <= |spans|
      invariant NextCrossing(spans, 0, 0) == NextCrossing(spans, i, 0)
    {
      k := 0;
      while k < |spans|
        invariant k <= |spans|
        invariant NextCrossing(spans, 0, 0) == NextCrossing(spans, i, k)
      {
        if Crosses(spans[i], spans[k]) {
          crossing := true;
          return;
        }
        k := k + 1;
      }
      i := i + 1;
    }
  }

  // ------------------------------------------------ what the refinement means

  lemma {:induction false} CoverTail(spans: seq<Span>, from: nat, owner: nat, p: int)
    requires from <= |spans| && forall k :: 0 <= k < |spans| ==> spans[k].owner == k
    ensures Sum(CoverF(owner, p), spans[from..])
         == if from <= owner < |spans| && spans[owner].start <= p < spans[owner].end then 1 else 0
    decreases |spans| - from
  {
    if from < |spans| {
      CoverTail(spans, from + 1, owner, p);
      assert spans[from..][1..] == spans[from + 1..];
    }
  }

  /** The pieces of every entity partition its clamped interval: each position of
      it lies in exactly one piece, every other position in none. */
  lemma PiecesPartition(text: Units, entities: seq<Extent>, spans: seq<Span>, owner: nat, p: int)
    requires Refines(Clamped(text, entities), spans) && owner < |entities|
    ensures Sum(CoverF(owner, p), spans)
         == if Clamp(text, entities[owner].offset, true) <= p
               < Clamp(text, entities[owner].offset + entities[owner].length, false) then 1 else 0
  {
    var was := Clamped(text, entities);
    CoverTail(was, 0, owner, p);
    assert was[0..] == was;
  }

  /** No boundary of the result, old or newly cut, falls inside a pair. */
  lemma NothingTorn(text: Units, entities: seq<Extent>, spans: seq<Span>)
    requires Refines(Clamped(text, entities), spans)
    ensures forall x :: x in spans ==> !Tears(text, x.start) && !Tears(text, x.end)
  {
    var was := Clamped(text, entities);
    forall p | IsEndpoint(was, p) ensures !Tears(text, p) {
      var k :| 0 <= k < |was| && (was[k].start == p || was[k].end == p);
      ClampNearest(text, entities[k].offset, true);
      ClampNearest(text, entities[k].offset + entities[k].length, false);
    }
  }

  predicate InText(text: Units, e: Extent) {
    0 <= e.offset && 0 <= e.length && e.offset + e.length <= |text|
  }

  /** Entities inside the text give spans inside the text, none reversed. */
  lemma SpansInBounds(text: Units, entities: seq<Extent>, spans: seq<Span>)
    requires Refines(Clamped(text, entities), spans)
    requires forall k :: 0 <= k < |entities| ==> InText(text, entities[k])
    ensures forall x :: x in spans ==> 0 <= x.start <= x.end <= |text| && x.owner < |entities|
  {
    var was := Clamped(text, entities);
    forall y | y in was ensures 0 <= y.start <= y.end <= |text| && y.owner < |entities| {
      var k :| 0 <= k < |was| && was[k] == y;
      ClampNearest(text, entities[k].offset, true);
      ClampNearest(text, entities[k].offset + entities[k].length, false);
    }
    forall x | x in spans ensures 0 <= x.start <= x.end <= |text| && x.owner < |entities| {
      var y :| y in was && PieceOf(x, y);
    }
  }
}
