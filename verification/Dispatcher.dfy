/** pyrogram/dispatcher.py: handler groups and the propagation of one update through
    them, while the groups stand still. */
module Dispatcher {

  datatype Option<+T> = None | Some(value: T)

  type Handler = int

  type Exc = int

  datatype Group = Group(number: int, handlers: seq<Handler>)

  type Groups = seq<Group>

  // ------------------------------------------------------------- keeping the groups

  /** Numbers rise, no group is empty, no handler is twice in a group. */
  ghost predicate Kept(gs: Groups) {
    && (forall i, j :: 0 <= i < j < |gs| ==> gs[i].number < gs[j].number)
    && (forall i :: 0 <= i < |gs| ==> gs[i].handlers != [] && Distinct(gs[i].handlers))
  }

  ghost predicate Distinct(hs: seq<Handler>) { forall i, j :: 0 <= i < j < |hs| ==> hs[i] != hs[j] }

  /** The handlers of a number; none for a number without a group. */
  function Of(gs: Groups, n: int): seq<Handler> {
    if gs == [] then [] else if gs[0].number == n then gs[0].handlers else Of(gs[1..], n)
  }

  /** The first place of a number, or the length. */
  function Find(gs: Groups, n: int): (k: nat)
    ensures k <= |gs| && (k < |gs| ==> gs[k].number == n) && forall i :: 0 <= i < k ==> gs[i].number != n
  {
    if gs == [] || gs[0].number == n then 0 else 1 + Find(gs[1..], n)
  }

  /** sorted() by number, one insertion after the other. */
  function Insert(gs: Groups, g: Group): Groups {
    if gs == [] || gs[0].number > g.number then [g] + gs else [gs[0]] + Insert(gs[1..], g)
  }

  function SortGroups(gs: Groups): Groups {
    if gs == [] then [] else Insert(SortGroups(gs[..|gs| - 1]), gs[|gs| - 1])
  }

  /** The first place of a handler, or the length. */
  function Index(hs: seq<Handler>, h: Handler): (k: nat)
    ensures k <= |hs| && (k < |hs| ==> hs[k] == h) && forall i :: 0 <= i < k ==> hs[i] != h
  {
    if hs == [] || hs[0] == h then 0 else 1 + Index(hs[1..], h)
  }

  /** list.remove of the first occurrence. */
  function Removed(hs: seq<Handler>, h: Handler): seq<Handler>
    requires h in hs
  {
    hs[..Index(hs, h)] + hs[Index(hs, h) + 1..]
  }

  lemma {:induction false} SortedStays(gs: Groups)
    requires forall i, j :: 0 <= i < j < |gs| ==> gs[i].number < gs[j].number
    ensures SortGroups(gs) == gs
  {
    if gs != [] {
      var n := |gs| - 1;
      SortedStays(gs[..n]);
      InsertLast(gs[..n], gs[n]);
      assert gs == gs[..n] + [gs[n]];
    }
  }

  lemma {:induction false} InsertLast(gs: Groups, g: Group)
    requires forall i :: 0 <= i < |gs| ==> gs[i].number < g.number
    ensures Insert(gs, g) == gs + [g]
  {
    if gs != [] { InsertLast(gs[1..], g); }
  }

  lemma {:induction false} InsertAt(gs: Groups, g: Group, k: nat)
    requires k <= |gs|
    requires forall i :: 0 <= i < k ==> gs[i].number < g.number
    requires forall i :: k <= i < |gs| ==> gs[i].number > g.number
    ensures Insert(gs, g) == gs[..k] + [g] + gs[k..]
  {
    if k > 0 {
      InsertAt(gs[1..], g, k - 1);
      assert gs[..k] == [gs[0]] + gs[1..][..k - 1] && gs[1..][k - 1..] == gs[k..];
    } else {
      assert gs[..0] + [g] + gs[0..] == [g] + gs;
    }
  }

  /** Where a number belongs. */
  function Place(gs: Groups, n: int): (k: nat)
    ensures k <= |gs|
    ensures forall i :: 0 <= i < k ==> gs[i].number < n
    ensures k < |gs| ==> gs[k].number >= n
  {
    if gs == [] || gs[0].number >= n then 0 else 1 + Place(gs[1..], n)
  }

  /** The groups with a handler added, as add_handler leaves them. */
  function Added(gs: Groups, h: Handler, n: int): Groups {
    Appended(if Find(gs, n) < |gs| then gs else SortGroups(gs + [Group(n, [])]), h, n)
  }

  /** The handler behind those of its group, unless it is among them. */
  function Appended(gs: Groups, h: Handler, n: int): Groups {
    var k := Find(gs, n);
    if k == |gs| || h in gs[k].handlers then gs
    else gs[k := gs[k].(handlers := gs[k].handlers + [h])]
  }

  /** The groups with a handler removed: an unknown handler is an error, an unknown
      group nothing to do. */
  function Taken(gs: Groups, h: Handler, n: int): Option<Groups> {
    var k := Find(gs, n);
    if k == |gs| then Some(gs)
    else if h !in gs[k].handlers then None
    else
      var rest := Removed(gs[k].handlers, h);
      if rest == [] then Some(gs[..k] + gs[k + 1..]) else Some(gs[k := gs[k].(handlers := rest)])
  }

  lemma {:induction false} OfFound(gs: Groups, n: int)
    ensures Of(gs, n) == if Find(gs, n) < |gs| then gs[Find(gs, n)].handlers else []
  {
    if gs != [] && gs[0].number != n { OfFound(gs[1..], n); }
  }

  lemma NotTwice(gs: Groups, i: nat, j: nat)
    requires Kept(gs) && i < j < |gs|
    ensures gs[i].number != gs[j].number
  {}

  lemma FindIs(gs: Groups, n: int, k: nat)
    requires Kept(gs) && k < |gs| && gs[k].number == n
    ensures Find(gs, n) == k
  {
    var f := Find(gs, n);
    assert f <= k;
    if f < k { NotTwice(gs, f, k); }
  }

  /** What adding means: behind the group's handlers unless it is there already, or in
      a group of its own at the number's place. */
  function Wanted(gs: Groups, h: Handler, n: int): Groups {
    var k := Place(gs, n);
    if k < |gs| && gs[k].number == n then
      if h in gs[k].handlers then gs else gs[k := gs[k].(handlers := gs[k].handlers + [h])]
    else gs[..k] + [Group(n, [h])] + gs[k..]
  }

  lemma AddedIsWanted(gs: Groups, h: Handler, n: int)
    requires Kept(gs)
    ensures Added(gs, h, n) == Wanted(gs, h, n)
  {
    hide SortGroups, Kept, Appended;
    var k := Place(gs, n);
    if k < |gs| && gs[k].number == n {
      FindIs(gs, n, k);
      AppendsAt(gs, h, n, k);
    } else {
      NewGroup(gs, n, k);
      AppendsNew(gs, h, n, k);
    }
  }

  lemma AppendsAt(gs: Groups, h: Handler, n: int, k: nat)
    requires k == Find(gs, n) < |gs|
    ensures Appended(gs, h, n) == if h in gs[k].handlers then gs else gs[k := gs[k].(handlers := gs[k].handlers + [h])]
  {}

  lemma AppendsNew(gs: Groups, h: Handler, n: int, k: nat)
    requires k <= |gs| && forall i :: 0 <= i < k ==> gs[i].number < n
    ensures Appended(gs[..k] + [Group(n, [])] + gs[k..], h, n) == gs[..k] + [Group(n, [h])] + gs[k..]
  {
    var full := gs[..k] + [Group(n, [])] + gs[k..];
    FindMid(gs, Group(n, []), k);
    assert full[k] == Group(n, []) && [] + [h] == [h];
    assert full[k := Group(n, [h])] == gs[..k] + [Group(n, [h])] + gs[k..];
  }

  lemma NewGroup(gs: Groups, n: int, k: nat)
    requires Kept(gs) && k == Place(gs, n) && (k < |gs| ==> gs[k].number != n)
    ensures Find(gs, n) == |gs|
    ensures SortGroups(gs + [Group(n, [])]) == gs[..k] + [Group(n, [])] + gs[k..]
  {
    var g := Group(n, []);
    Above(gs, n, k);
    assert (gs + [g])[..|gs|] == gs;
    SortedStays(gs);
    InsertAt(gs, g, k);
  }

  lemma Above(gs: Groups, n: int, k: nat)
    requires Kept(gs) && k <= |gs| && (k < |gs| ==> gs[k].number > n)
    ensures forall i :: k <= i < |gs| ==> gs[i].number > n
  {
    forall i | k <= i < |gs| ensures gs[i].number > n {
      if i > k { assert gs[k].number < gs[i].number; }
    }
  }

  lemma FindMid(gs: Groups, g: Group, k: nat)
    requires k <= |gs| && forall i :: 0 <= i < k ==> gs[i].number < g.number
    ensures Find(gs[..k] + [g] + gs[k..], g.number) == k
  {
    var full := gs[..k] + [g] + gs[k..];
    var f := Find(full, g.number);
    assert full[k] == g;
    assert f <= k;
    assert forall i :: 0 <= i < k ==> full[i] == gs[i];
  }

  lemma WantedKept(gs: Groups, h: Handler, n: int)
    requires Kept(gs)
    ensures Kept(Wanted(gs, h, n))
  {
    var k, r := Place(gs, n), Wanted(gs, h, n);
    if !(k < |gs| && gs[k].number == n) {
      Above(gs, n, k);
      forall i, j | 0 <= i < j < |r| ensures r[i].number < r[j].number {
        Positions(gs, Group(n, [h]), k, i);
        Positions(gs, Group(n, [h]), k, j);
      }
      forall i | 0 <= i < |r| ensures r[i].handlers != [] && Distinct(r[i].handlers) {
        Positions(gs, Group(n, [h]), k, i);
      }
    }
  }

  lemma Positions(gs: Groups, g: Group, k: nat, i: nat)
    requires k <= |gs| && i <= |gs|
    ensures (gs[..k] + [g] + gs[k..])[i] == if i < k then gs[i] else if i == k then g else gs[i - 1]
  {}

  /** Adding keeps the groups in order and without repetition, puts the handler last in
      its group unless it was there, and touches no other group. */
  lemma AddKeeps(gs: Groups, h: Handler, n: int, m: int)
    requires Kept(gs)
    ensures Kept(Added(gs, h, n))
    ensures Of(Added(gs, h, n), m) == if m != n || h in Of(gs, n) then Of(gs, m) else Of(gs, n) + [h]
  {
    hide Added, Wanted, Kept;
    AddedIsWanted(gs, h, n);
    WantedKept(gs, h, n);
    WantedOf(gs, h, n, m);
  }

  /** The handlers of a number, at its place. */
  lemma {:induction false} OfPlace(gs: Groups, n: int)
    requires forall i, j :: 0 <= i < j < |gs| ==> gs[i].number < gs[j].number
    ensures var k := Place(gs, n);
            Of(gs, n) == if k < |gs| && gs[k].number == n then gs[k].handlers else []
  {
    if gs != [] {
      if gs[0].number < n { OfPlace(gs[1..], n); } else if gs[0].number > n { NoneBelow(gs, n); }
    }
  }

  lemma {:induction false} NoneBelow(gs: Groups, n: int)
    requires forall i :: 0 <= i < |gs| ==> gs[i].number != n
    ensures Of(gs, n) == []
  {
    if gs != [] { NoneBelow(gs[1..], n); }
  }

  lemma {:induction false} WantedOf(gs: Groups, h: Handler, n: int, m: int)
    requires Kept(gs)
    ensures Of(Wanted(gs, h, n), m) == if m != n || h in Of(gs, n) then Of(gs, m) else Of(gs, n) + [h]
  {
    var k := Place(gs, n);
    OfPlace(gs, n);
    if k < |gs| && gs[k].number == n {
      if h !in gs[k].handlers { OfReplaced(gs, k, gs[k].(handlers := gs[k].handlers + [h]), m); }
    } else {
      OfMid(gs, Group(n, [h]), k, m);
      assert [] + [h] == [h];
    }
  }

  lemma {:induction false} OfReplaced(gs: Groups, k: nat, g: Group, m: int)
    requires k < |gs| && g.number == gs[k].number
    requires forall i :: 0 <= i < k ==> gs[i].number != g.number
    ensures Of(gs[k := g], m) == if m == g.number then g.handlers else Of(gs, m)
  {
    if k > 0 {
      assert gs[k := g][1..] == gs[1..][k - 1 := g];
      OfReplaced(gs[1..], k - 1, g, m);
    } else {
      assert gs[0 := g][1..] == gs[1..];
    }
  }

  lemma {:induction false} OfMid(gs: Groups, g: Group, k: nat, m: int)
    requires k <= |gs| && forall i :: 0 <= i < |gs| ==> gs[i].number != g.number
    ensures Of(gs[..k] + [g] + gs[k..], m) == if m == g.number then g.handlers else Of(gs, m)
  {
    var r := gs[..k] + [g] + gs[k..];
    if k > 0 {
      assert r[1..] == gs[1..][..k - 1] + [g] + gs[1..][k - 1..];
      OfMid(gs[1..], g, k - 1, m);
    } else {
      assert r[1..] == gs;
    }
  }

  lemma RemovedDistinct(hs: seq<Handler>, h: Handler)
    requires Distinct(hs) && h in hs
    ensures Distinct(Removed(hs, h)) && h !in Removed(hs, h)
    ensures forall g :: g != h ==> (g in Removed(hs, h) <==> g in hs)
  {
    var k, r := Index(hs, h), Removed(hs, h);
    assert forall i :: 0 <= i < |r| ==> r[i] == if i < k then hs[i] else hs[i + 1];
    forall g | g != h && g in hs ensures g in r {
      var i :| 0 <= i < |hs| && hs[i] == g;
      assert if i < k then r[i] == g else r[i - 1] == g;
    }
  }

  lemma WithoutKept(gs: Groups, k: nat)
    requires Kept(gs) && k < |gs|
    ensures Kept(gs[..k] + gs[k + 1..])
  {
    var r := gs[..k] + gs[k + 1..];
    assert forall i :: 0 <= i < |r| ==> r[i] == if i < k then gs[i] else gs[i + 1];
  }

  lemma {:induction false} OfWithout(gs: Groups, k: nat, m: int)
    requires Kept(gs) && k < |gs|
    ensures Of(gs[..k] + gs[k + 1..], m) == if m == gs[k].number then [] else Of(gs, m)
  {
    var r := gs[..k] + gs[k + 1..];
    if k > 0 {
      assert r[1..] == gs[1..][..k - 1] + gs[1..][k..];
      OfWithout(gs[1..], k - 1, m);
      NotTwice(gs, 0, k);
    } else {
      assert r == gs[1..];
      if m == gs[0].number { NoneBelow(gs[1..], m); }
    }
  }

  /** Removing fails exactly for a handler the group does not have; otherwise it takes
      that handler alone, and the group with it when it was the last. */
  lemma TakeKeeps(gs: Groups, h: Handler, n: int, m: int)
    requires Kept(gs)
    ensures Taken(gs, h, n).None? <==> Of(gs, n) != [] && h !in Of(gs, n)
    ensures Taken(gs, h, n).Some? ==> Kept(Taken(gs, h, n).value)
    ensures Taken(gs, h, n).Some? ==>
      Of(Taken(gs, h, n).value, m) == if m == n && h in Of(gs, n) then Removed(Of(gs, n), h) else Of(gs, m)
  {
    var k := Find(gs, n);
    OfFound(gs, n);
    GroupOf(gs, k);
    hide Kept, Distinct;
    if k < |gs| && h in gs[k].handlers {
      RemovedDistinct(gs[k].handlers, h);
      var rest := Removed(gs[k].handlers, h);
      if rest == [] {
        WithoutKept(gs, k);
        OfWithout(gs, k, m);
      } else {
        ReplacedKept(gs, k, rest);
        OfReplaced(gs, k, gs[k].(handlers := rest), m);
      }
    }
  }

  lemma GroupOf(gs: Groups, k: nat)
    requires Kept(gs) && k <= |gs|
    ensures k < |gs| ==> gs[k].handlers != [] && Distinct(gs[k].handlers)
  {}

  lemma ReplacedKept(gs: Groups, k: nat, hs: seq<Handler>)
    requires Kept(gs) && k < |gs| && hs != [] && Distinct(hs)
    ensures Kept(gs[k := gs[k].(handlers := hs)])
  {}

  /** Removing a handler that was just added gives the groups back as they were. */
  lemma AddThenRemove(gs: Groups, h: Handler, n: int)
    requires Kept(gs) && h !in Of(gs, n)
    ensures Taken(Added(gs, h, n), h, n) == Some(gs)
  {
    hide Added;
    AddedIsWanted(gs, h, n);
    OfPlace(gs, n);
    var k, r := Place(gs, n), Wanted(gs, h, n);
    if k < |gs| && gs[k].number == n {
      WantedKept(gs, h, n);
      FindIs(r, n, k);
      IndexLast(gs[k].handlers, h);
      assert r[k := gs[k]] == gs;
    } else {
      FindMid(gs, Group(n, [h]), k);
      assert r[k] == Group(n, [h]);
      IndexLast([], h);
      assert r[..k] + r[k + 1..] == gs;
    }
  }

  lemma {:induction false} IndexLast(hs: seq<Handler>, h: Handler)
    requires h !in hs
    ensures Index(hs + [h], h) == |hs| && Removed(hs + [h], h) == hs
  {
    var all := hs + [h];
    var k := Index(all, h);
    assert all[|hs|] == h;
    assert k <= |hs|;
    assert all[..|hs|] == hs && all[|hs| + 1..] == [];
  }

  // ------------------------------------------------------------------- propagation

  datatype Check = Yes | No | Breaks

  datatype Outcome = Returns | StopPropagation | ContinuePropagation | Raises(exc: Exc)

  /** What every handler is and does for the update at hand. */
  datatype World = World(
    isError: Handler -> bool, typed: Handler -> bool, raw: Handler -> bool,
    check: Handler -> Check, call: Handler -> Outcome,
    catches: (Handler, Exc) -> bool, errorCall: (Handler, Exc) -> Outcome)

  /** The callbacks made, in order. */
  datatype Call = Ran(h: Handler) | Caught(h: Handler, exc: Exc, origin: Handler)

  /** A handler whose callback is made: of the update's type, unless a listener
      consumed it, or a raw one, and its check says yes without raising. */
  predicate Eligible(w: World, consumed: bool, h: Handler) {
    !w.isError(h) && ((!consumed && w.typed(h)) || w.raw(h)) && w.check(h) == Yes
  }

  predicate Catching(w: World, exc: Exc, h: Handler) { w.isError(h) && w.catches(h, exc) && w.check(h) == Yes }

  datatype Result = Result(calls: seq<Call>, stopped: bool, handled: bool)

  /** The error handlers of one group. */
  function ErrorGroup(w: World, exc: Exc, origin: Handler, hs: seq<Handler>): Result {
    if hs == [] then Result([], false, false)
    else if !Catching(w, exc, hs[0]) then ErrorGroup(w, exc, origin, hs[1..])
    else
      var c := Caught(hs[0], exc, origin);
      match w.errorCall(hs[0], exc)
      case StopPropagation => Result([c], true, true)
      case ContinuePropagation => After(Result([c], false, true), ErrorGroup(w, exc, origin, hs[1..]))
      case Raises(_) => Result([c], false, false)
      case Returns => Result([c], false, true)
  }

  function ErrorGroups(w: World, exc: Exc, origin: Handler, gs: Groups): Result {
    if gs == [] then Result([], false, false)
    else
      var r := ErrorGroup(w, exc, origin, gs[0].handlers);
      if r.stopped then r else After(r, ErrorGroups(w, exc, origin, gs[1..]))
  }

  /** One group: up to and including the first callback that does not pass the update
      on. */
  function RunGroup(w: World, consumed: bool, gs: Groups, hs: seq<Handler>): (seq<Call>, bool) {
    if hs == [] then ([], false)
    else if !Eligible(w, consumed, hs[0]) then RunGroup(w, consumed, gs, hs[1..])
    else
      match w.call(hs[0])
      case StopPropagation => ([Ran(hs[0])], true)
      case ContinuePropagation => Ahead([Ran(hs[0])], RunGroup(w, consumed, gs, hs[1..]))
      case Raises(exc) => ([Ran(hs[0])] + ErrorGroups(w, exc, hs[0], gs).calls, false)
      case Returns => ([Ran(hs[0])], false)
  }

  /** All groups in turn, until one stops the propagation. */
  function RunGroups(w: World, consumed: bool, all: Groups, gs: Groups): seq<Call> {
    if gs == [] then []
    else
      var (calls, stopped) := RunGroup(w, consumed, all, gs[0].handlers);
      if stopped then calls else calls + RunGroups(w, consumed, all, gs[1..])
  }

  class Dispatch {
    var groups: Groups

    constructor ()
      ensures groups == [] && Kept(groups)
    {
      groups := [];
    }

    /** add_handler. */
    method AddHandler(h: Handler, n: int)
      modifies this
      ensures groups == Added(old(groups), h, n)
    {
      if Find(groups, n) == |groups| {
        groups := SortGroups(groups + [Group(n, [])]);
      }
      var k := Find(groups, n);
      if k < |groups| && h !in groups[k].handlers {
        groups := groups[k := groups[k].(handlers := groups[k].handlers + [h])];
      }
    }

    /** remove_handler; false where list.remove raises. */
    method RemoveHandler(h: Handler, n: int) returns (ok: bool)
      modifies this
      ensures ok <==> Taken(old(groups), h, n).Some?
      ensures groups == if ok then Taken(old(groups), h, n).value else old(groups)
    {
      var k := Find(groups, n);
      if k < |groups| {
        if h !in groups[k].handlers { return false; }
        groups := groups[k := groups[k].(handlers := Removed(groups[k].handlers, h))];
        if groups[k].handlers == [] { groups := groups[..k] + groups[k + 1..]; }
      }
      return true;
    }

    /** The group loop of handler_worker for one parsed update. */
    method Handle(w: World, consumed: bool) returns (calls: seq<Call>)
      ensures calls == RunGroups(w, consumed, groups, groups)
      ensures calls == Traced(w, groups, ReachedAll(w, consumed, UpTo(groups, FirstStop(w, consumed, groups))))
    {
      hide ErrorGroups, Eligible, Traced, ReachedAll, UpTo, FirstStop;
      UpdateTraced(w, consumed, groups, groups);
      calls := [];
      var i := 0;
      assert groups[0..] == groups;
      while i < |groups|
        invariant 0 <= i <= |groups|
        invariant calls + RunGroups(w, consumed, groups, groups[i..]) == RunGroups(w, consumed, groups, groups)
      {
        assert groups[i..][1..] == groups[i + 1..];
        var made, stopped := HandleGroup(w, consumed, groups[i].handlers);
        calls := calls + made;
        if stopped { return; }
        i := i + 1;
      }
    }

    method HandleGroup(w: World, consumed: bool, handlers: seq<Handler>) returns (calls: seq<Call>, stopped: bool)
      ensures (calls, stopped) == RunGroup(w, consumed, groups, handlers)
    {
      hide ErrorGroups, Eligible;
      calls, stopped := [], false;
      var j := 0;
      assert handlers[0..] == handlers;
      AheadNothing(RunGroup(w, consumed, groups, handlers));
      while j < |handlers|
        invariant 0 <= j <= |handlers| && !stopped
        invariant Ahead(calls, RunGroup(w, consumed, groups, handlers[j..])) == RunGroup(w, consumed, groups, handlers)
      {
        assert handlers[j..][1..] == handlers[j + 1..];
        var h := handlers[j];
        j := j + 1;
        if !Eligible(w, consumed, h) { continue; }
        match w.call(h) {
          case StopPropagation =>
            calls, stopped := calls + [Ran(h)], true;
            return;
          case ContinuePropagation =>
            AheadTwice(calls, [Ran(h)], RunGroup(w, consumed, groups, handlers[j..]));
            calls := calls + [Ran(h)];
          case Raises(exc) =>
            var caught := HandleException(w, exc, h);
            calls := calls + ([Ran(h)] + caught.calls);
            return;
          case Returns =>
            calls := calls + [Ran(h)];
            return;
        }
      }
      assert calls + [] == calls;
    }

    /** handle_update_handler_exception. */
    method HandleException(w: World, exc: Exc, origin: Handler) returns (r: Result)
      ensures r == ErrorGroups(w, exc, origin, groups)
      ensures r.calls == Catches(w, exc, origin, groups)
      ensures r.handled <==> exists c :: c in r.calls && c.Caught? && c.exc == exc && !w.errorCall(c.h, exc).Raises?
    {
      hide Catching, ErrorGroup, Catches;
      FailureReaches(w, exc, origin, groups);
      UnhandledMeansAllRaised(w, exc, origin, groups);
      r := Result([], false, false);
      var i := 0;
      assert groups[0..] == groups;
      AfterNothing(ErrorGroups(w, exc, origin, groups));
      while i < |groups|
        invariant 0 <= i <= |groups|
        invariant !r.stopped && After(r, ErrorGroups(w, exc, origin, groups[i..])) == ErrorGroups(w, exc, origin, groups)
      {
        assert groups[i..][1..] == groups[i + 1..];
        var one := ErrorOne(w, exc, origin, groups[i].handlers);
        AfterTwice(r, one, ErrorGroups(w, exc, origin, groups[i + 1..]));
        r := After(r, one);
        if r.stopped { return; }
        i := i + 1;
      }
      AfterNothing(r);
    }

    method ErrorOne(w: World, exc: Exc, origin: Handler, handlers: seq<Handler>) returns (r: Result)
      ensures r == ErrorGroup(w, exc, origin, handlers)
    {
      hide Catching;
      r := Result([], false, false);
      var j := 0;
      assert handlers[0..] == handlers;
      AfterNothing(ErrorGroup(w, exc, origin, handlers));
      while j < |handlers|
        invariant 0 <= j <= |handlers| && !r.stopped
        invariant After(r, ErrorGroup(w, exc, origin, handlers[j..])) == ErrorGroup(w, exc, origin, handlers)
      {
        assert handlers[j..][1..] == handlers[j + 1..];
        var h := handlers[j];
        j := j + 1;
        if !Catching(w, exc, h) { continue; }
        var c := Caught(h, exc, origin);
        match w.errorCall(h, exc) {
          case StopPropagation =>
            r := Result(r.calls + [c], true, true);
            return;
          case ContinuePropagation =>
            AfterTwice(r, Result([c], false, true), ErrorGroup(w, exc, origin, handlers[j..]));
            r := Result(r.calls + [c], false, true);
          case Raises(_) =>
            r := r.(calls := r.calls + [c]);
            return;
          case Returns =>
            r := Result(r.calls + [c], false, true);
            return;
        }
      }
      AfterNothing(r);
    }
  }

  function Ahead(calls: seq<Call>, r: (seq<Call>, bool)): (seq<Call>, bool) { (calls + r.0, r.1) }

  lemma AheadNothing(r: (seq<Call>, bool))
    ensures Ahead([], r) == r
  {
    assert [] + r.0 == r.0;
  }

  lemma AheadTwice(a: seq<Call>, b: seq<Call>, r: (seq<Call>, bool))
    ensures Ahead(a, Ahead(b, r)) == Ahead(a + b, r)
  {
    assert a + (b + r.0) == a + b + r.0;
  }

  lemma AfterNothing(r: Result)
    ensures After(Result([], false, false), r) == r
    ensures !r.stopped ==> After(r, Result([], false, false)) == r
  {
    assert [] + r.calls == r.calls && r.calls + [] == r.calls;
  }

  lemma AfterTwice(a: Result, b: Result, c: Result)
    ensures After(After(a, b), c) == After(a, After(b, c))
  {
    assert a.calls + b.calls + c.calls == a.calls + (b.calls + c.calls);
  }

  function After(first: Result, rest: Result): Result {
    Result(first.calls + rest.calls, rest.stopped, first.handled || rest.handled)
  }

  // -------------------------------------------------------- what propagation means

  /** The handlers whose own callback was made, in order. */
  function RanOf(calls: seq<Call>): seq<Handler> {
    if calls == [] then [] else (if calls[0].Ran? then [calls[0].h] else []) + RanOf(calls[1..])
  }

  /** The handlers of a group that the update is for. */
  function Due(w: World, consumed: bool, hs: seq<Handler>): seq<Handler> {
    if hs == [] then []
    else
      var h := hs[0];
      var due := !w.isError(h) && ((w.typed(h) && !consumed) || w.raw(h)) && w.check(h) == Yes;
      (if due then [h] else []) + Due(w, consumed, hs[1..])
  }

  /** The first of these that does not pass the update on, or the length. */
  function FirstHalt(w: World, hs: seq<Handler>): (k: nat)
    ensures k <= |hs| && forall i :: 0 <= i < k ==> w.call(hs[i]) == ContinuePropagation
    ensures k < |hs| ==> w.call(hs[k]) != ContinuePropagation
  {
    if hs == [] || w.call(hs[0]) != ContinuePropagation then 0 else 1 + FirstHalt(w, hs[1..])
  }

  /** Up to and including a place, or all. */
  function UpTo<T>(s: seq<T>, k: nat): seq<T> { if k < |s| then s[..k + 1] else s }

  /** The eligible handlers of a group up to the first that does not pass on. */
  function Reached(w: World, consumed: bool, hs: seq<Handler>): seq<Handler> {
    var f := Due(w, consumed, hs);
    UpTo(f, FirstHalt(w, f))
  }

  predicate Stops(w: World, consumed: bool, hs: seq<Handler>) {
    var f := Due(w, consumed, hs);
    FirstHalt(w, f) < |f| && w.call(f[FirstHalt(w, f)]) == StopPropagation
  }

  function FirstStop(w: World, consumed: bool, gs: Groups): (k: nat)
    ensures k <= |gs| && forall i :: 0 <= i < k ==> !Stops(w, consumed, gs[i].handlers)
    ensures k < |gs| ==> Stops(w, consumed, gs[k].handlers)
  {
    if gs == [] || Stops(w, consumed, gs[0].handlers) then 0 else 1 + FirstStop(w, consumed, gs[1..])
  }

  function ReachedAll(w: World, consumed: bool, gs: Groups): seq<Handler> {
    if gs == [] then [] else Reached(w, consumed, gs[0].handlers) + ReachedAll(w, consumed, gs[1..])
  }

  lemma {:induction false} RanAppend(a: seq<Call>, b: seq<Call>)
    ensures RanOf(a + b) == RanOf(a) + RanOf(b)
  {
    if a == [] {
      assert a + b == b;
    } else {
      assert (a + b)[0] == a[0] && (a + b)[1..] == a[1..] + b;
      RanAppend(a[1..], b);
      var one := if a[0].Ran? then [a[0].h] else [];
      assert one + (RanOf(a[1..]) + RanOf(b)) == one + RanOf(a[1..]) + RanOf(b);
    }
  }

  lemma RanOne(c: Call)
    ensures RanOf([c]) == if c.Ran? then [c.h] else []
  {
    assert [c][1..] == [];
  }

  lemma {:induction false} ErrorGroupRuns(w: World, exc: Exc, origin: Handler, hs: seq<Handler>)
    ensures RanOf(ErrorGroup(w, exc, origin, hs).calls) == []
  {
    if hs != [] {
      ErrorGroupRuns(w, exc, origin, hs[1..]);
      var c := Caught(hs[0], exc, origin);
      RanOne(c);
      RanAppend([c], ErrorGroup(w, exc, origin, hs[1..]).calls);
    }
  }

  lemma {:induction false} ErrorGroupsRun(w: World, exc: Exc, origin: Handler, gs: Groups)
    ensures RanOf(ErrorGroups(w, exc, origin, gs).calls) == []
  {
    if gs != [] {
      var r := ErrorGroup(w, exc, origin, gs[0].handlers);
      ErrorGroupRuns(w, exc, origin, gs[0].handlers);
      ErrorGroupsRun(w, exc, origin, gs[1..]);
      RanAppend(r.calls, ErrorGroups(w, exc, origin, gs[1..]).calls);
    }
  }

  lemma NothingReached(w: World, consumed: bool)
    ensures Reached(w, consumed, []) == [] && !Stops(w, consumed, [])
  {}

  lemma ReachedStep(w: World, consumed: bool, hs: seq<Handler>)
    requires hs != []
    ensures var after := Reached(w, consumed, hs[1..]);
            Reached(w, consumed, hs)
            == if !Eligible(w, consumed, hs[0]) then after
               else if w.call(hs[0]) == ContinuePropagation then [hs[0]] + after
               else [hs[0]]
    ensures Stops(w, consumed, hs)
       <==> if Eligible(w, consumed, hs[0]) && w.call(hs[0]) != ContinuePropagation then w.call(hs[0]) == StopPropagation
            else Stops(w, consumed, hs[1..])
  {
    var f := Due(w, consumed, hs[1..]);
    DueStep(w, hs[0], f);
    assert [] + f == f;
    assert ([hs[0]] + f)[0] == hs[0] && ([hs[0]] + f)[1..] == f;
  }

  /** In one group, exactly the eligible handlers up to the first that does not raise
      ContinuePropagation run, and the propagation stops exactly when that one raises
      StopPropagation. */
  lemma {:induction false} GroupReaches(w: World, consumed: bool, all: Groups, hs: seq<Handler>)
    ensures RanOf(RunGroup(w, consumed, all, hs).0) == Reached(w, consumed, hs)
    ensures RunGroup(w, consumed, all, hs).1 <==> Stops(w, consumed, hs)
  {
    hide ErrorGroups, Reached, Stops, Eligible;
    if hs == [] {
      NothingReached(w, consumed);
    } else {
      var h, rest := hs[0], hs[1..];
      GroupReaches(w, consumed, all, rest);
      ReachedStep(w, consumed, hs);
      if Eligible(w, consumed, h) {
        RanOne(Ran(h));
        match w.call(h) {
          case ContinuePropagation => RanAppend([Ran(h)], RunGroup(w, consumed, all, rest).0);
          case Raises(exc) =>
            ErrorGroupsRun(w, exc, h, all);
            RanAppend([Ran(h)], ErrorGroups(w, exc, h, all).calls);
          case _ =>
        }
      }
    }
  }

  lemma DueStep(w: World, h: Handler, f: seq<Handler>)
    ensures var all := [h] + f;
            && FirstHalt(w, all) == (if w.call(h) == ContinuePropagation then 1 + FirstHalt(w, f) else 0)
            && UpTo(all, FirstHalt(w, all))
               == if w.call(h) == ContinuePropagation then [h] + UpTo(f, FirstHalt(w, f)) else [h]
  {
    var all := [h] + f;
    assert all[1..] == f;
  }

  /** Over all groups, ascending by number: each reaches its own handlers, up to and
      including the first group that stops, and nothing runs after that. */
  lemma {:induction false} GroupsReach(w: World, consumed: bool, all: Groups, gs: Groups)
    ensures RanOf(RunGroups(w, consumed, all, gs)) == ReachedAll(w, consumed, UpTo(gs, FirstStop(w, consumed, gs)))
  {
    hide RunGroup, Reached, Stops;
    if gs != [] {
      GroupReaches(w, consumed, all, gs[0].handlers);
      GroupsReach(w, consumed, all, gs[1..]);
      var (calls, stopped) := RunGroup(w, consumed, all, gs[0].handlers);
      RanAppend(calls, RunGroups(w, consumed, all, gs[1..]));
      var k := FirstStop(w, consumed, gs);
      if stopped {
        assert gs[..1][1..] == [];
        assert Reached(w, consumed, gs[0].handlers) + [] == Reached(w, consumed, gs[0].handlers);
      } else {
        assert UpTo(gs, k)[1..] == UpTo(gs[1..], k - 1);
      }
    }
  }

  /** The failure is logged exactly when no error handler that was called dealt with
      it: every one of them raised in turn, or there was none. */
  lemma {:induction false} UnhandledMeansAllRaised(w: World, exc: Exc, origin: Handler, gs: Groups)
    ensures var r := ErrorGroups(w, exc, origin, gs);
            r.handled <==> exists c :: c in r.calls && c.Caught? && c.exc == exc && !w.errorCall(c.h, exc).Raises?
  {
    hide ErrorGroup;
    if gs != [] {
      UnhandledInGroup(w, exc, origin, gs[0].handlers);
      UnhandledMeansAllRaised(w, exc, origin, gs[1..]);
    }
  }

  lemma {:induction false} UnhandledInGroup(w: World, exc: Exc, origin: Handler, hs: seq<Handler>)
    ensures var r := ErrorGroup(w, exc, origin, hs);
            r.handled <==> exists c :: c in r.calls && c.Caught? && c.exc == exc && !w.errorCall(c.h, exc).Raises?
  {
    hide Catching;
    if hs != [] {
      UnhandledInGroup(w, exc, origin, hs[1..]);
      var c := Caught(hs[0], exc, origin);
      if Catching(w, exc, hs[0]) {
        var r := ErrorGroup(w, exc, origin, hs);
        assert r.calls[0] == c && c in r.calls;
      }
    }
  }

  // -------------------------------------------------- what becomes of a failure

  /** The error handlers of a group that a failure is for. */
  function Matching(w: World, exc: Exc, hs: seq<Handler>): seq<Handler> {
    if hs == [] then []
    else
      var h := hs[0];
      (if w.isError(h) && w.catches(h, exc) && w.check(h) == Yes then [h] else []) + Matching(w, exc, hs[1..])
  }

  /** The first of these that does not pass the failure on, or the length. */
  function FirstEnd(w: World, exc: Exc, hs: seq<Handler>): (k: nat)
    ensures k <= |hs| && forall i :: 0 <= i < k ==> w.errorCall(hs[i], exc) == ContinuePropagation
    ensures k < |hs| ==> w.errorCall(hs[k], exc) != ContinuePropagation
  {
    if hs == [] || w.errorCall(hs[0], exc) != ContinuePropagation then 0 else 1 + FirstEnd(w, exc, hs[1..])
  }

  function CaughtBy(hs: seq<Handler>, exc: Exc, origin: Handler): seq<Call> {
    seq(|hs|, k requires 0 <= k < |hs| => Caught(hs[k], exc, origin))
  }

  /** The calls a group makes for a failure: its matching error handlers up to the
      first that does not pass it on. */
  function GroupCatches(w: World, exc: Exc, origin: Handler, hs: seq<Handler>): seq<Call> {
    var f := Matching(w, exc, hs);
    CaughtBy(UpTo(f, FirstEnd(w, exc, f)), exc, origin)
  }

  predicate StopsFailure(w: World, exc: Exc, hs: seq<Handler>) {
    var f := Matching(w, exc, hs);
    FirstEnd(w, exc, f) < |f| && w.errorCall(f[FirstEnd(w, exc, f)], exc) == StopPropagation
  }

  function FirstStopper(w: World, exc: Exc, gs: Groups): (k: nat)
    ensures k <= |gs| && forall i :: 0 <= i < k ==> !StopsFailure(w, exc, gs[i].handlers)
    ensures k < |gs| ==> StopsFailure(w, exc, gs[k].handlers)
  {
    if gs == [] || StopsFailure(w, exc, gs[0].handlers) then 0 else 1 + FirstStopper(w, exc, gs[1..])
  }

  function AllCatch(w: World, exc: Exc, origin: Handler, gs: Groups): seq<Call> {
    if gs == [] then [] else GroupCatches(w, exc, origin, gs[0].handlers) + AllCatch(w, exc, origin, gs[1..])
  }

  /** The calls a failure leads to: every group's, up to the first group that stops. */
  function Catches(w: World, exc: Exc, origin: Handler, gs: Groups): seq<Call> {
    AllCatch(w, exc, origin, UpTo(gs, FirstStopper(w, exc, gs)))
  }

  lemma {:induction false} ErrorGroupCatches(w: World, exc: Exc, origin: Handler, hs: seq<Handler>)
    ensures ErrorGroup(w, exc, origin, hs).calls == GroupCatches(w, exc, origin, hs)
    ensures ErrorGroup(w, exc, origin, hs).stopped <==> StopsFailure(w, exc, hs)
  {
    if hs != [] {
      var h, rest := hs[0], hs[1..];
      ErrorGroupCatches(w, exc, origin, rest);
      if w.isError(h) && w.catches(h, exc) && w.check(h) == Yes {
        MatchingStep(w, exc, origin, h, Matching(w, exc, rest));
      } else {
        assert [] + Matching(w, exc, rest) == Matching(w, exc, rest);
      }
    }
  }

  lemma MatchingStep(w: World, exc: Exc, origin: Handler, h: Handler, f: seq<Handler>)
    ensures var all := [h] + f;
            && FirstEnd(w, exc, all) == (if w.errorCall(h, exc) == ContinuePropagation then 1 + FirstEnd(w, exc, f) else 0)
            && CaughtBy(UpTo(all, FirstEnd(w, exc, all)), exc, origin)
               == [Caught(h, exc, origin)]
                  + if w.errorCall(h, exc) == ContinuePropagation then CaughtBy(UpTo(f, FirstEnd(w, exc, f)), exc, origin) else []
  {
    hide CaughtBy;
    var all := [h] + f;
    assert all[1..] == f;
    if w.errorCall(h, exc) == ContinuePropagation {
      var k := FirstEnd(w, exc, f);
      assert UpTo(all, 1 + k) == [h] + UpTo(f, k);
      CaughtFirst(h, UpTo(f, k), exc, origin);
    } else {
      assert UpTo(all, 0) == [h] + [];
      CaughtFirst(h, [], exc, origin);
    }
  }

  lemma CaughtFirst(h: Handler, hs: seq<Handler>, exc: Exc, origin: Handler)
    ensures CaughtBy([h] + hs, exc, origin) == [Caught(h, exc, origin)] + CaughtBy(hs, exc, origin)
    ensures CaughtBy([], exc, origin) == []
  {}

  /** A failure calls exactly the matching error handlers of each group, in order, up
      to the first that does not pass it on, through the groups in order up to the
      first that stops it; each call has the failure and the handler it came from. */
  lemma {:induction false} FailureReaches(w: World, exc: Exc, origin: Handler, gs: Groups)
    ensures ErrorGroups(w, exc, origin, gs).calls == Catches(w, exc, origin, gs)
  {
    hide ErrorGroup, GroupCatches, StopsFailure;
    if gs != [] {
      ErrorGroupCatches(w, exc, origin, gs[0].handlers);
      FailureReaches(w, exc, origin, gs[1..]);
      var k := FirstStopper(w, exc, gs);
      if k == 0 {
        assert UpTo(gs, k) == [gs[0]] && [gs[0]][1..] == [];
        var c := GroupCatches(w, exc, origin, gs[0].handlers);
        assert AllCatch(w, exc, origin, [gs[0]]) == c + [] == c;
      } else {
        assert UpTo(gs, k)[1..] == UpTo(gs[1..], k - 1);
      }
    }
  }

  /** The calls of handlers in turn, each followed by what its failure leads to. */
  function Traced(w: World, all: Groups, hs: seq<Handler>): seq<Call> {
    if hs == [] then []
    else
      var h := hs[0];
      [Ran(h)] + (if w.call(h).Raises? then Catches(w, w.call(h).exc, h, all) else []) + Traced(w, all, hs[1..])
  }

  lemma {:induction false} TracedConcat(w: World, all: Groups, a: seq<Handler>, b: seq<Handler>)
    ensures Traced(w, all, a + b) == Traced(w, all, a) + Traced(w, all, b)
  {
    hide Catches;
    if a == [] {
      assert a + b == b;
    } else {
      assert (a + b)[0] == a[0] && (a + b)[1..] == a[1..] + b;
      TracedConcat(w, all, a[1..], b);
    }
  }

  lemma {:induction false} GroupTraced(w: World, consumed: bool, all: Groups, hs: seq<Handler>)
    ensures RunGroup(w, consumed, all, hs).0 == Traced(w, all, Reached(w, consumed, hs))
  {
    hide ErrorGroups, Catches, Reached, Traced, Eligible, Stops;
    if hs == [] {
      NothingTraced(w, all);
      NothingReached(w, consumed);
    } else {
      var h, rest := hs[0], hs[1..];
      var after := Reached(w, consumed, rest);
      GroupTraced(w, consumed, all, rest);
      ReachedStep(w, consumed, hs);
      if Eligible(w, consumed, h) {
        TracedOne(w, all, h);
        match w.call(h) {
          case ContinuePropagation => TracedConcat(w, all, [h], after);
          case Raises(exc) => FailureReaches(w, exc, h, all);
          case _ =>
        }
      }
    }
  }

  lemma TracedOne(w: World, all: Groups, h: Handler)
    ensures Traced(w, all, [h]) == [Ran(h)] + if w.call(h).Raises? then Catches(w, w.call(h).exc, h, all) else []
  {
    hide Catches;
    assert [h][1..] == [];
    var c := [Ran(h)] + if w.call(h).Raises? then Catches(w, w.call(h).exc, h, all) else [];
    assert c + [] == c;
  }

  /** One update through all groups: the callbacks of the handlers reached, in order,
      each followed at once by those its failure leads to, and nothing else. */
  lemma {:induction false} UpdateTraced(w: World, consumed: bool, all: Groups, gs: Groups)
    ensures RunGroups(w, consumed, all, gs)
         == Traced(w, all, ReachedAll(w, consumed, UpTo(gs, FirstStop(w, consumed, gs))))
  {
    hide RunGroup, Reached, Stops, Traced;
    if gs != [] {
      var here := Reached(w, consumed, gs[0].handlers);
      GroupReaches(w, consumed, all, gs[0].handlers);
      GroupTraced(w, consumed, all, gs[0].handlers);
      UpdateTraced(w, consumed, all, gs[1..]);
      var k := FirstStop(w, consumed, gs);
      if k == 0 {
        assert gs[..1][1..] == [];
        assert here + [] == here;
      } else {
        assert UpTo(gs, k)[1..] == UpTo(gs[1..], k - 1);
        TracedConcat(w, all, here, ReachedAll(w, consumed, UpTo(gs[1..], k - 1)));
      }
    } else {
      NothingTraced(w, all);
    }
  }

  lemma NothingTraced(w: World, all: Groups)
    ensures Traced(w, all, []) == []
  {}
}
