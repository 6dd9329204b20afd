/** pyrogram/storage/hybrid_storage.py: the bounded queue of writes behind the local
    cache, its one writer, and what is done when there is no room or no time. */
module WriteQueue {

  datatype Option<+T> = None | Some(value: T)

  datatype Kind = SessionWrite | PeerWrite | UsernameWrite | StateWrite | StateDelete

  /** A write, told apart by its payload, or the sentinel that ends the writer. */
  datatype Item = Write(kind: Kind, payload: int) | Stop

  predicate Droppable(i: Item) { i.Write? && (i.kind == PeerWrite || i.kind == UsernameWrite) }

  /** The fields, with the history of what became of the writes: every write taken
      into the queue, every one applied, every one given up, and how many of those
      were given up without being counted in dropped. */
  datatype State = State(
    capacity: int, queue: seq<Item>, held: Option<Item>, unfinished: int, dropped: nat, closing: bool, running: bool,
    accepted: seq<Item>, applied: seq<Item>, lost: seq<Item>, uncounted: nat)

  // ------------------------------------------------------------------ making room

  /** The place of the oldest droppable item from i on, or the length. */
  function FirstDroppable(q: seq<Item>, i: nat): (k: nat)
    requires i <= |q|
    ensures i <= k <= |q|
    ensures k < |q| ==> Droppable(q[k])
    ensures forall j :: i <= j < k ==> !Droppable(q[j])
    decreases |q| - i
  {
    if i == |q| || Droppable(q[i]) then i else FirstDroppable(q, i + 1)
  }

  /** The oldest write that is only a cache entry, or else the oldest of all. */
  function Victim(q: seq<Item>): (k: nat)
    requires q != []
    ensures k < |q|
  {
    var k := FirstDroppable(q, 0);
    if k < |q| then k else 0
  }

  /** A queue without a positive bound is never full. */
  predicate Full(capacity: int, q: seq<Item>) { 0 < capacity <= |q| }

  function Without(q: seq<Item>, k: nat): (r: seq<Item>)
    requires k < |q|
    ensures |r| + 1 == |q|
  {
    q[..k] + q[k + 1..]
  }

  /** A write that only fills a cache: peers and usernames. */
  predicate CacheEntry(i: Item) { i.Write? && i.kind in {PeerWrite, UsernameWrite} }

  /** A session or state write goes only when nothing else is queued, and then it is
      the oldest; the rest keep their order. */
  lemma VictimPolicy(q: seq<Item>)
    requires q != []
    ensures !CacheEntry(q[Victim(q)]) ==> Victim(q) == 0 && forall j :: 0 <= j < |q| ==> !CacheEntry(q[j])
    ensures CacheEntry(q[Victim(q)]) ==> forall j :: 0 <= j < Victim(q) ==> !CacheEntry(q[j])
    ensures multiset(q) == multiset(Without(q, Victim(q))) + multiset{q[Victim(q)]}
  {
    hide Without;
    forall j | 0 <= j < |q| ensures Droppable(q[j]) <==> CacheEntry(q[j]) {}
    WithoutCounts(q, Victim(q));
  }

  lemma WithoutCounts(q: seq<Item>, k: nat)
    requires k < |q|
    ensures multiset(q) == multiset(Without(q, k)) + multiset{q[k]}
  {
    var front, back := q[..k], q[k + 1..];
    assert q == front + ([q[k]] + back);
    assert multiset(front + ([q[k]] + back)) == multiset(front) + (multiset{q[k]} + multiset(back));
    assert multiset(front + back) == multiset(front) + multiset(back);
  }

  // ------------------------------------------------------------------------ steps

  datatype Event =
    | Enqueue(item: Item)   // a write comes in
    | Take                  // the writer takes the oldest item
    | Succeed               // the backend took the write
    | Fail                  // it did not: the write goes back to the tail, if there is room
    | Close                 // no more writes are taken in
    | Sentinel              // the writer is asked to end, if there is room to ask
    | GiveUp                // the writer is cancelled and what is left is counted as lost
    | Discard               // the writer is cancelled and what is left is thrown away

  predicate Can(s: State, e: Event) {
    match e
    case Enqueue(item) => item.Write?
    case Take => s.running && s.held.None? && s.queue != []
    case Succeed => s.held.Some?
    case Fail => s.held.Some?
    case Sentinel => s.closing
    case _ => true
  }

  function Kept(i: Item): seq<Item> { if i.Write? then [i] else [] }

  function Writes(q: seq<Item>): seq<Item> { if q == [] then [] else Kept(q[0]) + Writes(q[1..]) }

  function Holding(h: Option<Item>): seq<Item> { if h.Some? then [h.value] else [] }

  function Put(s: State, item: Item): State {
    s.(queue := s.queue + [item], unfinished := s.unfinished + 1)
  }

  function MadeRoom(s: State): State
    requires s.queue != []
  {
    var k := Victim(s.queue);
    s.(queue := Without(s.queue, k), unfinished := s.unfinished - 1, dropped := s.dropped + 1,
       lost := s.lost + [s.queue[k]])
  }

  /** The writer's item is done with, one way or another. */
  function Done(s: State): State { s.(held := None, unfinished := s.unfinished - 1) }

  function Abandon(s: State, counted: bool): State {
    var left := Holding(s.held) + Writes(s.queue);
    s.(queue := [], held := None, unfinished := s.unfinished - |s.queue| - |Holding(s.held)|, running := false,
       lost := s.lost + left, dropped := if counted then s.dropped + |left| else s.dropped,
       uncounted := if counted then s.uncounted else s.uncounted + |left|)
  }

  function Step(s: State, e: Event): State
    requires Can(s, e)
  {
    match e
    case Enqueue(item) =>
      if s.closing then s
      else Put(if Full(s.capacity, s.queue) then MadeRoom(s) else s, item).(accepted := s.accepted + [item])
    case Take =>
      var rest := s.(queue := s.queue[1..]);
      if s.queue[0].Stop? then rest.(unfinished := s.unfinished - 1, running := false)
      else rest.(held := Some(s.queue[0]))
    case Succeed => Done(s).(applied := s.applied + [s.held.value])
    case Fail =>
      if Full(s.capacity, s.queue) then Done(s).(lost := s.lost + [s.held.value], uncounted := s.uncounted + 1)
      else Done(Put(s, s.held.value))
    case Close => s.(closing := true)
    case Sentinel => if Full(s.capacity, s.queue) then s else Put(s, Stop)
    case GiveUp => Abandon(s, true)
    case Discard => Abandon(s, false)
  }

  function Initial(capacity: int): State { State(capacity, [], None, 0, 0, false, true, [], [], [], 0) }

  function Run(s: State, es: seq<Event>): State
    requires Possible(s, es)
    decreases |es|
  {
    if es == [] then s else Run(Step(s, es[0]), es[1..])
  }

  predicate Possible(s: State, es: seq<Event>)
    decreases |es|
  {
    es == [] || (Can(s, es[0]) && Possible(Step(s, es[0]), es[1..]))
  }

  // -------------------------------------------------------------------- invariants

  ghost predicate Inv(s: State) {
    && (s.capacity > 0 ==> |s.queue| <= s.capacity)
    && s.unfinished == |s.queue| + |Holding(s.held)|
    && (s.held.Some? ==> s.held.value.Write? && s.running)
    && (!s.closing ==> Stop !in s.queue)
    && multiset(s.accepted)
       == multiset(s.applied) + multiset(s.lost) + multiset(Writes(s.queue)) + multiset(Holding(s.held))
    && |s.lost| == s.dropped + s.uncounted
  }

  lemma {:induction false} WritesAppend(a: seq<Item>, b: seq<Item>)
    ensures Writes(a + b) == Writes(a) + Writes(b)
  {
    hide Kept;
    if a == [] {
      assert a + b == b && Writes(a) + Writes(b) == Writes(b);
    } else {
      assert (a + b)[1..] == a[1..] + b;
      WritesAppend(a[1..], b);
      assert Kept(a[0]) + (Writes(a[1..]) + Writes(b)) == Writes(a) + Writes(b);
    }
  }

  lemma WritesOne(i: Item)
    ensures Writes([i]) == if i.Write? then [i] else []
  {
    assert [i][1..] == [];
  }

  lemma {:induction false} WritesAll(q: seq<Item>)
    requires Stop !in q
    ensures Writes(q) == q
  {
    if q != [] {
      assert q[0] in q;
      WritesAll(q[1..]);
    }
  }

  lemma MadeRoomInv(s: State)
    requires Inv(s) && !s.closing && Full(s.capacity, s.queue)
    ensures s.queue != [] && Inv(MadeRoom(s)) && !Full(s.capacity, MadeRoom(s).queue)
  {
    hide Writes, Victim, Droppable, Without;
    var k := Victim(s.queue);
    VictimPolicy(s.queue);
    WithoutStop(s.queue, k);
    WritesAll(s.queue);
    WritesAll(Without(s.queue, k));
    assert multiset(s.lost + [s.queue[k]]) == multiset(s.lost) + multiset{s.queue[k]};
  }

  lemma WithoutStop(q: seq<Item>, k: nat)
    requires k < |q| && Stop !in q
    ensures Stop !in Without(q, k)
  {}

  lemma PutInv(s: State, item: Item)
    requires Inv(s) && !Full(s.capacity, s.queue) && (item.Stop? ==> s.closing)
    ensures Inv(Put(s, item).(accepted := s.accepted + Writes([item])))
  {
    hide Writes, Holding;
    WritesAppend(s.queue, [item]);
    WritesOne(item);
    var w := Writes([item]);
    assert multiset(s.accepted + w) == multiset(s.accepted) + multiset(w);
    assert multiset(Writes(s.queue) + w) == multiset(Writes(s.queue)) + multiset(w);
    Balance(multiset(s.accepted), multiset(s.applied), multiset(s.lost), multiset(Writes(s.queue)),
            multiset(Holding(s.held)), multiset(w));
    assert |Put(s, item).queue| == |s.queue| + 1;
  }

  lemma Balance<T>(a: multiset<T>, p: multiset<T>, l: multiset<T>, q: multiset<T>, h: multiset<T>, w: multiset<T>)
    requires a == p + l + q + h
    ensures a + w == p + l + (q + w) + h
  {}

  lemma EnqueueInv(s: State, item: Item)
    requires Inv(s) && item.Write?
    ensures Inv(Step(s, Enqueue(item)))
  {
    hide Inv, Writes, MadeRoom, Victim;
    if !s.closing {
      WritesOne(item);
      if Full(s.capacity, s.queue) {
        MadeRoomInv(s);
        MadeRoomKeeps(s);
        PutInv(MadeRoom(s), item);
      } else {
        PutInv(s, item);
      }
    }
  }

  lemma MadeRoomKeeps(s: State)
    requires s.queue != []
    ensures MadeRoom(s).closing == s.closing && MadeRoom(s).unfinished == s.unfinished - 1
    ensures MadeRoom(s).accepted == s.accepted && MadeRoom(s).capacity == s.capacity
  {}

  lemma TakeInv(s: State)
    requires Inv(s) && Can(s, Take)
    ensures Inv(Step(s, Take))
  {
    hide Writes;
    var first, rest := s.queue[0], s.queue[1..];
    assert s.queue == [first] + rest;
    WritesAppend([first], rest);
    WritesOne(first);
    assert multiset(Writes([first]) + Writes(rest)) == multiset(Writes([first])) + multiset(Writes(rest));
  }

  lemma SucceedInv(s: State)
    requires Inv(s) && Can(s, Succeed)
    ensures Inv(Step(s, Succeed))
  {
    hide Writes;
    assert multiset(s.applied + [s.held.value]) == multiset(s.applied) + multiset{s.held.value};
  }

  lemma FailInv(s: State)
    requires Inv(s) && Can(s, Fail)
    ensures Inv(Step(s, Fail))
  {
    hide Inv, Writes, Put;
    if Full(s.capacity, s.queue) { FailLost(s); } else { FailBack(s); }
  }

  lemma FailLost(s: State)
    requires Inv(s) && s.held.Some?
    ensures Inv(Done(s).(lost := s.lost + [s.held.value], uncounted := s.uncounted + 1))
  {
    hide Writes;
    assert multiset(s.lost + [s.held.value]) == multiset(s.lost) + multiset{s.held.value};
  }

  lemma FailBack(s: State)
    requires Inv(s) && s.held.Some? && !Full(s.capacity, s.queue)
    ensures Inv(Done(Put(s, s.held.value)))
  {
    hide Writes;
    var item := s.held.value;
    WritesAppend(s.queue, [item]);
    WritesOne(item);
    assert multiset(Writes(s.queue) + [item]) == multiset(Writes(s.queue)) + multiset{item};
    assert |s.queue + [item]| == |s.queue| + 1 && Stop !in [item];
  }

  lemma SentinelInv(s: State)
    requires Inv(s) && Can(s, Sentinel)
    ensures Inv(Step(s, Sentinel))
  {
    hide Writes;
    if !Full(s.capacity, s.queue) {
      WritesOne(Stop);
      PutInv(s, Stop);
      assert s.accepted + [] == s.accepted;
    }
  }

  /** Every step keeps: what is unfinished is what is queued or in the writer's hands,
      the queue is no longer than its bound, and every accepted write is exactly one
      of applied, given up, queued or in the writer's hands. */
  lemma StepInv(s: State, e: Event)
    requires Inv(s) && Can(s, e)
    ensures Inv(Step(s, e))
  {
    CloseInv(s);
    hide Inv, Writes, MadeRoom, Put, Done, Abandon;
    match e {
      case Enqueue(item) => EnqueueInv(s, item);
      case Take => TakeInv(s);
      case Succeed => SucceedInv(s);
      case Fail => FailInv(s);
      case Close =>
      case Sentinel => SentinelInv(s);
      case GiveUp => AbandonInv(s, true);
      case Discard => AbandonInv(s, false);
    }
  }

  lemma CloseInv(s: State)
    requires Inv(s)
    ensures Inv(s.(closing := true))
  {}

  lemma AbandonInv(s: State, counted: bool)
    requires Inv(s)
    ensures Inv(Abandon(s, counted))
  {
    assert multiset(Holding(s.held) + Writes(s.queue)) == multiset(Holding(s.held)) + multiset(Writes(s.queue));
  }

  lemma {:induction false} RunInv(s: State, es: seq<Event>)
    requires Inv(s) && Possible(s, es)
    ensures Inv(Run(s, es))
    decreases |es|
  {
    hide Inv, Step, Can;
    if es != [] {
      StepInv(s, es[0]);
      RunInv(Step(s, es[0]), es[1..]);
    }
  }

  /** From an empty queue, under any interleaving. */
  lemma AlwaysConserved(capacity: int, es: seq<Event>)
    requires Possible(Initial(capacity), es)
    ensures Inv(Run(Initial(capacity), es))
  {
    RunInv(Initial(capacity), es);
  }

  /** When a flush sees nothing unfinished, every accepted write was applied or given up. */
  lemma FlushMeansSettled(s: State)
    requires Inv(s) && s.unfinished == 0
    ensures multiset(s.accepted) == multiset(s.applied) + multiset(s.lost)
  {}

  // ------------------------------------------------- what comes in and what goes back

  /** An open queue takes a write in, behind what it had or, exactly when that was as
      long as a positive bound, behind what it had less one victim, which is counted;
      a closed queue takes nothing in. */
  lemma TakenIn(s: State, item: Item)
    requires item.Write?
    ensures var t, had := Step(s, Enqueue(item)), s.queue;
            var full := s.capacity > 0 && |had| >= s.capacity;
            && (s.closing ==> t == s)
            && (!s.closing ==> t.accepted == s.accepted + [item])
            && (!s.closing && !full ==> t.queue == had + [item] && t.dropped == s.dropped && t.lost == s.lost)
            && (!s.closing && full ==>
                  && t.queue == had[..Victim(had)] + had[Victim(had) + 1..] + [item]
                  && t.dropped == s.dropped + 1 && t.lost == s.lost + [had[Victim(had)]])
            && t.applied == s.applied && t.held == s.held && t.closing == s.closing && t.running == s.running
  {
    hide Victim;
  }

  /** What the backend does with a write: one it took is applied; one it failed goes
      back to the tail if there is room, and is given up, uncounted, exactly if there
      is none. */
  lemma Answered(s: State)
    requires s.held.Some?
    ensures var done, back, w := Step(s, Succeed), Step(s, Fail), s.held.value;
            var full := s.capacity > 0 && |s.queue| >= s.capacity;
            && done == s.(applied := s.applied + [w], held := None, unfinished := s.unfinished - 1)
            && (!full ==> back == s.(queue := s.queue + [w], held := None))
            && (full ==> back == s.(lost := s.lost + [w], uncounted := s.uncounted + 1, held := None, unfinished := s.unfinished - 1))
  {}

  /** The writer takes the oldest write, and ends on the sentinel, which closing puts
      behind everything while there is room; at the end whatever is left, the write in
      hand first, is lost. */
  lemma WriterEnds(s: State)
    ensures s.closing && !(0 < s.capacity <= |s.queue|) ==>
      Step(s, Sentinel) == s.(queue := s.queue + [Stop], unfinished := s.unfinished + 1)
    ensures s.closing && 0 < s.capacity <= |s.queue| ==> Step(s, Sentinel) == s
    ensures Can(s, Take) && s.queue[0].Write? ==> Step(s, Take) == s.(queue := s.queue[1..], held := Some(s.queue[0]))
    ensures Can(s, Take) && s.queue[0] == Stop ==>
      Step(s, Take) == s.(queue := s.queue[1..], unfinished := s.unfinished - 1, running := false)
    ensures var left := (if s.held.Some? then [s.held.value] else []) + Writes(s.queue);
            && Step(s, GiveUp).lost == Step(s, Discard).lost == s.lost + left
            && Step(s, GiveUp).dropped == s.dropped + |left| && Step(s, Discard).dropped == s.dropped
    ensures var t := Step(s, GiveUp); t.queue == [] && t.held.None? && !t.running
    ensures var t := Step(s, Discard); t.queue == [] && t.held.None? && !t.running
  {}

  /** The first write of all reaches the backend. */
  lemma FirstDelivered(capacity: int, item: Item)
    requires item.Write?
    ensures var queued := Step(Initial(capacity), Enqueue(item));
            && Can(queued, Take)
            && var taken := Step(queued, Take);
               Can(taken, Succeed) && Step(taken, Succeed).applied == [item] && Step(taken, Succeed).unfinished == 0
  {
    assert [] + [item] == [item];
  }

  /** The writes that come in before the first Close. */
  function ComeIn(es: seq<Event>): seq<Item> {
    if es == [] || es[0].Close? then [] else (if es[0].Enqueue? then [es[0].item] else []) + ComeIn(es[1..])
  }

  /** Under any interleaving, exactly the writes that come in before the first Close
      are accepted, in order. */
  lemma {:induction false} AcceptsAll(s: State, es: seq<Event>)
    requires Possible(s, es)
    ensures Run(s, es).accepted == s.accepted + if s.closing then [] else ComeIn(es)
    decreases |es|
  {
    hide MadeRoom, Put, Done, Abandon, Full;
    if es == [] {
      assert s.accepted + [] == s.accepted;
    } else {
      AcceptsOne(s, es[0]);
      AcceptsAll(Step(s, es[0]), es[1..]);
      var here := if es[0].Enqueue? then [es[0].item] else [];
      assert s.accepted + [] == s.accepted;
      assert s.accepted + here + ComeIn(es[1..]) == s.accepted + (here + ComeIn(es[1..]));
    }
  }

  lemma AcceptsOne(s: State, e: Event)
    requires Can(s, e)
    ensures Step(s, e).accepted == s.accepted + if e.Enqueue? && !s.closing then [e.item] else []
    ensures Step(s, e).closing <==> s.closing || e.Close?
  {
    hide Victim;
    assert s.accepted + [] == s.accepted;
  }

  /** From an open and empty queue: unless the backend fails or something is lost, a
      finished flush means that the backend has every write that came in, in order. */
  lemma FlushDelivers(capacity: int, es: seq<Event>)
    requires Possible(Initial(capacity), es) && FailureFree(es)
    ensures var s := Run(Initial(capacity), es);
            s.unfinished == 0 && s.lost == [] ==> s.applied == ComeIn(es)
  {
    hide Step, Can;
    AcceptsAll(Initial(capacity), es);
    FlushedInOrder(capacity, es);
    assert [] + ComeIn(es) == ComeIn(es);
  }

  // -------------------------------------------------------------------------- order

  /** a is what is left of b after leaving some elements out. */
  predicate Subsequence(a: seq<Item>, b: seq<Item>) {
    if a == [] then true
    else if b == [] then false
    else if a[|a| - 1] == b[|b| - 1] && Subsequence(a[..|a| - 1], b[..|b| - 1]) then true
    else Subsequence(a, b[..|b| - 1])
  }

  lemma {:induction false} SubsequenceSnoc(a: seq<Item>, b: seq<Item>, x: Item)
    requires Subsequence(a, b)
    ensures Subsequence(a + [x], b + [x])
  {
    assert (a + [x])[..|a|] == a && (b + [x])[..|b|] == b;
  }

  lemma {:induction false} SubsequenceDrop(a: seq<Item>, b: seq<Item>, k: nat)
    requires Subsequence(a, b) && k < |a|
    ensures Subsequence(Without(a, k), b)
    decreases |b|
  {
    var short := b[..|b| - 1];
    if a[|a| - 1] == b[|b| - 1] && Subsequence(a[..|a| - 1], short) {
      if k == |a| - 1 {
        assert Without(a, k) == a[..|a| - 1];
        SubsequenceLonger(a[..|a| - 1], b);
      } else {
        SubsequenceDrop(a[..|a| - 1], short, k);
        var r := Without(a, k);
        assert r[..|r| - 1] == Without(a[..|a| - 1], k);
      }
    } else {
      SubsequenceDrop(a, short, k);
      SubsequenceLonger(Without(a, k), b);
    }
  }

  lemma SubsequenceLonger(a: seq<Item>, b: seq<Item>)
    requires b != [] && Subsequence(a, b[..|b| - 1])
    ensures Subsequence(a, b)
  {}

  lemma {:induction false} SubsequenceSame(a: seq<Item>, b: seq<Item>)
    requires Subsequence(a, b)
    ensures |a| <= |b| && (|a| == |b| ==> a == b)
    decreases |b|
  {
    if a != [] {
      var short := b[..|b| - 1];
      if a[|a| - 1] == b[|b| - 1] && Subsequence(a[..|a| - 1], short) {
        SubsequenceSame(a[..|a| - 1], short);
        assert a == a[..|a| - 1] + [a[|a| - 1]];
        assert b == short + [b[|b| - 1]];
      } else {
        SubsequenceSame(a, short);
      }
    }
  }

  /** Applied, then in hand, then queued. */
  function Line(s: State): seq<Item> { s.applied + Holding(s.held) + Writes(s.queue) }

  predicate FailureFree(es: seq<Event>) { forall k :: 0 <= k < |es| ==> !es[k].Fail? }

  lemma EnqueueInOrder(s: State, item: Item)
    requires Inv(s) && item.Write? && !s.closing && Subsequence(Line(s), s.accepted)
    ensures Subsequence(Line(Step(s, Enqueue(item))), Step(s, Enqueue(item)).accepted)
  {
    hide Subsequence, Victim, Writes, Inv, Line, MadeRoom, Put;
    if Full(s.capacity, s.queue) { RoomInOrder(s); }
    var r := if Full(s.capacity, s.queue) then MadeRoom(s) else s;
    SubsequenceSnoc(Line(r), s.accepted, item);
    LinePut(r, item, s.accepted + [item]);
  }

  lemma LinePut(r: State, item: Item, accepted: seq<Item>)
    requires item.Write?
    ensures Line(Put(r, item).(accepted := accepted)) == Line(r) + [item]
  {
    hide Writes;
    WritesAppend(r.queue, [item]);
    WritesOne(item);
  }

  lemma LineKept(s: State, e: Event)
    requires Inv(s) && Can(s, e) && (e.Take? || e.Succeed? || e.Close? || e.Sentinel?)
    ensures Line(Step(s, e)) == Line(s) && Step(s, e).accepted == s.accepted
  {
    hide Writes;
    if e.Take? {
      assert s.queue == [s.queue[0]] + s.queue[1..];
      WritesAppend([s.queue[0]], s.queue[1..]);
      WritesOne(s.queue[0]);
    } else if e.Sentinel? {
      WritesAppend(s.queue, [Stop]);
      WritesOne(Stop);
    }
  }

  lemma StepInOrder(s: State, e: Event)
    requires Inv(s) && Can(s, e) && !e.Fail? && Subsequence(Line(s), s.accepted)
    ensures Subsequence(Line(Step(s, e)), Step(s, e).accepted)
  {
    hide Subsequence, Victim, Inv, Line, Writes, MadeRoom, Put, Done, Abandon, Full;
    match e {
      case Enqueue(item) => if !s.closing { EnqueueInOrder(s, item); }
      case GiveUp => AbandonedInOrder(s, true);
      case Discard => AbandonedInOrder(s, false);
      case _ => LineKept(s, e);
    }
  }

  lemma RoomInOrder(s: State)
    requires Inv(s) && !s.closing && Full(s.capacity, s.queue) && Subsequence(Line(s), s.accepted)
    ensures s.queue != [] && Subsequence(Line(MadeRoom(s)), s.accepted)
  {
    hide Subsequence, Victim, Writes;
    var k := Victim(s.queue);
    WithoutStop(s.queue, k);
    var r := Without(s.queue, k);
    WritesAll(s.queue);
    WritesAll(r);
    var before := s.applied + Holding(s.held);
    SubsequenceDrop(before + s.queue, s.accepted, |before| + k);
    WithoutBehind(before, s.queue, k);
  }

  lemma WithoutBehind(a: seq<Item>, q: seq<Item>, k: nat)
    requires k < |q|
    ensures Without(a + q, |a| + k) == a + Without(q, k)
  {}

  lemma AbandonedInOrder(s: State, counted: bool)
    requires Subsequence(Line(s), s.accepted)
    ensures Subsequence(Line(Abandon(s, counted)), Abandon(s, counted).accepted)
  {
    hide Subsequence;
    assert s.applied + (Holding(s.held) + Writes(s.queue)) == Line(s);
    PrefixInOrder(s.applied, Holding(s.held) + Writes(s.queue), s.accepted);
    assert Line(Abandon(s, counted)) == s.applied;
  }

  lemma {:induction false} PrefixInOrder(a: seq<Item>, rest: seq<Item>, b: seq<Item>)
    requires Subsequence(a + rest, b)
    ensures Subsequence(a, b)
    decreases |rest|
  {
    hide Subsequence;
    if rest == [] {
      assert a + rest == a;
    } else {
      var all := a + rest;
      SubsequenceDrop(all, b, |all| - 1);
      assert Without(all, |all| - 1) == a + rest[..|rest| - 1];
      PrefixInOrder(a, rest[..|rest| - 1], b);
    }
  }

  /** As long as the backend never fails, writes reach it in the order they were taken
      in, some of them left out. */
  lemma {:induction false} RunInOrder(s: State, es: seq<Event>)
    requires Inv(s) && Possible(s, es) && FailureFree(es) && Subsequence(Line(s), s.accepted)
    ensures Subsequence(Line(Run(s, es)), Run(s, es).accepted)
    ensures Subsequence(Run(s, es).applied, Run(s, es).accepted)
    decreases |es|
  {
    hide Inv, Step, Can, Subsequence, Line;
    if es == [] {
      AppliedInLine(s);
    } else {
      StepInv(s, es[0]);
      StepInOrder(s, es[0]);
      RunInOrder(Step(s, es[0]), es[1..]);
    }
  }

  lemma AppliedInLine(s: State)
    requires Subsequence(Line(s), s.accepted)
    ensures Subsequence(s.applied, s.accepted)
  {
    hide Subsequence;
    assert s.applied + (Holding(s.held) + Writes(s.queue)) == Line(s);
    PrefixInOrder(s.applied, Holding(s.held) + Writes(s.queue), s.accepted);
  }

  /** And when nothing was given up either, a flush that ends means the backend has
      every write, in order. */
  lemma FlushedInOrder(capacity: int, es: seq<Event>)
    requires Possible(Initial(capacity), es) && FailureFree(es)
    ensures var s := Run(Initial(capacity), es);
            s.unfinished == 0 && s.lost == [] ==> s.applied == s.accepted
  {
    hide Step, Can, Subsequence;
    var s := Run(Initial(capacity), es);
    EmptyInOrder(capacity);
    RunInv(Initial(capacity), es);
    RunInOrder(Initial(capacity), es);
    SubsequenceSame(s.applied, s.accepted);
    if s.unfinished == 0 && s.lost == [] {
      assert |multiset(s.accepted)| == |s.accepted| && |multiset(s.applied)| == |s.applied|;
      assert multiset(s.accepted) == multiset(s.applied);
    }
  }

  lemma EmptyInOrder(capacity: int)
    ensures Subsequence(Line(Initial(capacity)), [])
  {}

  // ---------------------------------------------------------------------- the class

  lemma DrainOne(lost: seq<Item>, q: seq<Item>)
    requires q != []
    ensures |Writes(q)| == |Writes(q[1..])| + if q[0].Write? then 1 else 0
    ensures lost + Writes(q) == (if q[0].Write? then lost + [q[0]] else lost) + Writes(q[1..])
  {
    var rest := Writes(q[1..]);
    WritesStep(q);
    hide Writes;
    if q[0].Write? { assert lost + ([q[0]] + rest) == lost + [q[0]] + rest; } else { assert [] + rest == rest; }
  }

  lemma WritesStep(q: seq<Item>)
    requires q != []
    ensures Writes(q) == Kept(q[0]) + Writes(q[1..])
  {
    hide Kept;
  }

  lemma NoWrites(lost: seq<Item>)
    ensures Writes([]) == [] && lost + Writes([]) == lost
  {}

  class HybridStorage {
    const capacity: int
    var queue: seq<Item>
    var held: Option<Item>
    var unfinished: int
    var dropped: nat
    var closing: bool
    var running: bool
    ghost var accepted: seq<Item>
    ghost var applied: seq<Item>
    ghost var lost: seq<Item>
    ghost var uncounted: nat

    ghost function Fields(): State
      reads this
    {
      State(capacity, queue, held, unfinished, dropped, closing, running, accepted, applied, lost, uncounted)
    }

    constructor (capacity: int)
      ensures Fields() == Initial(capacity)
    {
      this.capacity := capacity;
      queue, held, unfinished, dropped, closing, running := [], None, 0, 0, false, true;
      accepted, applied, lost, uncounted := [], [], [], 0;
    }

    method MakeRoom()
      requires queue != []
      modifies this
      ensures Fields() == MadeRoom(old(Fields()))
    {
      hide Droppable, Victim;
      var pending := GetAll();
      var victim := FindVictim(pending);
      PutBack(pending, victim);
      dropped := dropped + 1;
      lost := lost + [pending[victim]];
    }

    method GetAll() returns (pending: seq<Item>)
      modifies `queue
      ensures queue == [] && pending == old(queue)
    {
      pending := [];
      while queue != []
        invariant pending + queue == old(queue)
        decreases |queue|
      {
        assert queue == [queue[0]] + queue[1..];
        pending := pending + [queue[0]];
        queue := queue[1..];
      }
      assert pending + [] == pending;
    }

    /** Everything but the victim again, each item checked off once. */
    method PutBack(pending: seq<Item>, victim: nat)
      requires victim < |pending| && queue == []
      modifies `queue, `unfinished
      ensures queue == Without(pending, victim) && unfinished == old(unfinished) - 1
    {
      var index := 0;
      while index < |pending|
        invariant 0 <= index <= |pending|
        invariant queue == (if index <= victim then pending[..index] else pending[..victim] + pending[victim + 1..index])
        invariant unfinished == old(unfinished) - (if index <= victim then 0 else 1)
      {
        if index != victim {
          queue := queue + [pending[index]];
          unfinished := unfinished + 1;
        }
        unfinished := unfinished - 1;
        index := index + 1;
      }
      assert pending[victim + 1..|pending|] == pending[victim + 1..];
    }

    method FindVictim(pending: seq<Item>) returns (victim: nat)
      requires pending != []
      ensures victim == Victim(pending)
    {
      hide Droppable;
      victim := 0;
      while victim < |pending|
        invariant 0 <= victim <= |pending| && FirstDroppable(pending, victim) == FirstDroppable(pending, 0)
      {
        if Droppable(pending[victim]) { return; }
        victim := victim + 1;
      }
      victim := 0;
    }

    /** _enqueue. */
    method Add(kind: Kind, payload: int)
      modifies this
      ensures Fields() == Step(old(Fields()), Enqueue(Write(kind, payload)))
      ensures old(closing) ==> Fields() == old(Fields())
      ensures !old(closing) ==> accepted == old(accepted) + [Write(kind, payload)]
      ensures !old(closing) && !(0 < capacity <= |old(queue)|) ==> queue == old(queue) + [Write(kind, payload)]
      ensures !old(closing) && 0 < capacity <= |old(queue)| ==>
        queue == Without(old(queue), Victim(old(queue))) + [Write(kind, payload)] && dropped == old(dropped) + 1
    {
      hide MadeRoom, Victim;
      TakenIn(Fields(), Write(kind, payload));
      if closing { return; }
      if Full(capacity, queue) { MakeRoom(); MadeRoomKeeps(old(Fields())); }
      queue := queue + [Write(kind, payload)];
      unfinished := unfinished + 1;
      accepted := accepted + [Write(kind, payload)];
    }

    /** The writer's turn: it ends on the sentinel. */
    method TakeNext()
      requires Can(Fields(), Take)
      modifies this
      ensures Fields() == Step(old(Fields()), Take)
    {
      var item := queue[0];
      queue := queue[1..];
      if item.Stop? {
        running := false;
        unfinished := unfinished - 1;
      } else {
        held := Some(item);
      }
    }

    /** What the backend answered. */
    method Finish(ok: bool)
      requires held.Some?
      modifies this
      ensures Fields() == Step(old(Fields()), if ok then Succeed else Fail)
    {
      if ok {
        applied := applied + [held.value];
      } else if !Full(capacity, queue) {
        queue := queue + [held.value];
        unfinished := unfinished + 1;
      } else {
        lost := lost + [held.value];
        uncounted := uncounted + 1;
      }
      held := None;
      unfinished := unfinished - 1;
    }

    /** _drain: the sentinel is not counted. */
    method Drain() returns (count: nat)
      modifies this
      ensures count == |Writes(old(queue))|
      ensures Fields() == old(Fields()).(queue := [], unfinished := old(unfinished) - |old(queue)|,
                                         lost := old(lost) + Writes(old(queue)))
    {
      hide Writes;
      ghost var s := Fields();
      count := 0;
      while queue != []
        invariant count + |Writes(queue)| == |Writes(s.queue)|
        invariant lost + Writes(queue) == s.lost + Writes(s.queue)
        invariant Fields() == s.(queue := queue, unfinished := s.unfinished - |s.queue| + |queue|, lost := lost)
        decreases |queue|
      {
        var item := queue[0];
        DrainOne(lost, queue);
        if item.Write? {
          count := count + 1;
          lost := lost + [item];
        }
        queue := queue[1..];
        unfinished := unfinished - 1;
      }
      NoWrites(lost);
    }

    /** The end of close: the writer is cancelled, and what it held and what is queued
        counts as lost. */
    method Shut()
      modifies this
      ensures Fields() == Step(old(Fields()), GiveUp)
    {
      hide Writes;
      if held.Some? {
        lost := lost + [held.value];
        dropped := dropped + 1;
        unfinished := unfinished - 1;
      }
      held := None;
      running := false;
      var count := Drain();
      dropped := dropped + count;
      assert lost == old(lost) + (Holding(old(held)) + Writes(old(queue)));
    }
  }
}
