/** The streaming path of get_file in pyrogram/client.py: workers take chunk
    offsets under a budget of slots shared with other transfers, a consumer yields
    the chunks in order; a file of unknown size is fetched chunk by chunk instead.
    Every await is a point where any other step may happen; chunk i is the one at
    byte offset start + i * chunkSize. */
module Streaming {

  datatype Option<+T> = None | Some(value: T)

  // ----------------------------------------------------------------- the slots

  /** The slots a transfer holds and those that are free. */
  datatype Slots = Slots(held: nat, free: nat)

  function Acquired(x: Slots): Slots
    requires x.free > 0
  {
    Slots(x.held + 1, x.free - 1)
  }

  /** Nothing is given back that is not held. */
  function Released(x: Slots): Slots { if x.held > 0 then Slots(x.held - 1, x.free + 1) else x }

  function AllReleased(x: Slots): Slots { Slots(0, x.free + x.held) }

  /** ReadAhead and the semaphore it borrows from. */
  class Budget {
    var free: nat

    constructor (size: nat)
      ensures free == size
    {
      free := size;
    }
  }

  class ReadAhead {
    const budget: Budget
    var held: nat

    constructor (budget: Budget)
      ensures this.budget == budget && Both() == Slots(0, budget.free)
    {
      this.budget := budget;
      held := 0;
    }

    ghost function Both(): Slots
      reads this, budget
    {
      Slots(held, budget.free)
    }

    /** The await returns once a slot is free. */
    method Acquire()
      requires budget.free > 0
      modifies this, budget
      ensures Both() == Acquired(old(Both()))
    {
      budget.free := budget.free - 1;
      held := held + 1;
    }

    method Release()
      modifies this, budget
      ensures Both() == Released(old(Both()))
    {
      if held > 0 {
        held := held - 1;
        budget.free := budget.free + 1;
      }
    }

    method ReleaseAll()
      modifies this, budget
      ensures Both() == AllReleased(old(Both()))
    {
      while held > 0
        invariant AllReleased(Both()) == AllReleased(old(Both()))
      {
        Release();
      }
    }
  }

  // ------------------------------------------------------------- the transfer

  type Byte = bv8

  /** What is transferred: the file on the server, the chunk size, the first byte
      asked for, the most chunks to yield, the size the file is said to have, the
      number of workers (pool size times workers per session, as configured) and of
      slots. */
  datatype Params = Params(file: seq<Byte>, chunkSize: nat, start: nat, total: nat, fileSize: int, workers: int, slots: nat)

  ghost predicate ValidParams(p: Params) { p.chunkSize > 0 && p.total > 0 }

  /** A size of 0, the default, says that the size is not known. */
  predicate Unknown(p: Params) { p.fileSize <= 0 }

  function Least(a: int, b: int): int { if a < b then a else b }

  /** The server's answer for chunk i. */
  function Chunk(p: Params, i: nat): seq<Byte> {
    var from := Least(p.start + i * p.chunkSize, |p.file|);
    var to := Least(p.start + (i + 1) * p.chunkSize, |p.file|);
    if from <= to then p.file[from..to] else []
  }

  predicate Short(p: Params, i: nat) { |Chunk(p, i)| < p.chunkSize }

  function CeilDiv(a: int, b: nat): int
    requires b > 0
  {
    (a + b - 1) / b
  }

  /** chunks_needed: how many chunks after the first are queued. */
  function Needed(p: Params): nat
    requires p.chunkSize > 0
  {
    var n := Least(p.total - 1, CeilDiv(p.fileSize - p.start - p.chunkSize, p.chunkSize));
    if n <= 0 then 0 else n
  }

  /** How many chunks there are to hand out, as far as can be told beforehand. */
  function Limit(p: Params): nat
    requires p.chunkSize > 0
  {
    if Unknown(p) then p.total else Least(p.total, Needed(p) + 1)
  }

  datatype Worker = Waiting | Fetching(i: nat) | Done | Failed(i: nat) | Cancelled

  datatype Outcome = Complete | Error | Abandoned

  /** First: the first chunk is on its way. Yielded: it has been handed out.
      Sequential: the size is unknown, and the next chunk is on its way. */
  datatype Phase = First | Yielded | Consuming | Sequential | Dropping(outcome: Outcome) | Finished(outcome: Outcome)

  datatype State = State(
    phase: Phase,
    launched: bool,
    starved: bool,
    work: seq<nat>,
    workers: seq<Worker>,
    received: map<nat, seq<Byte>>,
    held: nat,
    free: nat,
    others: nat,
    out: seq<seq<Byte>>)

  /** current: the chunks yielded so far, and the index of the next. */
  function Current(s: State): nat { |s.out| }

  /** The state with the slots as one of ReadAhead's methods leaves them. */
  function With(s: State, x: Slots): State { s.(held := x.held, free := x.free) }

  function Release(s: State): State { With(s, Released(Slots(s.held, s.free))) }

  function ReleaseAll(s: State): State { With(s, AllReleased(Slots(s.held, s.free))) }

  function Indices(from: nat, to: nat): (r: seq<nat>)
    requires from <= to
    ensures |r| == to - from
  {
    seq(to - from, k requires 0 <= k => from + k)
  }

  predicate Running(s: State) { s.phase.First? || s.phase.Yielded? || s.phase.Consuming? || s.phase.Sequential? }

  /** Workers go on until they are cancelled: while the prefetch is dropped, too. */
  predicate Working(s: State) { Running(s) || s.phase.Dropping? }

  predicate Over(w: Worker) { w.Done? || w.Failed? || w.Cancelled? }

  predicate Initial(p: Params, s: State) {
    && s.phase == First && !s.launched && !s.starved && s.work == [] && s.workers == [] && s.received == map[]
    && s.held == 0 && s.free + s.others == p.slots && s.out == []
  }

  datatype Event =
    | FirstArrives | FirstFails | Proceed
    | Launch(sessions: nat) | LaunchFails
    | Take(w: nat) | Deliver(w: nat) | Fail(w: nat)
    | Consume | GiveUp | Abandon
    | NextArrives | NextFails
    | Cancel(w: nat) | DropDone
    | OtherTakes | OtherGives

  predicate Enabled(p: Params, s: State, e: Event)
    requires p.chunkSize > 0
  {
    match e
    case FirstArrives => s.phase.First?
    case FirstFails => s.phase.First?
    case Proceed => s.phase.Yielded?
    case Launch(_) => Running(s) && !s.launched && p.total > 1 && !Unknown(p)
    case LaunchFails => s.phase.Consuming? && !s.launched
    case Take(w) => Working(s) && w < |s.workers| && s.workers[w].Waiting? && s.free > 0
    case Deliver(w) => Working(s) && w < |s.workers| && s.workers[w].Fetching?
    case Fail(w) => Working(s) && w < |s.workers| && s.workers[w].Fetching?
    case Consume => s.phase.Consuming? && s.launched && Current(s) in s.received
    case GiveUp =>
      && s.phase.Consuming? && s.launched && Current(s) !in s.received
      && ((exists w :: 0 <= w < |s.workers| && s.workers[w].Failed?) || (forall w :: 0 <= w < |s.workers| ==> Over(s.workers[w])))
    case Abandon => Running(s)
    case NextArrives => s.phase.Sequential?
    case NextFails => s.phase.Sequential?
    case Cancel(w) => !Running(s) && w < |s.workers| && !Over(s.workers[w])
    case DropDone => s.phase.Dropping? && forall w :: 0 <= w < |s.workers| ==> Over(s.workers[w])
    case OtherTakes => s.free > 0
    case OtherGives => s.others > 0
  }

  /** Leaving the consumer's try block: its finally gives every slot back. */
  function Leave(s: State, outcome: Outcome): State {
    ReleaseAll(s).(phase := Finished(outcome))
  }

  function Apply(p: Params, s: State, e: Event): State
    requires p.chunkSize > 0 && Enabled(p, s, e)
  {
    match e
    case FirstArrives => s.(phase := Yielded, out := [Chunk(p, 0)])
    case FirstFails => s.(phase := Dropping(Error))
    case Proceed =>
      if Short(p, 0) || Current(s) >= p.total then s.(phase := Dropping(Complete))
      else s.(phase := if Unknown(p) then Sequential else Consuming)
    case Launch(sessions) =>
      if Needed(p) == 0 then s.(launched := true)
      else if sessions == 0 then s.(launched := true, starved := true)
      else s.(launched := true, starved := p.workers <= 0, work := Indices(1, Needed(p) + 1),
              workers := seq(if p.workers <= 0 then 0 else Least(p.workers, Needed(p)), _ => Waiting))
    case LaunchFails => s.(phase := Finished(Error))
    case Take(w) =>
      if s.work == [] then s.(workers := s.workers[w := Done])
      else With(s, Acquired(Slots(s.held, s.free))).(workers := s.workers[w := Fetching(s.work[0])], work := s.work[1..])
    case Deliver(w) =>
      var i := s.workers[w].i;
      s.(received := s.received[i := Chunk(p, i)], workers := s.workers[w := if Short(p, i) then Done else Waiting])
    case Fail(w) => Release(s.(workers := s.workers[w := Failed(s.workers[w].i)]))
    case Consume =>
      var i := Current(s);
      var s' := Release(s.(received := s.received - {i})).(out := s.out + [s.received[i]]);
      if |s.received[i]| < p.chunkSize || Current(s') >= p.total then Leave(s', Complete) else s'
    case GiveUp =>
      Leave(s, if exists w :: 0 <= w < |s.workers| && s.workers[w].Failed? then Error else Complete)
    case Abandon =>
      if s.phase.Consuming? || s.phase.Sequential? then Leave(s, Abandoned) else s.(phase := Dropping(Abandoned))
    case NextArrives =>
      var c := Chunk(p, Current(s));
      if c == [] then Leave(s, Complete)
      else
        var s' := s.(out := s.out + [c]);
        if |c| < p.chunkSize || Current(s') >= p.total then Leave(s', Complete) else s'
    case NextFails => Leave(s, Error)
    case Cancel(w) =>
      var s' := s.(workers := s.workers[w := Cancelled]);
      if s.workers[w].Fetching? then Release(s') else s'
    case DropDone => Leave(s, s.phase.outcome)
    case OtherTakes => s.(free := s.free - 1, others := s.others + 1)
    case OtherGives => s.(free := s.free + 1, others := s.others - 1)
  }

  /** The events can happen one after the other from s. */
  ghost predicate Possible(p: Params, s: State, events: seq<Event>)
    requires p.chunkSize > 0
    decreases |events|
  {
    events == [] || (Enabled(p, s, events[0]) && Possible(p, Apply(p, s, events[0]), events[1..]))
  }

  ghost function After(p: Params, s: State, events: seq<Event>): State
    requires p.chunkSize > 0 && Possible(p, s, events)
    decreases |events|
  {
    if events == [] then s else After(p, Apply(p, s, events[0]), events[1..])
  }

  // ---------------------------------------------------------------- invariant

  function Busy(workers: seq<Worker>): nat {
    if workers == [] then 0
    else (if workers[|workers| - 1].Fetching? then 1 else 0) + Busy(workers[..|workers| - 1])
  }

  lemma {:induction false} BusyUpdate(workers: seq<Worker>, w: nat, x: Worker)
    requires w < |workers|
    ensures Busy(workers[w := x]) + (if workers[w].Fetching? then 1 else 0) == Busy(workers) + (if x.Fetching? then 1 else 0)
  {
    var init := workers[..|workers| - 1];
    if w == |workers| - 1 {
      assert workers[w := x][..|workers| - 1] == init;
    } else {
      BusyUpdate(init, w, x);
      assert workers[w := x][..|workers| - 1] == init[w := x];
    }
  }

  lemma {:induction false} BusyNone(workers: seq<Worker>)
    ensures Busy(workers) == 0 <==> forall w :: 0 <= w < |workers| ==> !workers[w].Fetching?
  {
    if workers != [] { BusyNone(workers[..|workers| - 1]); }
  }

  /** The chunks taken from the queue are a prefix of those put in. */
  function Taken(p: Params, s: State): int
    requires p.chunkSize > 0
  {
    if s.launched && !s.starved then Needed(p) - |s.work| else 0
  }

  /** Chunk i has been taken and is not with the consumer yet: somewhere. */
  ghost predicate Located(s: State, i: nat) {
    i in s.received || exists w :: 0 <= w < |s.workers| && InHand(s.workers[w], i)
  }

  predicate InHand(w: Worker, i: nat) { w == Fetching(i) || w == Failed(i) }

  ghost predicate Queue(p: Params, s: State)
    requires p.chunkSize > 0
  {
    && 0 <= Taken(p, s) <= Needed(p)
    && (s.launched && !s.starved ==> s.work == Indices((Taken(p, s) + 1) as nat, Needed(p) + 1))
    && (!s.launched || s.starved || Needed(p) == 0 ==> s.workers == [])
    && (!s.launched || Needed(p) == 0 ==> s.work == [])
    && (s.starved ==> s.launched && Needed(p) > 0)
    && (s.launched && !s.starved && Needed(p) > 0 ==> s.workers != [])
    && (Unknown(p) ==> !s.launched)
  }

  ghost predicate Placement(p: Params, s: State)
    requires p.chunkSize > 0
  {
    && (forall i :: i in s.received ==> 1 <= i <= Taken(p, s) && Current(s) <= i && s.received[i] == Chunk(p, i))
    && (forall w :: 0 <= w < |s.workers| && s.workers[w].Fetching? ==>
          1 <= s.workers[w].i <= Taken(p, s) && Current(s) <= s.workers[w].i && s.workers[w].i !in s.received)
    && (forall v, w :: 0 <= v < w < |s.workers| && s.workers[v].Fetching? && s.workers[w].Fetching? ==>
          s.workers[v].i != s.workers[w].i)
    && (forall i :: 1 <= i <= Taken(p, s) && Current(s) <= i ==> Located(s, i))
    && (forall w :: 0 <= w < |s.workers| && s.workers[w].Done? ==> s.work == [] || ShortTaken(p, s))
    && (forall w :: 0 <= w < |s.workers| ==> !s.workers[w].Cancelled?)
    && (Current(s) <= Taken(p, s) + 1 || Unknown(p))
    && s.held == |s.received| + Busy(s.workers)
  }

  ghost predicate ShortTaken(p: Params, s: State)
    requires p.chunkSize > 0
  {
    exists i :: 1 <= i <= Taken(p, s) && Short(p, i)
  }

  /** What has been handed out is the first chunks, each once, in order. */
  ghost predicate InOrder(p: Params, s: State) {
    forall k :: 0 <= k < |s.out| ==> s.out[k] == Chunk(p, k)
  }

  ghost predicate Streamed(p: Params, s: State)
    requires p.chunkSize > 0
  {
    && InOrder(p, s)
    && (s.phase.First? ==> Current(s) == 0)
    && (s.phase.Yielded? ==> Current(s) == 1)
    && (s.phase.Consuming? || s.phase.Sequential? ==>
          1 <= Current(s) < p.total && forall k :: 0 <= k < Current(s) ==> !Short(p, k))
    && (s.phase.Consuming? ==> !Unknown(p))
    && (s.phase.Sequential? ==> Unknown(p))
    && Current(s) <= Limit(p)
    && (s.phase == Dropping(Complete) || s.phase == Finished(Complete) ==>
          && Current(s) >= 1
          && (s.starved || Short(p, Current(s) - 1) || Chunk(p, Current(s)) == [] || Current(s) == Limit(p)))
    && (s.starved ==> Current(s) <= 1 && !Unknown(p))
  }

  ghost predicate Inv(p: Params, s: State)
    requires p.chunkSize > 0
  {
    && s.free + s.held + s.others == p.slots
    && (s.phase.Finished? ==> s.held == 0)
    && Streamed(p, s)
    && (Running(s) ==> Queue(p, s) && Placement(p, s))
  }

  lemma InitialInv(p: Params, s: State)
    requires ValidParams(p) && Initial(p, s)
    ensures Inv(p, s)
  {
    hide Chunk, Needed;
    BusyNone(s.workers);
    assert Queue(p, s);
    assert Streamed(p, s);
    assert Placement(p, s);
  }

  lemma LaunchInv(p: Params, s: State, sessions: nat)
    requires ValidParams(p) && Inv(p, s) && Enabled(p, s, Launch(sessions))
    ensures Inv(p, Apply(p, s, Launch(sessions)))
  {
    hide Chunk, Needed;
    var s' := Apply(p, s, Launch(sessions));
    BusyNone(s'.workers);
    BusyNone(s.workers);
    if sessions > 0 && p.workers > 0 && Needed(p) > 0 {
      assert |s'.work| == Needed(p);
      assert Taken(p, s') == 0;
      assert s'.work == Indices(1, Needed(p) + 1);
    }
    assert Queue(p, s');
    assert Streamed(p, s');
    assert Placement(p, s');
  }

  /** A taken chunk that was located stays located when only worker w and
      received change. */
  lemma Relocate(s: State, s': State, w: nat, i: nat)
    requires w < |s.workers| && |s'.workers| == |s.workers| && Located(s, i)
    requires forall v :: 0 <= v < |s.workers| && v != w ==> s'.workers[v] == s.workers[v]
    requires s.received.Keys <= s'.received.Keys
    requires InHand(s.workers[w], i) ==> Located(s', i)
    ensures Located(s', i)
  {
    if i !in s.received {
      var v :| 0 <= v < |s.workers| && InHand(s.workers[v], i);
      if v != w { assert InHand(s'.workers[v], i); }
    }
  }

  lemma ShortStays(p: Params, s: State, s': State)
    requires p.chunkSize > 0 && Taken(p, s) <= Taken(p, s')
    ensures ShortTaken(p, s) ==> ShortTaken(p, s')
  {
    hide Short, Taken;
    if ShortTaken(p, s) {
      var i :| 1 <= i <= Taken(p, s) && Short(p, i);
      assert Short(p, i) && i <= Taken(p, s');
    }
  }

  lemma TakeQueue(p: Params, s: State, w: nat)
    requires ValidParams(p) && Queue(p, s) && Enabled(p, s, Take(w))
    ensures Queue(p, Apply(p, s, Take(w)))
    ensures s.work == [] ==> Taken(p, Apply(p, s, Take(w))) == Taken(p, s)
    ensures s.work != [] ==> s.work[0] == Taken(p, s) + 1 == Taken(p, Apply(p, s, Take(w)))
  {
    hide Chunk, Needed;
  }

  lemma TakeInv(p: Params, s: State, w: nat)
    requires ValidParams(p) && Inv(p, s) && Running(s) && Enabled(p, s, Take(w))
    ensures Inv(p, Apply(p, s, Take(w)))
  {
    hide Chunk, Needed, Short, Taken, Queue, ShortTaken, Located, Busy;
    var s' := Apply(p, s, Take(w));
    TakeQueue(p, s, w);
    QueueBounds(p, s);
    BusyUpdate(s.workers, w, s'.workers[w]);
    forall i | 1 <= i <= Taken(p, s') && Current(s') <= i ensures Located(s', i) {
      if s.work != [] && i == s.work[0] {
        HandLocated(s', w, i);
      } else {
        NotInWaiting(s, w, i);
        Relocate(s, s', w, i);
      }
    }
    ShortStays(p, s, s');
    assert Queue(p, s');
    assert Streamed(p, s');
    assert Placement(p, s');
  }

  lemma QueueBounds(p: Params, s: State)
    requires p.chunkSize > 0 && Queue(p, s)
    ensures 0 <= Taken(p, s) <= Needed(p)
    ensures s.starved ==> Taken(p, s) == 0
    ensures Unknown(p) ==> s.workers == []
  {}

  lemma HandLocated(s: State, w: nat, i: nat)
    requires w < |s.workers| && InHand(s.workers[w], i)
    ensures Located(s, i)
  {}

  lemma NotInWaiting(s: State, w: nat, i: nat)
    requires w < |s.workers| && s.workers[w].Waiting?
    ensures !InHand(s.workers[w], i)
  {}

  lemma ReceivedLocated(s: State, i: nat)
    requires i in s.received
    ensures Located(s, i)
  {}

  /** Steps of the workers leave the queue alone. */
  lemma SameQueue(p: Params, s: State, s': State)
    requires p.chunkSize > 0 && Queue(p, s) && s'.work == s.work && s'.launched == s.launched && s'.starved == s.starved
    requires |s'.workers| == |s.workers|
    ensures Queue(p, s') && Taken(p, s') == Taken(p, s)
  {
    hide Needed;
  }

  lemma DeliverInv(p: Params, s: State, w: nat)
    requires ValidParams(p) && Inv(p, s) && Running(s) && Enabled(p, s, Deliver(w))
    ensures Inv(p, Apply(p, s, Deliver(w)))
  {
    hide Chunk, Needed, Short, Taken, Queue, ShortTaken, Located, Busy;
    var s', i := Apply(p, s, Deliver(w)), s.workers[w].i;
    SameQueue(p, s, s');
    BusyUpdate(s.workers, w, s'.workers[w]);
    assert s'.received.Keys == s.received.Keys + {i};
    ReceivedLocated(s', i);
    forall k | 1 <= k <= Taken(p, s') && Current(s') <= k ensures Located(s', k) { Relocate(s, s', w, k); }
    ShortStays(p, s, s');
    if Short(p, i) { IsShortTaken(p, s', i); }
  }

  lemma IsShortTaken(p: Params, s: State, i: nat)
    requires p.chunkSize > 0 && 1 <= i <= Taken(p, s) && Short(p, i)
    ensures ShortTaken(p, s)
  {}

  lemma FailInv(p: Params, s: State, w: nat)
    requires ValidParams(p) && Inv(p, s) && Running(s) && Enabled(p, s, Fail(w))
    ensures Inv(p, Apply(p, s, Fail(w)))
  {
    hide Chunk, Needed, Short, Taken, Queue, ShortTaken, Located, Busy;
    var s', i := Apply(p, s, Fail(w)), s.workers[w].i;
    SameQueue(p, s, s');
    BusyUpdate(s.workers, w, Failed(i));
    HandLocated(s', w, i);
    forall k | 1 <= k <= Taken(p, s') && Current(s') <= k ensures Located(s', k) { Relocate(s, s', w, k); }
    ShortStays(p, s, s');
  }

  lemma ConsumeInv(p: Params, s: State)
    requires ValidParams(p) && Inv(p, s) && Enabled(p, s, Consume)
    ensures Inv(p, Apply(p, s, Consume))
  {
    hide Chunk, Needed, Taken, Queue, ShortTaken, Located, Busy, Placement, Streamed;
    var s' := Apply(p, s, Consume);
    ReceivedChunk(p, s, Current(s));
    ConsumeStreamed(p, s);
    ConsumeHeld(p, s);
    if Running(s') {
      SameQueue(p, s, s');
      ConsumePlacement(p, s);
    }
  }

  lemma ConsumeHeld(p: Params, s: State)
    requires ValidParams(p) && Inv(p, s) && Enabled(p, s, Consume)
    ensures s.held > 0 && |s.received - {Current(s)}| == |s.received| - 1
  {
    hide Chunk, Needed, Taken, Queue, ShortTaken, Located, Busy;
    var i := Current(s);
    assert (s.received - {i}).Keys == s.received.Keys - {i};
    assert |s.received.Keys| == |s.received| && |(s.received - {i}).Keys| == |s.received - {i}|;
  }

  lemma ConsumePlacement(p: Params, s: State)
    requires ValidParams(p) && Inv(p, s) && Enabled(p, s, Consume) && Running(Apply(p, s, Consume))
    ensures Placement(p, Apply(p, s, Consume))
  {
    hide Chunk, Needed, Short, Taken, Queue, ShortTaken, Located, Busy, Streamed;
    var s', i := Apply(p, s, Consume), Current(s);
    ConsumeHeld(p, s);
    SameQueue(p, s, s');
    forall k | 1 <= k <= Taken(p, s') && Current(s') <= k ensures Located(s', k) { LocatedAfter(s, s', i, k); }
    ShortStays(p, s, s');
  }

  lemma ConsumeStreamed(p: Params, s: State)
    requires ValidParams(p) && Inv(p, s) && Enabled(p, s, Consume)
    ensures Streamed(p, Apply(p, s, Consume))
  {
    hide Chunk, Needed, Taken, Queue, Placement, Busy;
    QueueBounds(p, s);
    ReceivedChunk(p, s, Current(s));
  }

  lemma ReceivedChunk(p: Params, s: State, i: nat)
    requires ValidParams(p) && Inv(p, s) && Running(s) && i in s.received
    ensures s.received[i] == Chunk(p, i) && 1 <= i <= Taken(p, s)
  {}

  lemma LocatedAfter(s: State, s': State, i: nat, k: nat)
    requires Located(s, k) && s'.workers == s.workers && s'.received == s.received - {i} && k != i
    ensures Located(s', k)
  {
    if k !in s.received {
      var v :| 0 <= v < |s.workers| && InHand(s.workers[v], k);
      assert InHand(s'.workers[v], k);
    }
  }

  lemma NowhereToBeFound(s: State, i: nat)
    requires i !in s.received && forall w :: 0 <= w < |s.workers| ==> s.workers[w].Done?
    ensures !Located(s, i)
  {}

  /** When every worker is done, the consumer has had every chunk that was taken. */
  lemma AllTakenConsumed(p: Params, s: State)
    requires ValidParams(p) && Inv(p, s) && s.phase.Consuming? && Current(s) !in s.received
    requires forall w :: 0 <= w < |s.workers| ==> s.workers[w].Done?
    ensures Current(s) > Taken(p, s)
  {
    hide Located, Taken;
    if Current(s) <= Taken(p, s) {
      NowhereToBeFound(s, Current(s));
      assert false;
    }
  }

  /** No short chunk has been taken while the consumer is still waiting past it. */
  lemma NoShortBehind(p: Params, s: State)
    requires ValidParams(p) && Inv(p, s) && s.phase.Consuming? && Current(s) > Taken(p, s)
    ensures !ShortTaken(p, s)
  {}

  /** When every worker is done and none has failed, the chunk the consumer waits
      for does not exist: it has had them all. */
  lemma GiveUpComplete(p: Params, s: State)
    requires ValidParams(p) && Inv(p, s) && s.phase.Consuming? && s.launched && Current(s) !in s.received
    requires forall w :: 0 <= w < |s.workers| ==> s.workers[w].Done?
    ensures s.starved || Current(s) == Limit(p)
  {
    hide Needed, Chunk, ShortTaken, Located, Busy;
    AllTakenConsumed(p, s);
    NoShortBehind(p, s);
    if !s.starved && s.workers != [] {
      assert s.workers[0].Done?;
      assert s.work == [];
    }
  }

  lemma GiveUpInv(p: Params, s: State)
    requires ValidParams(p) && Inv(p, s) && Enabled(p, s, GiveUp)
    ensures Inv(p, Apply(p, s, GiveUp))
  {
    hide Needed, Chunk, ShortTaken, Located, Busy, Queue;
    if !(exists w :: 0 <= w < |s.workers| && s.workers[w].Failed?) {
      forall w | 0 <= w < |s.workers| ensures s.workers[w].Done? {
        assert Over(s.workers[w]) && !s.workers[w].Failed? && !s.workers[w].Cancelled?;
      }
      GiveUpComplete(p, s);
    }
  }

  /** Steps that leave the transfer's queue, workers and chunks alone. */
  lemma SameTransfer(p: Params, s: State, s': State)
    requires ValidParams(p) && Inv(p, s) && (Running(s') ==> Running(s)) && Streamed(p, s')
    requires s'.work == s.work && s'.workers == s.workers && s'.received == s.received
    requires s'.launched == s.launched && s'.starved == s.starved
    requires Current(s) <= Current(s') <= (if Current(s) == 0 then 1 else Current(s))
    requires s'.free + s'.held + s'.others == p.slots && (s'.phase.Finished? ==> s'.held == 0)
    requires Running(s') ==> s'.held == s.held
    ensures Inv(p, s')
  {
    hide Chunk, Needed, Taken, Queue, ShortTaken, Busy, Short;
    if Running(s') {
      SameQueue(p, s, s');
      QueueBounds(p, s);
      forall i | 1 <= i <= Taken(p, s') && Current(s') <= i ensures Located(s', i) { assert Located(s, i); }
      ShortStays(p, s, s');
    }
  }

  lemma PhaseInv(p: Params, s: State, e: Event)
    requires ValidParams(p) && Inv(p, s) && Enabled(p, s, e)
    requires e.FirstArrives? || e.FirstFails? || e.Proceed? || e.LaunchFails? || e.Abandon? || e.DropDone?
          || e.OtherTakes? || e.OtherGives? || e.NextFails?
    ensures Inv(p, Apply(p, s, e))
  {
    hide Chunk, Needed, Taken, Queue, Placement, Busy, Short, ShortTaken, Located;
    if e.LaunchFails? { NothingHeld(p, s); }
    SameTransfer(p, s, Apply(p, s, e));
  }

  /** One more chunk of a file of unknown size. */
  lemma NextInv(p: Params, s: State)
    requires ValidParams(p) && Inv(p, s) && Enabled(p, s, NextArrives)
    ensures Inv(p, Apply(p, s, NextArrives))
  {
    hide Chunk, Needed, Busy, Streamed;
    NextStreamed(p, s);
    NothingHeld(p, s);
  }

  lemma NextStreamed(p: Params, s: State)
    requires ValidParams(p) && Inv(p, s) && Enabled(p, s, NextArrives)
    ensures Streamed(p, Apply(p, s, NextArrives))
    ensures Unknown(p)
  {
    hide Chunk, Needed, Busy, Located, ShortTaken, Taken, Queue, Placement;
  }

  /** Before the workers are launched the transfer holds no slot. */
  lemma NothingHeld(p: Params, s: State)
    requires ValidParams(p) && Inv(p, s) && Running(s) && !s.launched
    ensures s.held == 0
  {
    hide Needed, Chunk;
    BusyNone(s.workers);
    assert s.received.Keys == {};
  }

  lemma EventInv(p: Params, s: State, e: Event)
    requires ValidParams(p) && Inv(p, s) && Enabled(p, s, e)
    ensures Inv(p, Apply(p, s, e))
  {
    hide Chunk, Needed, Taken, Queue, Placement;
    match e
    case Launch(n) => LaunchInv(p, s, n);
    case Take(w) => if Running(s) { TakeInv(p, s, w); }
    case Deliver(w) => if Running(s) { DeliverInv(p, s, w); }
    case Fail(w) => if Running(s) { FailInv(p, s, w); }
    case NextArrives => NextInv(p, s);
    case Consume => ConsumeInv(p, s);
    case GiveUp => GiveUpInv(p, s);
    case Cancel(w) =>
    case _ => PhaseInv(p, s, e);
  }

  /** Every interleaving keeps the invariant. */
  lemma {:induction false} AlwaysInv(p: Params, s: State, events: seq<Event>)
    requires ValidParams(p) && Inv(p, s) && Possible(p, s, events)
    ensures Inv(p, After(p, s, events))
    decreases |events|
  {
    if events != [] {
      EventInv(p, s, events[0]);
      AlwaysInv(p, Apply(p, s, events[0]), events[1..]);
    }
  }

  // ------------------------------------------------------------ what it means

  function Concat(chunks: seq<seq<Byte>>): seq<Byte> {
    if chunks == [] then [] else Concat(chunks[..|chunks| - 1]) + chunks[|chunks| - 1]
  }

  /** The first n chunks of the file from start on. */
  function FirstChunks(p: Params, n: nat): seq<Byte> {
    var from := Least(p.start, |p.file|);
    var to := Least(p.start + n * p.chunkSize, |p.file|);
    if from <= to then p.file[from..to] else []
  }

  lemma Grows(a: nat, n: nat, size: nat)
    ensures a + n * size <= a + (n + 1) * size == a + n * size + size
  {}

  lemma {:induction false} ConcatChunks(p: Params, chunks: seq<seq<Byte>>)
    requires forall k :: 0 <= k < |chunks| ==> chunks[k] == Chunk(p, k)
    ensures Concat(chunks) == FirstChunks(p, |chunks|)
  {
    hide FirstChunks, Chunk;
    if chunks != [] {
      var n := |chunks| - 1;
      ConcatChunks(p, chunks[..n]);
      NextChunk(p, n);
    } else {
      NoChunks(p);
    }
  }

  lemma NoChunks(p: Params)
    ensures FirstChunks(p, 0) == []
  {}

  lemma NextChunk(p: Params, n: nat)
    ensures FirstChunks(p, n) + Chunk(p, n) == FirstChunks(p, n + 1)
  {
    Grows(p.start, n, p.chunkSize);
    assert n * p.chunkSize >= 0;
  }

  lemma TimesMonotone(a: nat, b: nat, size: nat)
    requires a <= b
    ensures a * size <= b * size
  {
    assert b * size == a * size + (b - a) * size;
    assert (b - a) * size >= 0;
  }

  /** Once a chunk is short, more chunks add nothing. */
  lemma PastShort(p: Params, k: nat, n: nat)
    requires p.chunkSize > 0 && Short(p, k) && k < n
    ensures FirstChunks(p, k + 1) == FirstChunks(p, n)
  {
    Grows(p.start, k, p.chunkSize);
    TimesMonotone(k + 1, n, p.chunkSize);
    assert p.start + (k + 1) * p.chunkSize >= |p.file|;
  }

  /** At every moment of every interleaving, with any other transfers on the same
      budget, what has been yielded is the file from start on, each chunk once and
      in order, and no slot has been lost or invented. */
  lemma AlwaysPrefix(p: Params, s: State, events: seq<Event>)
    requires ValidParams(p) && Initial(p, s) && Possible(p, s, events)
    ensures var now := After(p, s, events);
            && Concat(now.out) == FirstChunks(p, Current(now))
            && now.free + now.held + now.others == p.slots
            && (now.phase.Finished? ==> now.held == 0)
  {
    InitialInv(p, s);
    AlwaysInv(p, s, events);
    ConcatChunks(p, After(p, s, events).out);
  }

  /** The bytes get_file promises: from start to the limit, the claimed size in
      whole chunks if there is one, or the end of the file, whichever comes first. */
  function Promised(p: Params): seq<Byte>
    requires p.chunkSize > 0
  {
    FirstChunks(p, Limit(p))
  }

  /** What a launch is given is enough: there is nothing to queue, or there are
      sessions and workers. */
  predicate Fed(p: Params, sessions: nat)
    requires p.chunkSize > 0
  {
    Needed(p) == 0 || (sessions > 0 && p.workers > 0)
  }

  /** Every launch of the run is. */
  ghost predicate AllFed(p: Params, events: seq<Event>)
    requires p.chunkSize > 0
  {
    forall n: nat :: Launch(n) in events ==> Fed(p, n)
  }

  lemma {:induction false} StarvedMeansUnfed(p: Params, s: State, events: seq<Event>)
    requires p.chunkSize > 0 && Possible(p, s, events) && (s.starved ==> s.launched)
    ensures After(p, s, events).starved <==> s.starved || !AllFed(p, events)
    decreases |events|
  {
    hide Apply, Enabled, AllFed, Fed;
    if events == [] {
      NoneUnfed(p, events);
    } else {
      var e, rest := events[0], events[1..];
      assert events == [e] + rest;
      StarvedStep(p, s, e);
      StarvedMeansUnfed(p, Apply(p, s, e), rest);
      FedFirst(p, e, rest);
    }
  }

  lemma NoneUnfed(p: Params, events: seq<Event>)
    requires p.chunkSize > 0 && events == []
    ensures AllFed(p, events)
  {}

  lemma StarvedStep(p: Params, s: State, e: Event)
    requires p.chunkSize > 0 && Enabled(p, s, e) && (s.starved ==> s.launched)
    ensures var t := Apply(p, s, e);
            (t.starved <==> s.starved || (e.Launch? && !Fed(p, e.sessions))) && (t.starved ==> t.launched)
  {
    hide Chunk, Needed, Short;
  }

  lemma FedFirst(p: Params, e: Event, rest: seq<Event>)
    requires p.chunkSize > 0
    ensures AllFed(p, [e] + rest) <==> (e.Launch? ==> Fed(p, e.sessions)) && AllFed(p, rest)
  {
    hide Fed;
    if AllFed(p, [e] + rest) {
      forall n: nat | Launch(n) in rest ensures Fed(p, n) { assert Launch(n) in [e] + rest; }
      if e.Launch? { assert Launch(e.sessions) in [e] + rest; }
    }
  }

  /** A transfer that ends normally, of a known size or not, has yielded exactly what
      was promised, if and only if its launch was given sessions and workers or one
      chunk was all there was. */
  lemma CompleteMeansAll(p: Params, s: State, events: seq<Event>)
    requires ValidParams(p) && Initial(p, s) && Possible(p, s, events)
    requires After(p, s, events).phase == Finished(Complete)
    ensures Concat(After(p, s, events).out) == Promised(p)
       <==> AllFed(p, events) || Promised(p) == FirstChunks(p, 1)
  {
    hide FirstChunks, Needed, Chunk;
    InitialInv(p, s);
    AlwaysInv(p, s, events);
    StarvedMeansUnfed(p, s, events);
    var now := After(p, s, events);
    ConcatChunks(p, now.out);
    var n := Current(now);
    if !now.starved && n < Limit(p) {
      if Short(p, n - 1) {
        PastShort(p, n - 1, Limit(p));
      } else {
        NextChunk(p, n);
        PastShort(p, n, Limit(p));
      }
    }
  }

  /** With the size right or unknown, that is the file up to the limit. */
  lemma PromisedIsFile(p: Params)
    requires ValidParams(p) && (p.fileSize == |p.file| || Unknown(p))
    ensures Promised(p) == FirstChunks(p, p.total)
  {
    var n := Limit(p);
    TimesMonotone(n, p.total, p.chunkSize);
    if n < p.total {
      var rest := p.fileSize - p.start - p.chunkSize;
      CeilCovers(rest, p.chunkSize);
      assert p.start + (n as int) * p.chunkSize >= |p.file| by {
        assert n >= CeilDiv(rest, p.chunkSize) + 1;
        CeilTimes(CeilDiv(rest, p.chunkSize), n - 1, p.chunkSize);
        Grows(p.start, n - 1, p.chunkSize);
      }
    }
  }

  /** No sessions, or no workers configured for a pool of any size: the transfer ends
      normally after one chunk of two. */
  lemma StarvedTruncates(p: Params, sessions: nat)
    requires p.file == [1, 2] && p.chunkSize == 1 && p.start == 0 && p.total == 5 && p.fileSize == 2
    requires sessions == 0 || p.workers <= 0
    ensures ValidParams(p) && Promised(p) == [1, 2]
    ensures var s := State(First, false, false, [], [], map[], 0, p.slots, 0, []);
            var events := [FirstArrives, Proceed, Launch(sessions), GiveUp];
            && Initial(p, s) && Possible(p, s, events)
            && After(p, s, events).phase == Finished(Complete) && Concat(After(p, s, events).out) == [1]
  {
    var s := State(First, false, false, [], [], map[], 0, p.slots, 0, []);
    assert CeilDiv(1, 1) == 1 && Needed(p) == 1;
    assert Chunk(p, 0) == [1];
    var s1 := Apply(p, s, FirstArrives);
    var s2 := Apply(p, s1, Proceed);
    var s3 := Apply(p, s2, Launch(sessions));
    assert s3.workers == [] && Enabled(p, s3, GiveUp);
    var s4 := Apply(p, s3, GiveUp);
    assert s4.out == [[1]];
    FourSteps(p, s, FirstArrives, Proceed, Launch(sessions), GiveUp);
    assert [[1]][..0] == [] && Concat([[1]]) == Concat([]) + [1];
  }

  lemma FourSteps(p: Params, s: State, a: Event, b: Event, c: Event, d: Event)
    requires p.chunkSize > 0 && Enabled(p, s, a)
    requires Enabled(p, Apply(p, s, a), b)
    requires Enabled(p, Apply(p, Apply(p, s, a), b), c)
    requires Enabled(p, Apply(p, Apply(p, Apply(p, s, a), b), c), d)
    ensures Possible(p, s, [a, b, c, d])
    ensures After(p, s, [a, b, c, d]) == Apply(p, Apply(p, Apply(p, Apply(p, s, a), b), c), d)
  {
    hide Apply, Enabled;
    var s1 := Apply(p, s, a);
    var s2 := Apply(p, s1, b);
    var s3 := Apply(p, s2, c);
    var s4 := Apply(p, s3, d);
    assert Possible(p, s4, []) && After(p, s4, []) == s4;
    OneMore(p, s3, d, []);
    OneMore(p, s2, c, [d]);
    OneMore(p, s1, b, [c, d]);
    OneMore(p, s, a, [b, c, d]);
    assert [d] + [] == [d] && [c] + [d] == [c, d] && [b] + [c, d] == [b, c, d] && [a] + [b, c, d] == [a, b, c, d];
  }

  lemma OneMore(p: Params, s: State, e: Event, events: seq<Event>)
    requires p.chunkSize > 0 && Enabled(p, s, e) && Possible(p, Apply(p, s, e), events)
    ensures Possible(p, s, [e] + events) && After(p, s, [e] + events) == After(p, Apply(p, s, e), events)
  {
    hide Apply, Enabled;
    assert ([e] + events)[1..] == events;
  }

  // ---------------------------------------------------------- how a transfer ends

  /** How the transfer ends, once that is settled. */
  function Ending(s: State): Option<Outcome> {
    match s.phase
    case Dropping(o) => Some(o)
    case Finished(o) => Some(o)
    case _ => None
  }

  /** A failure of the first chunk, of the launch or of a chunk fetched in turn. */
  predicate Fatal(e: Event) { e.FirstFails? || e.LaunchFails? || e.NextFails? }

  /** Something fatal happened, or the consumer gave up after a worker had failed. */
  ghost predicate Fails(events: seq<Event>) {
    (exists i :: 0 <= i < |events| && Fatal(events[i])) || FailsLater(events)
  }

  ghost predicate FailsLater(events: seq<Event>) {
    exists i, j :: 0 <= i < j < |events| && events[i].Fail? && events[j].GiveUp?
  }

  ghost predicate GivesUp(events: seq<Event>) { exists j :: 0 <= j < |events| && events[j].GiveUp? }

  predicate HasFailed(s: State) { exists w :: 0 <= w < |s.workers| && s.workers[w].Failed? }

  lemma FailsFirst(e: Event, rest: seq<Event>)
    ensures Fails([e] + rest) <==> Fatal(e) || Fails(rest) || (e.Fail? && GivesUp(rest))
    ensures GivesUp([e] + rest) <==> e.GiveUp? || GivesUp(rest)
  {
    var all := [e] + rest;
    assert all[0] == e && all[1..] == rest;
    if exists i :: 0 <= i < |rest| && Fatal(rest[i]) {
      var i :| 0 <= i < |rest| && Fatal(rest[i]);
      assert Fatal(all[i + 1]);
    }
    if FailsLater(rest) {
      var i, j :| 0 <= i < j < |rest| && rest[i].Fail? && rest[j].GiveUp?;
      assert all[i + 1].Fail? && all[j + 1].GiveUp?;
    }
    if GivesUp(rest) {
      var j :| 0 <= j < |rest| && rest[j].GiveUp?;
      assert all[j + 1].GiveUp?;
    }
    if FailsLater(all) {
      var i, j :| 0 <= i < j < |all| && all[i].Fail? && all[j].GiveUp?;
      assert rest[j - 1].GiveUp?;
      if i > 0 { assert rest[i - 1].Fail? && rest[j - 1].GiveUp?; }
    }
    if exists i :: 0 <= i < |all| && Fatal(all[i]) {
      var i :| 0 <= i < |all| && Fatal(all[i]);
      if i > 0 { assert Fatal(rest[i - 1]); }
    }
  }

  /** Which step settles how a transfer ends, and as what; a failed worker stays one
      until then. */
  lemma EndingStep(p: Params, s: State, e: Event)
    requires p.chunkSize > 0 && Enabled(p, s, e)
    ensures var t := Apply(p, s, e);
            && (Ending(s).Some? ==> Ending(t) == Ending(s) && !Fatal(e) && !e.Abandon? && !e.GiveUp?)
            && (Ending(s).None? ==>
                  && (Ending(t) == Some(Error) <==> Fatal(e) || (e.GiveUp? && HasFailed(s)))
                  && (Ending(t) == Some(Abandoned) <==> e.Abandon?)
                  && (e.GiveUp? ==> Ending(t).Some?))
  {
    hide Chunk, Needed, Short;
  }

  lemma FailedStep(p: Params, s: State, e: Event)
    requires p.chunkSize > 0 && Enabled(p, s, e) && Ending(Apply(p, s, e)).None? && (!s.launched ==> s.workers == [])
    ensures HasFailed(Apply(p, s, e)) <==> HasFailed(s) || e.Fail?
    ensures !Apply(p, s, e).launched ==> Apply(p, s, e).workers == []
  {
    hide Chunk, Needed, Short;
    var t := Apply(p, s, e);
    if HasFailed(s) {
      var w :| 0 <= w < |s.workers| && s.workers[w].Failed?;
      assert t.workers[w].Failed?;
    }
    if e.Fail? { assert t.workers[e.w].Failed?; }
    if HasFailed(t) && !e.Fail? {
      var w :| 0 <= w < |t.workers| && t.workers[w].Failed?;
      if !e.Launch? { assert s.workers[w].Failed?; }
    }
  }

  lemma {:induction false} EndingSettled(p: Params, s: State, events: seq<Event>)
    requires p.chunkSize > 0 && Possible(p, s, events) && Ending(s).Some?
    ensures Ending(After(p, s, events)) == Ending(s)
    ensures !GivesUp(events) && !Fails(events) && Abandon !in events
    decreases |events|
  {
    hide Apply, Enabled, Ending, Fails, GivesUp;
    if events == [] {
      NothingFails(events);
    } else {
      var e, rest := events[0], events[1..];
      assert events == [e] + rest;
      EndingStep(p, s, e);
      EndingSettled(p, Apply(p, s, e), rest);
      FailsFirst(e, rest);
    }
  }

  lemma NothingFails(events: seq<Event>)
    requires events == []
    ensures !Fails(events) && !GivesUp(events)
  {}

  lemma {:induction false} EndingTells(p: Params, s: State, events: seq<Event>)
    requires p.chunkSize > 0 && Possible(p, s, events) && Ending(s).None? && (!s.launched ==> s.workers == [])
    ensures Ending(After(p, s, events)) == Some(Error) <==> Fails(events) || (HasFailed(s) && GivesUp(events))
    ensures Ending(After(p, s, events)) == Some(Abandoned) <==> Abandon in events
    decreases |events|
  {
    hide Apply, Enabled, Ending, Fails, GivesUp, HasFailed;
    if events == [] {
      NothingFails(events);
    } else {
      var e, rest := events[0], events[1..];
      assert events == [e] + rest;
      EndingStep(p, s, e);
      FailsFirst(e, rest);
      var t := Apply(p, s, e);
      if Ending(t).Some? {
        EndingSettled(p, t, rest);
      } else {
        FailedStep(p, s, e);
        EndingTells(p, t, rest);
      }
    }
  }

  /** How a transfer ends, told by its events alone: with an error exactly if the first
      chunk, the launch or a chunk fetched in turn failed or the consumer gave up after
      a worker had failed; abandoned exactly if it was; and otherwise normally. */
  lemma EndsAs(p: Params, s: State, events: seq<Event>)
    requires ValidParams(p) && Initial(p, s) && Possible(p, s, events)
    ensures Ending(After(p, s, events)) == Some(Error) <==> Fails(events)
    ensures Ending(After(p, s, events)) == Some(Abandoned) <==> Abandon in events
    ensures After(p, s, events).phase.Finished? ==>
      (After(p, s, events).phase == Finished(Complete) <==> !Fails(events) && Abandon !in events)
  {
    hide Fails, After;
    NoneFailed(s);
    EndingTells(p, s, events);
    var now := After(p, s, events);
    if now.phase.Finished? {
      match now.phase.outcome {
        case Complete =>
        case Error =>
        case Abandoned =>
      }
    }
  }

  lemma NoneFailed(s: State)
    requires s.workers == []
    ensures !HasFailed(s)
  {}

  /** What the consumer does with a chunk: it hands it out, and then ends normally
      exactly if the chunk was short or the last of the limit. In turn, a chunk of
      nothing ends the transfer without being handed out. */
  lemma HandsOut(p: Params, s: State, e: Event)
    requires ValidParams(p) && Inv(p, s) && Enabled(p, s, e) && (e.Consume? || e.NextArrives?)
    ensures var t, c := Apply(p, s, e), Chunk(p, |s.out|);
            && t.out == (if e.NextArrives? && c == [] then s.out else s.out + [c])
            && (t.phase == Finished(Complete) <==> |c| < p.chunkSize || |s.out| + 1 >= p.total)
            && (t.phase == Finished(Complete) || t.phase == s.phase)
            && (e.Consume? ==> |s.out| !in t.received)
  {
    hide Chunk, Needed, Queue, Streamed;
    if e.Consume? { ReceivedChunk(p, s, Current(s)); }
  }

  /** A transfer that has not ended can always go on by a step of its own that is no
      failure, unless it waits for slots that other transfers hold. */
  lemma NeverStuck(p: Params, s: State, events: seq<Event>)
    requires ValidParams(p) && Initial(p, s) && Possible(p, s, events) && p.slots > 0
    requires var now := After(p, s, events); !now.phase.Finished? && now.others == 0
    ensures exists e ::
      Enabled(p, After(p, s, events), e) && !Fatal(e) && !e.Fail? && !e.Abandon? && !e.OtherTakes? && !e.OtherGives?
  {
    hide Chunk, Short, Possible;
    InitialInv(p, s);
    AlwaysInv(p, s, events);
    CanGoOn(p, After(p, s, events));
  }

  lemma CanGoOn(p: Params, s: State)
    requires ValidParams(p) && Inv(p, s) && !s.phase.Finished? && s.others == 0 && p.slots > 0
    ensures exists e :: Enabled(p, s, e) && !Fatal(e) && !e.Fail? && !e.Abandon? && !e.OtherTakes? && !e.OtherGives?
  {
    hide Chunk, Needed, Short, Located, ShortTaken;
    match s.phase {
      case First => assert Enabled(p, s, FirstArrives);
      case Yielded => assert Enabled(p, s, Proceed);
      case Sequential => assert Enabled(p, s, NextArrives);
      case Dropping(_) =>
        if forall w :: 0 <= w < |s.workers| ==> Over(s.workers[w]) {
          assert Enabled(p, s, DropDone);
        } else {
          var w :| 0 <= w < |s.workers| && !Over(s.workers[w]);
          assert Enabled(p, s, Cancel(w));
        }
      case Consuming => ConsumingGoesOn(p, s);
    }
  }

  lemma ConsumingGoesOn(p: Params, s: State)
    requires ValidParams(p) && Inv(p, s) && s.phase.Consuming? && s.others == 0 && p.slots > 0
    ensures exists e :: Enabled(p, s, e) && !Fatal(e) && !e.Fail? && !e.Abandon? && !e.OtherTakes? && !e.OtherGives?
  {
    hide Chunk, Needed, Short, Located, ShortTaken, Queue, Placement;
    if !s.launched {
      assert Enabled(p, s, Launch(0));
    } else if Current(s) in s.received {
      assert Enabled(p, s, Consume);
    } else if (exists w :: 0 <= w < |s.workers| && s.workers[w].Failed?)
           || (forall w :: 0 <= w < |s.workers| ==> Over(s.workers[w])) {
      assert Enabled(p, s, GiveUp);
    } else if exists w :: 0 <= w < |s.workers| && s.workers[w].Fetching? {
      var w :| 0 <= w < |s.workers| && s.workers[w].Fetching?;
      assert Enabled(p, s, Deliver(w));
    } else {
      var w :| 0 <= w < |s.workers| && !Over(s.workers[w]);
      FreeSlot(p, s);
      assert Enabled(p, s, Take(w));
    }
  }

  /** With no chunk in flight and the next one not received, no slot is held. */
  lemma FreeSlot(p: Params, s: State)
    requires ValidParams(p) && Inv(p, s) && s.phase.Consuming? && s.others == 0 && p.slots > 0 && Current(s) !in s.received
    requires forall w :: 0 <= w < |s.workers| ==> !s.workers[w].Fetching? && !s.workers[w].Failed?
    ensures s.free > 0
  {
    hide Chunk, Needed, Short, ShortTaken;
    BusyNone(s.workers);
    if s.received != map[] {
      var i :| i in s.received;
      NotLocated(s, Current(s));
      assert false;
    }
  }

  lemma NotLocated(s: State, i: nat)
    requires i !in s.received && forall w :: 0 <= w < |s.workers| ==> !s.workers[w].Fetching? && !s.workers[w].Failed?
    ensures !Located(s, i)
  {}

  lemma CeilCovers(a: int, b: nat)
    requires b > 0
    ensures CeilDiv(a, b) * b >= a
  {
    var q, r := (a + b - 1) / b, (a + b - 1) % b;
    assert a + b - 1 == b * q + r;
  }

  lemma CeilTimes(a: int, b: int, size: nat)
    requires a <= b
    ensures a * size <= b * size
  {
    assert b * size == a * size + (b - a) * size;
    assert (b - a) * size >= 0;
  }

  /** While nothing has failed, a transfer that holds a slot has the next chunk it
      needs in flight or received, so it never waits for a slot held elsewhere. */
  lemma HolderProgresses(p: Params, s: State, events: seq<Event>)
    requires ValidParams(p) && Initial(p, s) && Possible(p, s, events)
    requires var now := After(p, s, events); now.phase.Consuming? && now.held > 0
    requires var now := After(p, s, events); forall w :: 0 <= w < |now.workers| ==> !now.workers[w].Failed?
    ensures var now := After(p, s, events);
            Enabled(p, now, Consume) || exists w :: 0 <= w < |now.workers| && now.workers[w] == Fetching(Current(now))
  {
    hide Chunk, Needed, Taken;
    InitialInv(p, s);
    AlwaysInv(p, s, events);
    var now := After(p, s, events);
    BusyNone(now.workers);
    if Busy(now.workers) == 0 {
      assert now.received != map[];
      var i :| i in now.received;
    }
    assert Current(now) <= Taken(p, now);
    assert Located(now, Current(now));
    if Current(now) !in now.received {
      var w :| 0 <= w < |now.workers| && InHand(now.workers[w], Current(now));
      assert now.workers[w] == Fetching(Current(now));
    }
    if !now.launched { NothingHeld(p, now); }
  }
}
