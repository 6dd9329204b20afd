/** pyrogram/methods/rate_limiter.py over exact reals: token buckets, the adaptive
    bucket, and the limiter that debits a category and the global bucket together.
    The monotonic clock's readings are arguments. */
module RateLimiter {

  datatype Option<+T> = None | Some(value: T)

  /** A bucket's fields. */
  datatype State = State(rate: real, burst: real, tokens: real, last: real, taken: real)

  predicate Sound(s: State) { s.rate >= 0.0 && 0.0 <= s.tokens <= s.burst }

  function Min(a: real, b: real): real { if a <= b then a else b }

  function Max(a: real, b: real): real { if a >= b then a else b }

  function Refill(s: State, t: real): State {
    s.(tokens := Min(s.burst, s.tokens + (t - s.last) * s.rate), last := t)
  }

  function Take(s: State, n: real, t: real): (bool, State) {
    var r := Refill(s, t);
    if r.tokens >= n then (true, r.(tokens := r.tokens - n, taken := r.taken + n)) else (false, r)
  }

  function SetRate(s: State, rate: real, t: real): State { Refill(s, t).(rate := rate) }

  lemma Products(x: real, y: real, r: real)
    ensures (x + y) * r == x * r + y * r
    ensures x >= 0.0 && r >= 0.0 ==> x * r >= 0.0
  {}

  lemma RefillSound(s: State, t: real)
    requires Sound(s) && s.last <= t
    ensures Sound(Refill(s, t)) && Refill(s, t).tokens >= s.tokens
  {
    var gain := (t - s.last) * s.rate;
    Products(t - s.last, 0.0, s.rate);
    assert gain >= 0.0;
  }

  /** A refill in between changes nothing a later one shows. */
  lemma RefillTwice(s: State, a: real, b: real)
    requires Sound(s) && s.last <= a <= b
    ensures Sound(Refill(s, a)) && Sound(Refill(s, b))
    ensures Refill(Refill(s, a), b) == Refill(s, b)
  {
    RefillSound(s, a);
    RefillSound(s, b);
    var first, second, both := (a - s.last) * s.rate, (b - a) * s.rate, (b - s.last) * s.rate;
    Products(a - s.last, b - a, s.rate);
    Products(b - a, 0.0, s.rate);
    assert both == first + second && second >= 0.0;
  }

  // ------------------------------------------------------------- any run at all

  datatype Op = Read | Debit(n: real) | Retune(rate: real)

  datatype Event = Event(op: Op, at: real)

  function Step(s: State, e: Event): State {
    match e.op
    case Read => Refill(s, e.at)
    case Debit(n) => Take(s, n, e.at).1
    case Retune(rate) => SetRate(s, rate, e.at)
  }

  function Run(s: State, es: seq<Event>): State
    decreases |es|
  {
    if es == [] then s else Run(Step(s, es[0]), es[1..])
  }

  /** Times never run backwards; amounts and rates are not negative. */
  predicate Proper(from: real, es: seq<Event>)
    decreases |es|
  {
    es == [] ||
    (from <= es[0].at && Sensible(es[0].op) && Proper(es[0].at, es[1..]))
  }

  predicate Sensible(op: Op) {
    match op
    case Read => true
    case Debit(n) => n >= 0.0
    case Retune(rate) => rate >= 0.0
  }

  function End(from: real, es: seq<Event>): real { if es == [] then from else es[|es| - 1].at }

  /** The integral of the rate over the run's time. */
  function Area(rate: real, from: real, es: seq<Event>): real
    decreases |es|
  {
    if es == [] then 0.0
    else
      (es[0].at - from) * rate
      + Area(if es[0].op.Retune? then es[0].op.rate else rate, es[0].at, es[1..])
  }

  predicate RatesUpTo(rate: real, es: seq<Event>) {
    forall k :: 0 <= k < |es| && es[k].op.Retune? ==> es[k].op.rate <= rate
  }

  lemma TakeSound(s: State, n: real, t: real)
    requires Sound(s) && s.last <= t && n >= 0.0
    ensures var r := Take(s, n, t).1;
            Sound(r) && r.last == t && r.rate == s.rate && r.burst == s.burst
  {
    hide Refill;
    RefillSound(s, t);
    RefillGains(s, t);
  }

  lemma StepSound(s: State, e: Event)
    requires Sound(s) && s.last <= e.at && Sensible(e.op)
    ensures Sound(Step(s, e)) && Step(s, e).last == e.at && Step(s, e).burst == s.burst
    ensures Step(s, e).rate == if e.op.Retune? then e.op.rate else s.rate
    ensures Step(s, e).taken + Step(s, e).tokens <= s.taken + s.tokens + (e.at - s.last) * s.rate
    ensures s.taken <= Step(s, e).taken
  {
    hide Refill;
    RefillSound(s, e.at);
    RefillGains(s, e.at);
  }

  lemma RefillGains(s: State, t: real)
    ensures Refill(s, t).tokens <= s.tokens + (t - s.last) * s.rate
    ensures Refill(s, t).last == t && Refill(s, t).rate == s.rate
    ensures Refill(s, t).burst == s.burst && Refill(s, t).taken == s.taken
  {}

  /** Over any run the tokens stay within the burst, and what was taken is at most
      what was there plus the integral of the rate. */
  lemma {:induction false} RunBounded(s: State, es: seq<Event>)
    requires Sound(s) && Proper(s.last, es)
    ensures Sound(Run(s, es)) && Run(s, es).burst == s.burst && s.taken <= Run(s, es).taken
    ensures Run(s, es).taken - s.taken + Run(s, es).tokens <= s.tokens + Area(s.rate, s.last, es)
    decreases |es|
  {
    hide Step, Sensible;
    if es != [] {
      StepSound(s, es[0]);
      RunBounded(Step(s, es[0]), es[1..]);
    }
  }

  lemma {:induction false} AreaUnder(rate: real, from: real, es: seq<Event>, ceiling: real)
    requires Proper(from, es) && 0.0 <= rate <= ceiling && RatesUpTo(ceiling, es)
    ensures Area(rate, from, es) <= (End(from, es) - from) * ceiling
    ensures from <= End(from, es)
    decreases |es|
  {
    if es == [] {
      Products(0.0, 0.0, ceiling);
    } else {
      var next := if es[0].op.Retune? then es[0].op.rate else rate;
      AreaUnder(next, es[0].at, es[1..], ceiling);
      var end := End(from, es);
      assert End(es[0].at, es[1..]) == end;
      Products(ceiling - rate, rate, es[0].at - from);
      Products(es[0].at - from, end - es[0].at, ceiling);
      assert (es[0].at - from) * rate <= (es[0].at - from) * ceiling;
    }
  }

  /** A refill before the first event changes nothing the run shows. */
  lemma RunFrom(s: State, a: real, es: seq<Event>)
    requires Sound(s) && s.last <= a && es != [] && Proper(a, es)
    ensures Run(s, es) == Run(Refill(s, a), es)
  {
    RefillTwice(s, a, es[0].at);
  }

  /** In any interval from a, wherever it lies between the refills, a bucket whose
      rate never exceeds the ceiling gives at most its burst and the ceiling times
      the time. */
  lemma IntervalBound(s: State, a: real, es: seq<Event>, ceiling: real)
    requires Sound(s) && s.last <= a && Proper(a, es) && s.rate <= ceiling && RatesUpTo(ceiling, es)
    ensures Run(s, es).taken - s.taken <= s.burst + Area(s.rate, a, es)
    ensures Run(s, es).taken - s.taken <= s.burst + (End(a, es) - a) * ceiling
  {
    RefillTwice(s, a, a);
    AreaUnder(s.rate, a, es, ceiling);
    if es != [] {
      RunFrom(s, a, es);
      RunBounded(Refill(s, a), es);
    }
  }

  // ------------------------------------------------------------- waiting a turn

  /** What acquire sleeps for. */
  function WaitTime(s: State, n: real): real { if s.tokens >= n then 0.0 else (n - s.tokens) / Max(s.rate, 0.0001) }

  /** For an amount the burst can hold and a rate worth the name, the wait is exact:
      the tokens are there from its end on and not a moment before. */
  lemma WaitExact(s: State, n: real, t: real)
    requires Sound(s) && n <= s.burst && s.rate >= 0.0001 && s.last <= t
    ensures Refill(s, t).tokens >= n <==> t >= s.last + WaitTime(s, n)
  {
    Products(t - s.last, 0.0, s.rate);
    if s.tokens < n { Earned(n - s.tokens, t - s.last, s.rate); }
  }

  /** A missing amount is earned exactly from its share of the rate on. */
  lemma Earned(missing: real, elapsed: real, rate: real)
    requires rate > 0.0
    ensures elapsed * rate >= missing <==> elapsed >= missing / rate
  {
    var w := missing / rate;
    assert w * rate == missing;
    assert (elapsed - w) * rate == elapsed * rate - missing;
    SignOf(elapsed - w, rate);
  }

  lemma SignOf(x: real, rate: real)
    requires rate > 0.0
    ensures x * rate >= 0.0 <==> x >= 0.0
  {
    if x < 0.0 { assert -x * rate > 0.0; }
  }

  // ---------------------------------------------------------------- the classes

  class TokenBucket {
    var rate: real
    var burst: real
    var tokens: real
    var last: real
    var taken: real

    ghost function Fields(): State
      reads this
    {
      State(rate, burst, tokens, last, taken)
    }

    constructor (rate: real, burst: Option<real>, now: real)
      ensures Fields() == Full(rate, burst, now)
    {
      this.rate := rate;
      this.burst := if burst.Some? then burst.value else rate;
      this.tokens := if burst.Some? then burst.value else rate;
      this.last := now;
      this.taken := 0.0;
    }

    method RefillNow(now: real)
      modifies this
      ensures Fields() == Refill(old(Fields()), now)
    {
      var elapsed := now - last;
      tokens := Min(burst, tokens + elapsed * rate);
      last := now;
    }

    method RetuneTo(value: real, now: real)
      modifies this
      ensures Fields() == SetRate(old(Fields()), value, now)
    {
      RefillNow(now);
      rate := value;
    }

    method Available(now: real) returns (r: real)
      modifies this
      ensures Fields() == Refill(old(Fields()), now) && r == tokens
    {
      RefillNow(now);
      r := tokens;
    }

    method TryConsume(n: real, now: real) returns (ok: bool)
      modifies this
      ensures (ok, Fields()) == Take(old(Fields()), n, now)
    {
      RefillNow(now);
      if tokens >= n {
        tokens := tokens - n;
        taken := taken + n;
        return true;
      }
      return false;
    }

    /** acquire, on the clock's readings in order: it takes at the first reading at
        which the amount is there. */
    method Acquire(n: real, clock: seq<real>) returns (done: bool, ghost turn: nat)
      requires Sound(Fields()) && clock != [] && last <= clock[0]
      requires forall i, j :: 0 <= i < j < |clock| ==> clock[i] <= clock[j]
      modifies this
      ensures done ==> turn < |clock| && (true, Fields()) == Take(old(Fields()), n, clock[turn])
      ensures !done ==> turn == |clock| && Fields() == Refill(old(Fields()), clock[|clock| - 1])
      ensures forall i :: 0 <= i < turn ==> Refill(old(Fields()), clock[i]).tokens < n
    {
      hide Refill;
      turn := 0;
      done := false;
      ghost var start := Fields();
      var i := 0;
      while i < |clock|
        invariant 0 <= i == turn <= |clock|
        invariant if i == 0 then Fields() == start else Fields() == Refill(start, clock[i - 1])
        invariant forall j :: 0 <= j < i ==> Refill(start, clock[j]).tokens < n
      {
        if i > 0 { RefillTwice(start, clock[i - 1], clock[i]); }
        RefillNow(clock[i]);
        if tokens >= n {
          tokens := tokens - n;
          taken := taken + n;
          return true, i;
        }
        i := i + 1;
        turn := turn + 1;
      }
    }
  }

  function Full(rate: real, burst: Option<real>, now: real): State {
    var b := if burst.Some? then burst.value else rate;
    State(rate, b, b, now, 0.0)
  }

  /** If the sleep lasts as long as it was asked to, the second reading serves. */
  lemma SecondReadingServes(s: State, n: real, clock: seq<real>)
    requires Sound(s) && n <= s.burst && s.rate >= 0.0001 && |clock| >= 2 && s.last <= clock[0]
    requires clock[1] >= clock[0] + WaitTime(Refill(s, clock[0]), n)
    ensures Refill(s, clock[1]).tokens >= n
  {
    var r := Refill(s, clock[0]);
    RefillTwice(s, clock[0], clock[0]);
    assert WaitTime(r, n) >= 0.0 by {
      if r.tokens < n { assert (n - r.tokens) / r.rate >= 0.0; }
    }
    RefillTwice(s, clock[0], clock[1]);
    WaitExact(r, n, clock[1]);
  }

  // ---------------------------------------------------------- the adaptive bucket

  datatype Adaptive = Adaptive(
    bucket: State, ceiling: real, floor: real, step: real, backoff: real, lastUp: real, lastDown: real)

  /** A sensibly set up bucket at a moment no earlier than its own times; its rate
      may lie below its floor. */
  predicate Tuned(a: Adaptive, from: real) {
    && Sound(a.bucket) && 0.0 <= a.floor <= a.ceiling && 0.0 <= a.bucket.rate <= a.ceiling
    && a.step >= 0.0 && 0.0 <= a.backoff <= 1.0
    && a.lastUp <= from && a.bucket.last <= from
  }

  /** Calls at a time; the rate setter reads the clock once more. */
  datatype Call = Look(at: real) | Use(n: real, at: real) | Success(now: real, at: real) | Flood(now: real, at: real)

  predicate Rises(a: Adaptive, c: Call) {
    c.Success? && c.now - a.lastUp >= 1.0 && c.now - a.lastDown >= 2.0
  }

  predicate Falls(a: Adaptive, c: Call) { c.Flood? && c.now - a.lastDown >= 1.0 }

  function OnSuccess(a: Adaptive, now: real, at: real): Adaptive {
    if now - a.lastUp >= 1.0 && now - a.lastDown >= 2.0 then
      a.(lastUp := now, bucket := SetRate(a.bucket, Min(a.bucket.rate + a.step, a.ceiling), at))
    else a
  }

  function OnFlood(a: Adaptive, now: real, at: real): Adaptive {
    if now - a.lastDown >= 1.0 then
      a.(lastDown := now, lastUp := now, bucket := SetRate(a.bucket, Max(a.bucket.rate * a.backoff, a.floor), at))
    else a
  }

  function Perform(a: Adaptive, c: Call): Adaptive {
    match c
    case Look(at) => a.(bucket := Refill(a.bucket, at))
    case Use(n, at) => a.(bucket := Take(a.bucket, n, at).1)
    case Success(now, at) => OnSuccess(a, now, at)
    case Flood(now, at) => OnFlood(a, now, at)
  }

  function PerformAll(a: Adaptive, cs: seq<Call>): Adaptive
    decreases |cs|
  {
    if cs == [] then a else PerformAll(Perform(a, cs[0]), cs[1..])
  }

  /** Clock readings never run backwards; amounts are not negative. */
  predicate InOrder(from: real, cs: seq<Call>)
    decreases |cs|
  {
    cs == [] ||
    (&& from <= cs[0].at && (cs[0].Success? || cs[0].Flood? ==> from <= cs[0].now <= cs[0].at)
     && (cs[0].Use? ==> cs[0].n >= 0.0) && InOrder(cs[0].at, cs[1..]))
  }

  /** What one call does to the bucket. */
  function Effect(a: Adaptive, c: Call): seq<Event> {
    match c
    case Look(at) => [Event(Read, at)]
    case Use(n, at) => [Event(Debit(n), at)]
    case _ =>
      if Rises(a, c) || Falls(a, c) then [Event(Retune(Perform(a, c).bucket.rate), c.at)] else []
  }

  function Effects(a: Adaptive, cs: seq<Call>): seq<Event>
    decreases |cs|
  {
    if cs == [] then [] else Effect(a, cs[0]) + Effects(Perform(a, cs[0]), cs[1..])
  }

  function Latest(from: real, cs: seq<Call>): real { if cs == [] then from else cs[|cs| - 1].at }

  lemma BackedOff(rate: real, backoff: real, floor: real)
    requires 0.0 <= floor && 0.0 <= rate && 0.0 <= backoff <= 1.0
    ensures floor <= Max(rate * backoff, floor) <= Max(rate, floor)
  {
    Products(1.0 - backoff, backoff, rate);
    assert rate * backoff == backoff * rate;
  }

  function Lowest(a: Adaptive): real { Min(a.bucket.rate, a.floor) }

  function Highest(a: Adaptive): real { Max(a.bucket.rate, a.floor) }

  /** One call keeps the rate under the ceiling and above the lower of its floor and
      what it was, and a rise costs a second. */
  lemma PerformTuned(a: Adaptive, from: real, c: Call)
    requires Tuned(a, from) && InOrder(from, [c])
    ensures var b := Perform(a, c);
            && Tuned(b, c.at) && b.bucket == Run(a.bucket, Effect(a, c)) && b.bucket.burst == a.bucket.burst
            && (b.ceiling, b.floor, b.step, b.backoff) == (a.ceiling, a.floor, a.step, a.backoff)
            && (Effect(a, c) == [] ==> b.bucket == a.bucket)
            && (Effect(a, c) != [] ==> b.bucket.last == c.at)
            && Lowest(a) <= Lowest(b)
            && (Rises(a, c) ==> b.lastUp - a.lastUp >= 1.0 && Highest(b) - Highest(a) <= a.step)
            && (!Rises(a, c) ==> b.lastUp >= a.lastUp && Highest(b) <= Highest(a))
  {
    hide Refill, Take, Run, Effect;
    PerformRuns(a, c);
    RefillSound(a.bucket, c.at);
    RefillGains(a.bucket, c.at);
    if Rises(a, c) {
      assert a.bucket.rate <= Min(a.bucket.rate + a.step, a.ceiling) <= a.ceiling;
    } else if Falls(a, c) {
      BackedOff(a.bucket.rate, a.backoff, a.floor);
    } else if c.Use? {
      TakeSound(a.bucket, c.n, c.at);
    }
  }

  /** One call is at most one bucket event. */
  lemma PerformRuns(a: Adaptive, c: Call)
    ensures Perform(a, c).bucket == Run(a.bucket, Effect(a, c))
    ensures Effect(a, c) == [] ==> Perform(a, c).bucket == a.bucket
    ensures Effect(a, c) != [] ==> Perform(a, c).bucket.last == c.at
  {
    hide Min, Max;
    if Effect(a, c) != [] { assert Effect(a, c)[1..] == []; }
  }

  /** A flood a second or more after the last one slows down to the backed-off rate, or
      to the floor if that is higher; any other leaves the bucket as it is. */
  lemma FloodSlows(a: Adaptive, now: real, at: real)
    requires 0.0 <= a.floor && 0.0 <= a.bucket.rate && 0.0 <= a.backoff <= 1.0
    ensures var b := Perform(a, Flood(now, at));
            && (now - a.lastDown < 1.0 ==> b == a)
            && (now - a.lastDown >= 1.0 ==>
                  && b.lastDown == b.lastUp == now && b.bucket.rate >= a.floor && b.bucket.rate >= a.bucket.rate * a.backoff
                  && (b.bucket.rate == a.floor || b.bucket.rate == a.bucket.rate * a.backoff)
                  && (a.bucket.rate > a.floor && a.backoff < 1.0 ==> b.bucket.rate < a.bucket.rate))
  {
    hide Refill;
    RefillGains(a.bucket, at);
    var x := 1.0 - a.backoff;
    if a.bucket.rate > a.floor && a.backoff < 1.0 {
      SignOf(-x, a.bucket.rate);
      Products(x, a.backoff, a.bucket.rate);
    }
  }

  /** A success a second or more after the last change and two or more after the last
      flood speeds up by a step, or to the ceiling if that is nearer; any other leaves
      the bucket as it is. */
  lemma SuccessSpeeds(a: Adaptive, now: real, at: real)
    requires a.bucket.rate <= a.ceiling && a.step >= 0.0
    ensures var b := Perform(a, Success(now, at));
            && (now - a.lastUp < 1.0 || now - a.lastDown < 2.0 ==> b == a)
            && (now - a.lastUp >= 1.0 && now - a.lastDown >= 2.0 ==>
                  && b.lastUp == now && b.lastDown == a.lastDown
                  && a.bucket.rate <= b.bucket.rate <= a.ceiling && b.bucket.rate <= a.bucket.rate + a.step
                  && (b.bucket.rate == a.ceiling || b.bucket.rate == a.bucket.rate + a.step))
  {
    hide Refill;
    RefillGains(a.bucket, at);
  }

  lemma {:induction false} RunAppend(s: State, ds: seq<Event>, es: seq<Event>)
    ensures Run(s, ds + es) == Run(Run(s, ds), es)
    decreases |ds|
  {
    hide Step;
    if ds == [] {
      assert ds + es == es;
    } else {
      assert (ds + es)[1..] == ds[1..] + es;
      RunAppend(Step(s, ds[0]), ds[1..], es);
    }
  }

  lemma StepPays(a: Adaptive, b: Adaptive, d: Adaptive)
    requires a.step >= 0.0 && b.step == a.step && b.lastUp >= a.lastUp
    requires Highest(b) <= Highest(a) || (b.lastUp - a.lastUp >= 1.0 && Highest(b) - Highest(a) <= a.step)
    requires Highest(d) - Highest(b) <= a.step * (d.lastUp - b.lastUp)
    ensures Highest(d) - Highest(a) <= a.step * (d.lastUp - a.lastUp)
  {
    hide Highest;
    var x := b.lastUp - a.lastUp;
    assert a.step * (d.lastUp - a.lastUp) == a.step * (d.lastUp - b.lastUp) + a.step * x;
    assert a.step * x >= 0.0;
    if x >= 1.0 { assert a.step * x - a.step == a.step * (x - 1.0); }
  }

  /** A run of calls is a run of bucket events whose rates respect the ceiling, and
      the rate climbs no faster than one step a second from the higher of its floor
      and its start. */
  lemma {:induction false} CallsAreEvents(a: Adaptive, from: real, cs: seq<Call>)
    requires Tuned(a, from) && InOrder(from, cs)
    ensures var b, es := PerformAll(a, cs), Effects(a, cs);
            && Tuned(b, Latest(from, cs)) && b.bucket == Run(a.bucket, es)
            && (b.ceiling, b.step) == (a.ceiling, a.step) && b.bucket.burst == a.bucket.burst
            && Proper(from, es) && RatesUpTo(a.ceiling, es) && End(from, es) <= Latest(from, cs)
            && b.lastUp >= a.lastUp && Highest(b) - Highest(a) <= a.step * (b.lastUp - a.lastUp)
            && Lowest(a) <= Lowest(b)
    decreases |cs|
  {
    hide Perform, Tuned, Rises, Step, Sensible, Run, RatesUpTo, Effect, Lowest, Highest;
    if cs != [] {
      var c, b := cs[0], Perform(a, cs[0]);
      PerformTuned(a, from, c);
      TunedSteps(a, from);
      CallsAreEvents(b, c.at, cs[1..]);
      var rest := Effects(b, cs[1..]);
      RunAppend(a.bucket, Effect(a, c), rest);
      EffectFirst(a, from, c, rest);
      StepPays(a, b, PerformAll(b, cs[1..]));
      assert Latest(from, cs) == Latest(c.at, cs[1..]);
    } else {
      TunedSteps(a, from);
      NoEvents(a);
    }
  }

  lemma NoEvents(a: Adaptive)
    ensures Run(a.bucket, []) == a.bucket && RatesUpTo(a.ceiling, [])
  {}

  lemma TunedSteps(a: Adaptive, from: real)
    requires Tuned(a, from)
    ensures a.step >= 0.0
  {}

  /** One call's events put before later ones. */
  lemma EffectFirst(a: Adaptive, from: real, c: Call, rest: seq<Event>)
    requires Tuned(a, from) && InOrder(from, [c])
    requires Proper(c.at, rest) && RatesUpTo(a.ceiling, rest)
    ensures Proper(from, Effect(a, c) + rest) && RatesUpTo(a.ceiling, Effect(a, c) + rest)
    ensures End(from, Effect(a, c) + rest) <= End(c.at, rest)
  {
    PerformTuned(a, from, c);
    hide Perform;
    var first := Effect(a, c);
    if first == [] {
      assert first + rest == rest;
    } else {
      assert (first + rest)[1..] == rest;
    }
  }

  /** Whatever comes, successes and floods included, an adaptive bucket gives in any
      interval at most its burst and the ceiling times the interval's length, and
      its rate stays above the lower of its floor and its start, and rises above the
      higher of the two by at most a step for every second since it last changed. */
  lemma AdaptiveBound(a: Adaptive, from: real, cs: seq<Call>)
    requires Tuned(a, from) && InOrder(from, cs)
    ensures var b, end := PerformAll(a, cs), Latest(from, cs);
            && b.bucket.taken - a.bucket.taken <= a.bucket.burst + (end - from) * a.ceiling
            && 0.0 <= b.bucket.tokens <= a.bucket.burst
            && Min(a.floor, a.bucket.rate) <= b.bucket.rate <= a.ceiling
            && b.bucket.rate - Max(a.floor, a.bucket.rate) <= a.step * (end - a.lastUp)
  {
    hide PerformAll, Effects, Run, Area, InOrder, RatesUpTo, Proper, End, Latest;
    CallsAreEvents(a, from, cs);
    var b, es, end := PerformAll(a, cs), Effects(a, cs), Latest(from, cs);
    IntervalBound(a.bucket, from, es, a.ceiling);
    StillBounded(b.bucket.taken - a.bucket.taken, a.bucket.burst, a.ceiling, End(from, es) - from, end - from);
    StillBounded(Highest(b) - Highest(a), 0.0, a.step, b.lastUp - a.lastUp, end - a.lastUp);
    FloorKept(a, cs);
  }

  /** A bound that grows with time holds later too. */
  lemma StillBounded(x: real, base: real, rate: real, time: real, later: real)
    requires x <= base + rate * time && time <= later && rate >= 0.0
    ensures x <= base + rate * later && x <= base + later * rate
  {
    Products(later - time, time, rate);
  }

  lemma {:induction false} FloorKept(a: Adaptive, cs: seq<Call>)
    ensures PerformAll(a, cs).floor == a.floor
    decreases |cs|
  {
    hide Refill;
    if cs != [] { FloorKept(Perform(a, cs[0]), cs[1..]); }
  }

  // ---------------------------------------------------------------- the limiter

  datatype Limits = Limits(buckets: map<string, State>, glob: State, closed: bool)

  /** acquire_nowait, with the readings the category's bucket and the global one take. */
  function Nowait(l: Limits, category: string, n: real, t1: real, t2: real): (bool, Limits) {
    if l.closed then (true, l)
    else if category in l.buckets then
      var saved := l.buckets[category];
      var (ok, b) := Take(saved, n, t1);
      if !ok then (false, l.(buckets := l.buckets[category := b]))
      else
        var (granted, g) := Take(l.glob, n, t2);
        if granted then (true, l.(buckets := l.buckets[category := b], glob := g))
        else
          var restored := b.(last := saved.last, tokens := saved.tokens, taken := b.taken - n);
          (false, l.(buckets := l.buckets[category := restored], glob := g))
    else
      var (granted, g) := Take(l.glob, n, t2);
      (granted, l.(glob := g))
  }

  /** No later moment tells the two apart. */
  ghost predicate Alike(s: State, r: State, from: real) {
    forall u {:trigger Refill(s, u)} :: u >= from ==> Refill(s, u) == Refill(r, u)
  }

  ghost predicate AllSound(l: Limits, t: real) {
    && Sound(l.glob) && l.glob.last <= t
    && forall c :: c in l.buckets ==> Sound(l.buckets[c]) && l.buckets[c].last <= t
  }

  lemma AlikeAfterRead(s: State, t: real, from: real)
    requires Sound(s) && s.last <= t <= from
    ensures Alike(s, Refill(s, t), from)
  {
    forall u {:trigger Refill(s, u)} | u >= from ensures Refill(s, u) == Refill(Refill(s, t), u) {
      RefillTwice(s, t, u);
    }
  }

  /** Two alike buckets run the same from then on. */
  lemma AlikeRuns(s: State, r: State, from: real, es: seq<Event>)
    requires Alike(s, r, from) && es != [] && Proper(from, es)
    ensures Run(s, es) == Run(r, es)
  {
    assert Refill(s, es[0].at) == Refill(r, es[0].at);
  }

  /** A refused call leaves no trace: not in any category, not in the global bucket,
      not in what was taken in total, whatever is asked of them afterwards. */
  lemma RefusedLeavesNoTrace(l: Limits, category: string, n: real, t1: real, t2: real)
    requires AllSound(l, t1) && t1 <= t2 && !Nowait(l, category, n, t1, t2).0
    ensures var m := Nowait(l, category, n, t1, t2).1;
            && m.buckets.Keys == l.buckets.Keys && m.closed == l.closed && Alike(l.glob, m.glob, t2)
            && forall c :: c in l.buckets ==> Alike(l.buckets[c], m.buckets[c], t2)
  {
    var m := Nowait(l, category, n, t1, t2).1;
    AlikeAfterRead(l.glob, t2, t2);
    forall c | c in l.buckets ensures Alike(l.buckets[c], m.buckets[c], t2) {
      AlikeAfterRead(l.buckets[c], t1, t2);
    }
  }

  /** A call is granted exactly when both buckets have the amount, and then both
      give it and no other bucket is touched. */
  lemma GrantedByBoth(l: Limits, category: string, n: real, t1: real, t2: real)
    requires !l.closed
    ensures var (ok, m) := Nowait(l, category, n, t1, t2);
            && (ok <==> Refill(l.glob, t2).tokens >= n
                        && (category in l.buckets ==> Refill(l.buckets[category], t1).tokens >= n))
            && (ok ==> m.glob.taken == l.glob.taken + n
                       && (category in l.buckets ==> m.buckets[category].taken == l.buckets[category].taken + n))
            && forall c :: c in l.buckets && c != category ==> m.buckets[c] == l.buckets[c]
  {
    hide Min;
  }

  /** What acquire_nowait leaves: once closed it grants everything and debits nothing.
      Before, a refusal of the category leaves the category refilled and the global
      bucket alone, a refusal of the global bucket leaves the category as it was, and a
      grant takes the amount from both; no other bucket changes. */
  lemma LeavesExactly(l: Limits, category: string, n: real, t1: real, t2: real)
    ensures var (ok, m) := Nowait(l, category, n, t1, t2);
            if l.closed then ok && m == l
            else
              var g := Refill(l.glob, t2);
              && m.closed == l.closed
              && (category !in l.buckets ==>
                    m.buckets == l.buckets && m.glob == if ok then g.(tokens := g.tokens - n, taken := g.taken + n) else g)
              && (category in l.buckets ==>
                    var b := Refill(l.buckets[category], t1);
                    && m.buckets.Keys == l.buckets.Keys
                    && (forall c :: c in l.buckets && c != category ==> m.buckets[c] == l.buckets[c])
                    && (if ok then
                          && m.buckets[category] == b.(tokens := b.tokens - n, taken := b.taken + n)
                          && m.glob == g.(tokens := g.tokens - n, taken := g.taken + n)
                        else if b.tokens < n then m.buckets[category] == b && m.glob == l.glob
                        else m.buckets[category] == l.buckets[category] && m.glob == g))
  {
    hide Min;
  }

  /** update_limits on one bucket: a fresh one that keeps the old tokens up to the
      new burst, and the old total. */
  function Replaced(former: Option<State>, rate: real, burst: real, now: real): State {
    var full := Full(rate, Some(burst), now);
    if former.Some? then full.(tokens := Min(former.value.tokens, burst), taken := former.value.taken) else full
  }

  /** New limits hand out nothing: the replacement has no more than the old bucket
      had at that moment, and the total stands. */
  lemma ReplacedGivesNothing(s: State, rate: real, burst: real, now: real)
    requires Sound(s) && s.last <= now && rate >= 0.0 && burst >= 0.0
    ensures var r := Replaced(Some(s), rate, burst, now);
            && Sound(r) && r.taken == s.taken && r.tokens <= Refill(s, now).tokens
            && Refill(r, now).tokens == r.tokens <= burst
  {
    RefillSound(s, now);
  }

  function Former(l: Limits, category: string): Option<State> {
    if category == "global" then Some(l.glob) else if category in l.buckets then Some(l.buckets[category]) else None
  }

  /** New limits put a bucket with the new rate and burst in the category's place,
      with the tokens of the former one as far as the burst goes and its total, or full
      if there was none; no other bucket changes. */
  lemma UpdatesExactly(l: Limits, category: string, rate: real, burst: real, now: real)
    ensures var m := Updated(l, category, rate, burst, now);
            && Former(m, category).Some?
            && var b, was := Former(m, category).value, Former(l, category);
               && b.rate == rate && b.burst == burst && b.last == now
               && b.taken == (if was.Some? then was.value.taken else 0.0)
               && b.tokens == (if was.Some? && was.value.tokens < burst then was.value.tokens else burst)
               && m.closed == l.closed
               && forall other :: other != category ==> Former(m, other) == Former(l, other)
  {}

  function Find(l: Limits, category: string): Option<State> {
    if category in l.buckets then Some(l.buckets[category]) else None
  }

  function Updated(l: Limits, category: string, rate: real, burst: real, now: real): Limits {
    if category == "global" then l.(glob := Replaced(Some(l.glob), rate, burst, now))
    else l.(buckets := l.buckets[category := Replaced(Find(l, category), rate, burst, now)])
  }

  /** A category with its resolved rate and burst. */
  datatype Config = Config(category: string, rate: real, burst: real)

  /** A full bucket for every configured category but the global one, a later entry
      overriding an earlier. */
  function Initial(cs: seq<Config>, now: real): map<string, State> {
    if cs == [] then map[]
    else WithConfig(Initial(cs[..|cs| - 1], now), cs[|cs| - 1], now)
  }

  function WithConfig(buckets: map<string, State>, c: Config, now: real): map<string, State> {
    if c.category == "global" then buckets else buckets[c.category := Full(c.rate, Some(c.burst), now)]
  }

  /** Every category but the global one has a full bucket with the rate and burst last
      configured for it. */
  lemma {:induction false} ConfiguredExactly(cs: seq<Config>, now: real, category: string)
    ensures category in Initial(cs, now) <==>
      category != "global" && exists k :: 0 <= k < |cs| && cs[k].category == category
    ensures forall k :: 0 <= k < |cs| && cs[k].category == category && category != "global"
                        && (forall j :: k < j < |cs| ==> cs[j].category != category) ==>
              Initial(cs, now)[category] == State(cs[k].rate, cs[k].burst, cs[k].burst, now, 0.0)
  {
    if cs != [] {
      var n := |cs| - 1;
      ConfiguredExactly(cs[..n], now, category);
      assert cs[n].category == category || (forall k :: 0 <= k < |cs| && cs[k].category == category ==> k < n && cs[..n][k] == cs[k]);
      if exists k :: 0 <= k < n && cs[..n][k].category == category {
        var k :| 0 <= k < n && cs[..n][k].category == category;
        assert cs[k].category == category;
      }
    }
  }

  class RateLimiter {
    var buckets: map<string, TokenBucket>
    var glob: TokenBucket
    var closed: bool

    /** No two names share a bucket. */
    ghost predicate Valid()
      reads this
    {
      && (forall c :: c in buckets ==> buckets[c] != glob)
      && (forall c, d :: c in buckets && d in buckets && c != d ==> buckets[c] != buckets[d])
    }

    ghost function Snapshot(): Limits
      reads this, glob, buckets.Values
    {
      Limits(map c | c in buckets :: buckets[c].Fields(), glob.Fields(), closed)
    }

    constructor (configs: seq<Config>, rate: real, burst: real, now: real)
      ensures Valid() && fresh(glob) && fresh(buckets.Values)
      ensures Snapshot() == Limits(Initial(configs, now), Full(rate, Some(burst), now), false)
    {
      glob := new TokenBucket(rate, Some(burst), now);
      buckets := map[];
      closed := false;
      new;
      assert configs[..0] == [];
      for k := 0 to |configs|
        invariant Valid() && fresh(this) && fresh(glob) && fresh(buckets.Values)
        invariant Snapshot() == Limits(Initial(configs[..k], now), Full(rate, Some(burst), now), false)
      {
        assert configs[..k + 1][..k] == configs[..k];
        Configure(configs[k], now);
      }
      assert configs[..|configs|] == configs;
    }

    /** One category's bucket. */
    method Configure(c: Config, now: real)
      requires Valid()
      modifies `buckets
      ensures Valid() && fresh(buckets.Values - old(buckets.Values))
      ensures Snapshot() == old(Snapshot()).(buckets := WithConfig(old(Snapshot()).buckets, c, now))
    {
      if c.category != "global" {
        var bucket := new TokenBucket(c.rate, Some(c.burst), now);
        buckets := buckets[c.category := bucket];
        assert buckets.Values <= old(buckets.Values) + {bucket};
        assert Snapshot().buckets == old(Snapshot()).buckets[c.category := bucket.Fields()];
      }
    }

    method AcquireNowait(category: string, n: real, t1: real, t2: real) returns (ok: bool)
      requires Valid()
      modifies glob, buckets.Values
      ensures Valid() && (ok, Snapshot()) == Nowait(old(Snapshot()), category, n, t1, t2)
    {
      hide Refill, Take;
      if closed {
        assert Snapshot() == old(Snapshot());
        return true;
      }
      if category in buckets {
        var bucket := buckets[category];
        assert bucket in buckets.Values;
        var last, tokens := bucket.last, bucket.tokens;
        ok := bucket.TryConsume(n, t1);
        if ok {
          ok := glob.TryConsume(n, t2);
          if !ok {
            bucket.last, bucket.tokens := last, tokens;
            bucket.taken := bucket.taken - n;
          }
        }
        assert Snapshot().buckets == old(Snapshot()).buckets[category := bucket.Fields()];
      } else {
        ok := glob.TryConsume(n, t2);
        assert Snapshot().buckets == old(Snapshot()).buckets;
      }
    }

    method UpdateLimits(category: string, rate: real, burst: real, now: real)
      requires Valid()
      modifies this
      ensures Valid() && Snapshot() == Updated(old(Snapshot()), category, rate, burst, now)
    {
      hide Replaced;
      if category == "global" {
        glob := Renewed(glob, rate, burst, now);
        assert Snapshot().buckets == old(Snapshot()).buckets;
      } else {
        var bucket := Renewed(if category in buckets then buckets[category] else null, rate, burst, now);
        buckets := buckets[category := bucket];
        assert Snapshot().buckets == old(Snapshot()).buckets[category := bucket.Fields()];
      }
    }

    /** The bucket that takes a former one's place. */
    static method Renewed(former: TokenBucket?, rate: real, burst: real, now: real) returns (bucket: TokenBucket)
      ensures fresh(bucket)
      ensures bucket.Fields() == Replaced(if former == null then None else Some(former.Fields()), rate, burst, now)
    {
      hide Min;
      bucket := new TokenBucket(rate, Some(burst), now);
      if former != null {
        bucket.tokens := Min(former.tokens, burst);
        bucket.taken := former.taken;
      }
    }
  }
}
