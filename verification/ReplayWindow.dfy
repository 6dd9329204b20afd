/** pyrogram/session/session.py, handle_packet: the bounded window of received
    msg_ids that refuses replays, and the clock check beside it. Between resets the
    window is a bounded stand-in for the set of everything accepted so far. */
module ReplayWindow {

  const MAX_SIZE: nat := 2000
  const MAX_SKEW_AHEAD: int := 30
  const MAX_SKEW_BEHIND: int := 300
  const MAX_SKEW_BREACHES: nat := 3

  /** A message as the check sees it; rejected is a bad notification of code 16 or 17. */
  datatype Msg = Msg(id: int, notification: bool, rejected: bool)

  datatype Verdict = Accepted | Replayed | Skewed

  /** The window, its floor, the breaches in a row, and what MsgId.now() adds to the
      monotonic clock. */
  datatype Window = Window(stored: seq<int>, floor: int, breaches: nat, base: real)

  /** The server's seconds in an id, a shift that floors. */
  function Seconds(id: int): real { (id / 0x1_0000_0000) as real }

  function Now(w: Window, mono: real): real { mono + w.base }

  /** MsgId.sync: the wall clock read there cancels out of MsgId.now(). */
  function Synced(w: Window, id: int, mono: real): Window { w.(base := Seconds(id) - mono) }

  function Trimmed(w: Window): Window {
    if |w.stored| > MAX_SIZE then
      var cut := MAX_SIZE / 2;
      w.(floor := w.stored[cut - 1], stored := w.stored[cut..])
    else w
  }

  function Inserted(s: seq<int>, x: int): (r: seq<int>)
    ensures |r| == |s| + 1
  {
    if s == [] || s[0] > x then [x] + s else [s[0]] + Inserted(s[1..], x)
  }

  predicate OutOfStep(w: Window, id: int, mono: real) {
    var diff := Seconds(id) - Now(w, mono);
    diff > MAX_SKEW_AHEAD as real || diff < -(MAX_SKEW_BEHIND as real)
  }

  predicate IsReplay(w: Window, id: int) { w.stored != [] && (id <= w.floor || id in w.stored) }

  /** What the lock is held for, for one message. */
  function Handle(w: Window, m: Msg, mono: real): (Verdict, Window) {
    var v := Trimmed(if m.rejected || w.stored == [] then Synced(w, m.id, mono) else w);
    if IsReplay(v, m.id) then (Replayed, v)
    else if v.stored != [] && !m.notification && OutOfStep(v, m.id, mono) then
      if v.breaches + 1 >= MAX_SKEW_BREACHES then (Skewed, Synced(v, m.id, mono).(breaches := 0))
      else (Skewed, v.(breaches := v.breaches + 1))
    else (Accepted, v.(breaches := 0, stored := Inserted(v.stored, m.id)))
  }

  // ------------------------------------------------------------------ the class

  ghost predicate Sorted(s: seq<int>) { forall i, j :: 0 <= i < j < |s| ==> s[i] < s[j] }

  class Session {
    var stored: seq<int>
    var floor: int
    var breaches: nat
    var base: real

    ghost function Fields(): Window
      reads this
    {
      Window(stored, floor, breaches, base)
    }

    constructor (base: real)
      ensures Fields() == Window([], 0, 0, base)
    {
      this.base := base;
      stored, floor, breaches := [], 0, 0;
    }

    /** stop, and a restart: everything seen is forgotten. */
    method Reset()
      modifies this
      ensures Fields() == old(Fields()).(stored := [], floor := 0, breaches := 0)
    {
      stored, floor, breaches := [], 0, 0;
    }

    method Trim()
      requires Sorted(stored)
      modifies `stored, `floor
      ensures Fields() == Trimmed(old(Fields())) && Sorted(stored)
    {
      if |stored| > MAX_SIZE {
        var cut := MAX_SIZE / 2;
        floor := stored[cut - 1];
        stored := stored[cut..];
      }
    }

    method CheckReplay(id: int) returns (replayed: bool)
      requires Sorted(stored)
      ensures replayed <==> IsReplay(Fields(), id)
    {
      replayed := false;
      if stored != [] {
        if id <= floor {
          replayed := true;
        } else {
          var index := Bisect(stored, id, true);
          if index < |stored| && stored[index] == id { replayed := true; }
        }
      }
    }

    method Store(id: int)
      requires Sorted(stored)
      modifies `stored
      ensures stored == Inserted(old(stored), id)
    {
      var at := Bisect(stored, id, false);
      InsertedAt(stored, id, at);
      stored := stored[..at] + [id] + stored[at..];
    }

    /** handle_packet's locked section for one message. */
    method Receive(m: Msg, mono: real) returns (v: Verdict)
      requires Sorted(stored)
      modifies this
      ensures (v, Fields()) == Handle(old(Fields()), m, mono)
    {
      hide Inserted, Sorted, Trimmed, IsReplay, Seconds;
      if m.rejected || stored == [] { base := Seconds(m.id) - mono; }
      Trim();
      var replayed := CheckReplay(m.id);
      if replayed { return Replayed; }
      if stored != [] && !m.notification {
        var diff := Seconds(m.id) - (mono + base);
        if diff > MAX_SKEW_AHEAD as real || diff < -(MAX_SKEW_BEHIND as real) {
          breaches := breaches + 1;
          if breaches >= MAX_SKEW_BREACHES {
            breaches := 0;
            base := Seconds(m.id) - mono;
          }
          return Skewed;
        }
      }
      breaches := 0;
      Store(m.id);
      return Accepted;
    }
  }

  /** bisect_left or bisect_right. */
  method Bisect(s: seq<int>, x: int, left: bool) returns (at: nat)
    requires Sorted(s)
    ensures at <= |s|
    ensures forall k :: 0 <= k < at ==> s[k] < x || (!left && s[k] == x)
    ensures forall k :: at <= k < |s| ==> s[k] > x || (left && s[k] == x)
  {
    var lo: nat, hi: nat := 0, |s|;
    while lo < hi
      invariant lo <= hi <= |s|
      invariant forall k :: 0 <= k < lo ==> s[k] < x || (!left && s[k] == x)
      invariant forall k :: hi <= k < |s| ==> s[k] > x || (left && s[k] == x)
    {
      var mid := (lo + hi) / 2;
      if s[mid] < x || (!left && s[mid] == x) {
        lo := mid + 1;
      } else {
        hi := mid;
      }
    }
    at := lo;
  }

  lemma {:induction false} InsertedAt(s: seq<int>, x: int, at: nat)
    requires at <= |s|
    requires forall k :: 0 <= k < at ==> s[k] <= x
    requires forall k :: at <= k < |s| ==> s[k] > x
    ensures Inserted(s, x) == s[..at] + [x] + s[at..]
  {
    if at > 0 {
      InsertedAt(s[1..], x, at - 1);
      assert s[..at] == [s[0]] + s[1..][..at - 1];
      assert s[1..][at - 1..] == s[at..];
    } else {
      assert s[..0] + [x] + s[0..] == [x] + s;
    }
  }

  // ----------------------------------------------------- against the unbounded set

  /** The window stands for a set of accepted ids: it holds every one above its
      floor, in order and once, and a floor only exists over at least 1001 of them. */
  ghost predicate StandsFor(w: Window, seen: set<int>) {
    && Sorted(w.stored) && |w.stored| <= MAX_SIZE + 1 && w.breaches < MAX_SKEW_BREACHES
    && (forall x :: x in w.stored ==> x in seen)
    && (forall x :: x in seen ==> x in w.stored || (x <= w.floor && w.stored != []))
    && (forall k :: 0 < k < |w.stored| ==> w.stored[k] > w.floor)
    && (w.floor != 0 ==> w.floor > 0 && |w.stored| > MAX_SIZE / 2 && w.stored[0] > w.floor)
  }

  lemma {:induction false} InsertedElements(s: seq<int>, x: int)
    requires Sorted(s) && x !in s
    ensures Sorted(Inserted(s, x))
    ensures forall y :: y in Inserted(s, x) <==> y in s || y == x
    ensures s != [] ==> Inserted(s, x)[0] == if s[0] < x then s[0] else x
  {
    if s != [] && s[0] <= x {
      InsertedElements(s[1..], x);
      var r := Inserted(s[1..], x);
      forall y ensures y in Inserted(s, x) <==> y in s || y == x {
        assert y in s <==> y == s[0] || y in s[1..];
        assert y in Inserted(s, x) <==> y == s[0] || y in r;
      }
      forall j | 0 <= j < |r| ensures s[0] < r[j] {
        assert r[j] in r;
      }
    }
  }

  lemma TrimmedStands(w: Window, seen: set<int>)
    requires StandsFor(w, seen)
    ensures StandsFor(Trimmed(w), seen) && |Trimmed(w).stored| <= MAX_SIZE
    ensures Trimmed(w).floor >= w.floor && (Trimmed(w).stored == [] <==> w.stored == [])
  {
    if |w.stored| > MAX_SIZE {
      var cut := MAX_SIZE / 2;
      var v := Trimmed(w);
      assert forall k :: 0 <= k < |v.stored| ==> v.stored[k] == w.stored[cut + k];
      forall x | x in seen ensures x in v.stored || x <= v.floor {
        if x in w.stored {
          var k :| 0 <= k < |w.stored| && w.stored[k] == x;
          if k >= cut { assert v.stored[k - cut] == x; }
        }
      }
    }
  }

  /** The floor one message is judged by. */
  function FloorFor(w: Window): int { Trimmed(w).floor }

  /** One message: the verdict is the unbounded set's, except at and below the floor
      (once anything is stored), and the window goes on standing for the set. */
  lemma HandleRefines(w: Window, m: Msg, mono: real, seen: set<int>)
    requires StandsFor(w, seen)
    ensures var (v, u) := Handle(w, m, mono);
            && StandsFor(u, if v == Accepted then seen + {m.id} else seen)
            && u.floor >= w.floor && u.floor == FloorFor(w)
            && (v == Replayed <==> w.stored != [] && (m.id in seen || m.id <= FloorFor(w)))
            && (v == Accepted ==> m.id !in seen)
            && (m.id !in seen && m.id > FloorFor(w) && v != Accepted ==> v == Skewed && !m.notification)
  {
    hide Trimmed, Inserted, OutOfStep, Sorted;
    var s := if m.rejected || w.stored == [] then Synced(w, m.id, mono) else w;
    TrimmedStands(s, seen);
    SyncedTrims(w, m.id, mono);
    var t := Trimmed(s);
    if t.stored == [] {
      Nothing(t, seen);
    }
    if Handle(w, m, mono).0 == Accepted {
      AcceptStands(t, m.id, seen);
    }
  }

  lemma SyncedTrims(w: Window, id: int, mono: real)
    ensures Trimmed(Synced(w, id, mono)).floor == Trimmed(w).floor
    ensures Trimmed(w).stored == [] <==> w.stored == []
  {}

  lemma Nothing(w: Window, seen: set<int>)
    requires StandsFor(w, seen) && w.stored == []
    ensures forall x :: x !in seen
  {}

  lemma AcceptStands(w: Window, id: int, seen: set<int>)
    requires StandsFor(w, seen) && |w.stored| <= MAX_SIZE && id !in w.stored && (w.stored == [] || id > w.floor)
    ensures StandsFor(w.(breaches := 0, stored := Inserted(w.stored, id)), seen + {id})
  {
    InsertedElements(w.stored, id);
    var s := Inserted(w.stored, id);
    forall k | 0 < k < |s| ensures s[k] > w.floor {
      assert s[k] in s;
      if s[k] in w.stored && w.stored != [] {
        var j :| 0 <= j < |w.stored| && w.stored[j] == s[k];
        if j == 0 { assert s[0] < s[k]; }
      }
    }
  }

  // ------------------------------------------------------------------ whole runs

  datatype Packet = Packet(msg: Msg, mono: real)

  function After(w: Window, ps: seq<Packet>): Window
    decreases |ps|
  {
    if ps == [] then w else After(Handle(w, ps[0].msg, ps[0].mono).1, ps[1..])
  }

  /** The ids accepted, in order. */
  function Accepts(w: Window, ps: seq<Packet>): seq<int>
    decreases |ps|
  {
    if ps == [] then []
    else
      var (v, u) := Handle(w, ps[0].msg, ps[0].mono);
      (if v == Accepted then [ps[0].msg.id] else []) + Accepts(u, ps[1..])
  }

  ghost predicate Distinct(s: seq<int>) { forall i, j :: 0 <= i < j < |s| ==> s[i] != s[j] }

  ghost predicate Apart(s: seq<int>, seen: set<int>) { forall i :: 0 <= i < |s| ==> s[i] !in seen }

  function ToSet(s: seq<int>): set<int> { set x | x in s }

  /** Over any run of messages with any clock: no id is accepted twice, the window
      stands for exactly what was accepted, and the floor never falls. */
  lemma {:induction false} RunRefines(w: Window, ps: seq<Packet>, seen: set<int>)
    requires StandsFor(w, seen)
    ensures StandsFor(After(w, ps), seen + ToSet(Accepts(w, ps)))
    ensures Distinct(Accepts(w, ps)) && Apart(Accepts(w, ps), seen)
    ensures After(w, ps).floor >= w.floor
    decreases |ps|
  {
    hide Handle, StandsFor, FloorFor;
    if ps == [] {
      assert seen + ToSet([]) == seen;
    } else {
      var (v, u) := Handle(w, ps[0].msg, ps[0].mono);
      HandleRefines(w, ps[0].msg, ps[0].mono, seen);
      var rest := Accepts(u, ps[1..]);
      if v == Accepted {
        var id := ps[0].msg.id;
        RunRefines(u, ps[1..], seen + {id});
        var all := [id] + rest;
        assert seen + {id} + ToSet(rest) == seen + ToSet(all);
        forall i, j | 0 <= i < j < |all| ensures all[i] != all[j] {
          if i == 0 { assert rest[j - 1] !in seen + {id}; }
        }
        forall i | 0 <= i < |all| ensures all[i] !in seen {
          if i > 0 { assert rest[i - 1] !in seen + {id}; }
        }
      } else {
        RunRefines(u, ps[1..], seen);
        assert [] + rest == rest;
      }
    }
  }

  /** From a reset session. */
  lemma NoReplayEver(base: real, ps: seq<Packet>)
    ensures var w := Window([], 0, 0, base);
            && Distinct(Accepts(w, ps))
            && StandsFor(After(w, ps), ToSet(Accepts(w, ps)))
  {
    var w := Window([], 0, 0, base);
    RunRefines(w, ps, {});
    assert {} + ToSet(Accepts(w, ps)) == ToSet(Accepts(w, ps));
  }

  /** Three messages in a row out of step, none of them a replay, move the clock to
      the last one's: a fresh id of the same second is then accepted. */
  lemma ThirdBreachSyncs(w: Window, m: Msg, mono: real, next: Msg)
    requires w.breaches == MAX_SKEW_BREACHES - 1 && Handle(w, m, mono).0 == Skewed
    requires Seconds(next.id) == Seconds(m.id)
    ensures Handle(w, m, mono).1.breaches == 0
    ensures Now(Handle(w, m, mono).1, mono) == Seconds(m.id)
    ensures Handle(Handle(w, m, mono).1, next, mono).0 != Skewed
  {
    hide Inserted;
  }

  // ------------------------------------------------------------- exact verdicts

  /** The seconds by which a message is ahead of the clock it is judged by: its own
      second if it is a rejection or the first, for either of these sets the clock. */
  function Ahead(w: Window, m: Msg, mono: real): real {
    if m.rejected || w.stored == [] then 0.0 else (m.id / 4294967296) as real - (mono + w.base)
  }

  /** Over 2000 ids are cut to those behind the first 1000, the last of which becomes
      the floor. */
  function KeptIds(w: Window): seq<int> { if |w.stored| <= 2000 then w.stored else w.stored[1000..] }

  function KeptFloor(w: Window): int { if |w.stored| <= 2000 then w.floor else w.stored[999] }

  /** A message is refused as a replay exactly if there is a window and its id is in
      it or not above its floor. Any other is accepted exactly if it is the first, a
      notification, a rejection, or from 300 seconds behind the clock to 30 ahead. */
  lemma VerdictExactly(w: Window, m: Msg, mono: real)
    ensures var v := Handle(w, m, mono).0;
            var replay := w.stored != [] && (m.id <= KeptFloor(w) || m.id in KeptIds(w));
            && (v == Replayed <==> replay)
            && (v == Accepted <==>
                  !replay && (w.stored == [] || m.notification || m.rejected || -300.0 <= Ahead(w, m, mono) <= 30.0))
  {
    hide Inserted;
  }

  /** What each verdict leaves behind: an accepted message adds its id and clears
      breaches, a third skewed message clears them and moves the clock to its own
      second, any other adds one; a replay changes neither. */
  lemma LeftBehind(w: Window, m: Msg, mono: real)
    ensures var (v, u) := Handle(w, m, mono);
            && u.floor == KeptFloor(w)
            && (if v == Accepted then |u.stored| == |KeptIds(w)| + 1 && m.id in u.stored && forall x :: x in KeptIds(w) ==> x in u.stored
                else u.stored == KeptIds(w))
            && u.breaches == (match v case Accepted => 0 case Replayed => w.breaches
                                      case Skewed => if w.breaches >= 2 then 0 else w.breaches + 1)
            && (m.rejected || w.stored == [] || (v == Skewed && w.breaches >= 2) ==>
                  mono + u.base == (m.id / 4294967296) as real)
            && (!m.rejected && w.stored != [] && !(v == Skewed && w.breaches >= 2) ==> u.base == w.base)
  {
    InsertedHas(KeptIds(w), m.id);
    hide Inserted;
  }

  lemma {:induction false} InsertedHas(s: seq<int>, x: int)
    ensures x in Inserted(s, x) && forall y :: y in s ==> y in Inserted(s, x)
  {
    if s != [] && s[0] <= x {
      InsertedHas(s[1..], x);
      var r := Inserted(s, x);
      assert r[0] == s[0] && r[1..] == Inserted(s[1..], x);
      forall y | y in s ensures y in r {
        if y != s[0] { assert y in s[1..]; assert y in r[1..]; }
      }
      assert x in r[1..];
    } else {
      assert Inserted(s, x)[1..] == s;
    }
  }

  function Verdicts(w: Window, ps: seq<Packet>): seq<Verdict>
    decreases |ps|
  {
    if ps == [] then []
    else
      var (v, u) := Handle(w, ps[0].msg, ps[0].mono);
      [v] + Verdicts(u, ps[1..])
  }

  /** The skewed messages since the last accepted one, on top of earlier breaches
      while none was accepted; replays do not count. */
  function Skews(vs: seq<Verdict>, earlier: nat): nat
    decreases |vs|
  {
    if vs == [] then earlier
    else Skews(vs[1..], match vs[0] case Accepted => 0 case Skewed => earlier + 1 case Replayed => earlier)
  }

  lemma {:induction false} SkewsModulo(vs: seq<Verdict>, a: nat, b: nat)
    requires a % 3 == b % 3
    ensures Skews(vs, a) % 3 == Skews(vs, b) % 3
    decreases |vs|
  {
    if vs != [] && vs[0] != Accepted {
      SkewsModulo(vs[1..], if vs[0] == Skewed then a + 1 else a, if vs[0] == Skewed then b + 1 else b);
    }
  }

  /** Over any run the counter is the number of skewed messages since the last
      accepted one, modulo three. */
  lemma {:induction false} BreachesCount(w: Window, ps: seq<Packet>)
    requires w.breaches < 3
    ensures After(w, ps).breaches < 3 && After(w, ps).breaches == Skews(Verdicts(w, ps), w.breaches) % 3
    decreases |ps|
  {
    hide Handle, KeptIds, KeptFloor;
    if ps != [] {
      var (v, u) := Handle(w, ps[0].msg, ps[0].mono);
      LeftBehind(w, ps[0].msg, ps[0].mono);
      BreachesCount(u, ps[1..]);
      assert Verdicts(w, ps)[1..] == Verdicts(u, ps[1..]);
      SkewsModulo(Verdicts(u, ps[1..]), u.breaches, match v case Accepted => 0 case Skewed => w.breaches + 1 case Replayed => w.breaches);
    }
  }

  lemma {:induction false} AfterSnoc(w: Window, ps: seq<Packet>, p: Packet)
    ensures After(w, ps + [p]) == Handle(After(w, ps), p.msg, p.mono).1
    decreases |ps|
  {
    hide Handle;
    if ps == [] {
      assert [p][1..] == [] && ps + [p] == [p];
    } else {
      assert (ps + [p])[1..] == ps[1..] + [p];
      AfterSnoc(Handle(w, ps[0].msg, ps[0].mono).1, ps[1..], p);
    }
  }

  /** From a window without breaches, a skewed message moves the clock to its own
      second exactly if it is the third, sixth, ... since the last accepted one: a
      fresh id of that second is then accepted. */
  lemma EveryThirdSkewSyncs(w: Window, ps: seq<Packet>, p: Packet, next: Msg)
    requires w.breaches == 0 && Handle(After(w, ps), p.msg, p.mono).0 == Skewed
    requires next.id / 4294967296 == p.msg.id / 4294967296
    ensures var u, third := After(w, ps + [p]), Skews(Verdicts(w, ps), 0) % 3 == 2;
            && u.base == (if third then (p.msg.id / 4294967296) as real - p.mono else After(w, ps).base)
            && (third ==> Handle(u, next, p.mono).0 != Skewed)
  {
    hide Handle, KeptIds, KeptFloor;
    BreachesCount(w, ps);
    AfterSnoc(w, ps, p);
    LeftBehind(After(w, ps), p.msg, p.mono);
    VerdictExactly(After(w, ps), p.msg, p.mono);
    VerdictExactly(After(w, ps + [p]), next, p.mono);
  }
}
