/** pyrogram/client.py: the pts and qts marks of update handling.  A batch of
    updates is coalesced into one save per peer; saves never lower a mark. */
module UpdateStates {
  datatype Option<+T> = None | Some(value: T)

  function Or(a: Option<int>, b: Option<int>): Option<int> {
    if a.Some? then a else b
  }

  /** An entry of _state_marks. */
  datatype Mark = Mark(pts: Option<int>, qts: Option<int>)

  /** A row of the storage's update_state table. */
  datatype Row = Row(pts: Option<int>, qts: Option<int>, date: Option<int>, seqNo: Option<int>)

  /** The tuple passed to _save_update_state. */
  datatype Saved = Saved(id: int, pts: Option<int>, qts: Option<int>, date: Option<int>, seqNo: Option<int>)

  datatype State = State(marks: map<int, Mark>, rows: map<int, Row>)

  const NO_MARK: Mark := Mark(None, None)

  /** A value older than the known one is left out of the save. */
  function Fresh(value: Option<int>, known: Option<int>): Option<int> {
    if value.Some? && known.Some? && value.value < known.value then None else value
  }

  /** The storage's upsert: a column keeps its value where the new one is null. */
  function Upsert(row: Option<Row>, s: Saved): Row {
    match row
    case None => Row(s.pts, s.qts, s.date, s.seqNo)
    case Some(r) => Row(Or(s.pts, r.pts), Or(s.qts, r.qts), Or(s.date, r.date), Or(s.seqNo, r.seqNo))
  }

  // ---------------------------------------------------------------- one peer

  /** A peer's mark and row. */
  datatype View = View(mark: Option<Mark>, row: Option<Row>)

  function SaveView(v: View, s: Saved): View {
    var known := if v.mark.Some? then v.mark.value else NO_MARK;
    var pts, qts := Fresh(s.pts, known.pts), Fresh(s.qts, known.qts);
    if pts.None? && qts.None? && (s.pts.Some? || s.qts.Some?) then v
    else
      View(Some(Mark(Or(pts, known.pts), Or(qts, known.qts))), Some(Upsert(v.row, s.(pts := pts, qts := qts))))
  }

  function ViewOf(st: State, id: int): View {
    View(if id in st.marks then Some(st.marks[id]) else None, if id in st.rows then Some(st.rows[id]) else None)
  }

  /** _save_update_state with a tuple. */
  function Save(st: State, s: Saved): State {
    var v := SaveView(ViewOf(st, s.id), s);
    State(if v.mark.Some? then st.marks[s.id := v.mark.value] else st.marks,
          if v.row.Some? then st.rows[s.id := v.row.value] else st.rows)
  }

  /** _save_update_state with an int: the peer is forgotten. */
  function Delete(st: State, id: int): State {
    State(st.marks - {id}, st.rows - {id})
  }

  function SaveAll(st: State, saves: seq<Saved>): State
    decreases |saves|
  {
    if saves == [] then st else SaveAll(Save(st, saves[0]), saves[1..])
  }

  function SaveAllViews(v: View, id: int, saves: seq<Saved>): View
    decreases |saves|
  {
    if saves == [] then v
    else SaveAllViews(if saves[0].id == id then SaveView(v, saves[0]) else v, id, saves[1..])
  }

  lemma SaveTouchesOne(st: State, s: Saved, id: int)
    ensures ViewOf(Save(st, s), id) == if s.id == id then SaveView(ViewOf(st, id), s) else ViewOf(st, id)
  {}

  /** A peer's view after many saves depends on the saves to that peer alone. */
  lemma {:induction false} ViewsSeparate(st: State, saves: seq<Saved>, id: int)
    ensures ViewOf(SaveAll(st, saves), id) == SaveAllViews(ViewOf(st, id), id, saves)
    decreases |saves|
  {
    if saves != [] {
      SaveTouchesOne(st, saves[0], id);
      ViewsSeparate(Save(st, saves[0]), saves[1..], id);
    }
  }

  lemma ViewsDetermine(a: State, b: State)
    requires forall id :: ViewOf(a, id) == ViewOf(b, id)
    ensures a == b
  {
    forall id ensures id in a.marks <==> id in b.marks { assert ViewOf(a, id) == ViewOf(b, id); }
    forall id ensures id in a.rows <==> id in b.rows { assert ViewOf(a, id) == ViewOf(b, id); }
    forall id | id in a.marks ensures a.marks[id] == b.marks[id] { assert ViewOf(a, id) == ViewOf(b, id); }
    forall id | id in a.rows ensures a.rows[id] == b.rows[id] { assert ViewOf(a, id) == ViewOf(b, id); }
  }

  // ---------------------------------------------------------------- batching

  /** What handle_updates reads off an update: the peer its pts counts for, None
      for one that is only reported as too long; and its qts. */
  datatype Update = Update(key: int, pts: Option<int>, qts: Option<int>, tooLong: bool)

  /** `elif pts`: an update without pts, or with pts 0, counts for nothing. */
  predicate CountsPts(u: Update) { !u.tooLong && u.pts.Some? && u.pts.value != 0 }

  predicate CountsQts(u: Update) { u.qts.Some? && u.qts.value != 0 }

  /** One save for every number an update carries, in order. */
  function EverySave(u: Update, date: Option<int>, seqNo: Option<int>): seq<Saved> {
    (if CountsPts(u) then [Saved(u.key, u.pts, None, date, seqNo)] else [])
    + (if CountsQts(u) then [Saved(0, None, u.qts, date, seqNo)] else [])
  }

  function AllSaves(us: seq<Update>, date: Option<int>, seqNo: Option<int>): seq<Saved> {
    if us == [] then [] else AllSaves(us[..|us| - 1], date, seqNo) + EverySave(us[|us| - 1], date, seqNo)
  }

  function Higher(value: int, known: Option<int>): bool { known.None? || value > known.value }

  function PendPts(pending: map<int, Saved>, u: Update, date: Option<int>, seqNo: Option<int>): map<int, Saved> {
    if !CountsPts(u) then pending
    else
      var known := if u.key in pending then pending[u.key] else Saved(u.key, None, None, date, seqNo);
      if Higher(u.pts.value, known.pts) then pending[u.key := known.(pts := u.pts)] else pending
  }

  function PendQts(pending: map<int, Saved>, u: Update, date: Option<int>, seqNo: Option<int>): map<int, Saved> {
    if !CountsQts(u) then pending
    else
      var known := if 0 in pending then pending[0] else Saved(0, None, None, date, seqNo);
      if Higher(u.qts.value, known.qts) then pending[0 := known.(qts := u.qts)] else pending
  }

  /** pending_states after a batch. */
  function Pending(us: seq<Update>, date: Option<int>, seqNo: Option<int>): map<int, Saved> {
    if us == [] then map[]
    else
      var u := us[|us| - 1];
      PendQts(PendPts(Pending(us[..|us| - 1], date, seqNo), u, date, seqNo), u, date, seqNo)
  }

  /** A pending save stands for the saves so far: it has the batch's date and at
      least one number. */
  ghost predicate Stands(s: Saved, date: Option<int>, seqNo: Option<int>) {
    s.date == date && s.seqNo == seqNo && (s.pts.Some? || s.qts.Some?)
  }

  /** Saving a pending tuple and then one more pts is saving the higher of both. */
  lemma MergePts(v: View, s: Saved, p: int, date: Option<int>, seqNo: Option<int>)
    requires Stands(s, date, seqNo)
    ensures SaveView(SaveView(v, s), Saved(s.id, Some(p), None, date, seqNo))
         == SaveView(v, if Higher(p, s.pts) then s.(pts := Some(p)) else s)
  {}

  lemma MergeQts(v: View, s: Saved, q: int, date: Option<int>, seqNo: Option<int>)
    requires Stands(s, date, seqNo)
    ensures SaveView(SaveView(v, s), Saved(s.id, None, Some(q), date, seqNo))
         == SaveView(v, if Higher(q, s.qts) then s.(qts := Some(q)) else s)
  {}

  /** The effect of a pending map on one peer. */
  function PendingView(v: View, id: int, pending: map<int, Saved>): View {
    if id in pending then SaveView(v, pending[id]) else v
  }

  ghost predicate WellKeyed(pending: map<int, Saved>, date: Option<int>, seqNo: Option<int>) {
    forall id :: id in pending ==> pending[id].id == id && Stands(pending[id], date, seqNo)
  }

  lemma {:induction false} PendingKeyed(us: seq<Update>, date: Option<int>, seqNo: Option<int>)
    ensures WellKeyed(Pending(us, date, seqNo), date, seqNo)
  {
    if us != [] { PendingKeyed(us[..|us| - 1], date, seqNo); }
  }

  lemma {:induction false} ViewsConcat(v: View, id: int, a: seq<Saved>, b: seq<Saved>)
    ensures SaveAllViews(v, id, a + b) == SaveAllViews(SaveAllViews(v, id, a), id, b)
    decreases |a|
  {
    hide SaveView;
    if a == [] {
      assert a + b == b;
    } else {
      assert (a + b)[1..] == a[1..] + b;
      ViewsConcat(if a[0].id == id then SaveView(v, a[0]) else v, id, a[1..], b);
    }
  }

  lemma ViewsOne(v: View, id: int, s: Saved)
    ensures SaveAllViews(v, id, [s]) == if s.id == id then SaveView(v, s) else v
  {
    assert [s][1..] == [];
  }

  function PtsSave(u: Update, date: Option<int>, seqNo: Option<int>): seq<Saved> {
    if CountsPts(u) then [Saved(u.key, u.pts, None, date, seqNo)] else []
  }

  function QtsSave(u: Update, date: Option<int>, seqNo: Option<int>): seq<Saved> {
    if CountsQts(u) then [Saved(0, None, u.qts, date, seqNo)] else []
  }

  lemma PtsStep(v: View, id: int, pending: map<int, Saved>, u: Update, date: Option<int>, seqNo: Option<int>)
    requires WellKeyed(pending, date, seqNo)
    ensures WellKeyed(PendPts(pending, u, date, seqNo), date, seqNo)
    ensures PendingView(v, id, PendPts(pending, u, date, seqNo))
         == SaveAllViews(PendingView(v, id, pending), id, PtsSave(u, date, seqNo))
  {
    hide SaveView;
    if CountsPts(u) {
      ViewsOne(PendingView(v, id, pending), id, PtsSave(u, date, seqNo)[0]);
      if u.key in pending { MergePts(v, pending[u.key], u.pts.value, date, seqNo); }
    }
  }

  lemma QtsStep(v: View, id: int, pending: map<int, Saved>, u: Update, date: Option<int>, seqNo: Option<int>)
    requires WellKeyed(pending, date, seqNo)
    ensures PendingView(v, id, PendQts(pending, u, date, seqNo))
         == SaveAllViews(PendingView(v, id, pending), id, QtsSave(u, date, seqNo))
  {
    hide SaveView;
    if CountsQts(u) {
      ViewsOne(PendingView(v, id, pending), id, QtsSave(u, date, seqNo)[0]);
      if 0 in pending { MergeQts(v, pending[0], u.qts.value, date, seqNo); }
    }
  }

  /** For every peer, the coalesced batch does what all its saves in order do. */
  lemma {:induction false} PendingDoesAll(v: View, id: int, us: seq<Update>, date: Option<int>, seqNo: Option<int>)
    ensures PendingView(v, id, Pending(us, date, seqNo)) == SaveAllViews(v, id, AllSaves(us, date, seqNo))
  {
    hide SaveView, PendPts, PendQts, WellKeyed;
    if us != [] {
      var init, u := us[..|us| - 1], us[|us| - 1];
      var before := Pending(init, date, seqNo);
      PendingDoesAll(v, id, init, date, seqNo);
      PendingKeyed(init, date, seqNo);
      var w := PendingView(v, id, before);
      var first, second := PtsSave(u, date, seqNo), QtsSave(u, date, seqNo);
      ViewsConcat(v, id, AllSaves(init, date, seqNo), first + second);
      ViewsConcat(w, id, first, second);
      PtsStep(v, id, before, u, date, seqNo);
      QtsStep(v, id, PendPts(before, u, date, seqNo), u, date, seqNo);
    }
  }

  /** The pending states in some order. */
  ghost predicate Lists(saves: seq<Saved>, pending: map<int, Saved>) {
    && (forall k :: 0 <= k < |saves| ==> saves[k].id in pending && pending[saves[k].id] == saves[k])
    && (forall id :: id in pending ==> exists k :: 0 <= k < |saves| && saves[k].id == id)
    && (forall j, k :: 0 <= j < k < |saves| ==> saves[j].id != saves[k].id)
  }

  lemma {:induction false} ListedViews(v: View, id: int, saves: seq<Saved>)
    requires forall j, k :: 0 <= j < k < |saves| ==> saves[j].id != saves[k].id
    ensures forall k :: 0 <= k < |saves| && saves[k].id == id ==> SaveAllViews(v, id, saves) == SaveView(v, saves[k])
    ensures (forall k :: 0 <= k < |saves| ==> saves[k].id != id) ==> SaveAllViews(v, id, saves) == v
    decreases |saves|
  {
    hide SaveView;
    if saves != [] {
      ListedViews(if saves[0].id == id then SaveView(v, saves[0]) else v, id, saves[1..]);
      if saves[0].id == id {
        assert forall k :: 0 <= k < |saves[1..]| ==> saves[1..][k].id != id;
      }
      assert forall k :: 1 <= k < |saves| ==> saves[k] == saves[1..][k - 1];
    }
  }

  /** Coalescing is invisible: saving the pending states of a batch, in whatever
      order, leaves the same marks and the same rows as saving every update's
      numbers one by one. */
  lemma CoalescedEqualsSequential(st: State, us: seq<Update>, date: Option<int>, seqNo: Option<int>, saves: seq<Saved>)
    requires Lists(saves, Pending(us, date, seqNo))
    ensures SaveAll(st, saves) == SaveAll(st, AllSaves(us, date, seqNo))
  {
    var all := AllSaves(us, date, seqNo);
    forall id ensures ViewOf(SaveAll(st, saves), id) == ViewOf(SaveAll(st, all), id) {
      ViewsSeparate(st, saves, id);
      ViewsSeparate(st, all, id);
      PendingDoesAll(ViewOf(st, id), id, us, date, seqNo);
      ListedViews(ViewOf(st, id), id, saves);
      if id in Pending(us, date, seqNo) {
        var k :| 0 <= k < |saves| && saves[k].id == id;
      }
    }
    ViewsDetermine(SaveAll(st, saves), SaveAll(st, all));
  }

  // ------------------------------------------------------------ monotone marks

  predicate AtLeast(value: Option<int>, known: Option<int>) {
    known.Some? ==> value.Some? && value.value >= known.value
  }

  /** The peer's marks are at or above these numbers. */
  predicate MarkedAtLeast(st: State, id: int, pts: Option<int>, qts: Option<int>) {
    id in st.marks && AtLeast(st.marks[id].pts, pts) && AtLeast(st.marks[id].qts, qts)
  }

  /** Every marked number is the one stored. */
  ghost predicate Mirrored(st: State) {
    forall id :: id in st.marks ==>
      && id in st.rows
      && (st.marks[id].pts.Some? ==> st.rows[id].pts == st.marks[id].pts)
      && (st.marks[id].qts.Some? ==> st.rows[id].qts == st.marks[id].qts)
  }

  datatype Action = SaveOne(saved: Saved) | Forget(id: int)

  function Do(st: State, a: Action): State {
    match a
    case SaveOne(s) => Save(st, s)
    case Forget(id) => Delete(st, id)
  }

  function DoAll(st: State, actions: seq<Action>): State
    decreases |actions|
  {
    if actions == [] then st else DoAll(Do(st, actions[0]), actions[1..])
  }

  /** Any saves and deletions, from any number of batches in any interleaving,
      leave every mark mirrored in the storage. */
  lemma {:induction false} AlwaysMirrored(st: State, actions: seq<Action>)
    requires Mirrored(st)
    ensures Mirrored(DoAll(st, actions))
    decreases |actions|
  {
    if actions != [] {
      StepMirrored(st, actions[0]);
      AlwaysMirrored(Do(st, actions[0]), actions[1..]);
    }
  }

  lemma StepMirrored(st: State, a: Action)
    requires Mirrored(st)
    ensures Mirrored(Do(st, a))
  {}

  /** Until a peer is forgotten its marks only rise, and end at or above every
      number saved for it. */
  lemma {:induction false} MarksRise(st: State, actions: seq<Action>, id: int)
    requires forall k :: 0 <= k < |actions| ==> actions[k] != Forget(id)
    ensures id in st.marks ==> MarkedAtLeast(DoAll(st, actions), id, st.marks[id].pts, st.marks[id].qts)
    ensures forall k :: 0 <= k < |actions| && actions[k].SaveOne? && actions[k].saved.id == id ==>
              MarkedAtLeast(DoAll(st, actions), id, actions[k].saved.pts, actions[k].saved.qts)
    decreases |actions|
  {
    if actions != [] {
      MarksRise(Do(st, actions[0]), actions[1..], id);
      StepRises(st, actions[0], id);
      assert forall k :: 1 <= k < |actions| ==> actions[k] == actions[1..][k - 1];
    }
  }

  lemma StepRises(st: State, a: Action, id: int)
    requires a != Forget(id)
    ensures id in st.marks ==> MarkedAtLeast(Do(st, a), id, st.marks[id].pts, st.marks[id].qts)
    ensures a.SaveOne? && a.saved.id == id ==> MarkedAtLeast(Do(st, a), id, a.saved.pts, a.saved.qts)
  {}

  // ---------------------------------------------------- what one action leaves

  /** What an update has saved: its pts for its own peer, unless it is missing, zero or
      only reported as too long, and its qts for peer 0, unless it is missing or zero;
      each with the batch's date and sequence number. */
  lemma SavesOf(u: Update, date: Option<int>, seqNo: Option<int>, s: Saved)
    ensures s in EverySave(u, date, seqNo) <==>
      || (s == Saved(u.key, u.pts, None, date, seqNo) && !u.tooLong && u.pts != None && u.pts != Some(0))
      || (s == Saved(0, None, u.qts, date, seqNo) && u.qts != None && u.qts != Some(0))
    ensures |EverySave(u, date, seqNo)| == (if !u.tooLong && u.pts != None && u.pts != Some(0) then 1 else 0)
                                           + if u.qts != None && u.qts != Some(0) then 1 else 0
  {}

  predicate Stale(value: Option<int>, known: Option<int>) { value.Some? && known.Some? && value.value < known.value }

  /** One save: with every number it gives below the peer's mark it changes nothing.
      Otherwise each number that is not below becomes mark and row, the date and the
      sequence number it gives become the row's, and all that is not given stays; no
      other peer is touched. */
  lemma SavesExactly(st: State, s: Saved)
    ensures var t := Save(st, s);
            var mark := if s.id in st.marks then st.marks[s.id] else Mark(None, None);
            var row := if s.id in st.rows then st.rows[s.id] else Row(None, None, None, None);
            var pts, qts := s.pts.Some? && !Stale(s.pts, mark.pts), s.qts.Some? && !Stale(s.qts, mark.qts);
            && (!pts && !qts && (s.pts.Some? || s.qts.Some?) ==> t == st)
            && (pts || qts || (s.pts.None? && s.qts.None?) ==>
                  && s.id in t.marks && s.id in t.rows
                  && t.marks[s.id] == Mark(if pts then s.pts else mark.pts, if qts then s.qts else mark.qts)
                  && t.rows[s.id] == Row(if pts then s.pts else row.pts, if qts then s.qts else row.qts,
                                         if s.date.Some? then s.date else row.date,
                                         if s.seqNo.Some? then s.seqNo else row.seqNo))
            && forall id :: id != s.id ==> ViewOf(t, id) == ViewOf(st, id)
  {
    forall id | id != s.id ensures ViewOf(Save(st, s), id) == ViewOf(st, id) { SaveTouchesOne(st, s, id); }
  }

  /** Forgetting takes the peer's mark and row and no other's. */
  lemma ForgetsExactly(st: State, id: int)
    ensures id !in Delete(st, id).marks && id !in Delete(st, id).rows
    ensures forall other :: other != id ==> ViewOf(Delete(st, id), other) == ViewOf(st, other)
  {}

  // ----------------------------------------------------------------- in place

  class Client {
    var stateMarks: map<int, Mark>
    var rows: map<int, Row>

    ghost function Value(): State
      reads this
    {
      State(stateMarks, rows)
    }

    constructor ()
      ensures Value() == State(map[], map[])
    {
      stateMarks, rows := map[], map[];
    }

    method SaveUpdateState(s: Saved)
      modifies this
      ensures Value() == Save(old(Value()), s)
    {
      var known := if s.id in stateMarks then stateMarks[s.id] else NO_MARK;
      var pts, qts := s.pts, s.qts;
      if pts.Some? && known.pts.Some? && pts.value < known.pts.value { pts := None; }
      if qts.Some? && known.qts.Some? && qts.value < known.qts.value { qts := None; }
      if pts.None? && qts.None? && (s.pts.Some? || s.qts.Some?) { return; }
      stateMarks := stateMarks[s.id := Mark(if pts.None? then known.pts else pts, if qts.None? then known.qts else qts)];
      rows := rows[s.id := Upsert(if s.id in rows then Some(rows[s.id]) else None, s.(pts := pts, qts := qts))];
    }

    method ForgetUpdateState(id: int)
      modifies this
      ensures Value() == Delete(old(Value()), id)
    {
      stateMarks := stateMarks - {id};
      rows := rows - {id};
    }

    /** The save loop over pending_states, whose keys are in insertion order. */
    method SavePending(order: seq<int>, pending: map<int, Saved>) returns (ghost saves: seq<Saved>)
      requires Orders(order, pending) && forall id :: id in pending ==> pending[id].id == id
      modifies this
      ensures Lists(saves, pending) && Value() == SaveAll(old(Value()), saves)
    {
      saves := [];
      forall k | 0 <= k < |order| ensures order[k] in pending { assert order[k] in order; }
      for n := 0 to |order|
        invariant |saves| == n && forall k :: 0 <= k < n ==> saves[k] == pending[order[k]]
        invariant Value() == SaveAll(old(Value()), saves)
      {
        SaveAllSnoc(old(Value()), saves, pending[order[n]]);
        SaveUpdateState(pending[order[n]]);
        saves := saves + [pending[order[n]]];
      }
      forall id | id in pending ensures exists k :: 0 <= k < |saves| && saves[k].id == id {
        var k :| 0 <= k < |order| && order[k] == id;
        assert saves[k].id == id;
      }
    }

    /** The batching part of handle_updates. */
    method HandleUpdates(us: seq<Update>, date: Option<int>, seqNo: Option<int>)
      modifies this
      ensures Value() == SaveAll(old(Value()), AllSaves(us, date, seqNo))
    {
      var pending: map<int, Saved> := map[];
      var order: seq<int> := [];
      for n := 0 to |us|
        invariant pending == Pending(us[..n], date, seqNo) && Orders(order, pending)
        invariant Value() == old(Value())
      {
        hide Pending, Orders;
        PendingNext(us, n, date, seqNo);
        var u := us[n];
        if !u.tooLong && u.pts.Some? && u.pts.value != 0 {
          var known := if u.key in pending then pending[u.key] else Saved(u.key, None, None, date, seqNo);
          if known.pts.None? || u.pts.value > known.pts.value {
            OrdersAdd(order, pending, u.key, known.(pts := u.pts));
            order := if u.key in pending then order else order + [u.key];
            pending := pending[u.key := known.(pts := u.pts)];
          }
        }
        if u.qts.Some? && u.qts.value != 0 {
          var known := if 0 in pending then pending[0] else Saved(0, None, None, date, seqNo);
          if known.qts.None? || u.qts.value > known.qts.value {
            OrdersAdd(order, pending, 0, known.(qts := u.qts));
            order := if 0 in pending then order else order + [0];
            pending := pending[0 := known.(qts := u.qts)];
          }
        }
      }
      assert us[..|us|] == us;
      PendingKeyed(us, date, seqNo);
      ghost var saves := SavePending(order, pending);
      CoalescedEqualsSequential(old(Value()), us, date, seqNo, saves);
    }
  }

  lemma PendingNext(us: seq<Update>, n: nat, date: Option<int>, seqNo: Option<int>)
    requires n < |us|
    ensures Pending(us[..n + 1], date, seqNo)
         == PendQts(PendPts(Pending(us[..n], date, seqNo), us[n], date, seqNo), us[n], date, seqNo)
  {
    assert us[..n + 1][..n] == us[..n];
  }

  lemma OrdersAdd(order: seq<int>, pending: map<int, Saved>, id: int, s: Saved)
    requires Orders(order, pending)
    ensures Orders(if id in pending then order else order + [id], pending[id := s])
  {}

  /** The keys of a dict, each once. */
  ghost predicate Orders(order: seq<int>, pending: map<int, Saved>) {
    && (forall id :: id in order <==> id in pending)
    && (forall j, k :: 0 <= j < k < |order| ==> order[j] != order[k])
  }

  lemma {:induction false} SaveAllSnoc(st: State, saves: seq<Saved>, s: Saved)
    ensures SaveAll(st, saves + [s]) == Save(SaveAll(st, saves), s)
    decreases |saves|
  {
    hide Save;
    if saves == [] {
      assert [s][1..] == [];
      assert saves + [s] == [s];
    } else {
      assert (saves + [s])[1..] == saves[1..] + [s];
      SaveAllSnoc(Save(st, saves[0]), saves[1..], s);
    }
  }
}
