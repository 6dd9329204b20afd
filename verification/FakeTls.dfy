/** pyrogram/crypto/faketls.py: the writer that reserves a length in front of every
    scope and patches it in when the scope closes, and the random parts it is fed. */
module FakeTls {
  import opened TlPrimitives

  /** A run of ops with writer and shuffle of its own. */
  datatype Part = Part(ops: seq<Op>)

  /** The ops, carrying what they draw: bytes, or the offsets a shuffle takes. */
  datatype Op =
    | Str(data: Bytes)
    | Random(drawn: Bytes)
    | Zero(length: nat)
    | Domain
    | Grease(seed: nat)
    | Begin
    | End
    | Key(key: Bytes)
    | MlKem(mlkem: Bytes)
    | Permutation(parts: seq<Part>, offsets: seq<nat>)
    | Padding

  datatype Env = Env(grease: Bytes, domain: Bytes)

  const PADDING_TARGET: nat := 513

  /** to_bytes(2, "big"), which raises on a larger size. */
  function Be16(n: nat): (b: Bytes)
    requires n < 0x1_0000
    ensures |b| == 2
  {
    [n / 256, n % 256]
  }

  // ----------------------------------------------------------------- shuffling

  function Swap<T>(s: seq<T>, i: nat, j: nat): (r: seq<T>)
    requires i < |s| && j < |s|
    ensures |r| == |s| && r[i] == s[j] && r[j] == s[i]
    ensures forall k :: 0 <= k < |s| && k != i && k != j ==> r[k] == s[k]
  {
    s[i := s[j]][j := s[i]]
  }

  /** An offset below the number of places left, for every place but the last. */
  predicate Offsets(n: nat, offsets: seq<nat>) {
    |offsets| + 1 >= n && forall i :: 0 <= i < |offsets| && i < n ==> offsets[i] < n - i
  }

  /** _shuffled from place i on. */
  function Shuffle<T>(s: seq<T>, offsets: seq<nat>, i: nat): (r: seq<T>)
    requires Offsets(|s|, offsets) && i <= |s|
    ensures |r| == |s|
    decreases |s| - i
  {
    if i + 1 >= |s| then s else Shuffle(Swap(s, i, i + offsets[i]), offsets, i + 1)
  }

  method Shuffled<T>(parts: seq<T>, offsets: seq<nat>) returns (r: seq<T>)
    requires Offsets(|parts|, offsets)
    ensures r == Shuffle(parts, offsets, 0)
  {
    var n := |parts|;
    var list := new T[n](k requires 0 <= k < n => parts[k]);
    assert list[..] == parts;
    var index := 0;
    while index + 1 < n
      invariant 0 <= index <= n && (n > 0 ==> index < n) && |list[..]| == n
      invariant Shuffle(list[..], offsets, index) == Shuffle(parts, offsets, 0)
    {
      var target := index + offsets[index];
      ghost var before := list[..];
      list[index], list[target] := list[target], list[index];
      assert list[..] == Swap(before, index, target);
      index := index + 1;
    }
    r := list[..];
  }

  lemma SwapMultiset<T>(s: seq<T>, i: nat, j: nat)
    requires i < |s| && j < |s|
    ensures multiset(Swap(s, i, j)) == multiset(s)
  {}

  lemma {:induction false} ShuffleKeeps<T>(s: seq<T>, offsets: seq<nat>, i: nat)
    requires Offsets(|s|, offsets) && i <= |s|
    ensures multiset(Shuffle(s, offsets, i)) == multiset(s)
    ensures Shuffle(s, offsets, i)[..i] == s[..i]
    decreases |s| - i
  {
    if i + 1 < |s| {
      var t := Swap(s, i, i + offsets[i]);
      SwapMultiset(s, i, i + offsets[i]);
      ShuffleKeeps(t, offsets, i + 1);
      assert Shuffle(s, offsets, i)[..i] == Shuffle(s, offsets, i)[..i + 1][..i];
      assert t[..i + 1][..i] == t[..i] == s[..i];
    }
  }

  /** Every order of the parts is some draw's shuffle, and nothing else is. */
  lemma EveryOrder<T>(s: seq<T>, goal: seq<T>)
    ensures multiset(s) == multiset(goal) <==>
      exists offsets: seq<nat> :: Offsets(|s|, offsets) && Shuffle(s, offsets, 0) == goal
  {
    if multiset(s) == multiset(goal) {
      SameLength(s, goal);
      var offsets := OffsetsTo(s, goal, 0);
    }
    if exists offsets: seq<nat> :: Offsets(|s|, offsets) && Shuffle(s, offsets, 0) == goal {
      var offsets: seq<nat> :| Offsets(|s|, offsets) && Shuffle(s, offsets, 0) == goal;
      ShuffleKeeps(s, offsets, 0);
    }
  }

  lemma SameLength<T>(s: seq<T>, t: seq<T>)
    requires multiset(s) == multiset(t)
    ensures |s| == |t|
  {
    assert |multiset(s)| == |s| && |multiset(t)| == |t|;
  }

  lemma RestMultiset<T>(s: seq<T>, t: seq<T>, i: nat)
    requires |s| == |t| && i <= |s| && s[..i] == t[..i] && multiset(s) == multiset(t)
    ensures multiset(s[i..]) == multiset(t[i..])
  {
    assert s == s[..i] + s[i..] && t == t[..i] + t[i..];
    assert multiset(s[i..]) == multiset(s) - multiset(s[..i]);
  }

  lemma {:induction false} OffsetsTo<T>(s: seq<T>, goal: seq<T>, i: nat) returns (offsets: seq<nat>)
    requires |s| == |goal| && i <= |s| && s[..i] == goal[..i] && multiset(s) == multiset(goal)
    ensures |offsets| + 1 >= |s| && Offsets(|s|, offsets) && Shuffle(s, offsets, i) == goal
    decreases |s| - i
  {
    hide Shuffle, Offsets, Swap;
    RestMultiset(s, goal, i);
    if i + 1 >= |s| {
      offsets := seq(|s|, _ => 0);
      LastPlace(s, goal, i);
      ShuffleDone(s, offsets, i);
    } else {
      var k := Position(s, goal, i);
      var t := Swap(s, i, i + k);
      SwapMultiset(s, i, i + k);
      assert t[..i + 1] == goal[..i + 1] by {
        assert forall j :: 0 <= j < i ==> t[j] == s[..i][j] == goal[..i][j];
      }
      var rest := OffsetsTo(t, goal, i + 1);
      OffsetSet(|s|, rest, i, k);
      offsets := rest[i := k];
      SameAfter(t, rest, offsets, i + 1);
      ShuffleStep(s, offsets, i);
    }
  }

  lemma LastPlace<T>(s: seq<T>, goal: seq<T>, i: nat)
    requires |s| == |goal| && i <= |s| <= i + 1 && s[..i] == goal[..i] && multiset(s[i..]) == multiset(goal[i..])
    ensures s == goal
  {
    if i < |s| {
      assert s[i..] == [s[i]] && goal[i..] == [goal[i]];
      assert goal[i] in multiset(s[i..]);
    }
  }

  lemma ShuffleDone<T>(s: seq<T>, offsets: seq<nat>, i: nat)
    requires i <= |s| <= i + 1 && offsets == seq(|s|, _ => 0)
    ensures Offsets(|s|, offsets) && Shuffle(s, offsets, i) == s
  {}

  lemma ShuffleStep<T>(s: seq<T>, offsets: seq<nat>, i: nat)
    requires Offsets(|s|, offsets) && i + 1 < |s|
    ensures i + offsets[i] < |s| && Shuffle(s, offsets, i) == Shuffle(Swap(s, i, i + offsets[i]), offsets, i + 1)
  {}

  lemma Position<T>(s: seq<T>, goal: seq<T>, i: nat) returns (k: nat)
    requires |s| == |goal| && i < |s| && multiset(s[i..]) == multiset(goal[i..])
    ensures i + k < |s| && s[i + k] == goal[i]
  {
    assert goal[i] == goal[i..][0];
    assert goal[i] in multiset(s[i..]);
    k :| 0 <= k < |s[i..]| && s[i..][k] == goal[i];
  }

  lemma OffsetSet(n: nat, offsets: seq<nat>, i: nat, k: nat)
    requires Offsets(n, offsets) && i + 1 < n && k < n - i
    ensures |offsets| + 1 >= n && i < |offsets| && Offsets(n, offsets[i := k])
  {}

  /** Only the offsets from i on matter. */
  lemma {:induction false} SameAfter<T>(s: seq<T>, a: seq<nat>, b: seq<nat>, i: nat)
    requires Offsets(|s|, a) && Offsets(|s|, b) && i <= |s| && |a| == |b|
    requires forall k :: i <= k < |a| ==> a[k] == b[k]
    ensures Shuffle(s, a, i) == Shuffle(s, b, i)
    decreases |s| - i
  {
    if i + 1 < |s| { SameAfter(Swap(s, i, i + a[i]), a, b, i + 1); }
  }

  // ---------------------------------------------------------------- the writer

  /** What the writer has put out, and where each open scope began. */
  datatype W = W(out: Bytes, scopes: seq<nat>)

  function Put(w: W, data: Bytes): W { w.(out := w.out + data) }

  function Open(w: W): W { W(w.out + [0, 0], w.scopes + [|w.out|]) }

  /** Closing patches the reserved bytes: no scope open, no room reserved, or a size
      two bytes cannot say is an error. */
  function Close(w: W): Option<W> {
    if w.scopes == [] then None
    else
      var begin := w.scopes[|w.scopes| - 1];
      var size := |w.out| - begin - 2;
      if !(0 <= size < 0x1_0000) then None
      else Some(W(w.out[..begin] + Be16(size) + w.out[begin + 2..], w.scopes[..|w.scopes| - 1]))
  }

  /** Bytes an op puts out by itself; a grease seed past the end is an error. */
  predicate Plain(op: Op) { op.Str? || op.Random? || op.Zero? || op.Domain? || op.Grease? || op.Key? || op.MlKem? }

  function PlainData(op: Op, e: Env): Option<Bytes>
    requires Plain(op)
  {
    match op
    case Str(data) => Some(data)
    case Random(drawn) => Some(drawn)
    case Zero(length) => Some(Zeros(length))
    case Domain => Some(e.domain)
    case Grease(seed) => if seed < |e.grease| then Some([e.grease[seed], e.grease[seed]]) else None
    case Key(key) => Some(key)
    case MlKem(mlkem) => Some(mlkem)
  }

  function PaddingSize(length: nat): int { PADDING_TARGET - length }

  function WritePadding(w: W): Option<W> {
    var size := PaddingSize(|w.out|);
    if size <= 0 then Some(w) else Close(Put(Open(Put(w, [0x00, 0x15])), Zeros(size)))
  }

  function Write(w: W, op: Op, e: Env): Option<W>
    decreases op, 0
  {
    if Plain(op) then
      (match PlainData(op, e) case None => None case Some(data) => Some(Put(w, data)))
    else
      match op
      case Begin => Some(Open(w))
      case End => Close(w)
      case Permutation(parts, offsets) =>
        (match RenderParts(parts, e)
         case None => None
         case Some(blocks) =>
           if Offsets(|blocks|, offsets) then Some(Put(w, Joined(Shuffle(blocks, offsets, 0)))) else None)
      case _ => WritePadding(w)
  }

  function Render(w: W, ops: seq<Op>, e: Env): Option<W>
    decreases ops, 1
  {
    if ops == [] then Some(w)
    else
      match Write(w, ops[0], e)
      case None => None
      case Some(v) => Render(v, ops[1..], e)
  }

  /** Every part rendered by a writer of its own. */
  function RenderParts(parts: seq<Part>, e: Env): (r: Option<seq<Bytes>>)
    ensures r.Some? ==> |r.value| == |parts|
    decreases parts
  {
    if parts == [] then Some([])
    else
      match Render(W([], []), parts[0].ops, e)
      case None => None
      case Some(v) =>
        match RenderParts(parts[1..], e)
        case None => None
        case Some(others) => Some([v.out] + others)
  }

  function Joined(blocks: seq<Bytes>): Bytes { if blocks == [] then [] else blocks[0] + Joined(blocks[1..]) }

  /** Blocks put before what is still to be rendered. */
  function Behind(blocks: seq<Bytes>, rest: Option<seq<Bytes>>): Option<seq<Bytes>> {
    if rest.Some? then Some(blocks + rest.value) else None
  }

  lemma BehindNothing(rest: Option<seq<Bytes>>)
    ensures Behind([], rest) == rest
  {
    if rest.Some? { assert [] + rest.value == rest.value; }
  }

  lemma BehindOne(blocks: seq<Bytes>, block: Bytes, rest: Option<seq<Bytes>>)
    ensures Behind(blocks, Behind([block], rest)) == Behind(blocks + [block], rest)
  {
    if rest.Some? { assert blocks + ([block] + rest.value) == blocks + [block] + rest.value; }
  }

  class HelloWriter {
    const grease: Bytes
    const domain: Bytes
    var out: Bytes
    var scopes: seq<nat>

    ghost function State(): W
      reads this
    {
      W(out, scopes)
    }

    constructor (grease: Bytes, domain: Bytes)
      ensures State() == W([], []) && this.grease == grease && this.domain == domain
    {
      this.grease, this.domain := grease, domain;
      out, scopes := [], [];
    }

    method CloseScope() returns (ok: bool)
      modifies this
      ensures ok <==> Close(old(State())).Some?
      ensures ok ==> State() == Close(old(State())).value
    {
      if scopes == [] { return false; }
      var begin := scopes[|scopes| - 1];
      scopes := scopes[..|scopes| - 1];
      var size := |out| - begin - 2;
      if !(0 <= size < 0x1_0000) { return false; }
      out := out[..begin] + Be16(size) + out[begin + 2..];
      return true;
    }

    method PadOut() returns (ok: bool)
      modifies this
      ensures ok <==> WritePadding(old(State())).Some?
      ensures ok ==> State() == WritePadding(old(State())).value
    {
      var size := PaddingSize(|out|);
      if size <= 0 { return true; }
      out := out + [0x00, 0x15];
      scopes := scopes + [|out|];
      out := out + [0, 0];
      out := out + Zeros(size);
      ok := CloseScope();
    }

    method WriteOp(op: Op) returns (ok: bool)
      modifies this
      ensures ok <==> Write(old(State()), op, Env(grease, domain)).Some?
      ensures ok ==> State() == Write(old(State()), op, Env(grease, domain)).value
      decreases op, 0
    {
      hide Close, WritePadding, PlainData;
      if Plain(op) {
        var data := PlainData(op, Env(grease, domain));
        if data.None? { return false; }
        out := out + data.value;
        return true;
      }
      if op.Begin? {
        scopes := scopes + [|out|];
        out := out + [0, 0];
        return true;
      }
      if op.End? {
        ok := CloseScope();
      } else if op.Permutation? {
        ok := WritePermutation(op.parts, op.offsets);
      } else {
        ok := PadOut();
      }
    }

    /** Each part by a writer of its own, so that no scope spans two of them. */
    method RenderAll(parts: seq<Part>) returns (ok: bool, rendered: seq<Bytes>)
      ensures ok <==> RenderParts(parts, Env(grease, domain)).Some?
      ensures ok ==> rendered == RenderParts(parts, Env(grease, domain)).value
      decreases parts, 0
    {
      rendered := [];
      var i := 0;
      ghost var e := Env(grease, domain);
      assert parts[0..] == parts;
      BehindNothing(RenderParts(parts, e));
      while i < |parts|
        invariant 0 <= i <= |parts|
        invariant RenderParts(parts, e) == Behind(rendered, RenderParts(parts[i..], e))
      {
        var writer := new HelloWriter(grease, domain);
        var done := writer.RenderOps(parts[i].ops);
        assert parts[i..][0] == parts[i] && parts[i..][1..] == parts[i + 1..];
        if !done { return false, []; }
        BehindOne(rendered, writer.out, RenderParts(parts[i + 1..], e));
        rendered := rendered + [writer.out];
        i := i + 1;
      }
      assert parts[|parts|..] == [] && rendered + [] == rendered;
      ok := true;
    }

    method WritePermutation(parts: seq<Part>, offsets: seq<nat>) returns (ok: bool)
      modifies this
      ensures var r := RenderParts(parts, Env(grease, domain));
              && (ok <==> r.Some? && Offsets(|r.value|, offsets))
              && (ok ==> State() == Put(old(State()), Joined(Shuffle(r.value, offsets, 0))))
      decreases parts, 1
    {
      hide RenderParts, Shuffle;
      var done, rendered := RenderAll(parts);
      if !done || !Offsets(|rendered|, offsets) { return false; }
      var shuffled := Shuffled(rendered, offsets);
      var i := 0;
      assert shuffled[0..] == shuffled;
      while i < |shuffled|
        invariant 0 <= i <= |shuffled| && scopes == old(scopes)
        invariant out + Joined(shuffled[i..]) == old(out) + Joined(shuffled)
      {
        assert shuffled[i..][0] == shuffled[i] && shuffled[i..][1..] == shuffled[i + 1..];
        out := out + shuffled[i];
        i := i + 1;
      }
      assert shuffled[|shuffled|..] == [];
      return true;
    }

    method RenderOps(ops: seq<Op>) returns (ok: bool)
      modifies this
      ensures ok <==> Render(old(State()), ops, Env(grease, domain)).Some?
      ensures ok ==> State() == Render(old(State()), ops, Env(grease, domain)).value
      decreases ops, 1
    {
      hide Write;
      ghost var e := Env(grease, domain);
      var i := 0;
      while i < |ops|
        invariant 0 <= i <= |ops|
        invariant Render(State(), ops[i..], e) == Render(old(State()), ops, e)
      {
        assert ops[i..][0] == ops[i] && ops[i..][1..] == ops[i + 1..];
        var done := WriteOp(ops[i]);
        if !done { return false; }
        i := i + 1;
      }
      return true;
    }
  }

  // ------------------------------------------------- the encoder without patching

  /** Scopes opened and closed in step, in the parts of permutations too, with d of
      them still to be closed by the end. */
  predicate Closes(ops: seq<Op>, d: nat)
    decreases ops
  {
    if ops == [] then d == 0
    else
      match ops[0]
      case Begin => Closes(ops[1..], d + 1)
      case End => d > 0 && Closes(ops[1..], d - 1)
      case Permutation(parts, _) =>
        (forall k :: 0 <= k < |parts| ==> Closes(parts[k].ops, 0)) && Closes(ops[1..], d)
      case _ => Closes(ops[1..], d)
  }

  predicate Suffix(r: seq<Op>, s: seq<Op>) { |r| <= |s| && r == s[|s| - |r|..] }

  /** The padding extension up to the target, or nothing beyond it. */
  function PaddingData(at: nat): Bytes {
    var size := PaddingSize(at);
    if size <= 0 then [] else [0x00, 0x15] + Be16(size) + Zeros(size)
  }

  /** What an op puts out at a given offset, its parts encoded by recursion. */
  function OpData(op: Op, at: nat, e: Env): Option<Bytes>
    requires !op.Begin? && !op.End?
    decreases op, 1
  {
    if Plain(op) then PlainData(op, e)
    else if op.Permutation? then
      match EncodeParts(op.parts, e)
      case None => None
      case Some(blocks) =>
        if Offsets(|blocks|, op.offsets) then Some(Joined(Shuffle(blocks, op.offsets, 0))) else None
    else
      Some(PaddingData(at))
  }

  function EncodeParts(parts: seq<Part>, e: Env): (r: Option<seq<Bytes>>)
    ensures r.Some? ==> |r.value| == |parts|
    decreases parts, 0
  {
    if parts == [] then Some([])
    else
      match Encode(parts[0].ops, 0, e)
      case None => None
      case Some((b, _)) =>
        match EncodeParts(parts[1..], e)
        case None => None
        case Some(others) => Some([b] + others)
  }

  /** A scope is its contents behind their size: the bytes up to the op that closes
      the surrounding scope, and the ops from there. */
  function Encode(ops: seq<Op>, at: nat, e: Env): (r: Option<(Bytes, seq<Op>)>)
    ensures r.Some? ==> Suffix(r.value.1, ops) && (r.value.1 == [] || r.value.1[0] == End)
    decreases ops, 2
  {
    if ops == [] then Some(([], []))
    else if ops[0].End? then Some(([], ops))
    else if ops[0].Begin? then
      match Encode(ops[1..], at + 2, e)
      case None => None
      case Some((body, rest)) =>
        if rest == [] || |body| >= 0x1_0000 then None
        else
          match Encode(rest[1..], at + 2 + |body|, e)
          case None => None
          case Some((tail, r)) => Some((Be16(|body|) + body + tail, r))
    else
      match OpData(ops[0], at, e)
      case None => None
      case Some(data) =>
        match Encode(ops[1..], at + |data|, e)
        case None => None
        case Some((tail, r)) => Some((data + tail, r))
  }

  // -------------------------------------------------------- patching is recursion

  lemma PaddingMatches(w: W)
    ensures WritePadding(w) == Some(Put(w, PaddingData(|w.out|)))
  {
    var size := PaddingSize(|w.out|);
    if size > 0 {
      ClosesScope(Put(w, [0x00, 0x15]), Zeros(size));
      assert w.out + [0x00, 0x15] + (Be16(size) + Zeros(size)) == w.out + ([0x00, 0x15] + Be16(size) + Zeros(size));
    } else {
      assert w.out + [] == w.out;
    }
  }

  /** A scope opened, filled and closed is its contents behind their size. */
  lemma ClosesScope(w: W, body: Bytes)
    ensures Close(Put(Open(w), body))
         == if |body| < 0x1_0000 then Some(Put(w, Be16(|body|) + body)) else None
  {
    var v := Put(Open(w), body);
    assert v.scopes[..|v.scopes| - 1] == w.scopes;
    assert v.out[..|w.out|] == w.out && v.out[|w.out| + 2..] == body;
    if |body| < 0x1_0000 { assert w.out + Be16(|body|) + body == w.out + (Be16(|body|) + body); }
  }

  lemma PutTwice(w: W, a: Bytes, b: Bytes)
    ensures Put(Put(w, a), b) == Put(w, a + b)
  {
    assert w.out + a + b == w.out + (a + b);
  }

  lemma {:induction false} PartsMatch(parts: seq<Part>, e: Env)
    requires forall k :: 0 <= k < |parts| ==> Closes(parts[k].ops, 0)
    ensures RenderParts(parts, e) == EncodeParts(parts, e)
    decreases parts, 0
  {
    if parts != [] {
      RenderMatches(parts[0].ops, 0, W([], []), e);
      PartsMatch(parts[1..], e);
      if Encode(parts[0].ops, 0, e).Some? {
        var b := Encode(parts[0].ops, 0, e).value.0;
        assert Put(W([], []), b).out == b;
      }
    }
  }

  lemma OpMatches(op: Op, w: W, e: Env)
    requires !op.Begin? && !op.End?
    requires op.Permutation? ==> forall k :: 0 <= k < |op.parts| ==> Closes(op.parts[k].ops, 0)
    ensures var r := OpData(op, |w.out|, e);
            Write(w, op, e) == if r.Some? then Some(Put(w, r.value)) else None
    decreases op, 1
  {
    hide WritePadding;
    if op.Permutation? {
      PartsMatch(op.parts, e);
    } else if op.Padding? {
      PaddingMatches(w);
    }
  }

  /** The writer gets where the encoder gets, with as many scopes to close. */
  predicate Follows(ops: seq<Op>, d: nat, w: W, e: Env) {
    match Encode(ops, |w.out|, e)
    case None => Render(w, ops, e) == None
    case Some((b, rest)) =>
      (rest == [] <==> d == 0) && Closes(rest, d) && Render(w, ops, e) == Render(Put(w, b), rest, e)
  }

  /** From any state, the writer on ops that close what they open reaches what the
      encoder reaches, and fails exactly when it fails. */
  lemma {:induction false} RenderMatches(ops: seq<Op>, d: nat, w: W, e: Env)
    requires Closes(ops, d)
    ensures Follows(ops, d, w, e)
    decreases ops, 2
  {
    hide OpData, Write, Be16, Encode, Render, Follows, Suffix;
    if ops == [] || ops[0].End? {
      StopFollows(ops, d, w, e);
    } else if ops[0].Begin? {
      BeginMatches(ops, d, w, e);
    } else {
      OpMatches(ops[0], w, e);
      var r := OpData(ops[0], |w.out|, e);
      if r.Some? { RenderMatches(ops[1..], d, Put(w, r.value), e); }
      OpFollows(ops, d, w, e);
    }
  }

  lemma StopFollows(ops: seq<Op>, d: nat, w: W, e: Env)
    requires Closes(ops, d) && (ops == [] || ops[0].End?)
    ensures Follows(ops, d, w, e)
  {
    assert w.out + [] == w.out;
  }

  lemma OpFollows(ops: seq<Op>, d: nat, w: W, e: Env)
    requires ops != [] && !ops[0].Begin? && !ops[0].End?
    requires var r := OpData(ops[0], |w.out|, e);
             if r.Some? then Write(w, ops[0], e) == Some(Put(w, r.value)) && Follows(ops[1..], d, Put(w, r.value), e)
             else Write(w, ops[0], e) == None
    ensures Follows(ops, d, w, e)
  {
    hide OpData, Write, Suffix, Closes;
    var r := OpData(ops[0], |w.out|, e);
    if r.Some? {
      var next := Encode(ops[1..], |w.out| + |r.value|, e);
      if next.Some? { PutTwice(w, r.value, next.value.0); }
    }
  }

  lemma WriteScopes(w: W, e: Env)
    ensures Write(w, Begin, e) == Some(Open(w)) && Write(w, End, e) == Close(w)
  {}

  lemma BeginMatches(ops: seq<Op>, d: nat, w: W, e: Env)
    requires ops != [] && ops[0].Begin? && Closes(ops, d)
    ensures Follows(ops, d, w, e)
    decreases ops, 1
  {
    hide Encode, Render, Close, Be16;
    RenderMatches(ops[1..], d + 1, Open(w), e);
    ScopeOpens(ops, d, w, e);
    var inner := Encode(ops[1..], |w.out| + 2, e);
    if inner.Some? {
      var (body, rest) := inner.value;
      if |body| < 0x1_0000 {
        RenderMatches(rest[1..], d, Put(w, Be16(|body|) + body), e);
        ScopeFollows(ops, d, w, e, body, rest);
      }
    }
  }

  /** Up to the op that closes the scope, and over it. */
  lemma ScopeOpens(ops: seq<Op>, d: nat, w: W, e: Env)
    requires ops != [] && ops[0].Begin? && Follows(ops[1..], d + 1, Open(w), e)
    ensures match Encode(ops[1..], |w.out| + 2, e)
            case None => Follows(ops, d, w, e)
            case Some((body, rest)) =>
              if |body| < 0x1_0000 then
                rest != [] && Closes(rest[1..], d)
                && Render(w, ops, e) == Render(Put(w, Be16(|body|) + body), rest[1..], e)
              else Follows(ops, d, w, e)
  {
    hide OpData, Write, Be16, Close, Suffix;
    WriteScopes(w, e);
    var inner := Encode(ops[1..], |w.out| + 2, e);
    if inner.Some? {
      var (body, rest) := inner.value;
      WriteScopes(Put(Open(w), body), e);
      ClosesScope(w, body);
    }
  }

  lemma ScopeFollows(ops: seq<Op>, d: nat, w: W, e: Env, body: Bytes, rest: seq<Op>)
    requires ops != [] && ops[0].Begin? && Encode(ops[1..], |w.out| + 2, e) == Some((body, rest))
    requires |body| < 0x1_0000 && rest != []
    requires Render(w, ops, e) == Render(Put(w, Be16(|body|) + body), rest[1..], e)
    requires Follows(rest[1..], d, Put(w, Be16(|body|) + body), e)
    ensures Follows(ops, d, w, e)
  {
    hide OpData, Write, Suffix, Render, Closes;
    var block := Be16(|body|) + body;
    var next := Encode(rest[1..], |w.out| + 2 + |body|, e);
    assert |Put(w, block).out| == |w.out| + 2 + |body|;
    if next.Some? { PutTwice(w, block, next.value.0); }
  }

  /** The bytes of ops that close what they open. */
  function EncodeAll(ops: seq<Op>, e: Env): Option<Bytes> {
    match Encode(ops, 0, e)
    case None => None
    case Some((b, _)) => Some(b)
  }

  /** Back-patching refines recursion: rendering a balanced op list gives the bytes
      of the recursive encoder and leaves no scope open, or both fail. */
  lemma PatchingIsRecursion(ops: seq<Op>, e: Env)
    requires Closes(ops, 0)
    ensures Render(W([], []), ops, e) == match EncodeAll(ops, e) case None => None case Some(b) => Some(W(b, []))
  {
    var w := W([], []);
    RenderMatches(ops, 0, w, e);
    var r := Encode(ops, 0, e);
    if r.Some? { assert Put(w, r.value.0) == W(r.value.0, []); }
  }
}
