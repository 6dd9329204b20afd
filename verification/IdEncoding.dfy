/** pyrogram/file_id.py: the zero run-length coding and the unpadded URL-safe
    base64 that file ids travel in (sections 3.2 and 5 of RFC 4648). */
module IdEncoding {
  import opened TlPrimitives

  // ------------------------------------------------------------- run lengths

  function Flush(n: nat): seq<nat> { if n > 0 then [0, n] else [] }

  /** The numbers rle_encode collects, with n zeros pending. */
  function RleNumbers(s: Bytes, n: nat): seq<nat>
    decreases |s|
  {
    if s == [] then Flush(n)
    else if s[0] == 0 then RleNumbers(s[1..], n + 1)
    else Flush(n) + [s[0]] + RleNumbers(s[1..], 0)
  }

  predicate AllBytes(r: seq<nat>) { forall k :: 0 <= k < |r| ==> r[k] < 256 }

  function AsBytes(r: seq<nat>): (b: Bytes)
    requires AllBytes(r)
    ensures |b| == |r| && forall k :: 0 <= k < |r| ==> b[k] == r[k]
  {
    seq(|r|, k requires 0 <= k < |r| => r[k])
  }

  /** rle_encode: bytes() raises when a run is longer than a byte can say. */
  function RleEncode(s: Bytes): Option<Bytes> {
    if AllBytes(RleNumbers(s, 0)) then Some(AsBytes(RleNumbers(s, 0))) else None
  }

  /** What rle_decode yields from s on, z telling whether a zero is pending. */
  function RleExpand(s: seq<nat>, z: bool): seq<nat>
    decreases |s|
  {
    if s == [] then []
    else if s[0] == 0 then RleExpand(s[1..], true)
    else (if z then seq(s[0], _ => 0) else [s[0]]) + RleExpand(s[1..], false)
  }

  method RleEncodeLoop(s: Bytes) returns (r: Option<Bytes>)
    ensures r == RleEncode(s)
  {
    var numbers: seq<nat> := [];
    var n: nat := 0;
    assert s[0..] == s;
    for k := 0 to |s|
      invariant numbers + RleNumbers(s[k..], n) == RleNumbers(s, 0)
    {
      assert s[k..][1..] == s[k + 1..];
      var b := s[k];
      if b == 0 {
        n := n + 1;
      } else {
        if n > 0 {
          numbers := numbers + [0, n];
          n := 0;
        }
        numbers := numbers + [b];
      }
    }
    assert s[|s|..] == [];
    if n > 0 { numbers := numbers + [0, n]; }
    assert numbers == RleNumbers(s, 0);
    r := if AllBytes(numbers) then Some(AsBytes(numbers)) else None;
  }

  method RleDecodeLoop(s: Bytes) returns (r: seq<nat>)
    ensures r == RleExpand(s, false)
  {
    r := [];
    var z := false;
    assert s[0..] == s;
    for k := 0 to |s|
      invariant r + RleExpand(s[k..], z) == RleExpand(s, false)
    {
      assert s[k..][1..] == s[k + 1..];
      var b := s[k];
      if b == 0 {
        z := true;
        continue;
      }
      if z {
        r := r + seq(b, _ => 0);
        z := false;
      } else {
        r := r + [b];
      }
    }
  }

  function ZeroRun(n: nat): seq<nat> { seq(n, _ => 0) }

  lemma {:induction false} ExpandNumbers(s: Bytes, n: nat)
    ensures RleExpand(RleNumbers(s, n), false) == ZeroRun(n) + s
    decreases |s|
  {
    hide RleExpand;
    if s == [] {
      ExpandFlush(n, []);
      NothingExpands();
      assert Flush(n) + [] == Flush(n);
      assert ZeroRun(n) + s == ZeroRun(n);
    } else if s[0] == 0 {
      ExpandNumbers(s[1..], n + 1);
      assert ZeroRun(n + 1) + s[1..] == ZeroRun(n) + s;
    } else {
      ExpandNumbers(s[1..], 0);
      ExpandByte(n, s[0], RleNumbers(s[1..], 0));
      assert ZeroRun(0) + s[1..] == s[1..];
      assert ZeroRun(n) + ([s[0]] + s[1..]) == ZeroRun(n) + s;
    }
  }

  lemma NothingExpands()
    ensures RleExpand([], false) == []
  {}

  lemma ExpandByte(n: nat, b: nat, rest: seq<nat>)
    requires b != 0
    ensures RleExpand(Flush(n) + [b] + rest, false) == ZeroRun(n) + ([b] + RleExpand(rest, false))
  {
    ExpandFlush(n, [b] + rest);
    assert Flush(n) + ([b] + rest) == Flush(n) + [b] + rest;
    assert ([b] + rest)[1..] == rest;
  }

  lemma ExpandFlush(n: nat, rest: seq<nat>)
    requires rest == [] || rest[0] != 0
    ensures RleExpand(Flush(n) + rest, false) == ZeroRun(n) + RleExpand(rest, false)
  {
    if n > 0 {
      var all := [0, n] + rest;
      assert all[1..] == [n] + rest && ([n] + rest)[1..] == rest;
      assert RleExpand(all, false) == RleExpand([n] + rest, true);
    } else {
      assert Flush(n) + rest == rest;
    }
  }

  predicate ZerosAt(s: seq<nat>, i: int) {
    0 <= i && i + 256 <= |s| && forall k :: i <= k < i + 256 ==> s[k] == 0
  }

  /** 256 zeros in a row somewhere. */
  ghost predicate LongRun(s: seq<nat>) { exists i :: ZerosAt(s, i) }

  lemma {:induction false} NumbersFit(s: Bytes, n: nat)
    ensures AllBytes(RleNumbers(s, n)) <==> !LongRun(ZeroRun(n) + s)
    decreases |s|
  {
    hide LongRun;
    if s == [] {
      assert ZeroRun(n) + s == ZeroRun(n);
      FlushFits(n);
      RunOfZeros(n);
    } else if s[0] == 0 {
      NumbersFit(s[1..], n + 1);
      assert ZeroRun(n + 1) + s[1..] == ZeroRun(n) + s;
    } else {
      NumbersFit(s[1..], 0);
      assert ZeroRun(0) + s[1..] == s[1..];
      FlushFits(n);
      SplitsFit(Flush(n), s[0], RleNumbers(s[1..], 0));
      RunSplits(n, s[0], s[1..]);
      assert ZeroRun(n) + ([s[0]] + s[1..]) == ZeroRun(n) + s;
    }
  }

  lemma FlushFits(n: nat)
    ensures AllBytes(Flush(n)) <==> n < 256
  {
    if n >= 256 { assert Flush(n)[1] == n; }
  }

  lemma RunOfZeros(n: nat)
    ensures LongRun(ZeroRun(n)) <==> n >= 256
  {
    if n >= 256 { assert ZerosAt(ZeroRun(n), 0); }
  }

  lemma SplitsFit(a: seq<nat>, b: Byte, c: seq<nat>)
    ensures AllBytes(a + [b] + c) <==> AllBytes(a) && AllBytes(c)
  {
    var all := a + [b] + c;
    if AllBytes(all) {
      assert forall k :: 0 <= k < |a| ==> all[k] == a[k];
      assert forall k :: 0 <= k < |c| ==> all[|a| + 1 + k] == c[k];
    }
  }

  lemma RunSplits(n: nat, b: nat, s: seq<nat>)
    requires b != 0
    ensures LongRun(ZeroRun(n) + ([b] + s)) <==> n >= 256 || LongRun(s)
  {
    var all := ZeroRun(n) + ([b] + s);
    assert all[n] == b;
    assert forall k :: 0 <= k < |s| ==> all[n + 1 + k] == s[k];
    if LongRun(all) && n < 256 {
      var i :| ZerosAt(all, i);
      assert i > n;
      assert forall k :: i - n - 1 <= k < i - n - 1 + 256 ==> s[k] == all[n + 1 + k];
      assert ZerosAt(s, i - n - 1);
    }
    if LongRun(s) {
      var i :| ZerosAt(s, i);
      assert forall k :: i + n + 1 <= k < i + n + 1 + 256 ==> all[k] == s[k - n - 1];
      assert ZerosAt(all, i + n + 1);
    }
    if n >= 256 { assert ZerosAt(all, 0); }
  }

  /** rle_encode succeeds exactly when no 256 zeros stand in a row, and rle_decode
      undoes it. */
  lemma RleRoundTrip(s: Bytes)
    ensures RleEncode(s).Some? <==> !LongRun(s)
    ensures RleEncode(s).Some? ==> RleExpand(RleEncode(s).value, false) == s
  {
    NumbersFit(s, 0);
    assert ZeroRun(0) + s == s;
    ExpandNumbers(s, 0);
    if RleEncode(s).Some? { assert RleEncode(s).value == RleNumbers(s, 0); }
  }

  // ------------------------------------------------------------------- base64

  function Char64(i: nat): char
    requires i < 64
  {
    if i < 26 then (65 + i) as char
    else if i < 52 then (97 + (i - 26)) as char
    else if i < 62 then (48 + (i - 52)) as char
    else if i == 62 then '-'
    else '_'
  }

  function Index64(c: char): (r: Option<nat>)
    ensures r.Some? ==> r.value < 64
  {
    if 'A' <= c <= 'Z' then Some(c as int - 65)
    else if 'a' <= c <= 'z' then Some(c as int - 97 + 26)
    else if '0' <= c <= '9' then Some(c as int - 48 + 52)
    else if c == '-' then Some(62)
    else if c == '_' then Some(63)
    else None
  }

  lemma IndexOfChar(i: nat)
    requires i < 64
    ensures Index64(Char64(i)) == Some(i) && Char64(i) != '='
  {}

  // The four six-bit numbers of three bytes, and the three bytes of four such numbers.
  function First6(a: Byte): (r: nat) ensures r < 64 { a / 4 }
  function Second6(a: Byte, b: Byte): (r: nat) ensures r < 64 { a % 4 * 16 + b / 16 }
  function Third6(b: Byte, c: Byte): (r: nat) ensures r < 64 { b % 16 * 4 + c / 64 }
  function Fourth6(c: Byte): (r: nat) ensures r < 64 { c % 64 }
  function First8(i: nat, j: nat): (r: Byte) requires i < 64 && j < 64 { i * 4 + j / 16 }
  function Second8(j: nat, k: nat): (r: Byte) requires j < 64 && k < 64 { j % 16 * 16 + k / 4 }
  function Third8(k: nat, l: nat): (r: Byte) requires k < 64 && l < 64 { k % 4 * 64 + l }

  lemma Regroups(a: Byte, b: Byte, c: Byte)
    ensures First8(First6(a), Second6(a, b)) == a
    ensures Second8(Second6(a, b), Third6(b, c)) == b
    ensures Third8(Third6(b, c), Fourth6(c)) == c
  {}

  /** urlsafe_b64encode: three bytes to four characters, the last group padded. */
  function Encode64(b: Bytes): string
    decreases |b|
  {
    if |b| == 0 then ""
    else if |b| == 1 then [Char64(First6(b[0])), Char64(Second6(b[0], 0)), '=', '=']
    else if |b| == 2 then
      [Char64(First6(b[0])), Char64(Second6(b[0], b[1])), Char64(Third6(b[1], 0)), '=']
    else
      [Char64(First6(b[0])), Char64(Second6(b[0], b[1])), Char64(Third6(b[1], b[2])), Char64(Fourth6(b[2]))]
      + Encode64(b[3..])
  }

  /** urlsafe_b64decode of padded text. */
  function Decode64(s: string): Option<Bytes>
    decreases |s|
  {
    if s == "" then Some([])
    else if |s| < 4 || Index64(s[0]).None? || Index64(s[1]).None? then None
    else
      var i, j := Index64(s[0]).value, Index64(s[1]).value;
      if |s| == 4 && s[2] == '=' && s[3] == '=' then Some([First8(i, j)])
      else if Index64(s[2]).None? then None
      else
        var k := Index64(s[2]).value;
        if |s| == 4 && s[3] == '=' then Some([First8(i, j), Second8(j, k)])
        else if Index64(s[3]).None? then None
        else
          match Decode64(s[4..])
          case None => None
          case Some(rest) => Some([First8(i, j), Second8(j, k), Third8(k, Index64(s[3]).value)] + rest)
  }

  function StripLeft(s: string): string { if s != "" && s[0] == '=' then StripLeft(s[1..]) else s }

  function StripRight(s: string): string { if s != "" && s[|s| - 1] == '=' then StripRight(s[..|s| - 1]) else s }

  /** b64_encode: .strip("="). */
  function B64Encode(b: Bytes): string { StripRight(StripLeft(Encode64(b))) }

  /** b64_decode: the padding is put back first. */
  function B64Decode(s: string): Option<Bytes> { Decode64(s + seq(Pad4(|s|), _ => '=')) }

  /** One group's four characters name their numbers, and those give the bytes back. */
  lemma GroupChars(a: Byte, b: Byte, c: Byte)
    ensures Index64(Char64(First6(a))) == Some(First6(a)) && Char64(First6(a)) != '='
    ensures Index64(Char64(Second6(a, b))) == Some(Second6(a, b)) && Char64(Second6(a, b)) != '='
    ensures Index64(Char64(Third6(b, c))) == Some(Third6(b, c)) && Char64(Third6(b, c)) != '='
    ensures Index64(Char64(Fourth6(c))) == Some(Fourth6(c)) && Char64(Fourth6(c)) != '='
    ensures First8(First6(a), Second6(a, b)) == a
    ensures Second8(Second6(a, b), Third6(b, c)) == b
    ensures Third8(Third6(b, c), Fourth6(c)) == c
  {
    hide Char64, Index64, First6, Second6, Third6, Fourth6, First8, Second8, Third8;
    Regroups(a, b, c);
    IndexOfChar(First6(a));
    IndexOfChar(Second6(a, b));
    IndexOfChar(Third6(b, c));
    IndexOfChar(Fourth6(c));
  }

  lemma {:induction false} Decode64Encode64(b: Bytes)
    ensures Decode64(Encode64(b)) == Some(b)
    decreases |b|
  {
    hide Char64, Index64, First6, Second6, Third6, Fourth6, First8, Second8, Third8;
    if |b| == 1 {
      GroupChars(b[0], 0, 0);
      assert b == [b[0]];
    } else if |b| == 2 {
      GroupChars(b[0], b[1], 0);
      assert b == [b[0], b[1]];
    } else if |b| >= 3 {
      GroupChars(b[0], b[1], b[2]);
      Decode64Encode64(b[3..]);
      assert Encode64(b)[4..] == Encode64(b[3..]);
      assert b == [b[0], b[1], b[2]] + b[3..];
    }
  }

  /** How many padding characters the encoding of n bytes ends in. */
  function Padding(n: nat): nat { (3 - n % 3) % 3 }

  /** Whole groups of alphabet characters, then the padding. */
  predicate Padded(s: string, n: nat) {
    && |s| % 4 == 0 && n <= |s| && n < 3
    && (forall k :: 0 <= k < |s| - n ==> Index64(s[k]).Some? && s[k] != '=')
    && (forall k :: |s| - n <= k < |s| ==> s[k] == '=')
  }

  lemma {:induction false} EncodeShape(b: Bytes)
    ensures Padded(Encode64(b), Padding(|b|))
    decreases |b|
  {
    hide Char64, Index64, First6, Second6, Third6, Fourth6, Padding;
    if |b| <= 2 { assert Padding(|b|) == if |b| == 0 then 0 else 3 - |b| by { PaddingShort(|b|); } }
    if |b| == 1 {
      GroupChars(b[0], 0, 0);
    } else if |b| == 2 {
      GroupChars(b[0], b[1], 0);
    } else if |b| >= 3 {
      EncodeShape(b[3..]);
      GroupChars(b[0], b[1], b[2]);
      PaddingSteps(|b|);
      GroupThenPadded(Encode64(b)[..4], Encode64(b[3..]), Padding(|b|));
      assert Encode64(b) == Encode64(b)[..4] + Encode64(b[3..]);
    }
  }

  lemma PaddingShort(n: nat)
    requires n <= 2
    ensures Padding(n) == if n == 0 then 0 else 3 - n
  {}

  lemma PaddingSteps(n: nat)
    requires n >= 3
    ensures Padding(n - 3) == Padding(n)
  {}

  lemma GroupThenPadded(g: string, s: string, n: nat)
    requires |g| == 4 && Padded(s, n)
    requires forall k :: 0 <= k < 4 ==> Index64(g[k]).Some? && g[k] != '='
    ensures Padded(g + s, n)
  {
    hide Index64;
    forall k | 0 <= k < |g + s| - n ensures Index64((g + s)[k]).Some? && (g + s)[k] != '=' {
      if k >= 4 { assert (g + s)[k] == s[k - 4]; }
    }
    forall k | |g + s| - n <= k < |g + s| ensures (g + s)[k] == '=' {
      assert (g + s)[k] == s[k - 4];
    }
  }

  lemma {:induction false} StripsPadding(s: string, n: nat)
    requires n <= |s| && forall k :: 0 <= k < |s| ==> (s[k] == '=' <==> k >= |s| - n)
    ensures StripRight(s) == s[..|s| - n]
    decreases n
  {
    if n > 0 {
      StripsPadding(s[..|s| - 1], n - 1);
    } else {
      assert s[..|s|] == s;
    }
  }

  /** Unpadded base64url decodes to what was encoded, for every byte string, and
      the text holds alphabet characters alone. */
  lemma B64RoundTrip(b: Bytes)
    ensures B64Decode(B64Encode(b)) == Some(b)
    ensures forall k :: 0 <= k < |B64Encode(b)| ==> Index64(B64Encode(b)[k]).Some?
  {
    hide Decode64, Encode64, Index64;
    var s, n := Encode64(b), Padding(|b|);
    EncodeShape(b);
    assert StripLeft(s) == s;
    StripsPadding(s, n);
    var t := s[..|s| - n];
    assert Pad4(|t|) == n;
    assert t + seq(n, _ => '=') == s;
    Decode64Encode64(b);
  }
}
