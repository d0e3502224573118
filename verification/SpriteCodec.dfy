/** The sprite run-length code: `_encode_rle` in host/tools/convert_sprite_sheet.py and the
    resumable decoder SpritePixels in device/src/render.rs. */
module SpriteCodec {
  import opened Common

  const MAX_RUN_LEN := 128
  const SOLID_RUN_FLAG := 0x80

  /** One pixel of a sprite: transparent, or a palette index. */
  type Index = Option<Byte>

  /** The command for a run of `n` pixels. */
  function Command(v: Index, n: int): seq<Byte>
    requires 1 <= n <= MAX_RUN_LEN
  {
    match v
    case None => [n - 1]
    case Some(p) => [SOLID_RUN_FLAG + (n - 1), p]
  }

  /** How long the run at the front of `s` is, but at most `cap`. */
  function RunLength(s: seq<Index>, cap: nat): (n: nat)
    ensures n <= cap && n <= |s|
    ensures forall i :: 0 <= i < n ==> s[i] == s[0]
    ensures n < cap && n < |s| ==> s[n] != s[0]
  {
    if s == [] || cap == 0 then 0
    else if |s| > 1 && s[1] == s[0] then 1 + RunLength(s[1..], cap - 1)
    else 1
  }

  function Encode(s: seq<Index>): seq<Byte>
    decreases |s|
  {
    if s == [] then []
    else
      var n := RunLength(s, MAX_RUN_LEN);
      Command(s[0], n) + Encode(s[n..])
  }

  ghost predicate IsRun(s: seq<Index>, n: nat) {
    && 1 <= n <= MAX_RUN_LEN && n <= |s|
    && (forall i :: 0 <= i < n ==> s[i] == s[0])
    && (n == |s| || n == MAX_RUN_LEN || s[n] != s[0])
  }

  lemma RunLengthUnique(s: seq<Index>, n: nat)
    requires IsRun(s, n)
    ensures RunLength(s, MAX_RUN_LEN) == n
  {
  }

  lemma EncodeStep(s: seq<Index>, n: nat)
    requires IsRun(s, n)
    ensures Encode(s) == Command(s[0], n) + Encode(s[n..])
  {
    RunLengthUnique(s, n);
  }

  /** `rest` is what is left to encode when `out` has been emitted. */
  ghost predicate ToGo(out: seq<Byte>, rest: seq<Index>, all: seq<Byte>) {
    out + Encode(rest) == all
  }

  lemma EncodeFrom(s: seq<Index>, pos: nat, n: nat)
    requires pos <= |s| && IsRun(s[pos..], n)
    ensures Encode(s[pos..]) == Command(s[pos], n) + Encode(s[pos + n..])
  {
    EncodeStep(s[pos..], n);
    assert s[pos..][n..] == s[pos + n..];
  }

  lemma OneMoreRun(out: seq<Byte>, s: seq<Index>, pos: nat, n: nat, bytes: seq<Byte>, all: seq<Byte>)
    requires pos <= |s| && IsRun(s[pos..], n) && ToGo(out, s[pos..], all)
    requires bytes == Command(s[pos], n)
    ensures ToGo(out + bytes, s[pos + n..], all)
  {
    EncodeFrom(s, pos, n);
    Regroup(out, bytes, Encode(s[pos + n..]));
  }

  lemma RunFound(s: seq<Index>, pos: nat, n: nat)
    requires 1 <= n <= MAX_RUN_LEN && pos + n <= |s| && (forall j :: pos <= j < pos + n ==> s[j] == s[pos])
    requires pos + n == |s| || n == MAX_RUN_LEN || s[pos + n] != s[pos]
    ensures IsRun(s[pos..], n)
  {
  }

  lemma RunSent(out: seq<Byte>, s: seq<Index>, pos: nat, n: nat, bytes: seq<Byte>, all: seq<Byte>)
    requires 1 <= n <= MAX_RUN_LEN && pos + n <= |s| && (forall j :: pos <= j < pos + n ==> s[j] == s[pos])
    requires pos + n == |s| || n == MAX_RUN_LEN || s[pos + n] != s[pos]
    requires ToGo(out, s[pos..], all) && bytes == Command(s[pos], n)
    ensures ToGo(out + bytes, s[pos + n..], all)
  {
    RunFound(s, pos, n);
    OneMoreRun(out, s, pos, n, bytes, all);
  }

  lemma FirstRun(s: seq<Index>)
    requires s != []
    ensures IsRun(s, RunLength(s, MAX_RUN_LEN))
  {
  }

  lemma NothingSent(s: seq<Index>)
    ensures ToGo([], s[0..], Encode(s))
  {
    assert s[0..] == s;
    assert [] + Encode(s) == Encode(s);
  }

  lemma AllSent(out: seq<Byte>, rest: seq<Index>, all: seq<Byte>)
    requires ToGo(out, rest, all) && rest == []
    ensures out == all
  {
    assert out + [] == out;
  }

  /** The bytes of one run. */
  method RunBytes(value: Index, runLen: nat) returns (bytes: seq<Byte>)
    requires 1 <= runLen <= MAX_RUN_LEN
    ensures bytes == Command(value, runLen)
  {
    match value {
      case None => bytes := [runLen - 1];
      case Some(p) => bytes := [SOLID_RUN_FLAG + (runLen - 1), p];
    }
  }

  /** The inner loop: the run that starts at `pos`, up to the longest a command can carry. */
  method CountRun(indices: seq<Index>, pos: nat) returns (runLen: nat)
    requires pos < |indices|
    ensures 1 <= runLen <= MAX_RUN_LEN && pos + runLen <= |indices|
    ensures forall j :: pos <= j < pos + runLen ==> indices[j] == indices[pos]
    ensures pos + runLen == |indices| || runLen == MAX_RUN_LEN || indices[pos + runLen] != indices[pos]
  {
    var value := indices[pos];
    runLen := 1;
    while pos + runLen < |indices| && runLen < MAX_RUN_LEN && indices[pos + runLen] == value
      invariant 1 <= runLen <= MAX_RUN_LEN && pos + runLen <= |indices|
      invariant forall j :: pos <= j < pos + runLen ==> indices[j] == value
    {
      runLen := runLen + 1;
    }
  }

  /** `_encode_rle` */
  method EncodeRle(indices: seq<Index>) returns (out: seq<Byte>)
    ensures out == Encode(indices)
  {
    out := [];
    var pos := 0;
    ghost var all := Encode(indices);
    NothingSent(indices);
    while pos < |indices|
      invariant 0 <= pos <= |indices|
      invariant ToGo(out, indices[pos..], all)
    {
      var runLen := CountRun(indices, pos);
      var bytes := RunBytes(indices[pos], runLen);
      RunSent(out, indices, pos, runLen, bytes, all);
      out := out + bytes;
      pos := pos + runLen;
    }
    AllSent(out, indices[pos..], all);
  }

  // ------------------------------------------------ decoding

  /** A coloured pixel: its row-major position and its palette index. */
  datatype Dot = Dot(at: int, color: Byte)

  function Dots(at: int, n: int, color: Byte): (d: seq<Dot>)
    ensures |d| == if n <= 0 then 0 else n
    ensures forall i :: 0 <= i < |d| ==> d[i] == Dot(at + i, color)
  {
    seq(if n <= 0 then 0 else n, i => Dot(at + i, color))
  }

  /** The run length a command byte carries. */
  function RunOf(command: Byte): int {
    command % SOLID_RUN_FLAG + 1
  }

  /** All the dots the decoder finds in `data`, from position `at` of a sprite of `total` pixels. */
  function Decode(data: seq<Byte>, total: int, at: int): seq<Dot>
    decreases |data|
  {
    if data == [] || at >= total then []
    else
      var n := RunOf(data[0]);
      if data[0] < SOLID_RUN_FLAG then Decode(data[1..], total, at + n)
      else if |data| == 1 then []
      else Dots(at, Min(n, total - at), data[1]) + Decode(data[2..], total, at + n)
  }

  /** The dots still to come with a solid run of `left` pixels in progress. */
  function Pending(data: seq<Byte>, total: int, at: int, left: int, color: Byte): seq<Dot> {
    Dots(at, Min(left, total - at), color) + Decode(data, total, at + left)
  }

  lemma PendingYields(data: seq<Byte>, total: int, at: int, left: int, color: Byte)
    requires left > 0 && at < total
    ensures Pending(data, total, at, left, color) == [Dot(at, color)] + Pending(data, total, at + 1, left - 1, color)
  {
    var n := Min(left, total - at);
    assert Dots(at, n, color) == [Dot(at, color)] + Dots(at + 1, n - 1, color);
  }

  /** Between runs, the next command decides. */
  lemma PendingReads(data: seq<Byte>, total: int, at: int, color: Byte)
    requires at < total && data != []
    ensures Pending(data, total, at, 0, color)
         == if data[0] < SOLID_RUN_FLAG then Pending(data[1..], total, at + RunOf(data[0]), 0, color)
            else if |data| == 1 then []
            else Pending(data[2..], total, at, RunOf(data[0]), data[1])
  {
  }

  lemma PendingReadsAt(data: seq<Byte>, pos: nat, total: int, at: int, color: Byte)
    requires at < total && pos < |data|
    ensures Pending(data[pos..], total, at, 0, color)
         == if data[pos] < SOLID_RUN_FLAG then Pending(data[pos + 1..], total, at + RunOf(data[pos]), 0, color)
            else if pos + 1 == |data| then []
            else Pending(data[pos + 2..], total, at, RunOf(data[pos]), data[pos + 1])
  {
    var tail := data[pos..];
    PendingReads(tail, total, at, color);
    assert tail[1..] == data[pos + 1..];
    if pos + 1 < |data| {
      assert tail[2..] == data[pos + 2..];
    }
  }

  lemma NothingPending(data: seq<Byte>, total: int, at: int, left: int, color: Byte)
    requires left >= 0 && (at >= total || (left == 0 && data == []))
    ensures Pending(data, total, at, left, color) == []
  {
  }

  /** The iterator SpritePixels, up to the change of coordinates and the palette. */
  class SpritePixels {
    const data: seq<Byte>
    const total: nat
    var dataPos: nat
    var pixelIndex: int
    var solidLeft: int
    var solidColor: Byte

    ghost predicate Valid()
      reads this
    {
      dataPos <= |data| && solidLeft >= 0
    }

    /** Everything this iterator has still to yield. */
    ghost function Rest(): seq<Dot>
      reads this
      requires Valid()
    {
      Pending(data[dataPos..], total, pixelIndex, solidLeft, solidColor)
    }

    constructor (data: seq<Byte>, total: nat)
      ensures Valid() && Rest() == Decode(data, total, 0)
    {
      this.data, this.total := data, total;
      dataPos, pixelIndex, solidLeft, solidColor := 0, 0, 0, 0;
      new;
      assert data[0..] == data;
      assert Dots(0, Min(0, total), 0) == [];
    }

    /** The part of the loop of `next` that looks at the data, between two runs. */
    method ReadCommand() returns (more: bool)
      requires Valid() && solidLeft == 0 && pixelIndex < total
      modifies this
      ensures Valid() && Rest() == old(Rest())
      ensures more ==> dataPos > old(dataPos)
      ensures !more ==> Rest() == []
    {
      if dataPos >= |data| {
        NothingPending(data[dataPos..], total, pixelIndex, 0, solidColor);
        return false;
      }
      PendingReadsAt(data, dataPos, total, pixelIndex, solidColor);
      var command := data[dataPos];
      dataPos := dataPos + 1;
      if command < SOLID_RUN_FLAG {
        pixelIndex := pixelIndex + RunOf(command);
        return true;
      }
      if dataPos >= |data| {
        NothingPending(data[dataPos..], total, pixelIndex, 0, solidColor);
        return false;
      }
      solidColor := data[dataPos];
      dataPos := dataPos + 1;
      solidLeft := RunOf(command);
      return true;
    }

    method Next() returns (dot: Option<Dot>)
      requires Valid()
      modifies this
      ensures Valid()
      ensures old(Rest()) == [] ==> dot == None && Rest() == []
      ensures old(Rest()) != [] ==> dot == Some(old(Rest())[0]) && Rest() == old(Rest())[1..]
    {
      while pixelIndex < total
        invariant Valid() && Rest() == old(Rest())
        decreases |data| - dataPos
      {
        if solidLeft > 0 {
          PendingYields(data[dataPos..], total, pixelIndex, solidLeft, solidColor);
          var local := pixelIndex;
          pixelIndex := pixelIndex + 1;
          solidLeft := solidLeft - 1;
          return Some(Dot(local, solidColor));
        }
        var more := ReadCommand();
        if !more {
          return None;
        }
      }
      NothingPending(data[dataPos..], total, pixelIndex, solidLeft, solidColor);
      return None;
    }
  }

  // ------------------------------------------------ main results

  /** The visible pixels of `s`, in order, counted from position `at`. */
  function Visible(s: seq<Index>, at: int): seq<Dot> {
    if s == [] then []
    else (if s[0].Some? then [Dot(at, s[0].value)] else []) + Visible(s[1..], at + 1)
  }

  lemma {:induction false} VisibleRun(s: seq<Index>, n: nat, at: int)
    requires n <= |s| && forall i :: 0 <= i < n ==> s[i] == s[0]
    ensures Visible(s, at) == (if n > 0 && s[0].Some? then Dots(at, n, s[0].value) else []) + Visible(s[n..], at + n)
    decreases n
  {
    if n > 0 {
      VisibleRun(s[1..], n - 1, at + 1);
      assert s[1..][n - 1..] == s[n..];
      if s[0].Some? {
        var d := Dots(at, n, s[0].value);
        assert d == [Dot(at, s[0].value)] + Dots(at + 1, n - 1, s[0].value);
      }
    }
  }

  lemma DecodeCommand(v: Index, n: int, rest: seq<Byte>, total: int, at: int)
    requires 1 <= n <= MAX_RUN_LEN && at + n <= total
    ensures Decode(Command(v, n) + rest, total, at)
         == (if v.Some? then Dots(at, n, v.value) else []) + Decode(rest, total, at + n)
  {
    var data := Command(v, n) + rest;
    if v.Some? {
      assert data[2..] == rest;
    } else {
      assert data[1..] == rest;
    }
  }

  ghost predicate Ascending(dots: seq<Dot>, from: int, to: int) {
    && (forall i :: 0 <= i < |dots| ==> from <= dots[i].at < to)
    && (forall i, j :: 0 <= i < j < |dots| ==> dots[i].at < dots[j].at)
  }

  /** Whatever the data, decoding ends, and its positions are in the box and strictly increasing. */
  lemma {:induction false} AnyDataAscends(data: seq<Byte>, total: int, at: int)
    ensures Ascending(Decode(data, total, at), at, total)
    decreases |data|
  {
    if data != [] && at < total {
      var n := RunOf(data[0]);
      if data[0] < SOLID_RUN_FLAG {
        AnyDataAscends(data[1..], total, at + n);
      } else if |data| > 1 {
        AnyDataAscends(data[2..], total, at + n);
      }
    }
  }

  // ------------------------------------------------ the greedy code is the shortest

  /** A stream that does not break off inside a command. */
  predicate Complete(data: seq<Byte>)
    decreases |data|
  {
    data == []
    || (data[0] < SOLID_RUN_FLAG && Complete(data[1..]))
    || (data[0] >= SOLID_RUN_FLAG && |data| >= 2 && Complete(data[2..]))
  }

  /** The first command of a complete stream: its value and its bytes. */
  function Head(data: seq<Byte>): Index
    requires data != [] && Complete(data)
  {
    if data[0] < SOLID_RUN_FLAG then None else Some(data[1])
  }

  function Width(v: Index): nat {
    if v == None then 1 else 2
  }

  function Repeat(v: Index, n: nat): (s: seq<Index>)
    ensures |s| == n && forall i :: 0 <= i < n ==> s[i] == v
  {
    seq(n, i => v)
  }

  /** The pixels a complete stream stands for. */
  function Expand(data: seq<Byte>): seq<Index>
    requires Complete(data)
    decreases |data|
  {
    if data == [] then []
    else Repeat(Head(data), RunOf(data[0])) + Expand(data[Width(Head(data))..])
  }

  lemma ExpandCommand(v: Index, n: int, tail: seq<Byte>)
    requires 1 <= n <= MAX_RUN_LEN && Complete(tail)
    ensures Complete(Command(v, n) + tail)
    ensures Expand(Command(v, n) + tail) == Repeat(v, n) + Expand(tail)
  {
    assert (Command(v, n) + tail)[Width(v)..] == tail;
  }

  lemma ExpandRun(s: seq<Index>, n: nat, tail: seq<Byte>)
    requires IsRun(s, n) && Complete(tail) && Expand(tail) == s[n..]
    ensures Complete(Command(s[0], n) + tail) && Expand(Command(s[0], n) + tail) == s
  {
    ExpandCommand(s[0], n, tail);
    assert Repeat(s[0], n) == s[..n];
  }

  /** The encoder's output is a complete stream for its input. */
  lemma {:induction false} ExpandEncode(s: seq<Index>)
    ensures Complete(Encode(s)) && Expand(Encode(s)) == s
    decreases |s|
  {
    if s != [] {
      var n := RunLength(s, MAX_RUN_LEN);
      FirstRun(s);
      EncodeStep(s, n);
      ExpandEncode(s[n..]);
      ExpandRun(s, n, Encode(s[n..]));
    }
  }

  lemma RunCovers(s: seq<Index>, k: nat)
    requires 1 <= k <= MAX_RUN_LEN && k <= |s| && forall i :: 0 <= i < k ==> s[i] == s[0]
    ensures RunLength(s, MAX_RUN_LEN) >= k
  {
  }

  /** The bytes the encoder spends. */
  function Cost(s: seq<Index>): nat {
    |Encode(s)|
  }

  /** Dropping pixels from the front never makes the code longer. */
  lemma {:induction false} ShorterSuffix(s: seq<Index>, i: nat)
    requires i <= |s|
    ensures Cost(s[i..]) <= Cost(s)
    decreases |s|, i
  {
    if i == 0 {
      assert s[0..] == s;
    } else {
      DropOne(s);
      ShorterSuffix(s[1..], i - 1);
      assert s[1..][i - 1..] == s[i..];
    }
  }

  lemma {:induction false} DropOne(s: seq<Index>)
    requires s != []
    ensures Cost(s[1..]) <= Cost(s)
    decreases |s|, 0
  {
    var n := RunLength(s, MAX_RUN_LEN);
    if n > 1 {
      var m := RunLength(s[1..], MAX_RUN_LEN);
      TwoRuns(s, n, m);
      ShorterSuffix(s[n..], m + 1 - n);
      SameSuffix(s, n, m);
    } else {
      FirstRun(s);
      EncodeCost(s, n);
    }
  }

  /** The run at the front, and the one at the front of the rest. */
  lemma TwoRuns(s: seq<Index>, n: nat, m: nat)
    requires s != [] && n == RunLength(s, MAX_RUN_LEN) > 1 && m == RunLength(s[1..], MAX_RUN_LEN)
    ensures n <= m + 1 <= |s|
    ensures Cost(s) == Width(s[0]) + Cost(s[n..]) && Cost(s[1..]) == Width(s[0]) + Cost(s[1..][m..])
  {
    FirstRun(s);
    EncodeCost(s, n);
    FirstRun(s[1..]);
    EncodeCost(s[1..], m);
    RunCovers(s[1..], n - 1);
  }

  lemma SameSuffix(s: seq<Index>, n: nat, m: nat)
    requires n <= m + 1 <= |s|
    ensures s[n..][m + 1 - n..] == s[1..][m..]
  {
  }

  /** A run at the front can be sent as one command, or absorbed in a longer one. */
  lemma FrontRunCost(s: seq<Index>, k: nat)
    requires 1 <= k <= MAX_RUN_LEN && k <= |s| && forall i :: 0 <= i < k ==> s[i] == s[0]
    ensures Cost(s) <= Width(s[0]) + Cost(s[k..])
  {
    var n := RunLength(s, MAX_RUN_LEN);
    FirstRun(s);
    EncodeCost(s, n);
    RunCovers(s, k);
    ShorterSuffix(s[k..], n - k);
    assert s[k..][n - k..] == s[n..];
  }

  lemma EncodeCost(s: seq<Index>, n: nat)
    requires IsRun(s, n)
    ensures Cost(s) == Width(s[0]) + Cost(s[n..])
  {
    EncodeStep(s, n);
  }

  /** No complete stream for the same pixels is shorter than what the encoder emits. */
  lemma {:induction false} GreedyIsShortest(data: seq<Byte>)
    requires Complete(data)
    ensures Cost(Expand(data)) <= |data|
    decreases |data|
  {
    if data != [] {
      var s, k := Expand(data), RunOf(data[0]);
      var rest := data[Width(Head(data))..];
      GreedyIsShortest(rest);
      assert s == Repeat(Head(data), k) + Expand(rest);
      assert s[k..] == Expand(rest);
      FrontRunCost(s, k);
    }
  }

  // ------------------------------------------------ the round trip

  /** Decoding gives the visible pixels of s. */
  ghost predicate Yields(data: seq<Byte>, total: int, at: int, s: seq<Index>) {
    Decode(data, total, at) == Visible(s, at)
  }

  lemma DecodeFront(v: Index, n: nat, tail: seq<Byte>, rest: seq<Index>, at: int)
    requires 1 <= n <= MAX_RUN_LEN
    requires Yields(tail, at + n + |rest|, at + n, rest)
    ensures Yields(Command(v, n) + tail, at + n + |rest|, at, Repeat(v, n) + rest)
  {
    var s := Repeat(v, n) + rest;
    assert s[n..] == rest;
    VisibleRun(s, n, at);
    DecodeCommand(v, n, tail, at + n + |rest|, at);
  }

  /** The decoder yields the visible pixels of what a complete stream stands for, in order. */
  lemma {:induction false} DecodeIsExpand(data: seq<Byte>, s: seq<Index>, at: int)
    requires Complete(data) && s == Expand(data)
    ensures Yields(data, at + |s|, at, s)
    decreases |data|
  {
    if data != [] {
      var v, n := Head(data), RunOf(data[0]);
      var tail := data[Width(v)..];
      assert data == Command(v, n) + tail;
      DecodeIsExpand(tail, Expand(tail), at + n);
      DecodeFront(v, n, tail, Expand(tail), at);
    }
  }

  lemma DecodeExpanded(data: seq<Byte>, s: seq<Index>)
    requires Complete(data) && s == Expand(data)
    ensures Yields(data, |s|, 0, s)
  {
    DecodeIsExpand(data, s, 0);
  }

  /** Decoding what was encoded gives back exactly the visible pixels, in order. */
  lemma DecodeEncode(s: seq<Index>)
    ensures Yields(Encode(s), |s|, 0, s)
  {
    ExpandEncode(s);
    DecodeExpanded(Encode(s), s);
  }
}
