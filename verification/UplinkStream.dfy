/** The host's reader: line buffer, attachment to a socket, and what reaches the touch sink
    (host/transport.py 212-244 and 271-294). */
module UplinkStream {
  import opened Common
  import opened LineText
  import opened UplinkWire
  import T = Touch

  const MAX_UPLINK_LINE_BYTES := 256
  const RECV_BYTES := 256

  // ------------------------------------------------ the sink

  /** What `parse` makes of a list of lines, the failures left out. */
  function Heard<A>(parse: string -> Option<A>, lines: seq<string>): seq<A>
    decreases |lines|
  {
    if lines == [] then []
    else (match parse(lines[0]) { case Some(g) => [g] case None => [] }) + Heard(parse, lines[1..])
  }

  lemma {:induction false} HeardAppend<A>(parse: string -> Option<A>, a: seq<string>, b: seq<string>)
    ensures Heard(parse, a + b) == Heard(parse, a) + Heard(parse, b)
    decreases |a|
  {
    if a == [] {
      assert a + b == b;
    } else {
      assert (a + b)[1..] == a[1..] + b;
      HeardAppend(parse, a[1..], b);
    }
  }

  /** With `heard` handed on, the lines of `text` make up the rest of `all`, and `tail` is what follows
      them. */
  ghost predicate ToHear<A>(parse: string -> Option<A>, all: seq<A>, tail: string, heard: seq<A>, text: string) {
    all == heard + Heard(parse, Lines(text)) && Rest(text) == tail
  }

  lemma OneLine<A>(parse: string -> Option<A>, all: seq<A>, tail: string, heard: seq<A>, text: string, i: nat)
    requires ToHear(parse, all, tail, heard, text) && '\n' in text && i == Newline(text)
    ensures i < |text| && ToHear(parse, all, tail, heard + Heard(parse, [text[..i]]), text[i + 1..])
  {
    CutAtNewline(text, i);
    HeardAppend(parse, [text[..i]], Lines(text[i + 1..]));
    Regroup(heard, Heard(parse, [text[..i]]), Heard(parse, Lines(text[i + 1..])));
  }

  lemma NothingToHear<A>(parse: string -> Option<A>, all: seq<A>, tail: string, heard: seq<A>, text: string)
    requires ToHear(parse, all, tail, heard, text) && '\n' !in text
    ensures heard == all && text == tail
  {
    NoLine(text);
    assert heard + [] == heard;
  }

  /** The values that are there. */
  function Somes<A>(list: seq<Option<A>>): seq<A>
    decreases |list|
  {
    if list == [] then [] else (if list[0].Some? then [list[0].value] else []) + Somes(list[1..])
  }

  /** Knowing what each line means is knowing what is heard. */
  lemma {:induction false} HeardEach<A>(parse: string -> Option<A>, lines: seq<string>, meant: seq<Option<A>>)
    requires |lines| == |meant| && forall i :: 0 <= i < |lines| ==> parse(lines[i]) == meant[i]
    ensures Heard(parse, lines) == Somes(meant)
    decreases |lines|
  {
    if lines != [] {
      HeardEach(parse, lines[1..], meant[1..]);
    }
  }

  // ------------------------------------------------ the reader object

  type Socket = nat

  /** What one recv comes to. */
  datatype Outcome = Data(bytes: string) | TimedOut | Failed

  /** One turn of the loop: the socket published at that moment, and what recv on it came to. */
  datatype Turn = Turn(current: Option<Socket>, outcome: Outcome)

  datatype Reading = Reading(attached: Option<Socket>, buffer: string)

  const DETACHED := Reading(None, "")

  function Keep(rest: string): string {
    if |rest| > MAX_UPLINK_LINE_BYTES then "" else rest
  }

  /** The buffer recv adds to: nothing is carried over from another socket. */
  function Carried(r: Reading, t: Turn): string {
    if t.current == r.attached then r.buffer else ""
  }

  function AfterTurn(r: Reading, t: Turn): Reading {
    if t.current == None then DETACHED
    else match t.outcome
      case TimedOut => Reading(t.current, Carried(r, t))
      case Failed => DETACHED
      case Data(bytes) => if bytes == "" then DETACHED else Reading(t.current, Keep(Rest(Carried(r, t) + bytes)))
  }

  /** The lines handled in one turn. */
  function TurnLines(r: Reading, t: Turn): seq<string> {
    if t.current.Some? && t.outcome.Data? && t.outcome.bytes != "" then Lines(Carried(r, t) + t.outcome.bytes) else []
  }

  /** The reader with the frame check it applies to each line, and what it has given to the sink. */
  class Reader<A> {
    const parse: string -> Option<A>
    var attached: Option<Socket>
    var buffer: string
    var heard: seq<A>

    constructor (parse: string -> Option<A>)
      ensures this.parse == parse && State() == DETACHED && heard == []
    {
      this.parse := parse;
      attached, buffer, heard := None, "", [];
    }

    function State(): Reading
      reads this
    {
      Reading(attached, buffer)
    }

    method HandleLine(raw: string)
      modifies this`heard
      ensures heard == old(heard) + Heard(parse, [raw])
    {
      var parsed := parse(raw);
      match parsed {
        case None =>
        case Some(g) => heard := heard + [g];
      }
    }

    method ConsumeLines(buffer0: string) returns (rest: string)
      modifies this`heard
      ensures heard == old(heard) + Heard(parse, Lines(buffer0))
      ensures rest == Keep(Rest(buffer0))
    {
      rest := buffer0;
      ghost var all := heard + Heard(parse, Lines(buffer0));
      while '\n' in rest
        invariant ToHear(parse, all, Rest(buffer0), heard, rest)
        decreases |rest|
      {
        var i := Newline(rest);
        OneLine(parse, all, Rest(buffer0), heard, rest, i);
        HandleLine(rest[..i]);
        rest := rest[i + 1..];
      }
      NothingToHear(parse, all, Rest(buffer0), heard, rest);
      if |rest| > MAX_UPLINK_LINE_BYTES {
        rest := "";
      }
    }

    method OneTurn(t: Turn)
      modifies this
      ensures State() == AfterTurn(old(State()), t)
      ensures heard == old(heard) + Heard(parse, TurnLines(old(State()), t))
    {
      if t.current == None {
        attached, buffer := None, "";
        return;
      }
      if t.current != attached {
        attached, buffer := t.current, "";
      }
      match t.outcome {
        case TimedOut =>
        case Failed =>
          attached, buffer := None, "";
        case Data(bytes) =>
          if bytes == "" {
            attached, buffer := None, "";
            assert Newline("") == 0;
          } else {
            buffer := ConsumeLines(buffer + bytes);
          }
      }
    }

    method Run(turns: seq<Turn>)
      modifies this
      ensures heard == HeardAfter(parse, old(heard), old(State()), turns)
      ensures State() == AfterRun(old(State()), turns)
    {
      for i := 0 to |turns|
        invariant HeardAfter(parse, old(heard), old(State()), turns) == HeardAfter(parse, heard, State(), turns[i..])
        invariant AfterRun(old(State()), turns) == AfterRun(State(), turns[i..])
      {
        OutcomeStep(parse, heard, State(), turns[i..]);
        assert turns[i..][1..] == turns[i + 1..];
        OneTurn(turns[i]);
      }
    }
  }

  /** What has been heard after a run of turns that starts in r with `heard`. */
  function HeardAfter<A>(parse: string -> Option<A>, heard: seq<A>, r: Reading, turns: seq<Turn>): seq<A> {
    heard + Heard(parse, LinesOfRun(r, turns))
  }

  lemma OutcomeStep<A>(parse: string -> Option<A>, heard: seq<A>, r: Reading, turns: seq<Turn>)
    requires turns != []
    ensures HeardAfter(parse, heard, r, turns)
         == HeardAfter(parse, heard + Heard(parse, TurnLines(r, turns[0])), AfterTurn(r, turns[0]), turns[1..])
  {
    HeardAppend(parse, TurnLines(r, turns[0]), LinesOfRun(AfterTurn(r, turns[0]), turns[1..]));
  }

  function LinesOfRun(r: Reading, turns: seq<Turn>): seq<string>
    decreases |turns|
  {
    if turns == [] then [] else TurnLines(r, turns[0]) + LinesOfRun(AfterTurn(r, turns[0]), turns[1..])
  }

  function AfterRun(r: Reading, turns: seq<Turn>): Reading
    decreases |turns|
  {
    if turns == [] then r else AfterRun(AfterTurn(r, turns[0]), turns[1..])
  }

  // ------------------------------------------------ main results

  /** A stretch of turns on one socket that neither fails nor ends. */
  predicate Live(turns: seq<Turn>, sock: Socket) {
    forall t <- turns :: t.current == Some(sock) && (t.outcome == TimedOut || IsReceive(t.outcome))
  }

  /** What one recv can return while the connection is up. */
  predicate IsReceive(o: Outcome) {
    o.Data? && 0 < |o.bytes| <= RECV_BYTES
  }

  /** The bytes received in a stretch. */
  function Received(turns: seq<Turn>): string
    decreases |turns|
  {
    if turns == [] then ""
    else (if turns[0].outcome.Data? then turns[0].outcome.bytes else "") + Received(turns[1..])
  }

  ghost predicate Within(lines: seq<string>, most: int) {
    forall i :: 0 <= i < |lines| ==> |lines[i]| <= most
  }

  lemma WithinAppend(a: seq<string>, b: seq<string>, most: int)
    ensures Within(a + b, most) <==> Within(a, most) && Within(b, most)
  {
    if Within(a + b, most) {
      assert forall i :: 0 <= i < |a| ==> a[i] == (a + b)[i];
      assert forall i :: 0 <= i < |b| ==> b[i] == (a + b)[|a| + i];
    }
  }

  /** No complete line of s is longer than `most`; what follows the last newline does not matter. */
  ghost predicate LinesWithin(s: string, most: int) {
    Within(Lines(s), most)
  }

  lemma {:induction false} RestIsInFront(s: string, more: string)
    requires '\n' !in s && Lines(s + more) != []
    ensures |s| <= |Lines(s + more)[0]|
  {
    var i := Newline(s + more);
    assert forall j :: 0 <= j < |s| ==> (s + more)[j] == s[j];
  }

  /** What has been read leaves a rest that either fits or is never completed. */
  lemma RestFits(s: string, more: string)
    requires LinesWithin(s + more, MAX_UPLINK_LINE_BYTES)
    ensures LinesWithin(Rest(s) + more, MAX_UPLINK_LINE_BYTES)
    ensures |Rest(s)| <= MAX_UPLINK_LINE_BYTES || Lines(Rest(s) + more) == []
  {
    LinesAppend(s, more);
    RestHasNoNewline(s);
    WithinAppend(Lines(s), Lines(Rest(s) + more), MAX_UPLINK_LINE_BYTES);
    if Lines(Rest(s) + more) != [] {
      RestIsInFront(Rest(s), more);
    }
  }

  lemma NoLinesNoNewline(s: string, more: string)
    requires Lines(s + more) == []
    ensures '\n' !in more
  {
    assert Newline(s + more) == |s + more|;
    assert forall j :: 0 <= j < |more| ==> more[j] == (s + more)[|s| + j];
  }

  lemma {:induction false} NothingComplete(turns: seq<Turn>, sock: Socket, buffer: string)
    requires Live(turns, sock) && '\n' !in buffer && '\n' !in Received(turns)
    ensures LinesOfRun(Reading(Some(sock), buffer), turns) == []
    decreases |turns|
  {
    if turns != [] {
      var r := Reading(Some(sock), buffer);
      assert turns[0] in turns;
      if turns[0].outcome.Data? {
        NoLine(buffer + turns[0].outcome.bytes);
      }
      NothingComplete(turns[1..], sock, AfterTurn(r, turns[0]).buffer);
    }
  }

  /** However a stream is cut into receives, and whatever timeouts come between: if no complete line is
      longer than the buffer, the reader handles exactly its complete lines. */
  lemma {:induction false} CutsDoNotMatter(turns: seq<Turn>, sock: Socket, buffer: string)
    requires Live(turns, sock) && '\n' !in buffer && LinesWithin(buffer + Received(turns), MAX_UPLINK_LINE_BYTES)
    ensures LinesOfRun(Reading(Some(sock), buffer), turns) == Lines(buffer + Received(turns))
    decreases |turns|
  {
    if turns == [] {
      NoLine(buffer);
      assert buffer + "" == buffer;
    } else {
      assert turns[0] in turns;
      if turns[0].outcome.TimedOut? {
        assert "" + Received(turns[1..]) == Received(turns[1..]);
        CutsDoNotMatter(turns[1..], sock, buffer);
      } else {
        ReceiveDoesNotMatter(turns, sock, buffer);
      }
    }
  }

  lemma {:induction false} ReceiveDoesNotMatter(turns: seq<Turn>, sock: Socket, buffer: string)
    requires Live(turns, sock) && '\n' !in buffer && LinesWithin(buffer + Received(turns), MAX_UPLINK_LINE_BYTES)
    requires turns != [] && turns[0].outcome.Data?
    ensures LinesOfRun(Reading(Some(sock), buffer), turns) == Lines(buffer + Received(turns))
    decreases |turns|, 0
  {
    assert turns[0] in turns;
    var got, more := buffer + turns[0].outcome.bytes, Received(turns[1..]);
    Regroup(buffer, turns[0].outcome.bytes, more);
    RestFits(got, more);
    RestHasNoNewline(got);
    if |Rest(got)| <= MAX_UPLINK_LINE_BYTES {
      CutsDoNotMatter(turns[1..], sock, Rest(got));
    } else {
      NoLinesNoNewline(Rest(got), more);
      NothingComplete(turns[1..], sock, "");
    }
    LinesAppend(got, more);
  }

  /** A new connection starts clean, whatever was left of earlier ones. */
  lemma NewConnectionStartsClean(r: Reading, turns: seq<Turn>, sock: Socket)
    requires Live(turns, sock) && r.attached != Some(sock) && turns != []
    ensures LinesOfRun(r, turns) == LinesOfRun(Reading(Some(sock), ""), turns)
  {
  }

  predicate AllOnDevice(pieces: seq<Option<T.Gesture>>) {
    forall i :: 0 <= i < |pieces| && pieces[i].Some? ==> OnDevice(pieces[i].value)
  }

  /** What the device writes: frames, and bare newlines between them. */
  function Written(pieces: seq<Option<T.Gesture>>): string
    requires AllOnDevice(pieces)
    decreases |pieces|
  {
    if pieces == [] then ""
    else (if pieces[0].Some? then FrameText(pieces[0].value) else "\n") + Written(pieces[1..])
  }

  lemma FrameIsShort(g: T.Gesture)
    requires OnDevice(g)
    ensures |FrameBody(g)| < INPUT_FRAME_CAPACITY && '\n' !in FrameBody(g)
  {
    EveryFrameFits(g);
    FrameIsPrintable(g);
  }

  lemma OneMoreWithin(line: string, more: string, most: int)
    requires '\n' !in line && |line| <= most && LinesWithin(more, most)
    ensures Lines(line + "\n" + more) == [line] + Lines(more) && LinesWithin(line + "\n" + more, most)
    ensures Rest(line + "\n" + more) == Rest(more)
  {
    FirstLine(line, more);
    WithinAppend([line], Lines(more), most);
  }

  /** A piece without its newline. */
  function PieceLine(p: Option<T.Gesture>): string
    requires p.Some? ==> OnDevice(p.value)
  {
    if p.Some? then FrameBody(p.value) else ""
  }

  lemma PieceIsRead(p: Option<T.Gesture>)
    requires p.Some? ==> OnDevice(p.value)
    ensures ParseInputFrame(PieceLine(p)) == p
  {
    if p.Some? {
      FrameIsRead(p.value);
    }
  }

  lemma PieceIsShort(p: Option<T.Gesture>)
    requires p.Some? ==> OnDevice(p.value)
    ensures '\n' !in PieceLine(p) && |PieceLine(p)| <= MAX_UPLINK_LINE_BYTES
  {
    if p.Some? {
      FrameIsShort(p.value);
    }
  }

  function PieceLines(pieces: seq<Option<T.Gesture>>): seq<string>
    requires AllOnDevice(pieces)
  {
    seq(|pieces|, i requires 0 <= i < |pieces| => PieceLine(pieces[i]))
  }

  lemma {:induction false} WrittenLines(pieces: seq<Option<T.Gesture>>)
    requires AllOnDevice(pieces)
    ensures Lines(Written(pieces)) == PieceLines(pieces) && Rest(Written(pieces)) == ""
    ensures LinesWithin(Written(pieces), MAX_UPLINK_LINE_BYTES)
    decreases |pieces|
  {
    if pieces != [] {
      var line, more := PieceLine(pieces[0]), Written(pieces[1..]);
      WrittenLines(pieces[1..]);
      PieceIsShort(pieces[0]);
      WrittenFirst(pieces);
      OneMoreWithin(line, more, MAX_UPLINK_LINE_BYTES);
      FirstPiece(pieces);
    }
  }

  lemma FirstPiece(pieces: seq<Option<T.Gesture>>)
    requires AllOnDevice(pieces) && pieces != []
    ensures PieceLines(pieces) == [PieceLine(pieces[0])] + PieceLines(pieces[1..])
  {
  }

  lemma WrittenFirst(pieces: seq<Option<T.Gesture>>)
    requires AllOnDevice(pieces) && pieces != []
    ensures Written(pieces) == PieceLine(pieces[0]) + "\n" + Written(pieces[1..])
  {
    assert "" + "\n" == "\n";
  }

  /** From the touch pad to the sink: over a connection that has just come up, any list of gestures,
      written as frames with bare newlines anywhere between them and cut into receives in any way,
      reaches the sink as that list in that order. */
  lemma UplinkRoundTrip(r: Reading, turns: seq<Turn>, sock: Socket, pieces: seq<Option<T.Gesture>>)
    requires AllOnDevice(pieces)
    requires Live(turns, sock) && r.attached != Some(sock) && Received(turns) == Written(pieces)
    ensures Heard(ParseInputFrame, LinesOfRun(r, turns)) == Somes(pieces)
  {
    WrittenLines(pieces);
    CutsNeverMatterExactlyForShortLines(r, sock, Written(pieces));
    forall i | 0 <= i < |pieces|
      ensures ParseInputFrame(PieceLines(pieces)[i]) == pieces[i]
    {
      PieceIsRead(pieces[i]);
    }
    HeardEach(ParseInputFrame, PieceLines(pieces), pieces);
  }

  // ------------------------------------------------ exactly when the cuts matter

  function Got(sock: Socket, bytes: string): Turn {
    Turn(Some(sock), Data(bytes))
  }

  /** The stream one byte at a time. */
  function ByteTurns(sock: Socket, s: string): (turns: seq<Turn>)
    ensures Live(turns, sock)
    decreases |s|
  {
    if s == "" then [] else [Got(sock, s[..1])] + ByteTurns(sock, s[1..])
  }

  lemma {:induction false} ReceivedInFront(t: Turn, turns: seq<Turn>)
    ensures Received([t] + turns) == (if t.outcome.Data? then t.outcome.bytes else "") + Received(turns)
    ensures forall r :: LinesOfRun(r, [t] + turns) == TurnLines(r, t) + LinesOfRun(AfterTurn(r, t), turns)
  {
    assert ([t] + turns)[1..] == turns;
  }

  lemma {:induction false} BytesReceived(sock: Socket, s: string)
    ensures Received(ByteTurns(sock, s)) == s
    decreases |s|
  {
    if s != "" {
      ReceivedInFront(Got(sock, s[..1]), ByteTurns(sock, s[1..]));
      BytesReceived(sock, s[1..]);
    }
  }

  lemma OneByteTurn(sock: Socket, buffer: string, c: char)
    requires '\n' !in buffer && |buffer| <= MAX_UPLINK_LINE_BYTES
    ensures var r := Reading(Some(sock), buffer);
            && TurnLines(r, Got(sock, [c])) == (if c == '\n' then [buffer] else [])
            && AfterTurn(r, Got(sock, [c])).attached == Some(sock)
            && '\n' !in AfterTurn(r, Got(sock, [c])).buffer
            && |AfterTurn(r, Got(sock, [c])).buffer| <= MAX_UPLINK_LINE_BYTES
  {
    NoLine("");
    if c == '\n' {
      assert buffer + [c] == buffer + "\n" + "";
      FirstLine(buffer, "");
    } else {
      NoLine(buffer + [c]);
    }
  }

  /** Byte by byte no line longer than the buffer is ever handled. */
  lemma {:induction false} BytesHandleShortLines(sock: Socket, s: string, buffer: string)
    requires '\n' !in buffer && |buffer| <= MAX_UPLINK_LINE_BYTES
    ensures Within(LinesOfRun(Reading(Some(sock), buffer), ByteTurns(sock, s)), MAX_UPLINK_LINE_BYTES)
    decreases |s|
  {
    if s != "" {
      var r := Reading(Some(sock), buffer);
      assert s[..1] == [s[0]];
      OneByteTurn(sock, buffer, s[0]);
      ReceivedInFront(Got(sock, s[..1]), ByteTurns(sock, s[1..]));
      BytesHandleShortLines(sock, s[1..], AfterTurn(r, Got(sock, [s[0]])).buffer);
    }
  }

  /** Every way of receiving s on a connection that has just come up handles exactly its lines. */
  ghost predicate EveryCutAgrees(r: Reading, sock: Socket, s: string) {
    forall turns :: Live(turns, sock) && Received(turns) == s ==> LinesOfRun(r, turns) == Lines(s)
  }

  lemma LinesFromStart(r: Reading, turns: seq<Turn>, sock: Socket)
    requires Live(turns, sock) && r.attached != Some(sock)
    ensures LinesOfRun(r, turns) == LinesOfRun(Reading(Some(sock), ""), turns)
  {
    if turns != [] {
      NewConnectionStartsClean(r, turns, sock);
    }
  }

  /** The cuts never matter exactly when no complete line is longer than the buffer, 256 bytes. */
  lemma CutsNeverMatterExactlyForShortLines(r: Reading, sock: Socket, s: string)
    requires r.attached != Some(sock)
    ensures EveryCutAgrees(r, sock, s) <==> LinesWithin(s, MAX_UPLINK_LINE_BYTES)
  {
    if LinesWithin(s, MAX_UPLINK_LINE_BYTES) {
      forall turns | Live(turns, sock) && Received(turns) == s
        ensures LinesOfRun(r, turns) == Lines(s)
      {
        assert "" + s == s;
        CutsDoNotMatter(turns, sock, "");
        LinesFromStart(r, turns, sock);
      }
    }
    if EveryCutAgrees(r, sock, s) {
      BytesReceived(sock, s);
      BytesHandleShortLines(sock, s, "");
      LinesFromStart(r, ByteTurns(sock, s), sock);
    }
  }

  // ------------------------------------------------ lines no cut can save

  /** The longest line that can be handled whole: a full buffer, and a receive that ends it. */
  const LONGEST_LINE := MAX_UPLINK_LINE_BYTES + RECV_BYTES - 1

  lemma {:induction false} LinesAreShorter(s: string)
    ensures LinesWithin(s, |s| - 1)
    decreases |s|
  {
    var i := Newline(s);
    if i < |s| {
      LinesAreShorter(s[i + 1..]);
    }
  }

  lemma OneTurnHandles(t: Turn, sock: Socket, buffer: string)
    requires Live([t], sock) && '\n' !in buffer && |buffer| <= MAX_UPLINK_LINE_BYTES
    ensures var r := Reading(Some(sock), buffer);
            && Within(TurnLines(r, t), LONGEST_LINE)
            && AfterTurn(r, t).attached == Some(sock) && '\n' !in AfterTurn(r, t).buffer
            && |AfterTurn(r, t).buffer| <= MAX_UPLINK_LINE_BYTES
  {
    assert t in [t];
    if t.outcome.Data? {
      LinesAreShorter(buffer + t.outcome.bytes);
      RestHasNoNewline(buffer + t.outcome.bytes);
    }
  }

  lemma {:induction false} HandledLinesAreBounded(turns: seq<Turn>, sock: Socket, buffer: string)
    requires Live(turns, sock) && '\n' !in buffer && |buffer| <= MAX_UPLINK_LINE_BYTES
    ensures Within(LinesOfRun(Reading(Some(sock), buffer), turns), LONGEST_LINE)
    decreases |turns|
  {
    if turns != [] {
      OneTurnHandles(turns[0], sock, buffer);
      HandledLinesAreBounded(turns[1..], sock, AfterTurn(Reading(Some(sock), buffer), turns[0]).buffer);
    }
  }

  /** The receives of one line and its newline, in one piece or with a full buffer first. */
  function LineTurns(sock: Socket, line: string): seq<Turn> {
    if |line| < RECV_BYTES then [Got(sock, line + "\n")]
    else [Got(sock, line[..MAX_UPLINK_LINE_BYTES]), Got(sock, line[MAX_UPLINK_LINE_BYTES..] + "\n")]
  }

  /** A way of receiving s that keeps its lines whole where that is possible. */
  function WholeTurns(sock: Socket, s: string): seq<Turn>
    decreases |s|
  {
    var i := Newline(s);
    if i == |s| then ByteTurns(sock, s) else LineTurns(sock, s[..i]) + WholeTurns(sock, s[i + 1..])
  }

  lemma LineIsWhole(sock: Socket, line: string, more: seq<Turn>)
    requires '\n' !in line && |line| <= LONGEST_LINE
    ensures Live(LineTurns(sock, line), sock)
    ensures Received(LineTurns(sock, line) + more) == line + "\n" + Received(more)
    ensures LinesOfRun(Reading(Some(sock), ""), LineTurns(sock, line) + more)
         == [line] + LinesOfRun(Reading(Some(sock), ""), more)
  {
    var r := Reading(Some(sock), "");
    if |line| < RECV_BYTES {
      ReceivedInFront(Got(sock, line + "\n"), more);
      TurnReads(sock, "", line);
      assert "" + line == line;
    } else {
      var a, b := line[..MAX_UPLINK_LINE_BYTES], line[MAX_UPLINK_LINE_BYTES..];
      TwoPieces(sock, a, b, more);
      assert a + b == line;
    }
  }

  lemma TwoPieces(sock: Socket, a: string, b: string, more: seq<Turn>)
    requires '\n' !in a + b && |a| == MAX_UPLINK_LINE_BYTES
    ensures var turns := [Got(sock, a), Got(sock, b + "\n")] + more;
            && Received(turns) == a + b + "\n" + Received(more)
            && LinesOfRun(Reading(Some(sock), ""), turns) == [a + b] + LinesOfRun(Reading(Some(sock), ""), more)
  {
    var second := [Got(sock, b + "\n")] + more;
    assert [Got(sock, a), Got(sock, b + "\n")] + more == [Got(sock, a)] + second;
    ReceivedInFront(Got(sock, a), second);
    ReceivedInFront(Got(sock, b + "\n"), more);
    BufferFills(sock, a, b);
    TurnReads(sock, a, b);
    TwoRegrouped(a, b, Received(more));
  }

  lemma TwoRegrouped(a: string, b: string, c: string)
    ensures a + (b + "\n" + c) == a + b + "\n" + c
  {
  }

  lemma BufferFills(sock: Socket, a: string, b: string)
    requires '\n' !in a + b && |a| == MAX_UPLINK_LINE_BYTES
    ensures var r := Reading(Some(sock), "");
            TurnLines(r, Got(sock, a)) == [] && AfterTurn(r, Got(sock, a)) == Reading(Some(sock), a)
  {
    assert forall j :: 0 <= j < |a| ==> a[j] == (a + b)[j];
    NoLine(a);
    assert "" + a == a;
  }

  lemma TurnReads(sock: Socket, a: string, b: string)
    requires '\n' !in a + b
    ensures TurnLines(Reading(Some(sock), a), Got(sock, b + "\n")) == [a + b]
    ensures AfterTurn(Reading(Some(sock), a), Got(sock, b + "\n")) == Reading(Some(sock), "")
  {
    assert a + (b + "\n") == (a + b) + "\n" + "";
    NoLine("");
    FirstLine(a + b, "");
  }

  lemma LiveAppend(a: seq<Turn>, b: seq<Turn>, sock: Socket)
    requires Live(a, sock) && Live(b, sock)
    ensures Live(a + b, sock)
  {
  }

  /** The turns receive s and keep its lines whole. */
  ghost predicate KeepsWhole(sock: Socket, s: string, turns: seq<Turn>) {
    && Live(turns, sock) && Received(turns) == s
    && LinesOfRun(Reading(Some(sock), ""), turns) == Lines(s)
  }

  lemma OneMoreWhole(sock: Socket, line: string, rest: string, turns: seq<Turn>)
    requires '\n' !in line && |line| <= LONGEST_LINE && KeepsWhole(sock, rest, turns)
    ensures KeepsWhole(sock, line + "\n" + rest, LineTurns(sock, line) + turns)
  {
    LineIsWhole(sock, line, turns);
    LiveAppend(LineTurns(sock, line), turns, sock);
    FirstLine(line, rest);
  }

  lemma FirstOfLines(s: string, i: nat, most: int)
    requires i == Newline(s) < |s| && LinesWithin(s, most)
    ensures |s[..i]| <= most && LinesWithin(s[i + 1..], most) && s[..i] + "\n" + s[i + 1..] == s
  {
    CutAtNewline(s, i);
    FirstOfWithin(s[..i], Lines(s[i + 1..]), most);
    Rejoined(s, i);
  }

  lemma Rejoined(s: string, i: nat)
    requires i < |s| && s[i] == '\n'
    ensures s[..i] + "\n" + s[i + 1..] == s
  {
  }

  lemma FirstOfWithin(line: string, more: seq<string>, most: int)
    requires Within([line] + more, most)
    ensures |line| <= most && Within(more, most)
  {
    WithinAppend([line], more, most);
    assert [line][0] == line;
  }

  lemma {:induction false} LinesAreWhole(sock: Socket, s: string)
    requires LinesWithin(s, LONGEST_LINE)
    ensures KeepsWhole(sock, s, WholeTurns(sock, s))
    decreases |s|
  {
    var i := Newline(s);
    if i == |s| {
      BytesReceived(sock, s);
      NothingComplete(ByteTurns(sock, s), sock, "");
    } else {
      FirstOfLines(s, i, LONGEST_LINE);
      LinesAreWhole(sock, s[i + 1..]);
      OneMoreWhole(sock, s[..i], s[i + 1..], WholeTurns(sock, s[i + 1..]));
    }
  }

  /** Some way of receiving s on a connection that has just come up handles exactly its lines. */
  ghost predicate SomeCutAgrees(r: Reading, sock: Socket, s: string) {
    exists turns :: Live(turns, sock) && Received(turns) == s && LinesOfRun(r, turns) == Lines(s)
  }

  /** Some cutting keeps all lines whole exactly when none is longer than 511 bytes; a longer one is
      never handled as it was sent. */
  lemma SomeCutAgreesExactlyUpToLongest(r: Reading, sock: Socket, s: string)
    requires r.attached != Some(sock)
    ensures SomeCutAgrees(r, sock, s) <==> LinesWithin(s, LONGEST_LINE)
  {
    if LinesWithin(s, LONGEST_LINE) {
      LinesAreWhole(sock, s);
      LinesFromStart(r, WholeTurns(sock, s), sock);
    }
    if SomeCutAgrees(r, sock, s) {
      var turns :| Live(turns, sock) && Received(turns) == s && LinesOfRun(r, turns) == Lines(s);
      LinesFromStart(r, turns, sock);
      HandledLinesAreBounded(turns, sock, "");
    }
  }
}
