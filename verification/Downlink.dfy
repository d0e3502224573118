/** The downlink: behavior lines and keepalives written by the host, and the device's byte loop that
    cuts the stream into frames (device/src/bin/main.rs 328-382, host/protocol.py 66-78,
    host/transport.py 132-167). Octets are the characters with their codes. */
module Downlink {
  import opened Common
  import opened LineText
  import opened Behavior
  import W = UplinkWire

  const FRAME_CAPACITY := 256

  // ------------------------------------------------ reference

  function WithoutCr(s: string): (r: string)
    ensures |r| <= |s|
    decreases |s|
  {
    if s == "" then ""
    else WithoutCr(s[..|s| - 1]) + (if s[|s| - 1] == '\r' then "" else [s[|s| - 1]])
  }

  /** The lines that are handled: carriage returns removed, and the overlong ones left out. */
  function Fitting(lines: seq<string>): seq<string>
    decreases |lines|
  {
    if lines == [] then []
    else
      var last := WithoutCr(lines[|lines| - 1]);
      Fitting(lines[..|lines| - 1]) + (if |last| <= FRAME_CAPACITY then [last] else [])
  }

  /** The frames in a stream of bytes. */
  function Frames(stream: string): seq<string> {
    Fitting(Lines(stream))
  }

  // ------------------------------------------------ the byte loop

  class ControlReader {
    const frame: array<char>
    var frameLen: nat
    var droppingLine: bool
    var handled: seq<string>
    /** All bytes of the connection so far. */
    ghost var stream: string

    ghost predicate Valid()
      reads this, frame
    {
      && frame.Length == FRAME_CAPACITY && frameLen <= FRAME_CAPACITY
      && Stands(stream, frame[..frameLen], droppingLine, handled)
    }

    constructor ()
      ensures Valid() && stream == "" && fresh(frame)
    {
      frame := new char[FRAME_CAPACITY];
      frameLen, droppingLine, handled, stream := 0, false, [], "";
    }

    method TakeByte(byte: char)
      requires Valid()
      modifies this, frame
      ensures Valid() && stream == old(stream) + [byte]
    {
      OneByte(stream, frame[..frameLen], droppingLine, handled, byte);
      stream := stream + [byte];
      if byte == '\r' {
        return;
      }
      if byte == '\n' {
        if !droppingLine {
          handled := handled + [frame[..frameLen]];
        }
        frameLen := 0;
        droppingLine := false;
        return;
      }
      if droppingLine {
        return;
      }
      if frameLen < frame.Length {
        frame[frameLen] := byte;
        frameLen := frameLen + 1;
        assert frame[..frameLen] == old(frame[..frameLen]) + [byte];
      } else {
        droppingLine := true;
      }
    }

    /** One read: whatever bytes came, possibly the middle of a frame. */
    method Take(bytes: string)
      requires Valid()
      modifies this, frame
      ensures Valid() && stream == old(stream) + bytes
      ensures handled == Frames(old(stream) + bytes)
    {
      for i := 0 to |bytes|
        invariant Valid() && stream == old(stream) + bytes[..i]
      {
        TakeByte(bytes[i]);
        OneLonger(bytes, i);
      }
      assert bytes[..|bytes|] == bytes;
    }
  }

  /** A whole connection, in whatever pieces it arrives: the frames handled are those of the stream. */
  method ReadControlStream(received: seq<string>) returns (handled: seq<string>)
    ensures handled == Frames(Flatten(received))
  {
    var r := new ControlReader();
    for i := 0 to |received|
      invariant fresh(r) && fresh(r.frame) && r.Valid() && r.stream == Flatten(received[..i])
    {
      r.Take(received[i]);
      OneLonger(received, i);
      FlattenAppend(received[..i], [received[i]]);
      assert Flatten([received[i]]) == received[i];
    }
    assert received[..|received|] == received;
    handled := r.handled;
  }

  /** The frame buffer and flag stand for the text `line` of the unfinished line. */
  predicate Holds(line: string, buffer: string, dropping: bool) {
    if |line| <= FRAME_CAPACITY then buffer == line && !dropping
    else buffer == line[..FRAME_CAPACITY] && dropping
  }

  /** What the object holds after `stream`. */
  predicate Stands(stream: string, buffer: string, dropping: bool, handled: seq<string>) {
    Holds(WithoutCr(Rest(stream)), buffer, dropping) && handled == Frames(stream)
  }

  lemma OneByte(stream: string, buffer: string, dropping: bool, handled: seq<string>, byte: char)
    requires Stands(stream, buffer, dropping, handled)
    ensures byte == '\n' ==> Stands(stream + [byte], "", false, handled + (if dropping then [] else [buffer]))
    ensures byte == '\r' ==> Stands(stream + [byte], buffer, dropping, handled)
    ensures byte != '\n' && byte != '\r' ==>
      if !dropping && |buffer| < FRAME_CAPACITY then Stands(stream + [byte], buffer + [byte], false, handled)
      else Stands(stream + [byte], buffer, true, handled)
  {
    ByteInLine(stream, byte);
    var line := WithoutCr(Rest(stream));
    assert line + "" == line;
  }

  lemma ByteInLine(stream: string, byte: char)
    ensures byte == '\n' ==> Rest(stream + [byte]) == ""
    ensures Frames(stream + [byte]) == Frames(stream) + (if byte == '\n' then Fitting([Rest(stream)]) else [])
    ensures byte != '\n' ==>
      WithoutCr(Rest(stream + [byte])) == WithoutCr(Rest(stream)) + (if byte == '\r' then "" else [byte])
  {
    if byte == '\n' {
      NewlineEndsLine(stream);
    } else {
      ByteJoinsLine(stream, byte);
      OneMoreChar(Rest(stream), byte);
    }
  }

  lemma NewlineEndsLine(stream: string)
    ensures Rest(stream + "\n") == "" && Frames(stream + "\n") == Frames(stream) + Fitting([Rest(stream)])
  {
    var line := Rest(stream);
    LinesAppend(stream, "\n");
    RestHasNoNewline(stream);
    assert line + "\n" == line + "\n" + "";
    FirstLine(line, "");
    NoLine("");
    FittingAppend(Lines(stream), line);
  }

  lemma ByteJoinsLine(stream: string, byte: char)
    requires byte != '\n'
    ensures Rest(stream + [byte]) == Rest(stream) + [byte] && Frames(stream + [byte]) == Frames(stream)
  {
    LinesAppend(stream, [byte]);
    RestHasNoNewline(stream);
    NoLine(Rest(stream) + [byte]);
    assert Lines(stream) + [] == Lines(stream);
  }

  lemma OneMoreChar(line: string, byte: char)
    ensures WithoutCr(line + [byte]) == WithoutCr(line) + (if byte == '\r' then "" else [byte])
  {
    assert (line + [byte])[..|line|] == line;
  }

  lemma FittingAppend(lines: seq<string>, line: string)
    ensures Fitting(lines + [line]) == Fitting(lines) + Fitting([line])
  {
    assert (lines + [line])[..|lines|] == lines;
  }

  // ------------------------------------------------ what the host writes

  /** JSON string escapes for printable ASCII. */
  function Escaped(s: string): (r: string)
    ensures |r| <= 2 * |s|
    decreases |s|
  {
    if s == "" then ""
    else (if s[0] == '"' || s[0] == '\\' then ['\\', s[0]] else [s[0]]) + Escaped(s[1..])
  }

  lemma {:induction false} EscapedIsPrintable(s: string)
    requires Printable(s)
    ensures Printable(Escaped(s))
    decreases |s|
  {
    if s != "" {
      EscapedIsPrintable(s[1..]);
    }
  }

  /** What a JSON reader makes of the inside of a string with such escapes (section 7 of RFC 8259): nothing if a
      quote stands bare or a backslash escapes neither a quote nor a backslash. */
  function Unescaped(s: string): Option<string>
    decreases |s|
  {
    if s == "" then Some("")
    else if s[0] == '"' || (s[0] == '\\' && (|s| == 1 || (s[1] != '"' && s[1] != '\\'))) then None
    else
      var n := if s[0] == '\\' then 2 else 1;
      match Unescaped(s[n..])
      case None => None
      case Some(rest) => Some([s[n - 1]] + rest)
  }

  /** Escaping is undone by reading, so no text can end its string early. */
  lemma {:induction false} EscapeIsUndone(s: string)
    ensures Unescaped(Escaped(s)) == Some(s)
    decreases |s|
  {
    if s != "" {
      EscapeIsUndone(s[1..]);
      var n := if s[0] == '"' || s[0] == '\\' then 2 else 1;
      assert Escaped(s)[n..] == Escaped(s[1..]);
      assert [s[0]] + s[1..] == s;
    }
  }

  /** One more member of an object. */
  function JsonMember(key: string, value: string): string {
    ",\"" + key + "\":" + value
  }

  function JsonBool(b: bool): string {
    if b then "true" else "false"
  }

  /** to_json_line without its newline. */
  function CommandLine(c: Command): string
    requires c.durationMs >= 0
  {
    "{\"v\":1,\"kind\":\"behavior\""
    + (JsonMember("mood", W.Quoted(MoodName(c.mood)))
    + (JsonMember("animation", W.Quoted(AnimationName(c.animation)))
    + (JsonMember("text", W.Quoted(Escaped(TextOf(c))))
    + (JsonMember("alert", JsonBool(c.alert))
    + (JsonMember("duration_ms", W.Decimal(c.durationMs)) + "}")))))
  }

  /** Printable, and not too long. */
  predicate Fits(s: string, most: int) {
    Printable(s) && |s| <= most
  }

  lemma JoinFits(a: string, m: int, b: string, n: int)
    requires Fits(a, m) && Fits(b, n)
    ensures Fits(a + b, m + n)
  {
  }

  lemma MemberFits(key: string, k: int, value: string, n: int)
    requires Fits(key, k) && Fits(value, n)
    ensures Fits(JsonMember(key, value), k + n + 4)
  {
  }

  lemma QuotedFits(s: string, n: int)
    requires Fits(s, n)
    ensures Fits(W.Quoted(s), n + 2)
  {
  }

  lemma NamesArePrintable(m: Mood, a: Animation)
    ensures Printable(MoodName(m)) && |MoodName(m)| <= 7
    ensures Printable(AnimationName(a)) && |AnimationName(a)| <= 11
  {
  }

  lemma NameMembersFit(c: Command)
    ensures Fits(JsonMember("mood", W.Quoted(MoodName(c.mood))), 17)
    ensures Fits(JsonMember("animation", W.Quoted(AnimationName(c.animation))), 26)
  {
    NamesArePrintable(c.mood, c.animation);
    QuotedFits(MoodName(c.mood), 7);
    QuotedFits(AnimationName(c.animation), 11);
    MemberFits("mood", 4, W.Quoted(MoodName(c.mood)), 9);
    MemberFits("animation", 9, W.Quoted(AnimationName(c.animation)), 13);
  }

  lemma OtherMembersFit(c: Command)
    requires HostValid(c)
    ensures Fits(JsonMember("text", W.Quoted(Escaped(TextOf(c)))), 58)
    ensures Fits(JsonMember("alert", JsonBool(c.alert)), 14)
    ensures Fits(JsonMember("duration_ms", W.Decimal(c.durationMs)), 20)
  {
    EscapedIsPrintable(TextOf(c));
    W.DecimalIsPrintable(c.durationMs);
    assert W.Power10(5) == 10 * W.Power10(4);
    assert W.Power10(4) == 10_000;
    W.DecimalLength(c.durationMs, 5, W.Power10(5));
    QuotedFits(Escaped(TextOf(c)), 48);
    MemberFits("text", 4, W.Quoted(Escaped(TextOf(c))), 50);
    MemberFits("alert", 5, JsonBool(c.alert), 5);
    MemberFits("duration_ms", 11, W.Decimal(c.durationMs), 5);
  }

  /** A validated command makes one line that the device can hold, with nothing in it that the byte
      loop would cut or drop. */
  lemma LineFits(c: Command)
    requires HostValid(c)
    ensures Fits(CommandLine(c), 160)
  {
    NameMembersFit(c);
    OtherMembersFit(c);
    FiveFit(JsonMember("mood", W.Quoted(MoodName(c.mood))),
            JsonMember("animation", W.Quoted(AnimationName(c.animation))),
            JsonMember("text", W.Quoted(Escaped(TextOf(c)))), JsonMember("alert", JsonBool(c.alert)),
            JsonMember("duration_ms", W.Decimal(c.durationMs)));
    JoinFits("{\"v\":1,\"kind\":\"behavior\"", 24, JsonMember("mood", W.Quoted(MoodName(c.mood)))
             + (JsonMember("animation", W.Quoted(AnimationName(c.animation)))
             + (JsonMember("text", W.Quoted(Escaped(TextOf(c))))
             + (JsonMember("alert", JsonBool(c.alert))
             + (JsonMember("duration_ms", W.Decimal(c.durationMs)) + "}")))), 136);
  }

  lemma FiveFit(mood: string, animation: string, text: string, alert: string, duration: string)
    requires Fits(mood, 17) && Fits(animation, 26) && Fits(text, 58) && Fits(alert, 14) && Fits(duration, 20)
    ensures Fits(mood + (animation + (text + (alert + (duration + "}")))), 136)
  {
    JoinFits(duration, 20, "}", 1);
    JoinFits(alert, 14, duration + "}", 21);
    JoinFits(text, 58, alert + (duration + "}"), 35);
    JoinFits(animation, 26, text + (alert + (duration + "}")), 93);
    JoinFits(mood, 17, animation + (text + (alert + (duration + "}"))), 119);
  }

  /** What reaches the socket when these lines are written, each in one piece. */
  function Written(lines: seq<string>): string
    decreases |lines|
  {
    if lines == [] then "" else Written(lines[..|lines| - 1]) + (lines[|lines| - 1] + "\n")
  }

  lemma {:induction false} PrintableHasNoCr(s: string)
    requires Printable(s)
    ensures WithoutCr(s) == s && '\n' !in s
    decreases |s|
  {
    if s != "" {
      PrintableHasNoCr(s[..|s| - 1]);
    }
  }

  /** Printable lines that fit are handled as they were written, all of them and in order. */
  lemma {:induction false} LinesArrive(lines: seq<string>)
    requires forall i :: 0 <= i < |lines| ==> Fits(lines[i], FRAME_CAPACITY)
    ensures Frames(Written(lines)) == lines && Rest(Written(lines)) == ""
    decreases |lines|
  {
    if lines != [] {
      var before := lines[..|lines| - 1];
      LinesArrive(before);
      OneMoreFrame(Written(before), lines[|lines| - 1]);
      assert lines == before + [lines[|lines| - 1]];
    }
  }

  lemma OneMoreFrame(stream: string, line: string)
    requires Rest(stream) == "" && Fits(line, FRAME_CAPACITY)
    ensures Frames(stream + (line + "\n")) == Frames(stream) + [line] && Rest(stream + (line + "\n")) == ""
  {
    LinesAppend(stream, line + "\n");
    PrintableHasNoCr(line);
    assert "" + (line + "\n") == line + "\n" + "";
    FirstLine(line, "");
    NoLine("");
    FittingAppend(Lines(stream), line);
  }

  /** A write on the connection: a behavior, or a keepalive. */
  datatype Piece = Behavior(command: Command) | Keepalive

  predicate PieceOk(p: Piece) {
    p.Behavior? ==> HostValid(p.command)
  }

  function PieceLine(p: Piece): string
    requires PieceOk(p)
  {
    if p.Behavior? then CommandLine(p.command) else ""
  }

  function PieceLines(pieces: seq<Piece>): seq<string>
    requires forall i :: 0 <= i < |pieces| ==> PieceOk(pieces[i])
  {
    seq(|pieces|, i requires 0 <= i < |pieces| => PieceLine(pieces[i]))
  }

  /** Any interleaving of validated behaviors and keepalives, cut into reads in any way, is handled by
      the device as those behaviors' frames in that order, with an empty frame per keepalive. */
  lemma EveryFrameArrives(pieces: seq<Piece>, received: seq<string>)
    requires forall i :: 0 <= i < |pieces| ==> PieceOk(pieces[i])
    requires Flatten(received) == Written(PieceLines(pieces))
    ensures Frames(Flatten(received)) == PieceLines(pieces)
  {
    forall i | 0 <= i < |pieces|
      ensures Fits(PieceLines(pieces)[i], FRAME_CAPACITY)
    {
      if pieces[i].Behavior? {
        LineFits(pieces[i].command);
      }
    }
    LinesArrive(PieceLines(pieces));
  }
}
