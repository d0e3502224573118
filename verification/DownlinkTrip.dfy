/** The downlink from end to end: a validated command, its line on the wire, the frame the device cuts out
    of the stream, the flat JSON object in it, and the update the device acts on. */
module DownlinkTrip {
  import opened Common
  import opened Behavior
  import opened UplinkWire
  import K = Contract
  import D = Downlink
  import U = UplinkStream

  const KIND_CAPACITY := 16
  const RAW_TEXT_CAPACITY := 96

  // ------------------------------------------------ the line is a flat object

  /** The members of a command's line. */
  function LineMembers(c: Command): seq<Spaced> {
    [Bare("v", Number(1)), Bare("kind", Text("behavior"))] + TailMembers(c)
  }

  function TailMembers(c: Command): seq<Spaced> {
    [Bare("mood", Text(MoodName(c.mood)))]
    + ([Bare("animation", Text(AnimationName(c.animation)))]
    + ([Bare("text", Text(TextOf(c)))]
    + ([Bare("alert", Truth(c.alert))]
    + [Bare("duration_ms", Number(c.durationMs))])))
  }

  lemma {:induction false} NothingEscaped(s: string)
    requires Plain(s)
    ensures D.Escaped(s) == s
    decreases |s|
  {
    if s != "" {
      assert PlainChar(s[0]);
      NothingEscaped(s[1..]);
    }
  }

  /** A comma and a member, printed, are the text the host appends for it. */
  lemma CommaMember(key: string, value: Value)
    ensures "," + PrintMember(Bare(key, value)) == D.JsonMember(key, PrintValue(value))
  {
    BarePrints(Bare(key, value));
  }

  lemma MoreMembers(key: string, value: Value, rest: seq<Spaced>)
    requires rest != []
    ensures "," + PrintMembers([Bare(key, value)] + rest, "")
         == D.JsonMember(key, PrintValue(value)) + ("," + PrintMembers(rest, ""))
  {
    var m := Bare(key, value);
    BareInFront(m, rest, "");
    CommaMember(key, value);
    Regroup(",", PrintMember(m), "," + PrintMembers(rest, ""));
  }

  lemma LastMember(key: string, value: Value)
    ensures "," + PrintMembers([Bare(key, value)], "") == D.JsonMember(key, PrintValue(value)) + "}"
  {
    var m := Bare(key, value);
    BareAlone(m, "");
    CommaMember(key, value);
    assert "}" + "" == "}";
    Regroup(",", PrintMember(m), "}");
  }

  lemma TailIsPrinted(c: Command)
    requires c.durationMs >= 0 && Plain(TextOf(c))
    ensures "," + PrintMembers(TailMembers(c), "")
         == D.JsonMember("mood", Quoted(MoodName(c.mood)))
            + (D.JsonMember("animation", Quoted(AnimationName(c.animation)))
            + (D.JsonMember("text", Quoted(D.Escaped(TextOf(c))))
            + (D.JsonMember("alert", D.JsonBool(c.alert))
            + (D.JsonMember("duration_ms", Decimal(c.durationMs)) + "}"))))
  {
    var duration := [Bare("duration_ms", Number(c.durationMs))];
    var alert := [Bare("alert", Truth(c.alert))] + duration;
    var text := [Bare("text", Text(TextOf(c)))] + alert;
    var animation := [Bare("animation", Text(AnimationName(c.animation)))] + text;
    NothingEscaped(TextOf(c));
    LastMember("duration_ms", Number(c.durationMs));
    MoreMembers("alert", Truth(c.alert), duration);
    MoreMembers("text", Text(TextOf(c)), alert);
    MoreMembers("animation", Text(AnimationName(c.animation)), text);
    MoreMembers("mood", Text(MoodName(c.mood)), animation);
  }

  lemma HeadIsPrinted(rest: seq<Spaced>)
    requires rest != []
    ensures PrintObject("", [Bare("v", Number(1)), Bare("kind", Text("behavior"))] + rest, "")
         == "{\"v\":1,\"kind\":\"behavior\"" + ("," + PrintMembers(rest, ""))
  {
    var v, kind := Bare("v", Number(1)), Bare("kind", Text("behavior"));
    TwoInFront(v, kind, rest);
    VersionPrints();
    KindPrints();
    HeadIsJoined("," + PrintMembers(rest, ""));
  }

  lemma TwoInFront(v: Spaced, kind: Spaced, rest: seq<Spaced>)
    requires v.before == kind.before == "" && rest != []
    ensures PrintMembers([v, kind] + rest, "")
         == PrintMember(v) + ("," + (PrintMember(kind) + ("," + PrintMembers(rest, ""))))
  {
    BareInFront(kind, rest, "");
    BareInFront(v, [kind] + rest, "");
    TwoFirst(v, kind, rest);
  }

  lemma TwoFirst(v: Spaced, kind: Spaced, rest: seq<Spaced>)
    ensures [v, kind] + rest == [v] + ([kind] + rest)
  {
  }

  lemma VersionPrints()
    ensures PrintMember(Bare("v", Number(1))) == "\"v\":1"
  {
    BarePrints(Bare("v", Number(1)));
  }

  lemma KindPrints()
    ensures PrintMember(Bare("kind", Text("behavior"))) == "\"kind\":\"behavior\""
  {
    BarePrints(Bare("kind", Text("behavior")));
  }

  lemma HeadIsJoined(tail: string)
    ensures "" + ("{" + ("\"v\":1" + ("," + ("\"kind\":\"behavior\"" + tail))))
         == "{\"v\":1,\"kind\":\"behavior\"" + tail
  {
  }

  lemma LineIsPrinted(c: Command)
    requires c.durationMs >= 0 && Plain(TextOf(c))
    ensures D.CommandLine(c) == PrintObject("", LineMembers(c), "")
  {
    TailIsPrinted(c);
    HeadIsPrinted(TailMembers(c));
  }

  /** The line of a command whose text needs no escapes is read as its members. */
  lemma LineIsRead(c: Command)
    requires c.durationMs >= 0 && Plain(TextOf(c))
    ensures ParseObject(D.CommandLine(c)) == Some(Members(LineMembers(c)))
  {
    LineIsPrinted(c);
    LineIsWellSpaced(c);
    ObjectParses("", LineMembers(c), "");
  }

  lemma NamesArePlain(m: Mood, a: Animation)
    ensures Plain(MoodName(m)) && Plain(AnimationName(a))
  {
  }

  lemma TailIsWellSpaced(c: Command)
    requires Plain(TextOf(c))
    ensures AllSpaced(TailMembers(c))
  {
    var duration := [Bare("duration_ms", Number(c.durationMs))];
    var alert := [Bare("alert", Truth(c.alert))] + duration;
    var text := [Bare("text", Text(TextOf(c)))] + alert;
    var animation := [Bare("animation", Text(AnimationName(c.animation)))] + text;
    NamesArePlain(c.mood, c.animation);
    BareIsWellSpaced("duration_ms", Number(c.durationMs));
    OneMoreSpaced("alert", Truth(c.alert), duration);
    OneMoreSpaced("text", Text(TextOf(c)), alert);
    OneMoreSpaced("animation", Text(AnimationName(c.animation)), text);
    OneMoreSpaced("mood", Text(MoodName(c.mood)), animation);
  }

  lemma LineIsWellSpaced(c: Command)
    requires Plain(TextOf(c))
    ensures AllSpaced(LineMembers(c))
  {
    var v, kind := Bare("v", Number(1)), Bare("kind", Text("behavior"));
    TailIsWellSpaced(c);
    OneMoreSpaced("kind", Text("behavior"), TailMembers(c));
    OneMoreSpaced("v", Number(1), [kind] + TailMembers(c));
    TwoFirst(v, kind, TailMembers(c));
  }

  // ------------------------------------------------ what the members mean

  /** The fields of the device's raw update. */
  const FIELDS := {"v", "kind", "mood", "animation", "text", "alert", "duration_ms"}

  /** No field is given twice. */
  ghost predicate OncePerField(members: seq<Member>) {
    forall i, j :: 0 <= i < j < |members| && members[i].key == members[j].key ==> members[i].key !in FIELDS
  }

  /** The device's decoder on the members of an object: each field once and of its type; the text may be
      missing or null; other fields are ignored. */
  ghost function DecodeUpdate(members: seq<Member>): Option<K.RawUpdate> {
    var v, kind, alert := Get(members, "v"), Get(members, "kind"), Get(members, "alert");
    var mood, animation := Get(members, "mood"), Get(members, "animation");
    var text, duration := Get(members, "text"), Get(members, "duration_ms");
    if !OncePerField(members) then None
    else if !v.Number? || !(0 <= v.n < 256) || !kind.Text? || |kind.text| > KIND_CAPACITY then None
    else if !mood.Text? || K.MoodNamed(mood.text) == None then None
    else if !animation.Text? || K.AnimationNamed(animation.text) == None then None
    else if !(text.Text? && |text.text| <= RAW_TEXT_CAPACITY) && text != Null then None
    else if !alert.Truth? || !duration.Number? || !(0 <= duration.n < 0x1_0000_0000) then None
    else Some(K.RawUpdate(v.n, kind.text, K.MoodNamed(mood.text).value, K.AnimationNamed(animation.text).value,
                          if text == Null then None else Some(text.text), alert.b, duration.n))
  }

  /** u8::is_ascii_whitespace */
  predicate IsAsciiSpace(c: char) {
    c == ' ' || c == '\t' || c == '\n' || c == '\r' || c == 12 as char
  }

  /** What handle_frame does with a frame: an update, or nothing. */
  ghost function HandleFrame(frame: string): Option<Command> {
    match ParseObject(Strip(c => IsAsciiSpace(c), frame))
    case None => None
    case Some(members) =>
      match DecodeUpdate(members)
      case None => None
      case Some(raw) => if K.DeviceParse(raw).Update? then Some(K.DeviceParse(raw).command) else None
  }

  /** The members of a line, one by one. */
  ghost predicate LineFields(members: seq<Member>, c: Command) {
    && |members| == 7
    && members[0] == Member("v", Number(1)) && members[1] == Member("kind", Text("behavior"))
    && members[2] == Member("mood", Text(MoodName(c.mood)))
    && members[3] == Member("animation", Text(AnimationName(c.animation)))
    && members[4] == Member("text", Text(TextOf(c))) && members[5] == Member("alert", Truth(c.alert))
    && members[6] == Member("duration_ms", Number(c.durationMs))
  }

  lemma MembersAreFields(c: Command)
    ensures LineFields(Members(LineMembers(c)), c)
  {
    var list := LineMembers(c);
    assert list[2..] == TailMembers(c);
    var tail := TailMembers(c);
    assert tail[0].member == Member("mood", Text(MoodName(c.mood)));
    assert tail[1].member == Member("animation", Text(AnimationName(c.animation)));
    assert tail[2].member == Member("text", Text(TextOf(c)));
    assert tail[3].member == Member("alert", Truth(c.alert));
    assert tail[4].member == Member("duration_ms", Number(c.durationMs));
    assert forall i :: 0 <= i < 5 ==> list[i + 2] == tail[i];
  }

  /** The keys of a line in their order. */
  const KEYS := ["v", "kind", "mood", "animation", "text", "alert", "duration_ms"]

  lemma KeysDiffer()
    ensures forall i, j :: 0 <= i < j < |KEYS| ==> KEYS[i] != KEYS[j]
  {
    assert "kind"[0] == 'k' && "mood"[0] == 'm' && "text"[0] == 't';
    assert |"v"| == 1 && |"animation"| == 9 && |"alert"| == 5 && |"duration_ms"| == 11;
  }

  lemma FieldsAreFound(members: seq<Member>, c: Command)
    requires LineFields(members, c)
    ensures forall i :: 0 <= i < |KEYS| ==> members[i].key == KEYS[i] && Get(members, KEYS[i]) == members[i].value
    ensures OncePerField(members)
  {
    KeysDiffer();
    assert forall i :: 0 <= i < |KEYS| ==> members[i].key == KEYS[i];
    forall i | 0 <= i < |KEYS|
      ensures Get(members, KEYS[i]) == members[i].value
    {
      GetIs(members, KEYS[i], i);
    }
  }

  lemma FieldsAreGot(members: seq<Member>, c: Command)
    requires LineFields(members, c)
    ensures Get(members, "v") == Number(1) && Get(members, "kind") == Text("behavior")
    ensures Get(members, "mood") == Text(MoodName(c.mood))
    ensures Get(members, "animation") == Text(AnimationName(c.animation))
    ensures Get(members, "text") == Text(TextOf(c)) && Get(members, "alert") == Truth(c.alert)
    ensures Get(members, "duration_ms") == Number(c.durationMs) && OncePerField(members)
  {
    FieldsAreFound(members, c);
    assert KEYS[0] == "v" && KEYS[1] == "kind" && KEYS[2] == "mood" && KEYS[3] == "animation";
    assert KEYS[4] == "text" && KEYS[5] == "alert" && KEYS[6] == "duration_ms";
  }

  lemma LineDecodes(members: seq<Member>, c: Command)
    requires HostValid(c) && LineFields(members, c)
    ensures DecodeUpdate(members) == Some(K.Decoded(c))
  {
    FieldsAreGot(members, c);
    K.MoodRoundTrip(c.mood);
    K.AnimationRoundTrip(c.animation);
  }

  lemma LineIsBraced(c: Command)
    requires c.durationMs >= 0
    ensures var s := D.CommandLine(c); s != "" && s[0] == '{' && s[|s| - 1] == '}'
  {
  }

  /** The device acts on the line of a validated command as that very command. */
  lemma LineIsHandled(c: Command)
    requires HostValid(c) && Plain(TextOf(c))
    ensures HandleFrame(D.CommandLine(c)) == Some(c)
  {
    LineIsRead(c);
    LineIsBraced(c);
    StripNothing(ch => IsAsciiSpace(ch), D.CommandLine(c));
    MembersAreFields(c);
    LineDecodes(Members(LineMembers(c)), c);
    K.DeviceTakesIt(c);
  }

  // ------------------------------------------------ whole streams

  /** What the device must make of a piece. */
  function Meant(p: D.Piece): Option<Command> {
    if p.Behavior? then Some(p.command) else None
  }

  /** The commands among the pieces. */
  function CommandsOf(pieces: seq<D.Piece>): seq<Command> {
    U.Somes(seq(|pieces|, i requires 0 <= i < |pieces| => Meant(pieces[i])))
  }

  ghost predicate Sendable(pieces: seq<D.Piece>) {
    forall i :: 0 <= i < |pieces| ==>
      D.PieceOk(pieces[i]) && (pieces[i].Behavior? ==> Plain(TextOf(pieces[i].command)))
  }

  lemma PieceIsHandled(p: D.Piece)
    requires D.PieceOk(p) && (p.Behavior? ==> Plain(TextOf(p.command)))
    ensures HandleFrame(D.PieceLine(p)) == Meant(p)
  {
    if p.Behavior? {
      LineIsHandled(p.command);
    }
  }

  lemma LinesAreHandled(pieces: seq<D.Piece>)
    requires Sendable(pieces)
    ensures U.Heard((frame: string) => HandleFrame(frame), D.PieceLines(pieces)) == CommandsOf(pieces)
  {
    var meant := seq(|pieces|, i requires 0 <= i < |pieces| => Meant(pieces[i]));
    forall i | 0 <= i < |pieces|
      ensures HandleFrame(D.PieceLines(pieces)[i]) == meant[i]
    {
      PieceIsHandled(pieces[i]);
    }
    U.HeardEach((frame: string) => HandleFrame(frame), D.PieceLines(pieces), meant);
  }

  /** The downlink round trip: any interleaving of validated behaviors, their texts free of quotes and
      backslashes, and keepalives, cut into reads in any way, makes the device act on exactly those
      behaviors, as they were sent and in that order. */
  lemma DownlinkRoundTrip(pieces: seq<D.Piece>, received: seq<string>)
    requires Sendable(pieces) && Flatten(received) == D.Written(D.PieceLines(pieces))
    ensures U.Heard((frame: string) => HandleFrame(frame), D.Frames(Flatten(received))) == CommandsOf(pieces)
  {
    D.EveryFrameArrives(pieces, received);
    LinesAreHandled(pieces);
  }
}
