/** The uplink wire: frames written by the device (device/touch/src/lib.rs 228-254), the host's line
    buffer and frame check (host/transport.py 47-85, 212-244, 271-294), and JSON for flat objects as
    in sections 2 to 7 of RFC 8259. Octets are the characters with their codes. */
module UplinkWire {
  import opened Common
  import T = Touch

  // ------------------------------------------------ decimal numerals

  predicate IsDigit(c: char) {
    '0' <= c <= '9'
  }

  function Digit(d: int): (c: char)
    requires 0 <= d < 10
    ensures IsDigit(c) && DigitValue(c) == d
  {
    "0123456789"[d]
  }

  function DigitValue(c: char): int {
    c as int - '0' as int
  }

  function Decimal(n: nat): (s: string)
    ensures |s| > 0 && IsDigit(s[0]) && (s[0] == '0' ==> n == 0 && |s| == 1)
  {
    if n < 10 then [Digit(n)] else Decimal(n / 10) + [Digit(n % 10)]
  }

  datatype Parsed<+A> = Got(value: A, rest: string) | Bad

  /** All digits at the front, after digits worth `acc`. */
  function ReadDigits(s: string, acc: nat): (r: Parsed<nat>)
    ensures r.Got? && |r.rest| <= |s|
    decreases |s|
  {
    if s != "" && IsDigit(s[0]) then ReadDigits(s[1..], acc * 10 + DigitValue(s[0])) else Got(acc, s)
  }

  lemma {:induction false} ReadDecimal(n: nat, rest: string)
    ensures ReadDigits(Decimal(n) + rest, 0) == ReadDigits(rest, n)
  {
    if n >= 10 {
      var last := [Digit(n % 10)];
      assert Decimal(n) + rest == Decimal(n / 10) + (last + rest);
      ReadDecimal(n / 10, last + rest);
      assert (last + rest)[1..] == rest;
    } else {
      assert ([Digit(n)] + rest)[1..] == rest;
    }
  }

  lemma {:induction false} DecimalLength(n: nat, digits: nat, bound: nat)
    requires n < bound && digits > 0 && bound == Power10(digits)
    ensures |Decimal(n)| <= digits
    decreases digits
  {
    if n >= 10 {
      assert digits > 1;
      DecimalLength(n / 10, digits - 1, Power10(digits - 1));
    }
  }

  function Power10(k: nat): nat {
    if k == 0 then 1 else 10 * Power10(k - 1)
  }

  // ------------------------------------------------ flat JSON objects

  datatype Value = Text(text: string) | Number(n: int) | Truth(b: bool) | Null

  datatype Member = Member(key: string, value: Value)

  predicate IsWs(c: char) {
    c == ' ' || c == '\t' || c == '\n' || c == '\r'
  }

  function SkipWs(s: string): (r: string)
    ensures |r| <= |s|
    decreases |s|
  {
    if s != "" && IsWs(s[0]) then SkipWs(s[1..]) else s
  }

  predicate PlainChar(c: char) {
    c != '"' && c != '\\' && c >= ' '
  }

  /** The inside of a string and its closing quote. */
  function ParseText(s: string): (r: Parsed<string>)
    ensures r.Got? ==> |r.rest| < |s|
    decreases |s|
  {
    if s == "" then Bad
    else if s[0] == '"' then Got("", s[1..])
    else if !PlainChar(s[0]) then Bad
    else match ParseText(s[1..])
      case Got(t, rest) => Got([s[0]] + t, rest)
      case Bad => Bad
  }

  /** Digits without a leading zero. */
  function ParseNatural(s: string): (r: Parsed<nat>)
    ensures r.Got? ==> |r.rest| < |s|
  {
    if s == "" || !IsDigit(s[0]) then Bad
    else if s[0] == '0' then Got(0, s[1..])
    else ReadDigits(s[1..], DigitValue(s[0]))
  }

  function ParseNumber(s: string): (r: Parsed<int>)
    ensures r.Got? ==> |r.rest| < |s|
  {
    if s == "" || s[0] != '-' then ParseNatural(s)
    else match ParseNatural(s[1..])
      case Got(n, rest) => Got(0 - n, rest)
      case Bad => Bad
  }

  predicate StartsWith(s: string, word: string) {
    |s| >= |word| && s[..|word|] == word
  }

  function ParseValue(s: string): (r: Parsed<Value>)
    ensures r.Got? ==> |r.rest| < |s|
  {
    if s == "" then Bad
    else if s[0] == '"' then
      match ParseText(s[1..]) {
        case Got(t, rest) => Got(Text(t), rest)
        case Bad => Bad
      }
    else if StartsWith(s, "true") then Got(Truth(true), s[4..])
    else if StartsWith(s, "false") then Got(Truth(false), s[5..])
    else if StartsWith(s, "null") then Got(Null, s[4..])
    else
      match ParseNumber(s) {
        case Got(n, rest) => Got(Number(n), rest)
        case Bad => Bad
      }
  }

  function ParseMember(s: string): (r: Parsed<Member>)
    ensures r.Got? ==> |r.rest| < |s|
  {
    if s == "" || s[0] != '"' then Bad
    else match ParseText(s[1..])
      case Bad => Bad
      case Got(key, rest) =>
        var colon := SkipWs(rest);
        if colon == "" || colon[0] != ':' then Bad
        else match ParseValue(SkipWs(colon[1..]))
          case Bad => Bad
          case Got(v, after) => Got(Member(key, v), SkipWs(after))
  }

  function ParseMembers(s: string): Parsed<seq<Member>>
    decreases |s|
  {
    match ParseMember(s)
    case Bad => Bad
    case Got(m, rest) =>
      if rest == "" then Bad
      else if rest[0] == '}' then Got([m], rest[1..])
      else if rest[0] != ',' then Bad
      else match ParseMembers(SkipWs(rest[1..]))
        case Bad => Bad
        case Got(more, end) => Got([m] + more, end)
  }

  /** json.loads on a text that is a flat object: its members in order of appearance. */
  function ParseObject(s: string): Option<seq<Member>> {
    var open := SkipWs(s);
    if open == "" || open[0] != '{' then None
    else
      var inside := SkipWs(open[1..]);
      var parsed := if inside != "" && inside[0] == '}' then Got([], inside[1..]) else ParseMembers(inside);
      if parsed.Bad? || SkipWs(parsed.rest) != "" then None else Some(parsed.value)
  }

  // ------------------------------------------------ printing, and the round trip of the parser

  predicate Ws(s: string) {
    forall i :: 0 <= i < |s| ==> IsWs(s[i])
  }

  predicate Plain(s: string) {
    forall i :: 0 <= i < |s| ==> PlainChar(s[i])
  }

  /** A member with the white space around its parts. */
  datatype Spaced = Spaced(before: string, member: Member, afterKey: string, beforeValue: string, after: string)

  predicate WellSpaced(m: Spaced) {
    && Ws(m.before) && Ws(m.afterKey) && Ws(m.beforeValue) && Ws(m.after)
    && Plain(m.member.key) && (m.member.value.Text? ==> Plain(m.member.value.text))
  }

  function Quoted(t: string): string {
    "\"" + t + "\""
  }

  function PrintValue(v: Value): string {
    match v
    case Text(t) => Quoted(t)
    case Number(n) => if n < 0 then "-" + Decimal(-n) else Decimal(n)
    case Truth(b) => if b then "true" else "false"
    case Null => "null"
  }

  function PrintMember(m: Spaced): string {
    Quoted(m.member.key) + (m.afterKey + (":" + (m.beforeValue + (PrintValue(m.member.value) + m.after))))
  }

  /** The members, the closing brace and the text behind it. */
  function PrintMembers(list: seq<Spaced>, end: string): string
    requires list != []
    decreases |list|
  {
    list[0].before + (PrintMember(list[0]) + (if |list| == 1 then "}" + end else "," + PrintMembers(list[1..], end)))
  }

  function Members(list: seq<Spaced>): seq<Member> {
    seq(|list|, i requires 0 <= i < |list| => list[i].member)
  }

  /** A text with nothing to skip in front. */
  predicate Solid(s: string) {
    s == "" || !IsWs(s[0])
  }

  lemma FrontOf(s: string, rest: string)
    requires s != ""
    ensures s + rest != "" && (s + rest)[0] == s[0] && (s + rest)[1..] == s[1..] + rest
  {
  }

  lemma {:induction false} SkipsWs(w: string, rest: string)
    requires Ws(w) && Solid(rest)
    ensures SkipWs(w + rest) == rest
    decreases |w|
  {
    if w == "" {
      assert w + rest == rest;
    } else {
      assert (w + rest)[1..] == w[1..] + rest;
      SkipsWs(w[1..], rest);
    }
  }

  lemma {:induction false} TextParses(t: string, rest: string)
    requires Plain(t)
    ensures ParseText(t + ("\"" + rest)) == Got(t, rest)
    decreases |t|
  {
    var s := t + ("\"" + rest);
    if t == "" {
      assert s[1..] == rest;
    } else {
      FrontOf(t, "\"" + rest);
      assert PlainChar(t[0]);
      TextParses(t[1..], rest);
      assert [t[0]] + t[1..] == t;
    }
  }

  lemma QuotedParses(t: string, rest: string)
    requires Plain(t)
    ensures Quoted(t) + rest != "" && (Quoted(t) + rest)[0] == '"'
    ensures ParseText((Quoted(t) + rest)[1..]) == Got(t, rest)
  {
    TextParses(t, rest);
    assert (Quoted(t) + rest)[1..] == t + ("\"" + rest);
  }

  predicate NoDigit(s: string) {
    s == "" || !IsDigit(s[0])
  }

  lemma NaturalParses(n: nat, rest: string)
    requires NoDigit(rest)
    ensures ParseNatural(Decimal(n) + rest) == Got(n, rest)
  {
    ReadDecimal(n, rest);
    FrontOf(Decimal(n), rest);
  }

  lemma NegativeParses(n: nat, rest: string)
    requires NoDigit(rest)
    ensures ParseNumber("-" + Decimal(n) + rest) == Got(0 - n, rest)
  {
    NaturalParses(n, rest);
    assert "-" + Decimal(n) + rest == "-" + (Decimal(n) + rest);
    FrontOf("-", Decimal(n) + rest);
    assert "-"[1..] + (Decimal(n) + rest) == Decimal(n) + rest;
  }

  lemma NumberParses(n: int, rest: string)
    requires NoDigit(rest)
    ensures ParseNumber(PrintValue(Number(n)) + rest) == Got(n, rest)
  {
    if n >= 0 {
      NaturalParses(n, rest);
      FrontOf(Decimal(n), rest);
    } else {
      NegativeParses(-n, rest);
    }
  }

  lemma NumberValueParses(n: int, rest: string)
    requires NoDigit(rest)
    ensures ParseValue(PrintValue(Number(n)) + rest) == Got(Number(n), rest)
    ensures Solid(PrintValue(Number(n)) + rest)
  {
    NumberParses(n, rest);
    var s := PrintValue(Number(n));
    FrontOf(s, rest);
    assert s[0] == '-' || IsDigit(s[0]);
    NoWord(s + rest);
  }

  lemma NoWord(s: string)
    requires s != "" && (s[0] == '-' || IsDigit(s[0]))
    ensures !StartsWith(s, "true") && !StartsWith(s, "false") && !StartsWith(s, "null")
  {
    assert forall word :: StartsWith(s, word) && word != "" ==> s[0] == word[0];
  }

  lemma WordParses(word: string, rest: string)
    requires word != ""
    ensures StartsWith(word + rest, word) && (word + rest)[|word|..] == rest && (word + rest)[0] == word[0]
  {
  }

  lemma OtherWord(s: string, word: string)
    requires s != "" && word != "" && s[0] != word[0]
    ensures !StartsWith(s, word)
  {
  }

  lemma WordValueParses(v: Value, rest: string)
    requires v.Truth? || v.Null?
    ensures ParseValue(PrintValue(v) + rest) == Got(v, rest)
    ensures Solid(PrintValue(v) + rest)
  {
    var s := PrintValue(v) + rest;
    WordParses(PrintValue(v), rest);
    if v == Null {
      OtherWord(s, "true");
      OtherWord(s, "false");
    } else if v == Truth(false) {
      OtherWord(s, "true");
    }
  }

  lemma TextValueParses(t: string, rest: string)
    requires Plain(t)
    ensures ParseValue(PrintValue(Text(t)) + rest) == Got(Text(t), rest)
    ensures Solid(PrintValue(Text(t)) + rest)
  {
    QuotedParses(t, rest);
  }

  lemma ValueParses(v: Value, rest: string)
    requires v.Text? ==> Plain(v.text)
    requires NoDigit(rest)
    ensures ParseValue(PrintValue(v) + rest) == Got(v, rest)
    ensures Solid(PrintValue(v) + rest)
  {
    match v
    case Text(t) => TextValueParses(t, rest);
    case Number(n) => NumberValueParses(n, rest);
    case _ => WordValueParses(v, rest);
  }

  /** What may follow a member. */
  predicate Separator(s: string) {
    s != "" && (s[0] == ',' || s[0] == '}')
  }

  lemma AfterValue(after: string, rest: string)
    requires Ws(after) && Separator(rest)
    ensures NoDigit(after + rest)
  {
    if after != "" {
      FrontOf(after, rest);
      assert IsWs(after[0]);
    } else {
      assert after + rest == rest;
    }
  }

  lemma MemberParses(m: Spaced, rest: string)
    requires WellSpaced(m) && Separator(rest)
    ensures ParseMember(PrintMember(m) + rest) == Got(m.member, rest)
    ensures Solid(PrintMember(m) + rest)
  {
    var end := m.after + rest;
    var value := PrintValue(m.member.value) + end;
    var colon := ":" + (m.beforeValue + value);
    assert PrintMember(m) + rest == Quoted(m.member.key) + (m.afterKey + colon);
    QuotedParses(m.member.key, m.afterKey + colon);
    SkipsWs(m.afterKey, colon);
    assert colon[1..] == m.beforeValue + value;
    AfterValue(m.after, rest);
    ValueParses(m.member.value, end);
    SkipsWs(m.beforeValue, value);
    SkipsWs(m.after, rest);
  }

  lemma LastMemberParses(m: Spaced, rest: string)
    requires WellSpaced(m)
    ensures ParseMembers(PrintMember(m) + ("}" + rest)) == Got([m.member], rest)
  {
    FrontOf("}", rest);
    MemberParses(m, "}" + rest);
    assert "}"[1..] + rest == rest;
  }

  lemma OneMoreMemberParses(m: Spaced, tail: string, more: seq<Member>, rest: string)
    requires WellSpaced(m) && ParseMembers(SkipWs(tail)) == Got(more, rest)
    ensures ParseMembers(PrintMember(m) + ("," + tail)) == Got([m.member] + more, rest)
  {
    FrontOf(",", tail);
    MemberParses(m, "," + tail);
    assert ","[1..] + tail == tail;
  }

  lemma FirstMember(list: seq<Spaced>)
    requires list != []
    ensures Members(list) == [list[0].member] + Members(list[1..])
  {
  }

  lemma {:induction false} MembersParse(list: seq<Spaced>, end: string)
    requires list != [] && forall m <- list :: WellSpaced(m)
    ensures ParseMembers(SkipWs(PrintMembers(list, end))) == Got(Members(list), end)
    decreases |list|
  {
    FirstMember(list);
    if |list| == 1 {
      assert Members(list) == [list[0].member];
      SolidMember(list[0], "}" + end);
      LastMemberParses(list[0], end);
    } else {
      var tail := PrintMembers(list[1..], end);
      MembersParse(list[1..], end);
      SolidMember(list[0], "," + tail);
      OneMoreMemberParses(list[0], tail, Members(list[1..]), end);
    }
  }

  lemma SolidMember(m: Spaced, rest: string)
    requires WellSpaced(m)
    ensures SkipWs(m.before + (PrintMember(m) + rest)) == PrintMember(m) + rest
  {
    assert PrintMember(m)[0] == '"';
    FrontOf(PrintMember(m), rest);
    SkipsWs(m.before, PrintMember(m) + rest);
  }

  /** A flat object with white space around it and all its parts. */
  function PrintObject(lead: string, list: seq<Spaced>, trail: string): string
    requires list != []
  {
    lead + ("{" + PrintMembers(list, trail))
  }

  /** An object without members is read back too, with any white space in and around it. */
  lemma EmptyObjectParses(lead: string, inner: string, trail: string)
    requires Ws(lead) && Ws(inner) && Ws(trail)
    ensures ParseObject(lead + ("{" + (inner + ("}" + trail)))) == Some([])
  {
    var inside := inner + ("}" + trail);
    SkipsWs(lead, "{" + inside);
    assert ("{" + inside)[1..] == inside;
    SkipsWs(inner, "}" + trail);
    assert ("}" + trail)[1..] == trail;
    SkipsWs(trail, "");
    assert trail + "" == trail;
  }

  /** Every flat object, however spaced, is read back as its members. */
  lemma ObjectParses(lead: string, list: seq<Spaced>, trail: string)
    requires list != [] && (forall m <- list :: WellSpaced(m)) && Ws(lead) && Ws(trail)
    ensures ParseObject(PrintObject(lead, list, trail)) == Some(Members(list))
  {
    var inside := PrintMembers(list, trail);
    SkipsWs(lead, "{" + inside);
    assert ("{" + inside)[1..] == inside;
    MembersParse(list, trail);
    SkipsWs(trail, "");
    assert trail + "" == trail;
  }

  // ------------------------------------------------ the device's frame

  const INPUT_FRAME_CAPACITY := 96

  /** How every frame starts. */
  const HEAD := "{\"v\":1," + ("\"kind\":\"input\"," + "\"source\":\"touch\",")

  function FrameBody(g: T.Gesture): string
    requires g.Hold? ==> g.duration >= 0
  {
    match g
    case Tap => HEAD + ("\"gesture\":\"tap\"" + "}")
    case DoubleTap => HEAD + ("\"gesture\":\"doubletap\"" + "}")
    case Hold(d) => HEAD + ("\"gesture\":\"hold\"" + (",\"duration_ms\":" + (Decimal(d) + "}")))
  }

  function FrameText(g: T.Gesture): string
    requires g.Hold? ==> g.duration >= 0
  {
    FrameBody(g) + "\n"
  }

  /** encode_input_frame: a text that does not fit in the buffer gives no frame. */
  function EncodeInputFrame(g: T.Gesture): Option<string>
    requires g.Hold? ==> g.duration >= 0
  {
    if |FrameText(g)| <= INPUT_FRAME_CAPACITY then Some(FrameText(g)) else None
  }

  /** A duration the device can hold: an unsigned 32-bit number. */
  predicate OnDevice(g: T.Gesture) {
    g.Hold? ==> 0 <= g.duration < 0x1_0000_0000
  }

  /** Every gesture has a frame. */
  lemma EveryFrameFits(g: T.Gesture)
    requires OnDevice(g)
    ensures EncodeInputFrame(g) == Some(FrameText(g))
  {
    if g.Hold? {
      assert Power10(10) == 10 * Power10(9);
      assert Power10(9) == 1_000_000_000;
      DecimalLength(g.duration, 10, Power10(10));
    }
  }

  // ------------------------------------------------ the host's frame check

  /** dict.get: the last member with that key, None if there is none. */
  function Get(members: seq<Member>, key: string): Value
    decreases |members|
  {
    if members == [] then Null
    else
      var last := members[|members| - 1];
      if last.key == key then last.value else Get(members[..|members| - 1], key)
  }

  /** Equal to the integer 1, as True is. */
  predicate IsOne(v: Value) {
    v == Number(1) || v == Truth(true)
  }

  function FrameOf(members: seq<Member>): Option<T.Gesture> {
    var gesture, duration := Get(members, "gesture"), Get(members, "duration_ms");
    if !IsOne(Get(members, "v")) || Get(members, "kind") != Text("input") then None
    else if Get(members, "source") != Text("touch") then None
    else if gesture !in [Text("tap"), Text("hold"), Text("doubletap")] then None
    else if gesture == Text("hold") then
      (if !duration.Number? || duration.n < 0 then None else Some(T.Hold(duration.n)))
    else if duration != Null then None
    else Some(if gesture == Text("tap") then T.Tap else T.DoubleTap)
  }

  /** Which objects are touch frames, and which gesture each is: version one, the right kind and source, and a
      duration for a hold and for nothing else. */
  lemma FrameOfExactly(members: seq<Member>, g: T.Gesture)
    ensures FrameOf(members) == Some(g) <==>
      var v, duration := Get(members, "v"), Get(members, "duration_ms");
      && (v == Number(1) || v == Truth(true)) && Get(members, "kind") == Text("input")
      && Get(members, "source") == Text("touch")
      && match g
         case Tap => Get(members, "gesture") == Text("tap") && duration == Null
         case DoubleTap => Get(members, "gesture") == Text("doubletap") && duration == Null
         case Hold(ms) => Get(members, "gesture") == Text("hold") && duration == Number(ms) && ms >= 0
  {
  }

  /** str.isspace */
  predicate IsPythonSpace(c: char) {
    || '\t' <= c <= '\r' || 28 as char <= c <= ' ' || c == '\U{85}' || c == '\U{A0}' || c == '\U{1680}'
    || '\U{2000}' <= c <= '\U{200A}' || c == '\U{2028}' || c == '\U{2029}' || c == '\U{202F}' || c == '\U{205F}'
    || c == '\U{3000}'
  }

  function StripLeft(space: char -> bool, s: string): (r: string)
    ensures |r| <= |s|
    decreases |s|
  {
    if s != "" && space(s[0]) then StripLeft(space, s[1..]) else s
  }

  function StripRight(space: char -> bool, s: string): (r: string)
    ensures |r| <= |s|
    decreases |s|
  {
    if s != "" && space(s[|s| - 1]) then StripRight(space, s[..|s| - 1]) else s
  }

  /** The text without the white space at its ends. */
  function Strip(space: char -> bool, s: string): string {
    StripRight(space, StripLeft(space, s))
  }

  predicate Ascii(s: string) {
    forall c <- s :: c < 128 as char
  }

  /** parse_input_frame: None for whatever is not a touch frame. */
  function ParseInputFrame(line: string): Option<T.Gesture> {
    if !Ascii(line) then None
    else
      var text := Strip(c => IsPythonSpace(c), line);
      if text == "" then None
      else match ParseObject(text)
        case Some(members) => FrameOf(members)
        case None => None
  }

  function Bare(key: string, value: Value): Spaced {
    Spaced("", Member(key, value), "", "", "")
  }

  const FRAME_HEAD := [Bare("v", Number(1)), Bare("kind", Text("input")), Bare("source", Text("touch"))]

  function FrameTail(g: T.Gesture): seq<Spaced> {
    match g
    case Tap => [Bare("gesture", Text("tap"))]
    case DoubleTap => [Bare("gesture", Text("doubletap"))]
    case Hold(d) => [Bare("gesture", Text("hold")), Bare("duration_ms", Number(d))]
  }

  lemma BarePrints(m: Spaced)
    requires m == Bare(m.member.key, m.member.value)
    ensures PrintMember(m) == Quoted(m.member.key) + (":" + PrintValue(m.member.value))
  {
  }

  lemma BareAlone(m: Spaced, end: string)
    requires m.before == ""
    ensures PrintMembers([m], end) == PrintMember(m) + ("}" + end)
  {
    assert "" + (PrintMember(m) + ("}" + end)) == PrintMember(m) + ("}" + end);
  }

  lemma BareInFront(m: Spaced, rest: seq<Spaced>, end: string)
    requires m.before == "" && rest != []
    ensures PrintMembers([m] + rest, end) == PrintMember(m) + ("," + PrintMembers(rest, end))
  {
    assert ([m] + rest)[1..] == rest;
    assert "" + (PrintMember(m) + ("," + PrintMembers(rest, end))) == PrintMember(m) + ("," + PrintMembers(rest, end));
  }

  lemma ThreeInFront(v: Spaced, kind: Spaced, source: Spaced, rest: seq<Spaced>, end: string)
    requires v.before == kind.before == source.before == "" && rest != []
    ensures PrintMembers([v, kind, source] + rest, end)
         == PrintMember(v) + ("," + (PrintMember(kind)
            + ("," + (PrintMember(source) + ("," + PrintMembers(rest, end))))))
  {
    BareInFront(source, rest, end);
    BareInFront(kind, [source] + rest, end);
    BareInFront(v, [kind] + ([source] + rest), end);
    ListOfThree(v, kind, source, rest);
  }

  lemma ListOfThree(v: Spaced, kind: Spaced, source: Spaced, rest: seq<Spaced>)
    ensures [v, kind, source] + rest == [v] + ([kind] + ([source] + rest))
  {
  }

  lemma HeadIsJoined(tail: string)
    ensures "" + ("{" + ("\"v\":1" + ("," + ("\"kind\":\"input\"" + ("," + ("\"source\":\"touch\"" + ("," + tail)))))))
         == HEAD + tail
  {
    var source := "\"source\":\"touch\"," + tail;
    assert "\"source\":\"touch\"" + ("," + tail) == source;
    var kind := "\"kind\":\"input\"," + source;
    assert "\"kind\":\"input\"" + ("," + source) == kind;
    assert "" + ("{" + ("\"v\":1" + ("," + kind))) == "{\"v\":1," + kind;
    RegroupFour("{\"v\":1,", "\"kind\":\"input\",", "\"source\":\"touch\",", tail);
  }

  lemma RegroupFour(a: string, b: string, c: string, rest: string)
    ensures a + (b + c) + rest == a + (b + (c + rest))
  {
  }

  lemma HeadIsPrinted(rest: seq<Spaced>, end: string)
    requires rest != []
    ensures PrintObject("", FRAME_HEAD + rest, end) == HEAD + PrintMembers(rest, end)
  {
    BarePrints(FRAME_HEAD[0]);
    BarePrints(FRAME_HEAD[1]);
    BarePrints(FRAME_HEAD[2]);
    assert PrintMember(FRAME_HEAD[0]) == "\"v\":1";
    assert PrintMember(FRAME_HEAD[1]) == "\"kind\":\"input\"";
    assert PrintMember(FRAME_HEAD[2]) == "\"source\":\"touch\"";
    ThreeInFront(FRAME_HEAD[0], FRAME_HEAD[1], FRAME_HEAD[2], rest, end);
    HeadIsJoined(PrintMembers(rest, end));
  }

  lemma TapIsPrinted()
    ensures FrameBody(T.Tap) == HEAD + PrintMembers(FrameTail(T.Tap), "")
  {
    BareAlone(FrameTail(T.Tap)[0], "");
    BarePrints(FrameTail(T.Tap)[0]);
    assert PrintMember(FrameTail(T.Tap)[0]) == "\"gesture\":\"tap\"";
    assert "}" + "" == "}";
  }

  lemma DoubleTapIsPrinted()
    ensures FrameBody(T.DoubleTap) == HEAD + PrintMembers(FrameTail(T.DoubleTap), "")
  {
    BareAlone(FrameTail(T.DoubleTap)[0], "");
    BarePrints(FrameTail(T.DoubleTap)[0]);
    assert PrintMember(FrameTail(T.DoubleTap)[0]) == "\"gesture\":\"doubletap\"";
    assert "}" + "" == "}";
  }

  lemma DurationIsJoined(n: string)
    ensures "," + (("\"duration_ms\"" + (":" + n)) + ("}" + "")) == ",\"duration_ms\":" + (n + "}")
  {
  }

  lemma HoldIsPrinted(d: nat)
    ensures FrameBody(T.Hold(d)) == HEAD + PrintMembers(FrameTail(T.Hold(d)), "")
  {
    var gesture, duration := FrameTail(T.Hold(d))[0], FrameTail(T.Hold(d))[1];
    BareInFront(gesture, [duration], "");
    BareAlone(duration, "");
    BarePrints(gesture);
    BarePrints(duration);
    assert FrameTail(T.Hold(d)) == [gesture] + [duration];
    assert PrintMember(gesture) == "\"gesture\":\"hold\"";
    assert Quoted("duration_ms") == "\"duration_ms\"";
    DurationIsJoined(Decimal(d));
  }

  /** The literal of a frame is the flat object with the frame's members. */
  lemma FrameIsPrinted(g: T.Gesture)
    requires OnDevice(g)
    ensures FrameBody(g) == PrintObject("", FRAME_HEAD + FrameTail(g), "")
  {
    HeadIsPrinted(FrameTail(g), "");
    match g
    case Tap => TapIsPrinted();
    case DoubleTap => DoubleTapIsPrinted();
    case Hold(d) => HoldIsPrinted(d);
  }

  lemma FrameMembersAreRead(g: T.Gesture)
    requires OnDevice(g)
    ensures FrameOf(Members(FRAME_HEAD + FrameTail(g))) == Some(g)
  {
    var members := Members(FRAME_HEAD + FrameTail(g));
    assert members[0] == Member("v", Number(1)) && members[1] == Member("kind", Text("input"));
    assert members[2] == Member("source", Text("touch"));
    assert members[3].key == "gesture";
    GetIs(members, "v", 0);
    GetIs(members, "kind", 1);
    GetIs(members, "source", 2);
    GetIs(members, "gesture", 3);
    if g.Hold? {
      assert members[4] == Member("duration_ms", Number(g.duration));
      GetIs(members, "duration_ms", 4);
    } else {
      GetNone(members, "duration_ms");
    }
  }

  /** What dict.get finds: the last member with the key. */
  lemma {:induction false} GetIs(members: seq<Member>, key: string, i: int)
    requires 0 <= i < |members| && members[i].key == key
    requires forall j :: i < j < |members| ==> members[j].key != key
    ensures Get(members, key) == members[i].value
    decreases |members|
  {
    if i < |members| - 1 {
      GetIs(members[..|members| - 1], key, i);
    }
  }

  lemma {:induction false} GetNone(members: seq<Member>, key: string)
    requires forall m <- members :: m.key != key
    ensures Get(members, key) == Null
    decreases |members|
  {
    if members != [] {
      GetNone(members[..|members| - 1], key);
    }
  }

  lemma {:induction false} DecimalIsPrintable(n: nat)
    ensures Printable(Decimal(n))
  {
    if n >= 10 {
      DecimalIsPrintable(n / 10);
    }
  }

  predicate Braced(s: string) {
    s != "" && Printable(s) && s[0] == '{' && s[|s| - 1] == '}'
  }

  lemma JoinBraced(head: string, middle: string, end: string)
    requires Printable(head) && Printable(middle) && Printable(end)
    requires head != "" && head[0] == '{' && end != "" && end[|end| - 1] == '}'
    ensures Braced(head + (middle + end))
  {
  }

  lemma FrameIsPrintable(g: T.Gesture)
    requires OnDevice(g)
    ensures Braced(FrameBody(g))
  {
    assert Printable(HEAD) && HEAD[0] == '{';
    match g
    case Tap => JoinBraced(HEAD, "\"gesture\":\"tap\"", "}");
    case DoubleTap => JoinBraced(HEAD, "\"gesture\":\"doubletap\"", "}");
    case Hold(d) =>
      DecimalIsPrintable(d);
      JoinBraced(HEAD, "\"gesture\":\"hold\"", ",\"duration_ms\":" + (Decimal(d) + "}"));
  }

  lemma StripNothing(space: char -> bool, s: string)
    requires s != "" ==> !space(s[0]) && !space(s[|s| - 1])
    ensures Strip(space, s) == s
  {
  }

  /** A braced line goes to the JSON reader as it is. */
  lemma BracedLine(line: string)
    requires Braced(line)
    ensures ParseInputFrame(line)
         == match ParseObject(line) { case Some(members) => FrameOf(members) case None => None }
  {
    assert Ascii(line);
    StripNothing(c => IsPythonSpace(c), line);
  }

  /** The host reads every frame of the device as the gesture it was made from. */
  lemma FrameIsRead(g: T.Gesture)
    requires OnDevice(g)
    ensures ParseInputFrame(FrameBody(g)) == Some(g)
  {
    FrameIsPrintable(g);
    BracedLine(FrameBody(g));
    FrameObject(g);
    FrameMembersAreRead(g);
  }

  lemma BareIsWellSpaced(key: string, value: Value)
    requires Plain(key) && (value.Text? ==> Plain(value.text))
    ensures WellSpaced(Bare(key, value))
  {
  }

  ghost predicate AllSpaced(list: seq<Spaced>) {
    forall m <- list :: WellSpaced(m)
  }

  lemma OneMoreSpaced(key: string, value: Value, rest: seq<Spaced>)
    requires Plain(key) && (value.Text? ==> Plain(value.text)) && AllSpaced(rest)
    ensures AllSpaced([Bare(key, value)] + rest)
  {
    BareIsWellSpaced(key, value);
  }

  lemma TailIsWellSpaced(g: T.Gesture)
    ensures AllSpaced(FrameTail(g))
  {
    match g
    case Tap => BareIsWellSpaced("gesture", Text("tap"));
    case DoubleTap => BareIsWellSpaced("gesture", Text("doubletap"));
    case Hold(d) =>
      BareIsWellSpaced("duration_ms", Number(d));
      OneMoreSpaced("gesture", Text("hold"), [Bare("duration_ms", Number(d))]);
      assert FrameTail(g) == [Bare("gesture", Text("hold"))] + [Bare("duration_ms", Number(d))];
  }

  lemma FrameIsWellSpaced(g: T.Gesture)
    ensures AllSpaced(FRAME_HEAD + FrameTail(g))
  {
    var v, kind, source := FRAME_HEAD[0], FRAME_HEAD[1], FRAME_HEAD[2];
    TailIsWellSpaced(g);
    OneMoreSpaced("source", Text("touch"), FrameTail(g));
    OneMoreSpaced("kind", Text("input"), [source] + FrameTail(g));
    OneMoreSpaced("v", Number(1), [kind] + ([source] + FrameTail(g)));
    ListOfThree(v, kind, source, FrameTail(g));
    assert FRAME_HEAD == [v, kind, source];
  }

  lemma FrameObject(g: T.Gesture)
    requires OnDevice(g)
    ensures ParseObject(FrameBody(g)) == Some(Members(FRAME_HEAD + FrameTail(g)))
  {
    FrameIsPrinted(g);
    FrameIsWellSpaced(g);
    ObjectParses("", FRAME_HEAD + FrameTail(g), "");
  }
}
