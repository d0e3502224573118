/** The behavior contract between host and device: the host's validation of a decoded object
    (host/protocol.py 110-204), the object it sends (66-75), and the device's own checks on the decoded
    frame (device/src/behavior.rs 90-185). */
module Contract {
  import opened Common
  import opened Behavior
  import B = Body
  import W = UplinkWire

  // ------------------------------------------------ names

  const ALL_ANIMATIONS := [Idle, Blink, LookAround, Confused, Walk, Animation.Happy, Play, Excited,
                           Animation.Sleepy, Nap, Animation.Worried, Animation.Alert]

  const ALL_MOODS := [Calm, Curious, Mood.Happy, Mood.Sleepy, Mood.Worried, Mood.Alert]

  /** The entry of the list with that name. */
  function Named<T>(list: seq<T>, name: T -> string, s: string): (r: Option<T>)
    ensures r.Some? ==> r.value in list && name(r.value) == s
    ensures r == None ==> forall x <- list :: name(x) != s
    decreases |list|
  {
    if list == [] then None else if name(list[0]) == s then Some(list[0]) else Named(list[1..], name, s)
  }

  lemma AnimationNamesDiffer(a: Animation, b: Animation)
    requires AnimationName(a) == AnimationName(b)
    ensures a == b
  {
  }

  lemma MoodNamesDiffer(a: Mood, b: Mood)
    requires MoodName(a) == MoodName(b)
    ensures a == b
  {
  }

  function AnimationNamed(s: string): Option<Animation> {
    Named(ALL_ANIMATIONS, a => AnimationName(a), s)
  }

  function MoodNamed(s: string): Option<Mood> {
    Named(ALL_MOODS, m => MoodName(m), s)
  }

  lemma AnimationRoundTrip(a: Animation)
    ensures AnimationNamed(AnimationName(a)) == Some(a)
  {
    assert a in ALL_ANIMATIONS;
    var r := AnimationNamed(AnimationName(a));
    if r.Some? {
      AnimationNamesDiffer(r.value, a);
    }
  }

  lemma MoodRoundTrip(m: Mood)
    ensures MoodNamed(MoodName(m)) == Some(m)
  {
    assert m in ALL_MOODS;
    var r := MoodNamed(MoodName(m));
    if r.Some? {
      MoodNamesDiffer(r.value, m);
    }
  }

  // ------------------------------------------------ host validation

  /** A decoded JSON value; lists and objects are alike here. */
  datatype Json = Value(v: W.Value) | Fraction(x: real) | Other

  type Object = map<string, Json>

  const ALLOWED_FIELDS := {"v", "kind", "mood", "animation", "text", "alert", "duration_ms"}
  const PROPOSAL_FIELDS := ALLOWED_FIELDS + {"intent", "body_state"}

  const ALLOWED_INTENTS := {"stay_asleep", "wake_up", "soft_reunion", "seek_attention", "play", "soothe", "settle",
                           "celebrate", "comfort_self", "alert_owner"}

  datatype Validated = Valid(command: Command, intent: Option<string>, body: Option<B.BodyState>) | Invalid

  /** dict.get */
  function Get(raw: Object, key: string): Json {
    if key in raw then raw[key] else Value(W.Null)
  }

  function StringField(raw: Object, key: string): Option<string> {
    var x := Get(raw, key);
    if x.Value? && x.v.Text? then Some(x.v.text) else None
  }

  function Strip(s: string): string {
    W.Strip(c => W.IsPythonSpace(c), s)
  }

  /** What the text field comes to: nothing, a text, or an error. */
  function TextField(raw: Object): Option<Option<string>> {
    var x := if "text" in raw then raw["text"] else Value(W.Text(""));
    if x == Value(W.Null) then Some(None)
    else if !(x.Value? && x.v.Text?) then None
    else
      var text := Strip(x.v.text);
      if text == "" then Some(None)
      else if |text| <= TEXT_MAX_LEN && Printable(text) then Some(Some(text))
      else None
  }

  /** str.lower, as far as it gives ASCII: capital letters, and the kelvin sign. */
  function LowerChar(c: char): char {
    if 'A' <= c <= 'Z' then (c as int + 32) as char else if c == '\U{212A}' then 'k' else c
  }

  function Lower(s: string): (r: string)
    ensures |r| == |s|
  {
    seq(|s|, i requires 0 <= i < |s| => LowerChar(s[i]))
  }

  /** An optional field, stripped and in lower case; None for one that is no string. */
  function OptionalField(raw: Object, key: string): Option<string> {
    var x := Get(raw, key);
    if x == Value(W.Null) then Some("")
    else if x.Value? && x.v.Text? then Some(Lower(Strip(x.v.text)))
    else None
  }

  function BodyNamed(s: string): Option<B.BodyState> {
    if s == "awake" then Some(B.Awake)
    else if s == "drowsy" then Some(B.Drowsy)
    else if s == "sleeping" then Some(B.Sleeping)
    else if s == "waking" then Some(B.Waking)
    else None
  }

  /** The value of a body state (host/body.py, BodyState). */
  function BodyName(b: B.BodyState): string {
    match b
    case Awake => "awake"
    case Drowsy => "drowsy"
    case Sleeping => "sleeping"
    case Waking => "waking"
  }

  lemma BodyNamesAreRead(s: string, b: B.BodyState)
    ensures BodyNamed(s) == Some(b) <==> s == BodyName(b)
  {
  }

  /** Equal to the integer 1, as True and 1.0 are. */
  predicate IsOne(x: Json) {
    (x.Value? && W.IsOne(x.v)) || (x.Fraction? && x.x == 1.0)
  }

  /** The six fields of a frame. */
  function CommandOf(raw: Object): Option<Command> {
    var v, animation, mood := Get(raw, "v"), StringField(raw, "animation"), StringField(raw, "mood");
    var alert, duration, text := Get(raw, "alert"), Get(raw, "duration_ms"), TextField(raw);
    if !IsOne(v) || StringField(raw, "kind") != Some("behavior") then None
    else if animation == None || AnimationNamed(animation.value) == None then None
    else if mood == None || MoodNamed(mood.value) == None then None
    else
      var a := AnimationNamed(animation.value).value;
      if !(alert.Value? && alert.v.Truth?) || alert.v.b != (a == Animation.Alert) then None
      else if !(duration.Value? && duration.v.Number? && MIN_DURATION_MS <= duration.v.n <= MAX_DURATION_MS) then None
      else if text == None then None
      else Some(Command(MoodOf(a), a, text.value, alert.v.b, duration.v.n))
  }

  /** What a proposal hints at beside the frame. */
  datatype Hint = Hint(intent: Option<string>, body: Option<B.BodyState>)

  /** The hints of a proposal, or nothing if they are refused. */
  function Hints(raw: Object): Option<Hint> {
    var intent, body := OptionalField(raw, "intent"), OptionalField(raw, "body_state");
    if intent == None || (intent.value != "" && intent.value !in ALLOWED_INTENTS) || body == None then None
    else Some(Hint(if intent.value == "" then None else intent, BodyNamed(body.value)))
  }

  /** _validate_behavior_object */
  function Validate(raw: Object, allowProposal: bool): Validated {
    if !(raw.Keys <= if allowProposal then PROPOSAL_FIELDS else ALLOWED_FIELDS) then Invalid
    else
      match CommandOf(raw)
      case None => Invalid
      case Some(command) =>
        if !allowProposal then Valid(command, None, None)
        else match Hints(raw)
          case None => Invalid
          case Some(hint) => Valid(command, hint.intent, hint.body)
  }

  /** Whatever the model's answer decodes to, what passes is a frame the device accepts. */
  lemma ValidationIsSound(raw: Object, allowProposal: bool)
    ensures var r := Validate(raw, allowProposal);
            r.Valid? ==> HostValid(r.command) && (r.intent.Some? ==> r.intent.value in ALLOWED_INTENTS)
  {
    var command := CommandOf(raw);
    if command.Some? {
      TextIsOk(raw);
    }
  }

  /** Small letters stand for capitals and for the kelvin sign; nothing else changes. */
  lemma LowerAlphabet(c: char)
    ensures Lower("ABCDEFGHIJKLMNOPQRSTUVWXYZ\U{212A}") == "abcdefghijklmnopqrstuvwxyzk"
    ensures c !in "ABCDEFGHIJKLMNOPQRSTUVWXYZ\U{212A}" ==> LowerChar(c) == c
  {
    var capitals := "ABCDEFGHIJKLMNOPQRSTUVWXYZ\U{212A}";
    assert 'A' <= c <= 'Z' ==> capitals[c as int - 'A' as int] == c;
    assert capitals[26] == '\U{212A}';
  }

  /** Which text fields pass and what they come to. */
  lemma TextFieldExactly(raw: Object, t: Option<string>)
    ensures TextField(raw) == Some(t) <==>
      var x := Get(raw, "text");
      if t == None then x == Value(W.Null) || (x.Value? && x.v.Text? && Strip(x.v.text) == "")
      else x.Value? && x.v.Text? && Strip(x.v.text) == t.value && 0 < |t.value| <= TEXT_MAX_LEN && Printable(t.value)
  {
    assert Strip("") == "";
  }

  /** The object has the fields of frame c; the mood is that of the animation, whatever known mood it names. */
  ghost predicate HasFields(raw: Object, c: Command) {
    && Get(raw, "v") in {Value(W.Number(1)), Value(W.Truth(true)), Fraction(1.0)}
    && Get(raw, "kind") == Value(W.Text("behavior"))
    && Get(raw, "animation") == Value(W.Text(AnimationName(c.animation))) && c.mood == MoodOf(c.animation)
    && (exists m :: Get(raw, "mood") == Value(W.Text(MoodName(m))))
    && Get(raw, "alert") == Value(W.Truth(c.alert)) && (c.alert <==> c.animation == Animation.Alert)
    && Get(raw, "duration_ms") == Value(W.Number(c.durationMs)) && 1_000 <= c.durationMs <= 15_000
    && TextField(raw) == Some(c.text)
  }

  /** Which objects are frames, and which frame each is. */
  lemma CommandOfExactly(raw: Object, c: Command)
    ensures CommandOf(raw) == Some(c) <==> HasFields(raw, c)
  {
    if HasFields(raw, c) {
      FieldsMakeIt(raw, c);
    }
    if CommandOf(raw) == Some(c) {
      ItHasFields(raw, c);
    }
  }

  lemma FieldsMakeIt(raw: Object, c: Command)
    requires HasFields(raw, c)
    ensures CommandOf(raw) == Some(c)
  {
    var m :| Get(raw, "mood") == Value(W.Text(MoodName(m)));
    TextIs(raw, "kind", "behavior");
    TextIs(raw, "animation", AnimationName(c.animation));
    TextIs(raw, "mood", MoodName(m));
    OneIs(Get(raw, "v"));
    AnimationRoundTrip(c.animation);
    MoodRoundTrip(m);
  }

  lemma TextIs(raw: Object, key: string, s: string)
    ensures StringField(raw, key) == Some(s) <==> Get(raw, key) == Value(W.Text(s))
  {
  }

  lemma OneIs(x: Json)
    ensures IsOne(x) <==> x in {Value(W.Number(1)), Value(W.Truth(true)), Fraction(1.0)}
  {
  }

  lemma ItHasFields(raw: Object, c: Command)
    requires CommandOf(raw) == Some(c)
    ensures HasFields(raw, c)
  {
    TextIs(raw, "kind", "behavior");
    TextIs(raw, "animation", AnimationName(c.animation));
    OneIs(Get(raw, "v"));
    MoodsNamed(StringField(raw, "mood").value);
  }

  lemma MoodsNamed(s: string)
    ensures MoodNamed(s).Some? <==> exists m :: s == MoodName(m)
  {
    if m :| s == MoodName(m) {
      MoodRoundTrip(m);
    }
  }

  lemma KeysKnown(raw: Object, allowProposal: bool)
    ensures raw.Keys <= (if allowProposal then PROPOSAL_FIELDS else ALLOWED_FIELDS)
       <==> forall key <- raw :: key in ALLOWED_FIELDS || (allowProposal && key in {"intent", "body_state"})
  {
  }

  /** Which objects pass: the known fields and no others, a frame, and for a proposal, hints that are not
      refused. */
  lemma AcceptedExactly(raw: Object, allowProposal: bool)
    ensures Validate(raw, allowProposal).Valid? <==>
      && (forall key <- raw :: key in ALLOWED_FIELDS || (allowProposal && key in {"intent", "body_state"}))
      && CommandOf(raw).Some? && (allowProposal ==> Hints(raw).Some?)
    ensures var r := Validate(raw, allowProposal);
            r.Valid? ==> && CommandOf(raw) == Some(r.command)
                         && Some(Hint(r.intent, r.body)) == if allowProposal then Hints(raw) else Some(Hint(None, None))
  {
    KeysKnown(raw, allowProposal);
  }

  /** A text field's text, stripped and in lower case; empty without one. */
  function Cleaned(raw: Object, key: string): string {
    var x := Get(raw, key);
    if x.Value? && x.v.Text? then Lower(Strip(x.v.text)) else ""
  }

  /** Which hints are refused, and what they come to: a field must be missing, null or a string; the intent must then
      be empty or a known one, and the body state is the one of that name, or none, since a wrong state is dropped
      and not refused. */
  lemma HintsAreRead(raw: Object, b: B.BodyState)
    ensures var intent, body := Cleaned(raw, "intent"), Cleaned(raw, "body_state");
            && (Hints(raw).Some? <==>
                  && (Get(raw, "intent") == Value(W.Null) || (Get(raw, "intent").Value? && Get(raw, "intent").v.Text?))
                  && (Get(raw, "body_state") == Value(W.Null)
                      || (Get(raw, "body_state").Value? && Get(raw, "body_state").v.Text?))
                  && (intent == "" || intent in ALLOWED_INTENTS))
            && (Hints(raw).Some? ==>
                  && Hints(raw).value.intent == (if intent == "" then None else Some(intent))
                  && (Hints(raw).value.body == Some(b) <==> body == BodyName(b)))
  {
    BodyNamesAreRead(Cleaned(raw, "body_state"), b);
    FieldIs(raw, "intent");
    FieldIs(raw, "body_state");
  }

  lemma FieldIs(raw: Object, key: string)
    ensures OptionalField(raw, key) ==
      if Get(raw, key) == Value(W.Null) || (Get(raw, key).Value? && Get(raw, key).v.Text?)
      then Some(Cleaned(raw, key)) else None
  {
  }

  lemma {:induction false} StripLeftFront(space: char -> bool, s: string)
    ensures var r := W.StripLeft(space, s); r != "" ==> !space(r[0])
    decreases |s|
  {
    if s != "" && space(s[0]) {
      StripLeftFront(space, s[1..]);
    }
  }

  lemma {:induction false} StripRightEnds(space: char -> bool, s: string)
    ensures var r := W.StripRight(space, s); r != "" ==> r[0] == s[0] && !space(r[|r| - 1])
    decreases |s|
  {
    if s != "" && space(s[|s| - 1]) {
      StripRightEnds(space, s[..|s| - 1]);
    }
  }

  lemma StrippedEnds(space: char -> bool, s: string)
    ensures var r := W.Strip(space, s); r != "" ==> !space(r[0]) && !space(r[|r| - 1])
  {
    StripLeftFront(space, s);
    StripRightEnds(space, W.StripLeft(space, s));
  }

  lemma TextIsOk(raw: Object)
    ensures TextField(raw).Some? ==> TextOk(TextField(raw).value)
  {
    var x := if "text" in raw then raw["text"] else Value(W.Text(""));
    if x.Value? && x.v.Text? {
      StrippedEnds(c => W.IsPythonSpace(c), x.v.text);
    }
  }

  // ------------------------------------------------ the object that is sent

  /** payload */
  function Payload(c: Command): Object {
    map["v" := Value(W.Number(1)), "kind" := Value(W.Text("behavior")), "mood" := Value(W.Text(MoodName(c.mood))),
        "animation" := Value(W.Text(AnimationName(c.animation))), "text" := Value(W.Text(TextOf(c))),
        "alert" := Value(W.Truth(c.alert)), "duration_ms" := Value(W.Number(c.durationMs))]
  }

  lemma StripKeeps(text: Option<string>)
    requires TextOk(text)
    ensures var s := if text.Some? then text.value else "";
            Strip(s) == s && Trim(s) == s
  {
    if text.Some? {
      var s := text.value;
      W.StripNothing(c => W.IsPythonSpace(c), s);
      W.StripNothing(c => IsRustSpace(c), s);
    }
  }

  /** The object has the fields of c. */
  predicate Carries(raw: Object, c: Command) {
    && Get(raw, "v") == Value(W.Number(1)) && Get(raw, "kind") == Value(W.Text("behavior"))
    && Get(raw, "mood") == Value(W.Text(MoodName(c.mood)))
    && Get(raw, "animation") == Value(W.Text(AnimationName(c.animation)))
    && "text" in raw && raw["text"] == Value(W.Text(TextOf(c)))
    && Get(raw, "alert") == Value(W.Truth(c.alert)) && Get(raw, "duration_ms") == Value(W.Number(c.durationMs))
  }

  lemma PayloadCarries(c: Command)
    ensures Carries(Payload(c), c)
  {
  }

  lemma CarriedText(raw: Object, c: Command)
    requires HostValid(c) && Carries(raw, c)
    ensures TextField(raw) == Some(c.text)
  {
    StripKeeps(c.text);
  }

  lemma CarriedFields(raw: Object, c: Command)
    requires HostValid(c) && Carries(raw, c)
    ensures CommandOf(raw) == Some(c)
  {
    CarriedText(raw, c);
    AnimationRoundTrip(c.animation);
    MoodRoundTrip(c.mood);
    assert StringField(raw, "kind") == Some("behavior");
    assert StringField(raw, "animation") == Some(AnimationName(c.animation));
    assert StringField(raw, "mood") == Some(MoodName(c.mood));
  }

  /** Sending is the inverse of validating: the object of a valid command validates to that command. */
  lemma PayloadValidates(c: Command, allowProposal: bool)
    requires HostValid(c)
    ensures Validate(Payload(c), allowProposal) == Valid(c, None, None)
  {
    PayloadCarries(c);
    PayloadKeys(c);
    CarriedValidates(Payload(c), c, allowProposal);
  }

  lemma PayloadKeys(c: Command)
    ensures Payload(c).Keys == ALLOWED_FIELDS
  {
  }

  lemma CarriedValidates(raw: Object, c: Command, allowProposal: bool)
    requires HostValid(c) && Carries(raw, c) && raw.Keys == ALLOWED_FIELDS
    ensures Validate(raw, allowProposal) == Valid(c, None, None)
  {
    CarriedFields(raw, c);
    NoHints(raw);
    assert BodyNamed("") == None;
  }

  lemma NoHints(raw: Object)
    requires raw.Keys == ALLOWED_FIELDS
    ensures OptionalField(raw, "intent") == Some("") && OptionalField(raw, "body_state") == Some("")
  {
    assert "intent" !in ALLOWED_FIELDS && "body_state" !in ALLOWED_FIELDS;
  }

  // ------------------------------------------------ the device

  /** A frame after JSON decoding on the device. */
  datatype RawUpdate = RawUpdate(v: Byte, kind: string, mood: Mood, animation: Animation, text: Option<string>,
                                 alert: bool, durationMs: nat)

  datatype ParseError = UnsupportedVersion | WrongKind | MismatchedMood | InvalidAlertFlag

  datatype Parsed = Update(command: Command) | Rejected(error: ParseError)

  predicate MoodMatchesAnimation(m: Mood, a: Animation) {
    (m, a) in {(Calm, Idle), (Calm, Blink), (Curious, LookAround), (Curious, Confused), (Curious, Walk),
               (Mood.Happy, Animation.Happy), (Mood.Happy, Play), (Mood.Happy, Excited),
               (Mood.Sleepy, Animation.Sleepy), (Mood.Sleepy, Nap), (Mood.Worried, Animation.Worried),
               (Mood.Alert, Animation.Alert)}
  }

  predicate IsRustSpace(c: char) {
    '\t' <= c <= '\r' || c == ' '
  }

  lemma RustSpaces(c: char)
    ensures IsRustSpace(c) <==> c in " \t\n\r\U{0B}\U{0C}"
  {
  }

  /** str::trim, on ASCII */
  function Trim(s: string): string {
    W.Strip(c => IsRustSpace(c), s)
  }

  method ClampText(raw: Option<string>) returns (out: Option<string>)
    ensures out == Clipped(raw)
  {
    if raw == None {
      return None;
    }
    var text := Trim(raw.value);
    var s := "";
    for i := 0 to |text|
      invariant i <= TEXT_MAX_LEN && s == text[..i]
    {
      if |s| == TEXT_MAX_LEN {
        break;
      }
      s := s + [text[i]];
    }
    out := if s == "" then None else Some(s);
  }

  /** The first 24 characters of the trimmed text, if any. */
  function Clipped(raw: Option<string>): Option<string> {
    if raw == None then None
    else
      var text := Trim(raw.value);
      if text == "" then None else Some(text[..Min(|text|, TEXT_MAX_LEN)])
  }

  /** parse, after decoding */
  function DeviceParse(raw: RawUpdate): Parsed {
    if raw.v != 1 then Rejected(UnsupportedVersion)
    else if raw.kind != "behavior" then Rejected(WrongKind)
    else if !MoodMatchesAnimation(raw.mood, raw.animation) then Rejected(MismatchedMood)
    else if raw.alert != (raw.animation == Animation.Alert) then Rejected(InvalidAlertFlag)
    else Update(Command(raw.mood, raw.animation, Clipped(raw.text), raw.alert,
                        Max(MIN_DURATION_MS, Min(raw.durationMs, MAX_DURATION_MS))))
  }

  /** The device's table of moods is the host's. */
  lemma TablesAgree(m: Mood, a: Animation)
    ensures MoodMatchesAnimation(m, a) <==> m == MoodOf(a)
  {
  }

  function Decoded(c: Command): RawUpdate
    requires c.durationMs >= 0
  {
    RawUpdate(1, "behavior", c.mood, c.animation, Some(TextOf(c)), c.alert, c.durationMs)
  }

  /** The device takes a validated command as it is, text and duration included. */
  lemma DeviceTakesIt(c: Command)
    requires HostValid(c)
    ensures DeviceParse(Decoded(c)) == Update(c)
  {
    TablesAgree(c.mood, c.animation);
    StripKeeps(c.text);
    if c.text.Some? {
      assert c.text.value[..|c.text.value|] == c.text.value;
    }
  }

  /** Any frame the device acts on at all, from whatever sender, has the mood of its animation, the alert
      flag exactly for an alert, and a duration in range; and it is turned down only for the reasons named. */
  lemma DeviceKeepsContract(raw: RawUpdate)
    ensures DeviceParse(raw).Update? <==>
      && raw.v == 1 && raw.kind == "behavior" && raw.mood == MoodOf(raw.animation)
      && raw.alert == (raw.animation == Animation.Alert)
    ensures DeviceParse(raw).Update? ==>
      var c := DeviceParse(raw).command;
      && c.mood == MoodOf(c.animation) && (c.alert <==> c.animation == Animation.Alert)
      && MIN_DURATION_MS <= c.durationMs <= MAX_DURATION_MS
      && (c.text.Some? ==> 0 < |c.text.value| <= TEXT_MAX_LEN)
      && c.animation == raw.animation
      && (if raw.durationMs < MIN_DURATION_MS then c.durationMs == MIN_DURATION_MS
          else if raw.durationMs > MAX_DURATION_MS then c.durationMs == MAX_DURATION_MS
          else c.durationMs == raw.durationMs)
      && (c.text == None <==> raw.text == None || Trim(raw.text.value) == "")
      && (c.text.Some? ==> c.text.value <= Trim(raw.text.value)
                           && |c.text.value| == Min(TEXT_MAX_LEN, |Trim(raw.text.value)|))
  {
    TablesAgree(raw.mood, raw.animation);
  }

  /** frames_for: saturating 32-bit addition, then clamped to 1..65535. */
  function FramesFor(durationMs: int, frameMs: int): int
    requires frameMs > 0
  {
    Max(1, Min(65535, Min(0xFFFF_FFFF, durationMs + (frameMs - 1)) / frameMs))
  }

  /** The number of frames is the duration in frames, rounded up. */
  lemma FramesCover(c: Command, frameMs: int)
    requires HostValid(c) && 0 < frameMs <= 65535
    ensures var n := FramesFor(c.durationMs, frameMs);
            1 <= n <= 65535 && (n - 1) * frameMs < c.durationMs <= n * frameMs
  {
    var total := c.durationMs + (frameMs - 1);
    Quotient(total, frameMs);
    AtMost(total / frameMs, frameMs, c.durationMs);
  }

  lemma Quotient(total: nat, n: nat)
    requires n > 0
    ensures total / n * n <= total < (total / n + 1) * n
  {
  }

  lemma AtMost(k: nat, n: nat, most: nat)
    requires n > 0 && (k - 1) * n < most
    ensures k <= most
  {
    assert k > most ==> (k - 1) * n >= most * n >= most;
  }
}
