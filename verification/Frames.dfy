/** From a proposal to the frame that is sent: the stages of one tick of the pet loop
    (host/pet_loop.py), over whole runs. */
module Frames {
  import opened Common
  import opened Behavior
  import opened Body
  import A = AffectModel
  import P = Presence

  const IDLE_LOOP_DURATION_MS := 3000
  const WALK_MIN_DURATION_MS := 6500
  const BURN_IN_INTERVAL_SECONDS := 150.0
  const BURN_IN_DURATION_MS := 1500
  const RECENT_PHRASE_LIMIT := 5
  const RECENT_ANIMATION_LIMIT := 5

  predicate IdleCapable(a: Animation) {
    a == Idle || a == Blink || a == LookAround
  }

  predicate StaticPose(a: Animation) {
    a == Idle || a == Nap || a == Animation.Sleepy
  }

  function Fallback(source: Source): Command {
    match source
    case ImportantAlert => Command(Mood.Alert, Animation.Alert, Some("look now"), true, 6500)
    case TouchInput => Command(Curious, Confused, Some("???"), false, 4000)
    case _ => Command(Calm, Idle, None, false, 5000)
  }

  lemma FallbackIsValid(source: Source)
    ensures HostValid(Fallback(source)) && (Fallback(source).alert <==> source == ImportantAlert)
    ensures Fallback(source).text == None <==> source != ImportantAlert && source != TouchInput
  {
    assert TextOk(Some("look now"));
    assert TextOk(Some("???"));
  }

  // ------------------------------------------------ novelty

  /** The first suggestion that was not used lately. */
  function FirstFresh(list: seq<Animation>, recent: seq<Animation>): (a: Option<Animation>)
    ensures a.Some? ==> a.value in list && a.value != Animation.Alert && a.value !in recent
    ensures a == None ==> forall x <- list :: x == Animation.Alert || x in recent
    decreases |list|
  {
    if list == [] then None
    else if list[0] == Animation.Alert || list[0] in recent then FirstFresh(list[1..], recent)
    else Some(list[0])
  }

  function FreshText(c: Command, phrases: seq<string>): Option<string> {
    if c.text.Some? && c.text.value in phrases then None else c.text
  }

  /** What novelty makes of a behavior. */
  function Novel(c: Command, recent: seq<Animation>, phrases: seq<string>, suggested: seq<Animation>,
                 source: Source): Command
  {
    var text := FreshText(c, phrases);
    var other := FirstFresh(suggested, recent);
    if c.alert || source == ImportantAlert || c.animation !in recent || other == None then c.(text := text)
    else Command(MoodOf(other.value), other.value, if IdleCapable(other.value) then None else text, false, c.durationMs)
  }

  /** Novelty never repeats a recent phrase, and repeats a recent animation only for an alert or when
      every suggestion is recent too. */
  lemma NoveltyAvoidsRepeats(c: Command, recent: seq<Animation>, phrases: seq<string>, suggested: seq<Animation>,
                             source: Source)
    ensures var n := Novel(c, recent, phrases, suggested, source);
            && (n.text.Some? ==> n.text.value !in phrases)
            && (n.animation in recent && !c.alert && source != ImportantAlert ==>
                  forall x <- suggested :: x == Animation.Alert || x in recent)
            && (HostValid(c) ==> HostValid(n) && n.alert == c.alert && n.durationMs == c.durationMs)
            && (n.animation == c.animation || (c.animation in recent && n.animation in suggested))
            && (n.text == None || n.text == c.text)
            && (n.text == None <==> || c.text == None || c.text.value in phrases
                                    || (n.animation != c.animation && n.animation in {Idle, Blink, LookAround}))
  {
  }

  // ------------------------------------------------ loop adaptation

  function LoopGapMs(interval: real): int {
    Max(1000, (interval * 1000.0).Floor / 2)
  }

  function Adapted(c: Command, interval: real): Command {
    if c.animation == Walk && c.durationMs < WALK_MIN_DURATION_MS then c.(durationMs := WALK_MIN_DURATION_MS)
    else if !IdleCapable(c.animation) then c
    else c.(durationMs := Min(c.durationMs, Min(IDLE_LOOP_DURATION_MS, LoopGapMs(interval))))
  }

  lemma AdaptedIsValid(c: Command, interval: real)
    requires HostValid(c)
    ensures HostValid(Adapted(c, interval)) && Adapted(c, interval).animation == c.animation
    ensures Adapted(c, interval).alert == c.alert
    ensures var d := Adapted(c, interval).durationMs;
            && (c.animation == Walk ==> d == Max(c.durationMs, WALK_MIN_DURATION_MS))
            && (c.animation != Walk && !IdleCapable(c.animation) ==> d == c.durationMs)
            && (IdleCapable(c.animation) ==>
                  && d <= c.durationMs && d <= IDLE_LOOP_DURATION_MS
                  && (d <= 1000 || 2.0 * d as real <= 1000.0 * interval)
                  && (d == c.durationMs || d == IDLE_LOOP_DURATION_MS || d == 1000
                      || 2.0 * (d + 1) as real > 1000.0 * interval))
    ensures Adapted(c, interval).(durationMs := c.durationMs) == c
  {
    HalfInterval(interval);
  }

  /** The gap is half the interval in whole milliseconds, and never under a second. */
  lemma HalfInterval(interval: real)
    ensures var gap := LoopGapMs(interval);
            && gap >= 1000
            && (gap > 1000 ==> 2.0 * gap as real <= 1000.0 * interval)
            && 2.0 * (gap + 1) as real > 1000.0 * interval
  {
  }

  // ------------------------------------------------ the loop's own state

  predicate Still(state: BodyState, a: Animation) {
    state == Sleeping || state == Drowsy || StaticPose(a)
  }

  const FLICKER := Command(Calm, Blink, None, false, BURN_IN_DURATION_MS)

  class PetState {
    var recentPhrases: seq<string>
    var recentAnimations: seq<Animation>
    var lastMicromotionAt: real

    constructor ()
      ensures recentPhrases == [] && recentAnimations == [] && lastMicromotionAt == 0.0
    {
      recentPhrases, recentAnimations, lastMicromotionAt := [], [], 0.0;
    }

    method ApplyNovelty(c: Command, suggested: seq<Animation>, source: Source) returns (out: Command)
      ensures out == Novel(c, recentAnimations, recentPhrases, suggested, source)
    {
      var text := c.text;
      if text.Some? && text.value in recentPhrases {
        text := None;
      }
      if c.alert || source == ImportantAlert || c.animation !in recentAnimations {
        return c.(text := text);
      }
      for i := 0 to |suggested|
        invariant FirstFresh(suggested, recentAnimations) == FirstFresh(suggested[i..], recentAnimations)
      {
        var animation := suggested[i];
        if animation == Animation.Alert || animation in recentAnimations {
          continue;
        }
        if IdleCapable(animation) {
          text := None;
        }
        return Command(MoodOf(animation), animation, text, false, c.durationMs);
      }
      return c.(text := text);
    }

    method BurnInGuardrail(c: Command, state: BodyState, now: real) returns (out: Command)
      modifies this`lastMicromotionAt
      ensures (out, lastMicromotionAt) == Guarded(c, state, Last(recentAnimations), old(lastMicromotionAt), now)
    {
      if !Still(state, c.animation) || Some(c.animation) != Last(recentAnimations) {
        lastMicromotionAt := now;
        return c;
      }
      if lastMicromotionAt <= 0.0 {
        lastMicromotionAt := now;
        return c;
      }
      if now - lastMicromotionAt < BURN_IN_INTERVAL_SECONDS {
        return c;
      }
      lastMicromotionAt := now;
      return FLICKER;
    }

    function Value(body: Body): Loop
      reads this
    {
      Loop(body, recentAnimations, recentPhrases, lastMicromotionAt)
    }

    method Observe(c: Command)
      modifies this`recentPhrases, this`recentAnimations
      ensures Last(recentAnimations) == Some(c.animation)
      ensures recentAnimations == LastOf(old(recentAnimations) + [c.animation], RECENT_ANIMATION_LIMIT)
      ensures recentPhrases == Heard(old(recentPhrases), c)
    {
      if c.text.Some? && c.text.value != "" {
        recentPhrases := LastOf(recentPhrases + [c.text.value], RECENT_PHRASE_LIMIT);
      }
      recentAnimations := LastOf(recentAnimations + [c.animation], RECENT_ANIMATION_LIMIT);
    }
  }

  /** The recent phrases after a frame. */
  function Heard(phrases: seq<string>, c: Command): seq<string> {
    if c.text.Some? && c.text.value != "" then LastOf(phrases + [c.text.value], RECENT_PHRASE_LIMIT) else phrases
  }

  function Last<T>(s: seq<T>): Option<T> {
    if s == [] then None else Some(s[|s| - 1])
  }

  function LastOf<T>(s: seq<T>, n: nat): (r: seq<T>)
    ensures |r| == Min(|s|, n) && r == s[|s| - |r|..]
  {
    if |s| <= n then s else s[|s| - n..]
  }

  /** The burn-in guard: the frame that goes out, and the time of the last visible motion. */
  function Guarded(c: Command, state: BodyState, last: Option<Animation>, moved: real, now: real): (Command, real) {
    if !Still(state, c.animation) || Some(c.animation) != last || moved <= 0.0 then (c, now)
    else if now - moved < BURN_IN_INTERVAL_SECONDS then (c, moved)
    else (FLICKER, now)
  }

  // ------------------------------------------------ runs

  /** What one tick gets from outside: clocks and feelings, the event, and the model's answer, which is
      any validated proposal at all, or nothing. */
  datatype Input = Input(now: real, feelings: A.Feelings, report: Option<P.Report>, source: Source, hour: int,
                         answer: Option<Proposal>)

  datatype Proposal = Proposal(behavior: Command, body: Option<BodyState>)

  ghost predicate InputOk(x: Input) {
    x.now > 0.0 && (x.answer.Some? ==> HostValid(x.answer.value.behavior))
  }

  /** What the loop carries from tick to tick. */
  datatype Loop = Loop(body: Body, animations: seq<Animation>, phrases: seq<string>, moved: real)

  /** The model's answer, or the fallback if there is none. */
  function Answer(x: Input): Proposal {
    if x.answer.Some? then x.answer.value else Proposal(Fallback(x.source), None)
  }

  /** What the body is given: the answer's behavior made novel, and the answer's state. */
  function TickOf(l: Loop, x: Input): Tick {
    var behavior := Novel(Answer(x).behavior, l.animations, l.phrases, A.SuggestedAnimations(x.feelings), x.source);
    Tick(x.now, x.feelings.energy, x.feelings.sleepiness, x.report, x.source, x.hour, behavior, Answer(x).body)
  }

  /** The frame before the burn-in guard. */
  function Unguarded(cfg: Config, interval: real, l: Loop, x: Input): Command {
    Adapted(FrameOf(cfg, l.body, TickOf(l, x)), interval)
  }

  /** One tick as a whole: its entry, and what the loop carries on. */
  function LoopStep(cfg: Config, interval: real, l: Loop, x: Input): (Entry, Loop) {
    var t := TickOf(l, x);
    var body := AfterTick(cfg, l.body, t);
    var (frame, moved) := Guarded(Unguarded(cfg, interval, l, x), body.state, Last(l.animations), l.moved, x.now);
    (Entry(t, body.state, frame),
     Loop(body, LastOf(l.animations + [frame.animation], RECENT_ANIMATION_LIMIT), Heard(l.phrases, frame), moved))
  }

  /** What the loop carries before tick n. */
  function LoopAt(cfg: Config, interval: real, start: Body, inputs: seq<Input>, n: nat): Loop
    requires n <= |inputs|
  {
    if n == 0 then Loop(start, [], [], 0.0)
    else LoopStep(cfg, interval, LoopAt(cfg, interval, start, inputs, n - 1), inputs[n - 1]).1
  }

  /** The entry of tick i. */
  function StepAt(cfg: Config, interval: real, start: Body, inputs: seq<Input>, i: nat): Entry
    requires i < |inputs|
  {
    LoopStep(cfg, interval, LoopAt(cfg, interval, start, inputs, i), inputs[i]).0
  }

  /** The log of the first n ticks. */
  function LoopLog(cfg: Config, interval: real, start: Body, inputs: seq<Input>, n: nat): (log: seq<Entry>)
    requires n <= |inputs|
    ensures |log| == n
  {
    if n == 0 then [] else LoopLog(cfg, interval, start, inputs, n - 1) + [StepAt(cfg, interval, start, inputs, n - 1)]
  }

  /** The frames of the first n ticks before the guard. */
  function Plans(cfg: Config, interval: real, start: Body, inputs: seq<Input>, n: nat): (plans: seq<Command>)
    requires n <= |inputs|
    ensures |plans| == n
  {
    if n == 0 then []
    else
      Plans(cfg, interval, start, inputs, n - 1)
      + [Unguarded(cfg, interval, LoopAt(cfg, interval, start, inputs, n - 1), inputs[n - 1])]
  }

  /** What one tick did: what the body was given, the state it settled on, and the frame sent. */
  datatype Entry = Entry(tick: Tick, state: BodyState, frame: Command)

  function Ticks(log: seq<Entry>): seq<Tick> {
    seq(|log|, i requires 0 <= i < |log| => log[i].tick)
  }

  predicate Belongs(t: Tick, x: Input) {
    && t.now == x.now && t.energy == x.feelings.energy && t.sleepiness == x.feelings.sleepiness
    && t.report == x.report && t.source == x.source && t.hour == x.hour
    && t.proposed == (if x.answer.Some? then x.answer.value.body else None)
    && (x.answer.Some? ==> t.behavior.alert == x.answer.value.behavior.alert)
  }

  /** What the device and the body demand of a frame sent in `state`. */
  predicate FrameOk(frame: Command, state: BodyState) {
    HostValid(frame) && AnimationFits(state, frame.animation) && (state != Awake ==> !frame.alert)
  }

  /** One tick, from the body b. */
  ghost predicate EntryOk(cfg: Config, b: Body, e: Entry, x: Input) {
    && Belongs(e.tick, x)
    && HostValid(e.tick.behavior)
    && e.state == AfterTick(cfg, b, e.tick).state
    && FrameOk(e.frame, e.state)
    && (e.state == Sleeping && e.frame.animation == Nap ==> b.state != Sleeping)
    && (e.state == Waking ==> e.frame.animation != Nap)
  }

  /** Reference: a picture that does not move. */
  predicate Stands(state: BodyState, a: Animation) {
    state in {Sleeping, Drowsy} || a in {Idle, Nap, Animation.Sleepy}
  }

  /** Reference: when the picture last moved, judged by the frames alone. */
  function LastMove(log: seq<Entry>, i: nat): real
    requires i < |log|
  {
    if i == 0 || log[i].frame.animation != log[i - 1].frame.animation || !Stands(log[i].state, log[i].frame.animation)
    then log[i].tick.now else LastMove(log, i - 1)
  }

  /** No still pose but the blink is sent once the picture has stood for the interval. */
  ghost predicate NoBurnIn(log: seq<Entry>) {
    forall i :: 0 <= i < |log| && log[i].frame.animation != Blink ==>
      log[i].tick.now - LastMove(log, i) < BURN_IN_INTERVAL_SECONDS
  }

  /** Frame i is what the stages before the guard made, or it is the blink in its place, and then the picture
      stood and had stood for the interval. */
  ghost predicate KeptOrNeeded(log: seq<Entry>, i: nat, unguarded: Command)
    requires i < |log|
  {
    log[i].frame != unguarded ==>
      && log[i].frame == FLICKER && i > 0 && unguarded.animation == log[i - 1].frame.animation
      && Stands(log[i].state, unguarded.animation)
      && log[i].tick.now - LastMove(log, i - 1) >= BURN_IN_INTERVAL_SECONDS
  }

  ghost predicate NoNeedlessBlink(log: seq<Entry>, plans: seq<Command>)
    requires |log| == |plans|
  {
    forall i :: 0 <= i < |log| ==> KeptOrNeeded(log, i, plans[i])
  }

  function RunOf(cfg: Config, start: Body, log: seq<Entry>): Run {
    Run(cfg, start, Ticks(log))
  }

  ghost predicate LogOk(cfg: Config, start: Body, inputs: seq<Input>, log: seq<Entry>) {
    && |log| == |inputs|
    && forall i :: 0 <= i < |log| ==> EntryOk(cfg, BodyAt(RunOf(cfg, start, log), i), log[i], inputs[i])
  }

  /** The body is sleepy exactly when the feelings are. */
  lemma SleepyAgrees(l: Loop, x: Input)
    ensures IsSleepy(TickOf(l, x)) <==> A.IsSleepy(x.feelings)
  {
  }

  // ------------------------------------------------ one tick of the pipeline

  lemma GuardKeepsFrameOk(c: Command, state: BodyState, last: Option<Animation>, moved: real, now: real)
    requires FrameOk(c, state)
    ensures FrameOk(Guarded(c, state, last, moved, now).0, state)
    ensures Guarded(c, state, last, moved, now).0.animation == Nap ==> c.animation == Nap
  {
  }

  lemma TickIsOk(cfg: Config, b: Body, t: Tick, x: Input, interval: real, last: Option<Animation>, moved: real)
    requires HostValid(t.behavior) && Belongs(t, x)
    ensures var state := AfterTick(cfg, b, t).state;
            var frame := Guarded(Adapted(FrameOf(cfg, b, t), interval), state, last, moved, t.now).0;
            EntryOk(cfg, b, Entry(t, state, frame), x)
  {
    var state, clamped := AfterTick(cfg, b, t).state, FrameOf(cfg, b, t);
    var a := Advanced(cfg, b, t.now);
    ClampFits(t.behavior, state, state == Sleeping && a.state != Sleeping);
    AdaptedIsValid(clamped, interval);
    GuardKeepsFrameOk(Adapted(clamped, interval), state, last, moved, t.now);
  }

  /** The burn-in clock agrees with the reference whenever the last frame was not a blink. */
  ghost predicate Moved(log: seq<Entry>, moved: real, last: Option<Animation>) {
    if log == [] then last == None
    else
      var e := log[|log| - 1];
      && last == Some(e.frame.animation)
      && moved >= LastMove(log, |log| - 1) > 0.0
      && (e.frame.animation != Blink ==> moved == LastMove(log, |log| - 1))
  }

  lemma {:induction false} LastMovePrefix(log: seq<Entry>, e: Entry, i: nat)
    requires i < |log|
    ensures LastMove(log + [e], i) == LastMove(log, i)
  {
    if i > 0 {
      LastMovePrefix(log, e, i - 1);
    }
  }

  lemma GuardMoves(log: seq<Entry>, c: Command, state: BodyState, t: Tick, moved: real, last: Option<Animation>)
    requires Moved(log, moved, last) && NoBurnIn(log) && t.now > 0.0
    ensures var (frame, moved') := Guarded(c, state, last, moved, t.now);
            && Moved(log + [Entry(t, state, frame)], moved', Some(frame.animation))
            && NoBurnIn(log + [Entry(t, state, frame)])
  {
    var (frame, moved') := Guarded(c, state, last, moved, t.now);
    var log' := log + [Entry(t, state, frame)];
    forall i | 0 <= i < |log|
      ensures LastMove(log', i) == LastMove(log, i)
    {
      LastMovePrefix(log, Entry(t, state, frame), i);
    }
  }

  lemma RunGrows(cfg: Config, start: Body, log: seq<Entry>, e: Entry, i: nat)
    requires i <= |log|
    ensures BodyAt(RunOf(cfg, start, log + [e]), i) == BodyAt(RunOf(cfg, start, log), i)
  {
    if i > 0 {
      RunGrows(cfg, start, log, e, i - 1);
    }
  }

  lemma LogGrows(cfg: Config, start: Body, inputs: seq<Input>, log: seq<Entry>, x: Input, e: Entry)
    requires LogOk(cfg, start, inputs, log)
    requires EntryOk(cfg, BodyAt(RunOf(cfg, start, log), |log|), e, x)
    ensures LogOk(cfg, start, inputs + [x], log + [e])
    ensures var b := BodyAt(RunOf(cfg, start, log), |log|);
            BodyAt(RunOf(cfg, start, log + [e]), |log| + 1) == AfterTick(cfg, b, e.tick)
  {
    forall i | 0 <= i <= |log|
      ensures BodyAt(RunOf(cfg, start, log + [e]), i) == BodyAt(RunOf(cfg, start, log), i)
    {
      RunGrows(cfg, start, log, e, i);
    }
  }

  /** A run so far: the log, and what it left for the next tick. */
  ghost predicate Running(cfg: Config, interval: real, start: Body, inputs: seq<Input>, log: seq<Entry>, l: Loop) {
    && LogOk(cfg, start, inputs, log) && l.body == BodyAt(RunOf(cfg, start, log), |log|)
    && NoBurnIn(log) && Moved(log, l.moved, Last(l.animations))
  }

  lemma StepIsNovel(l: Loop, x: Input)
    requires InputOk(x)
    ensures HostValid(TickOf(l, x).behavior) && Belongs(TickOf(l, x), x)
  {
    FallbackIsValid(x.source);
    NoveltyAvoidsRepeats(Answer(x).behavior, l.animations, l.phrases, A.SuggestedAnimations(x.feelings), x.source);
  }

  lemma StepIsOk(cfg: Config, interval: real, l: Loop, x: Input)
    requires InputOk(x)
    ensures var (e, l') := LoopStep(cfg, interval, l, x);
            EntryOk(cfg, l.body, e, x) && l'.body == AfterTick(cfg, l.body, e.tick)
  {
    StepIsNovel(l, x);
    TickIsOk(cfg, l.body, TickOf(l, x), x, interval, Last(l.animations), l.moved);
  }

  lemma StepMoves(cfg: Config, interval: real, log: seq<Entry>, l: Loop, x: Input)
    requires Moved(log, l.moved, Last(l.animations)) && NoBurnIn(log) && x.now > 0.0
    ensures var (e, l') := LoopStep(cfg, interval, l, x);
            Moved(log + [e], l'.moved, Last(l'.animations)) && NoBurnIn(log + [e])
  {
    var t, c := TickOf(l, x), Unguarded(cfg, interval, l, x);
    GuardMoves(log, c, AfterTick(cfg, l.body, t).state, t, l.moved, Last(l.animations));
    LastOfGrown(l.animations, LoopStep(cfg, interval, l, x).0.frame.animation);
  }

  lemma LastOfGrown(animations: seq<Animation>, a: Animation)
    ensures Last(LastOf(animations + [a], RECENT_ANIMATION_LIMIT)) == Some(a)
  {
  }

  lemma RunningOn(cfg: Config, interval: real, start: Body, inputs: seq<Input>, log: seq<Entry>, l: Loop, x: Input)
    requires Running(cfg, interval, start, inputs, log, l) && InputOk(x)
    ensures var (e, l') := LoopStep(cfg, interval, l, x);
            Running(cfg, interval, start, inputs + [x], log + [e], l')
  {
    StepIsOk(cfg, interval, l, x);
    StepMoves(cfg, interval, log, l, x);
    LogGrows(cfg, start, inputs, log, x, LoopStep(cfg, interval, l, x).0);
  }

  lemma BlinkIsNeeded(cfg: Config, interval: real, log: seq<Entry>, l: Loop, x: Input)
    requires Moved(log, l.moved, Last(l.animations))
    ensures var (e, _) := LoopStep(cfg, interval, l, x);
            KeptOrNeeded(log + [e], |log|, Unguarded(cfg, interval, l, x))
  {
    if log != [] {
      LastMovePrefix(log, LoopStep(cfg, interval, l, x).0, |log| - 1);
    }
  }

  lemma StaysKept(log: seq<Entry>, e: Entry, i: nat, unguarded: Command)
    requires i < |log| && KeptOrNeeded(log, i, unguarded)
    ensures KeptOrNeeded(log + [e], i, unguarded)
  {
    if i > 0 {
      LastMovePrefix(log, e, i - 1);
    }
  }

  lemma BlinksSoFar(log: seq<Entry>, plans: seq<Command>, e: Entry, plan: Command)
    requires |log| == |plans| && NoNeedlessBlink(log, plans) && KeptOrNeeded(log + [e], |log|, plan)
    ensures NoNeedlessBlink(log + [e], plans + [plan])
  {
    forall i | 0 <= i < |log|
      ensures KeptOrNeeded(log + [e], i, plans[i])
    {
      StaysKept(log, e, i, plans[i]);
    }
  }

  /** Every frame of every run is fit for the device and for the state of the body, and no still pose stands for
      the burn-in interval. */
  lemma RunsAreFit(cfg: Config, interval: real, start: Body, inputs: seq<Input>, n: nat)
    requires n <= |inputs| && forall i :: 0 <= i < |inputs| ==> InputOk(inputs[i])
    ensures Running(cfg, interval, start, inputs[..n], LoopLog(cfg, interval, start, inputs, n),
                    LoopAt(cfg, interval, start, inputs, n))
  {
    NothingYet(cfg, interval, start);
    assert inputs[..0] == [];
    for k := 0 to n
      invariant Running(cfg, interval, start, inputs[..k], LoopLog(cfg, interval, start, inputs, k),
                        LoopAt(cfg, interval, start, inputs, k))
    {
      FitOneMore(cfg, interval, start, inputs, k);
    }
  }

  lemma NothingYet(cfg: Config, interval: real, start: Body)
    ensures Running(cfg, interval, start, [], [], Loop(start, [], [], 0.0))
  {
  }

  lemma WholeRunIsFit(cfg: Config, interval: real, start: Body, inputs: seq<Input>)
    requires forall i :: 0 <= i < |inputs| ==> InputOk(inputs[i])
    ensures LogOk(cfg, start, inputs, LoopLog(cfg, interval, start, inputs, |inputs|))
    ensures NoBurnIn(LoopLog(cfg, interval, start, inputs, |inputs|))
  {
    RunsAreFit(cfg, interval, start, inputs, |inputs|);
    assert inputs[..|inputs|] == inputs;
  }

  lemma FitOneMore(cfg: Config, interval: real, start: Body, inputs: seq<Input>, n: nat)
    requires n < |inputs| && InputOk(inputs[n])
    requires Running(cfg, interval, start, inputs[..n], LoopLog(cfg, interval, start, inputs, n),
                     LoopAt(cfg, interval, start, inputs, n))
    ensures Running(cfg, interval, start, inputs[..n + 1], LoopLog(cfg, interval, start, inputs, n + 1),
                    LoopAt(cfg, interval, start, inputs, n + 1))
  {
    var l, log := LoopAt(cfg, interval, start, inputs, n), LoopLog(cfg, interval, start, inputs, n);
    OneLonger(inputs, n);
    RunningOn(cfg, interval, start, inputs[..n], log, l, inputs[n]);
    assert LoopLog(cfg, interval, start, inputs, n + 1) == log + [LoopStep(cfg, interval, l, inputs[n]).0];
  }

  lemma MovedAfter(cfg: Config, interval: real, start: Body, inputs: seq<Input>, n: nat)
    requires n <= |inputs| && forall i :: 0 <= i < |inputs| ==> InputOk(inputs[i])
    ensures var l := LoopAt(cfg, interval, start, inputs, n);
            Moved(LoopLog(cfg, interval, start, inputs, n), l.moved, Last(l.animations))
  {
    RunsAreFit(cfg, interval, start, inputs, n);
  }

  /** And the guard breaks off no picture before its time. */
  lemma BlinksAreNeeded(cfg: Config, interval: real, start: Body, inputs: seq<Input>, n: nat)
    requires n <= |inputs| && forall i :: 0 <= i < |inputs| ==> InputOk(inputs[i])
    ensures NoNeedlessBlink(LoopLog(cfg, interval, start, inputs, n), Plans(cfg, interval, start, inputs, n))
  {
    for k := 0 to n
      invariant NoNeedlessBlink(LoopLog(cfg, interval, start, inputs, k), Plans(cfg, interval, start, inputs, k))
    {
      MovedAfter(cfg, interval, start, inputs, k);
      NeededOneMore(cfg, interval, start, inputs, k);
    }
  }

  lemma NeededOneMore(cfg: Config, interval: real, start: Body, inputs: seq<Input>, n: nat)
    requires n < |inputs|
    requires NoNeedlessBlink(LoopLog(cfg, interval, start, inputs, n), Plans(cfg, interval, start, inputs, n))
    requires var l := LoopAt(cfg, interval, start, inputs, n);
             Moved(LoopLog(cfg, interval, start, inputs, n), l.moved, Last(l.animations))
    ensures NoNeedlessBlink(LoopLog(cfg, interval, start, inputs, n + 1), Plans(cfg, interval, start, inputs, n + 1))
  {
    var log, l := LoopLog(cfg, interval, start, inputs, n), LoopAt(cfg, interval, start, inputs, n);
    BlinkIsNeeded(cfg, interval, log, l, inputs[n]);
    BlinksSoFar(log, Plans(cfg, interval, start, inputs, n), StepAt(cfg, interval, start, inputs, n),
                Unguarded(cfg, interval, l, inputs[n]));
  }

  // ------------------------------------------------ what the loop remembers

  /** The phrases of the frames sent, in order. */
  function Phrases(log: seq<Entry>): seq<string> {
    if log == [] then []
    else
      var c := log[|log| - 1].frame;
      Phrases(log[..|log| - 1]) + if c.text.Some? && c.text.value != "" then [c.text.value] else []
  }

  function Poses(log: seq<Entry>): seq<Animation> {
    seq(|log|, i requires 0 <= i < |log| => log[i].frame.animation)
  }

  lemma LastOfLast<T>(s: seq<T>, x: T, n: nat)
    requires n > 0
    ensures LastOf(LastOf(s, n) + [x], n) == LastOf(s + [x], n)
  {
  }

  lemma MemoryGrows(log: seq<Entry>, e: Entry)
    ensures LastOf(LastOf(Poses(log), 5) + [e.frame.animation], 5) == LastOf(Poses(log + [e]), 5)
    ensures Heard(LastOf(Phrases(log), 5), e.frame) == LastOf(Phrases(log + [e]), 5)
  {
    LastOfLast(Poses(log), e.frame.animation, 5);
    assert Poses(log + [e]) == Poses(log) + [e.frame.animation];
    assert (log + [e])[..|log|] == log;
    if e.frame.text.Some? && e.frame.text.value != "" {
      LastOfLast(Phrases(log), e.frame.text.value, 5);
    }
  }

  /** The loop goes by the last five poses and the last five phrases it sent. */
  lemma MemoryIsTheLog(cfg: Config, interval: real, start: Body, inputs: seq<Input>, n: nat)
    requires n <= |inputs|
    ensures var l, log := LoopAt(cfg, interval, start, inputs, n), LoopLog(cfg, interval, start, inputs, n);
            l.animations == LastOf(Poses(log), 5) && l.phrases == LastOf(Phrases(log), 5)
  {
    for k := 0 to n
      invariant var l, log := LoopAt(cfg, interval, start, inputs, k), LoopLog(cfg, interval, start, inputs, k);
                l.animations == LastOf(Poses(log), 5) && l.phrases == LastOf(Phrases(log), 5)
    {
      MemoryGrows(LoopLog(cfg, interval, start, inputs, k), StepAt(cfg, interval, start, inputs, k));
    }
  }

  lemma TextComesFromTheAnswer(cfg: Config, interval: real, l: Loop, x: Input)
    ensures var c := LoopStep(cfg, interval, l, x).0.frame;
            c.text == None || (c.text == Answer(x).behavior.text && c.text.value !in l.phrases)
  {
  }

  /** In every run a frame's text is the answer's or none, and never one of the last five phrases sent. */
  lemma NoPhraseIsRepeated(cfg: Config, interval: real, start: Body, inputs: seq<Input>, i: nat)
    requires i < |inputs|
    ensures var log := LoopLog(cfg, interval, start, inputs, i);
            var text := StepAt(cfg, interval, start, inputs, i).frame.text;
            text == None || (text == Answer(inputs[i]).behavior.text && text.value !in LastOf(Phrases(log), 5))
  {
    MemoryIsTheLog(cfg, interval, start, inputs, i);
    TextComesFromTheAnswer(cfg, interval, LoopAt(cfg, interval, start, inputs, i), inputs[i]);
  }

  // ------------------------------------------------ the loop

  method OneTick(interval: real, body: BodyModel, pet: PetState, x: Input) returns (e: Entry)
    requires InputOk(x)
    modifies body, pet
    ensures (e, pet.Value(body.Value())) == LoopStep(body.config, interval, old(pet.Value(body.Value())), x)
  {
    var answer := if x.answer.Some? then x.answer.value else Proposal(Fallback(x.source), None);
    var suggested := A.SuggestedAnimations(x.feelings);
    var behavior := pet.ApplyNovelty(answer.behavior, suggested, x.source);
    var t := Tick(x.now, x.feelings.energy, x.feelings.sleepiness, x.report, x.source, x.hour, behavior, answer.body);
    var frame := body.OneTick(t);
    frame := Adapted(frame, interval);
    frame := pet.BurnInGuardrail(frame, body.state, x.now);
    pet.Observe(frame);
    e := Entry(t, body.state, frame);
  }

  /** The tick order of the loop, over a finite run of inputs: every tick is the whole of its stages, every frame
      sent is fit for the device and for the state of the body, no still pose stands for the burn-in interval,
      and none is broken off before. */
  method RunPetLoop(cfg: Config, interval: real, start: Body, inputs: seq<Input>) returns (log: seq<Entry>)
    requires interval > 0.0 && forall i :: 0 <= i < |inputs| ==> InputOk(inputs[i])
    ensures log == LoopLog(cfg, interval, start, inputs, |inputs|)
    ensures LogOk(cfg, start, inputs, log)
    ensures NoBurnIn(log) && NoNeedlessBlink(log, Plans(cfg, interval, start, inputs, |inputs|))
  {
    var body := new BodyModel(cfg, start);
    var pet := new PetState();
    log := [];
    for n := 0 to |inputs|
      invariant fresh(body) && fresh(pet) && body.config == cfg
      invariant pet.Value(body.Value()) == LoopAt(cfg, interval, start, inputs, n)
      invariant log == LoopLog(cfg, interval, start, inputs, n)
    {
      var e := OneTick(interval, body, pet, inputs[n]);
      log := log + [e];
    }
    WholeRunIsFit(cfg, interval, start, inputs);
    BlinksAreNeeded(cfg, interval, start, inputs, |inputs|);
  }
}
