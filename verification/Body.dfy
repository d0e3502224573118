/** Shiro's body: awake, drowsy, sleeping, waking (host/body.py). Clocks, energies and durations are
    real numbers. */
module Body {
  import opened Common
  import opened Behavior
  import P = Presence

  datatype BodyState = Awake | Drowsy | Sleeping | Waking

  datatype Config = Config(settle: real, drowsyAfter: real, minNap: real, waking: real, nightStart: int, nightEnd: int)

  /** The source's check on a configuration. */
  predicate ConfigOk(cfg: Config) {
    cfg.settle > 0.0 && cfg.drowsyAfter > 0.0 && cfg.minNap > 0.0 && cfg.waking > 0.0
  }

  datatype Source = ImportantAlert | DirectMessage | TouchInput | OtherSource

  /** Everything one tick is given. The behavior and the proposed state are the model's and may be
      anything at all. */
  datatype Tick = Tick(now: real, energy: real, sleepiness: real, report: Option<P.Report>, source: Source, hour: int,
                       behavior: Command, proposed: Option<BodyState>)

  datatype Body = Body(state: BodyState, since: real, sleepStarted: real)

  // ------------------------------------------------ what a tick sees

  predicate IsSleepy(t: Tick) {
    t.sleepiness >= 70.0 || t.energy < 25.0
  }

  predicate WellRested(t: Tick) {
    t.energy >= 85.0 && t.sleepiness <= 20.0
  }

  predicate LateNight(cfg: Config, hour: int) {
    if cfg.nightStart <= cfg.nightEnd then cfg.nightStart <= hour < cfg.nightEnd
    else hour >= cfg.nightStart || hour < cfg.nightEnd
  }

  predicate Away(t: Tick) { t.report.Some? && t.report.value.state == P.Away }

  predicate Engaged(t: Tick) { t.report.Some? && t.report.value.state == P.Engaged }

  predicate Returned(t: Tick) { t.report.Some? && t.report.value.returned }

  predicate SleepPressure(cfg: Config, t: Tick) {
    IsSleepy(t) || LateNight(cfg, t.hour) || (Away(t) && !WellRested(t))
  }

  predicate WakeTrigger(t: Tick) {
    t.source != OtherSource || Returned(t)
  }

  predicate ReunionPerk(t: Tick) {
    Returned(t) && t.source == OtherSource
  }

  /** Why there is pressure to sleep: fatigue, the night, or an absence that finds a pet not fully rested. */
  lemma WhatPresses(cfg: Config, t: Tick)
    ensures SleepPressure(cfg, t) <==>
      || t.sleepiness >= 70.0 || t.energy < 25.0 || LateNight(cfg, t.hour)
      || (t.report.Some? && t.report.value.state == P.Away && (t.energy < 85.0 || t.sleepiness > 20.0))
    ensures WakeTrigger(t) <==>
      t.source in {ImportantAlert, DirectMessage, TouchInput} || (t.report.Some? && t.report.value.returned)
    ensures Tiring(cfg, t) ==> t.report == None || t.report.value.state in {P.Ignoring, P.Away}
    ensures SleepPressure(cfg, t) && !WakeTrigger(t) && !Tiring(cfg, t) ==>
      t.report.Some? && t.report.value.state == P.Engaged
  {
  }

  // ------------------------------------------------ one tick

  /** The forced changes at the start of a tick. */
  function Advanced(cfg: Config, b: Body, now: real): Body {
    var since := if b.since <= 0.0 then now else b.since;
    var started := if b.state == Sleeping && b.sleepStarted <= 0.0 then now else b.sleepStarted;
    if b.state == Waking && now - since >= cfg.waking then Body(Awake, now, started) else Body(b.state, since, started)
  }

  function SecondsInState(b: Body, now: real): real {
    RMax(0.0, now - b.since)
  }

  predicate MinNapElapsed(cfg: Config, b: Body, now: real) {
    b.state == Sleeping && RMax(0.0, now - b.sleepStarted) >= cfg.minNap
  }

  datatype Options = Options(allowed: set<BodyState>, default: BodyState)

  /** _evaluate, after the forced changes have made the body b. */
  function Evaluate(cfg: Config, b: Body, t: Tick): Options {
    var pressure := SleepPressure(cfg, t);
    match b.state
    case Sleeping =>
      if WakeTrigger(t) then
        Options({Sleeping, Drowsy, Waking} + if ReunionPerk(t) then {Awake} else {}, Waking)
      else if !pressure && WellRested(t) then Options({Drowsy, Waking, Awake}, Waking)
      else if MinNapElapsed(cfg, b, t.now) && !pressure then Options({Sleeping, Drowsy, Waking, Awake}, Waking)
      else Options({Sleeping, Drowsy}, Sleeping)
    case Drowsy =>
      if WakeTrigger(t) || Engaged(t) || !pressure then Options({Drowsy, Awake}, Awake)
      else if SecondsInState(b, t.now) >= cfg.drowsyAfter then Options({Drowsy, Awake, Sleeping}, Sleeping)
      else Options({Drowsy, Awake}, Drowsy)
    case Waking =>
      Options({Waking, Awake, Drowsy}, if pressure && !WakeTrigger(t) then Drowsy else Awake)
    case Awake =>
      if pressure && !Engaged(t) && !WakeTrigger(t) then
        Options({Awake, Drowsy}, if SecondsInState(b, t.now) >= cfg.settle then Drowsy else Awake)
      else Options({Awake}, Awake)
  }

  /** The state resolve settles on. */
  function Target(o: Options, alert: bool, proposed: Option<BodyState>): BodyState {
    if alert then Awake
    else if proposed.Some? && proposed.value in o.allowed then proposed.value
    else o.default
  }

  function WithState(b: Body, target: BodyState, now: real): Body {
    if target == b.state then b else Body(target, now, if target == Sleeping then now else 0.0)
  }

  /** The body after a whole tick. */
  function AfterTick(cfg: Config, b: Body, t: Tick): Body {
    var a := Advanced(cfg, b, t.now);
    WithState(a, Target(Evaluate(cfg, a, t), t.behavior.alert, t.proposed), t.now)
  }

  // ------------------------------------------------ the frame of a tick

  predicate AnimationFits(state: BodyState, a: Animation) {
    match state
    case Awake => true
    case Sleeping => a in {Animation.Nap, Animation.Sleepy, Blink}
    case Drowsy => a in {Animation.Sleepy, Nap, Blink, LookAround, Confused, Idle}
    case Waking => a in {Animation.Sleepy, Blink, LookAround, Confused, Idle}
  }

  function Clamped(behavior: Command, target: BodyState, enteredSleep: bool): Command {
    if target == Awake then behavior
    else
      var animation: Animation :=
        if target == Sleeping && enteredSleep then Nap
        else if target == Sleeping then
          (if behavior.animation in {Animation.Sleepy, Blink} then behavior.animation else Animation.Sleepy)
        else if AnimationFits(target, behavior.animation) then behavior.animation
        else Animation.Sleepy;
      if animation == behavior.animation && !behavior.alert then behavior
      else
        var text := if animation == behavior.animation then behavior.text else None;
        Command(MoodOf(animation), animation, text, false, behavior.durationMs)
  }

  /** What the clamp guarantees for any behavior at all. */
  lemma ClampFits(behavior: Command, target: BodyState, enteredSleep: bool)
    ensures var c := Clamped(behavior, target, enteredSleep);
            && AnimationFits(target, c.animation) && c.durationMs == behavior.durationMs
            && (target != Awake ==> !c.alert)
            && (target == Sleeping ==> (c.animation == Nap <==> enteredSleep))
            && (target == Waking ==> c.animation != Nap)
            && (HostValid(behavior) ==> HostValid(c))
            && (c.animation != behavior.animation ==> c.text == None && c.mood == MoodOf(c.animation))
            && (c.animation == behavior.animation && !behavior.alert ==> c == behavior)
            && (c.animation == behavior.animation ==> c.text == behavior.text)
            && (target == Awake ==> c == behavior)
            && (target == Sleeping && !enteredSleep ==>
                  c.animation == if behavior.animation == Blink then Blink else Animation.Sleepy)
            && (target == Drowsy || target == Waking ==>
                  c.animation == if AnimationFits(target, behavior.animation) then behavior.animation
                                 else Animation.Sleepy)
  {
  }

  function FrameOf(cfg: Config, b: Body, t: Tick): Command {
    var a, after := Advanced(cfg, b, t.now), AfterTick(cfg, b, t);
    Clamped(t.behavior, after.state, after.state == Sleeping && a.state != Sleeping)
  }

  // ------------------------------------------------ the object

  datatype Situation = Situation(state: BodyState, options: Options)

  class BodyModel {
    const config: Config
    var state: BodyState
    var stateSince: real
    var sleepStartedAt: real

    constructor (config: Config, start: Body)
      ensures this.config == config && Value() == start
    {
      this.config := config;
      state, stateSince, sleepStartedAt := start.state, start.since, start.sleepStarted;
    }

    function Value(): Body
      reads this
    {
      Body(state, stateSince, sleepStartedAt)
    }

    method Advance(t: Tick) returns (s: Situation)
      modifies this
      ensures Value() == Advanced(config, old(Value()), t.now)
      ensures s == Situation(state, Evaluate(config, Value(), t))
    {
      if stateSince <= 0.0 {
        stateSince := t.now;
      }
      if state == Sleeping && sleepStartedAt <= 0.0 {
        sleepStartedAt := t.now;
      }
      if state == Waking && t.now - stateSince >= config.waking {
        state := Awake;
        stateSince := t.now;
      }
      s := Situation(state, Evaluate(config, Value(), t));
    }

    method SetState(target: BodyState, now: real)
      modifies this
      ensures Value() == WithState(old(Value()), target, now)
    {
      if target == state {
        return;
      }
      state := target;
      stateSince := now;
      if target == Sleeping {
        sleepStartedAt := now;
      } else {
        sleepStartedAt := 0.0;
      }
    }

    method Resolve(s: Situation, behavior: Command, proposed: Option<BodyState>, now: real)
      returns (adjusted: Command, target: BodyState)
      modifies this
      ensures target == Target(s.options, behavior.alert, proposed)
      ensures Value() == WithState(old(Value()), target, now)
      ensures adjusted == Clamped(behavior, target, target == Sleeping && old(state) != Sleeping)
    {
      target := s.options.default;
      if proposed.Some? && proposed.value in s.options.allowed {
        target := proposed.value;
      }
      if behavior.alert {
        target := Awake;
      }
      var enteredSleep := target == Sleeping && state != Sleeping;
      SetState(target, now);
      adjusted := Clamped(behavior, target, enteredSleep);
    }

    /** The two calls the loop makes in one tick. */
    method OneTick(t: Tick) returns (frame: Command)
      modifies this
      ensures Value() == AfterTick(config, old(Value()), t)
      ensures frame == FrameOf(config, old(Value()), t)
    {
      var s := Advance(t);
      var target;
      frame, target := Resolve(s, t.behavior, t.proposed, t.now);
    }
  }

  // ------------------------------------------------ runs

  /** A body, restored or new, and the ticks it goes through. */
  datatype Run = Run(cfg: Config, start: Body, ticks: seq<Tick>)

  /** The body before tick i, which is the body after i ticks. */
  function BodyAt(r: Run, i: nat): Body
    requires i <= |r.ticks|
  {
    if i == 0 then r.start else AfterTick(r.cfg, BodyAt(r, i - 1), r.ticks[i - 1])
  }

  function StateAt(r: Run, i: nat): BodyState
    requires i <= |r.ticks|
  {
    BodyAt(r, i).state
  }

  ghost predicate RunOk(r: Run) {
    && ConfigOk(r.cfg)
    && (forall i :: 0 <= i < |r.ticks| ==> r.ticks[i].now > 0.0)
    && (forall i, j :: 0 <= i <= j < |r.ticks| ==> r.ticks[i].now <= r.ticks[j].now)
  }

  /** Reference: the number of ticks after which the present stretch of one state began. */
  function StretchStart(r: Run, i: nat): (k: nat)
    requires i <= |r.ticks|
    ensures k <= i && forall j :: k <= j <= i ==> StateAt(r, j) == StateAt(r, i)
    ensures k > 0 ==> StateAt(r, k - 1) != StateAt(r, i)
  {
    if i == 0 || StateAt(r, i - 1) != StateAt(r, i) then i else StretchStart(r, i - 1)
  }

  /** Reference: the clock when that stretch began. A stretch that was there at the start began when the
      restored body says, or with the first tick if it does not say. */
  function StretchTime(r: Run, i: nat, restored: real): real
    requires i <= |r.ticks| && r.ticks != []
  {
    var k := StretchStart(r, i);
    if k > 0 then r.ticks[k - 1].now else if restored > 0.0 then restored else r.ticks[0].now
  }

  /** The clock a tick goes by: its own if the body has none yet. */
  function Clock(stored: real, now: real): real {
    if stored <= 0.0 then now else stored
  }

  /** No tick leaves a state and returns to it within itself. */
  lemma NoBlink(cfg: Config, b: Body, t: Tick)
    ensures var after := AfterTick(cfg, b, t);
            if after.state == b.state then after == Body(b.state, Clock(b.since, t.now), after.sleepStarted)
            else after.since == t.now
  {
  }

  /** The clock that tick i goes by, from the first tick after a restore on, is the reference's. */
  lemma {:induction false} SinceIsStretchTime(r: Run, i: nat)
    requires RunOk(r) && i < |r.ticks|
    ensures Clock(BodyAt(r, i).since, r.ticks[i].now) == StretchTime(r, i, r.start.since)
  {
    if i > 0 {
      NoBlink(r.cfg, BodyAt(r, i - 1), r.ticks[i - 1]);
      SinceIsStretchTime(r, i - 1);
    }
  }

  lemma {:induction false} AsleepSinceIsStretchTime(r: Run, i: nat)
    requires RunOk(r) && i < |r.ticks| && StateAt(r, i) == Sleeping
    ensures Clock(BodyAt(r, i).sleepStarted, r.ticks[i].now) == StretchTime(r, i, r.start.sleepStarted)
  {
    if i > 0 && StateAt(r, i - 1) == Sleeping {
      AsleepSinceIsStretchTime(r, i - 1);
    }
  }

  // ------------------------------------------------ main results

  /** Whatever the model proposes, sleep is entered only from a stretch of unbroken drowsiness of at
      least `drowsyAfter` seconds, with a reason to sleep and nothing to wake for. */
  lemma SleepOnlyAfterDrowsing(r: Run, i: nat)
    requires RunOk(r) && i < |r.ticks|
    requires StateAt(r, i) != Sleeping && StateAt(r, i + 1) == Sleeping
    ensures StateAt(r, i) == Drowsy
    ensures r.ticks[i].now - StretchTime(r, i, r.start.since) >= r.cfg.drowsyAfter
    ensures SleepPressure(r.cfg, r.ticks[i]) && !WakeTrigger(r.ticks[i]) && !Engaged(r.ticks[i])
  {
    SinceIsStretchTime(r, i);
  }

  /** A touch or a message never takes a sleeper to awake within one tick, unless the behavior is an
      alert, and then it does. */
  lemma ContactWakesGently(r: Run, i: nat)
    requires i < |r.ticks| && StateAt(r, i) == Sleeping
    requires r.ticks[i].source == TouchInput || r.ticks[i].source == DirectMessage
    ensures StateAt(r, i + 1) == Awake <==> r.ticks[i].behavior.alert
  {
  }

  /** With no proposal and no alert, a sleeper that leaves sleep has slept the minimum nap, or was woken,
      or is well rested with no pressure to sleep. */
  lemma NapsLast(r: Run, i: nat)
    requires RunOk(r) && i < |r.ticks|
    requires StateAt(r, i) == Sleeping && r.ticks[i].proposed == None && !r.ticks[i].behavior.alert
    ensures var t := r.ticks[i];
            StateAt(r, i + 1) != Sleeping <==>
              || WakeTrigger(t)
              || (WellRested(t) && !SleepPressure(r.cfg, t))
              || (t.now - StretchTime(r, i, r.start.sleepStarted) >= r.cfg.minNap && !SleepPressure(r.cfg, t))
  {
    AsleepSinceIsStretchTime(r, i);
  }

  /** The nap is due at tick k: nothing wakes the sleeper, it is not well rested without pressure, and there
      is pressure to sleep or the minimum nap is not over. */
  predicate NapIsDue(r: Run, k: nat)
    requires k < |r.ticks|
  {
    var t := r.ticks[k];
    && !WakeTrigger(t) && !(WellRested(t) && !SleepPressure(r.cfg, t))
    && (SleepPressure(r.cfg, t) || t.now - StretchTime(r, k, r.start.sleepStarted) < r.cfg.minNap)
  }

  /** Which ticks end a sleep, for every proposal and behavior. An alert always does. While the nap is due,
      else only a proposal of drowsy does; proposals of sleeping, waking and awake are overruled. Once it is
      not, everything does but a proposal to sleep on, and that one too if the sleeper is well rested with
      no pressure and nothing to wake it. */
  lemma SleepEndsExactly(r: Run, i: nat)
    requires RunOk(r) && i < |r.ticks| && StateAt(r, i) == Sleeping
    ensures var t := r.ticks[i];
            StateAt(r, i + 1) != Sleeping <==>
              || t.behavior.alert
              || (if NapIsDue(r, i) then t.proposed == Some(Drowsy)
                  else t.proposed != Some(Sleeping)
                       || (WellRested(t) && !SleepPressure(r.cfg, t) && !WakeTrigger(t)))
  {
    AsleepSinceIsStretchTime(r, i);
  }

  /** A proposal or a behavior that leaves a due nap alone. */
  predicate LeavesNapAlone(t: Tick) {
    !t.behavior.alert && t.proposed != Some(Drowsy)
  }

  /** Over any run in which the nap stays due, the sleeper sleeps all the way if and only if there is no
      alert and no proposal of drowsy. */
  lemma {:induction false} DueNapLastsExactly(r: Run, i: nat, j: nat)
    requires RunOk(r) && i <= j <= |r.ticks| && StateAt(r, i) == Sleeping
    requires forall k :: i <= k < j ==> NapIsDue(r, k)
    ensures (forall k :: i <= k <= j ==> StateAt(r, k) == Sleeping)
       <==> (forall k :: i <= k < j ==> LeavesNapAlone(r.ticks[k]))
    decreases j
  {
    if i < j {
      DueNapLastsExactly(r, i, j - 1);
      if StateAt(r, j - 1) == Sleeping {
        SleepEndsExactly(r, j - 1);
      }
    }
  }

  /** So a model can cut a nap short, by proposing drowsy and then awake: that ends any sleep within two
      ticks. */
  lemma ProposalsCanCutANapShort(r: Run, i: nat)
    requires i + 1 < |r.ticks| && StateAt(r, i) == Sleeping
    requires !WakeTrigger(r.ticks[i]) && r.ticks[i].proposed == Some(Drowsy) && !r.ticks[i].behavior.alert
    requires r.ticks[i + 1].proposed == Some(Awake)
    ensures StateAt(r, i + 1) == Drowsy && StateAt(r, i + 2) == Awake
  {
    assert BodyAt(r, i + 2) == AfterTick(r.cfg, BodyAt(r, i + 1), r.ticks[i + 1]);
  }

  /** Well rested, with no pressure to sleep and nothing to wake it, no proposal keeps a body asleep. */
  lemma RestedNeverStaysAsleep(r: Run, i: nat)
    requires i < |r.ticks| && StateAt(r, i) == Sleeping
    requires WellRested(r.ticks[i]) && !SleepPressure(r.cfg, r.ticks[i]) && !WakeTrigger(r.ticks[i])
    ensures StateAt(r, i + 1) != Sleeping
  {
  }

  /** In a stretch of sleep only the tick that entered it sends a nap, so there is at most one; a stretch
      that was restored sends none. */
  lemma OneNapPerSleep(r: Run, i: nat)
    requires i < |r.ticks| && StateAt(r, i + 1) == Sleeping
    ensures FrameOf(r.cfg, BodyAt(r, i), r.ticks[i]).animation == Nap <==> StretchStart(r, i + 1) == i + 1
  {
  }

  /** So within one stretch of sleep no tick after the first sends a nap. */
  lemma AtMostOneNap(r: Run, i: nat, j: nat)
    requires i < j < |r.ticks| && forall k :: i < k <= j + 1 ==> StateAt(r, k) == Sleeping
    ensures FrameOf(r.cfg, BodyAt(r, j), r.ticks[j]).animation != Nap
  {
    OneNapPerSleep(r, j);
    assert StateAt(r, j) == Sleeping;
  }

  /** What the loop settles on is always one of the options offered, or awake for an alert. */
  lemma TargetIsOffered(cfg: Config, b: Body, t: Tick)
    ensures var o := Evaluate(cfg, Advanced(cfg, b, t.now), t);
            && o.default in o.allowed
            && (AfterTick(cfg, b, t).state in o.allowed || (t.behavior.alert && AfterTick(cfg, b, t).state == Awake))
  {
  }

  /** Waking does not last: the first tick that comes `waking` seconds after it began ends it. */
  lemma WakingEnds(r: Run, i: nat)
    requires RunOk(r) && i < |r.ticks| && StateAt(r, i) == Waking
    requires r.ticks[i].now - StretchTime(r, i, r.start.since) >= r.cfg.waking
    ensures StateAt(r, i + 1) == Awake || StateAt(r, i + 1) == Drowsy
  {
    SinceIsStretchTime(r, i);
  }

  // ------------------------------------------------ the exact step from every state

  /** A reason to let go of the day: pressure to sleep, and nothing and nobody to stay up for. */
  predicate Tiring(cfg: Config, t: Tick) {
    SleepPressure(cfg, t) && !Engaged(t) && !WakeTrigger(t)
  }

  /** From awake a tick leads to awake or drowsy, and to drowsy exactly if it is tiring, no alert is raised, and
      drowsy is proposed, or the body has settled and awake is not. */
  lemma FromAwake(r: Run, i: nat)
    requires RunOk(r) && i < |r.ticks| && StateAt(r, i) == Awake
    ensures var t := r.ticks[i];
            var settled := t.now - StretchTime(r, i, r.start.since) >= r.cfg.settle;
            && (StateAt(r, i + 1) == Awake || StateAt(r, i + 1) == Drowsy)
            && (StateAt(r, i + 1) == Drowsy <==>
                  && Tiring(r.cfg, t) && !t.behavior.alert
                  && (t.proposed == Some(Drowsy) || (settled && t.proposed != Some(Awake))))
  {
    SinceIsStretchTime(r, i);
  }

  /** From drowsy it leads to sleep exactly if it is tiring, the body has been drowsy for long enough, and neither
      an alert nor a proposal of drowsy or awake speaks against it; and to awake exactly if an alert is raised,
      awake is proposed, or it is not tiring and drowsy is not proposed. Otherwise the body stays drowsy. */
  lemma FromDrowsy(r: Run, i: nat)
    requires RunOk(r) && i < |r.ticks| && StateAt(r, i) == Drowsy
    ensures var t := r.ticks[i];
            var long := t.now - StretchTime(r, i, r.start.since) >= r.cfg.drowsyAfter;
            && StateAt(r, i + 1) != Waking
            && (StateAt(r, i + 1) == Sleeping <==>
                  && Tiring(r.cfg, t) && long && !t.behavior.alert
                  && t.proposed != Some(Drowsy) && t.proposed != Some(Awake))
            && (StateAt(r, i + 1) == Awake <==>
                  || t.behavior.alert || t.proposed == Some(Awake)
                  || (!Tiring(r.cfg, t) && t.proposed != Some(Drowsy)))
  {
    SinceIsStretchTime(r, i);
  }

  /** From sleep: it ends as `SleepEndsExactly` says; what follows is awake exactly for an alert, or for a
      proposal of awake to a sleeper that a passive return wakes, or that nothing wakes but whose nap is not due;
      drowsy if that is proposed; and else waking. */
  lemma FromSleeping(r: Run, i: nat)
    requires RunOk(r) && i < |r.ticks| && StateAt(r, i) == Sleeping
    ensures var t := r.ticks[i];
            && (StateAt(r, i + 1) == Awake <==>
                  || t.behavior.alert
                  || (t.proposed == Some(Awake) && if WakeTrigger(t) then ReunionPerk(t) else !NapIsDue(r, i)))
            && (StateAt(r, i + 1) == Drowsy <==> !t.behavior.alert && t.proposed == Some(Drowsy))
  {
    AsleepSinceIsStretchTime(r, i);
  }

  /** From waking: once its seconds are over the tick goes on as from a body just awake. Before that the body
      stays waking exactly if that is proposed, and becomes drowsy exactly if that is proposed, or if there is
      pressure, nothing to wake for, and neither waking nor awake is proposed. An alert always leads to awake. */
  lemma FromWaking(r: Run, i: nat)
    requires RunOk(r) && i < |r.ticks| && StateAt(r, i) == Waking
    ensures var t := r.ticks[i];
            var over := t.now - StretchTime(r, i, r.start.since) >= r.cfg.waking;
            && StateAt(r, i + 1) != Sleeping
            && (StateAt(r, i + 1) == Waking <==> !over && !t.behavior.alert && t.proposed == Some(Waking))
            && (StateAt(r, i + 1) == Drowsy <==>
                  && !t.behavior.alert
                  && if over then Tiring(r.cfg, t) && t.proposed == Some(Drowsy)
                     else t.proposed == Some(Drowsy)
                          || (&& SleepPressure(r.cfg, t) && !WakeTrigger(t)
                              && t.proposed != Some(Waking) && t.proposed != Some(Awake)))
  {
    SinceIsStretchTime(r, i);
  }

  /** The night is the hours from its start round the clock to its end. */
  lemma NightIsAnArc(cfg: Config, hour: int)
    requires 0 <= hour < 24 && 0 <= cfg.nightStart < 24 && 0 <= cfg.nightEnd < 24
    ensures LateNight(cfg, hour) <==> (hour - cfg.nightStart) % 24 < (cfg.nightEnd - cfg.nightStart) % 24
  {
  }

  // ------------------------------------------------ left alone

  /** A reason to sleep, nothing to stay awake for, and no wish of the model's. */
  predicate LeftAlone(cfg: Config, t: Tick) {
    && SleepPressure(cfg, t) && !WakeTrigger(t) && !Engaged(t)
    && t.proposed == None && !t.behavior.alert
  }

  /** Left alone, a sleeper sleeps on. */
  lemma {:induction false} StaysAsleep(r: Run, i: nat, j: nat)
    requires i <= j <= |r.ticks| && StateAt(r, i) == Sleeping
    requires forall k :: i <= k < j ==> LeftAlone(r.cfg, r.ticks[k])
    ensures StateAt(r, j) == Sleeping
    decreases j
  {
    if i < j {
      StaysAsleep(r, i, j - 1);
    }
  }

  /** Left alone, a drowsy body stays drowsy in one stretch until it is asleep. */
  lemma {:induction false} StaysDrowsyOrSleeps(r: Run, i: nat, j: nat)
    requires i <= j <= |r.ticks| && StateAt(r, i) == Drowsy
    requires forall k :: i <= k < j ==> LeftAlone(r.cfg, r.ticks[k])
    ensures StateAt(r, j) == Sleeping || (StateAt(r, j) == Drowsy && StretchStart(r, j) <= i)
    decreases j
  {
    if i < j {
      StaysDrowsyOrSleeps(r, i, j - 1);
    }
  }

  lemma SettledGoesDrowsy(r: Run, a: nat)
    requires RunOk(r) && a < |r.ticks| && StateAt(r, a) == Awake && LeftAlone(r.cfg, r.ticks[a])
    requires r.ticks[a].now - StretchTime(r, a, r.start.since) >= r.cfg.settle
    ensures StateAt(r, a + 1) == Drowsy
  {
    SinceIsStretchTime(r, a);
  }

  lemma DrowsyFallsAsleep(r: Run, b: nat)
    requires RunOk(r) && b < |r.ticks| && StateAt(r, b) == Drowsy && LeftAlone(r.cfg, r.ticks[b])
    requires r.ticks[b].now - StretchTime(r, b, r.start.since) >= r.cfg.drowsyAfter
    ensures StateAt(r, b + 1) == Sleeping
  {
    SinceIsStretchTime(r, b);
  }

  /** Left alone, an awake body that has settled is asleep after the first tick that comes the drowsy time
      later, however the ticks between are spaced, and sleeps on. */
  lemma FallsAsleep(r: Run, a: nat, b: nat, c: nat)
    requires RunOk(r) && a < b < c <= |r.ticks| && StateAt(r, a) == Awake
    requires forall k :: a <= k < c ==> LeftAlone(r.cfg, r.ticks[k])
    requires r.ticks[a].now - StretchTime(r, a, r.start.since) >= r.cfg.settle
    requires r.ticks[b].now - r.ticks[a].now >= r.cfg.drowsyAfter
    ensures StateAt(r, a + 1) == Drowsy && StateAt(r, c) == Sleeping
  {
    SettledGoesDrowsy(r, a);
    StaysDrowsyOrSleeps(r, a + 1, b);
    if StateAt(r, b) == Drowsy {
      assert StretchTime(r, b, r.start.since) <= r.ticks[a].now;
      DrowsyFallsAsleep(r, b);
    } else {
      StaysAsleep(r, b, b + 1);
    }
    StaysAsleep(r, b + 1, c);
  }
}
