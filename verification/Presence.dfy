/** The presence store and the presence tracker (host/presence.py). Clocks are real numbers. */
module Presence {
  import opened Common

  datatype Signals = Signals(idle: Option<real>, locked: Option<bool>, foreground: Option<string>,
                             present: Option<bool>)

  /** A stored post: what it says, when it came, how long it holds. */
  datatype Record<+T> = Record(says: T, receivedAt: real, ttl: real)

  predicate Expired<T>(r: Record<T>, now: real) {
    now - r.receivedAt > r.ttl
  }

  function ExpiryOf<T>(r: Record<T>): real {
    r.receivedAt + r.ttl
  }

  /** The contents of the mailbox: the last activity post, and the last post of each presence source. */
  datatype Box = Box(activity: Option<Record<Signals>>, sources: map<string, Record<bool>>)

  // ------------------------------------------------ what is fresh, and what it comes to

  predicate FreshSource(b: Box, key: string, now: real) {
    key in b.sources && !Expired(b.sources[key], now)
  }

  predicate FreshActivity(b: Box, now: real) {
    b.activity.Some? && !Expired(b.activity.value, now)
  }

  ghost predicate SomeoneSays(b: Box, now: real, present: bool) {
    exists key :: FreshSource(b, key, now) && b.sources[key].says == present
  }

  /** Absence is authoritative; presence needs a fresh source. */
  ghost function Fused(b: Box, now: real): Option<bool> {
    if SomeoneSays(b, now, false) then Some(false)
    else if SomeoneSays(b, now, true) then Some(true)
    else None
  }

  /** What a read at `now` gives. */
  ghost function View(b: Box, now: real): Signals {
    if FreshActivity(b, now) then b.activity.value.says.(present := Fused(b, now))
    else Signals(None, None, None, Fused(b, now))
  }

  datatype Label = LabelAway | LabelPresent

  /** What the fused sources say: absent if any source that has not expired says so; present if none does and one
      says that; and nothing only without any such source. */
  lemma AbsenceWins(b: Box, now: real)
    ensures Fused(b, now) == Some(false) <==>
      exists key :: key in b.sources && now - b.sources[key].receivedAt <= b.sources[key].ttl && !b.sources[key].says
    ensures Fused(b, now) == None <==>
      forall key <- b.sources :: now - b.sources[key].receivedAt > b.sources[key].ttl
  {
    assert forall key :: FreshSource(b, key, now) ==> SomeoneSays(b, now, b.sources[key].says);
    if SomeoneSays(b, now, false) {
      var key :| FreshSource(b, key, now) && !b.sources[key].says;
    }
  }

  /** The label that decides whether a post wakes the loop. */
  ghost function Coarse(b: Box, now: real, awayIdle: real): Option<Label> {
    var fused := Fused(b, now);
    if fused.Some? then Some(if fused.value then LabelPresent else LabelAway)
    else if FreshActivity(b, now) then
      var s := b.activity.value.says;
      if s.locked == Some(true) then Some(LabelAway)
      else if s.idle.Some? then Some(if s.idle.value >= awayIdle then LabelAway else LabelPresent)
      else if s.locked == Some(false) || s.foreground.Some? then Some(LabelPresent)
      else None
    else None
  }

  function Pruned(b: Box, now: real): Box {
    Box(if FreshActivity(b, now) then b.activity else None,
        map key | key in b.sources && !Expired(b.sources[key], now) :: b.sources[key])
  }

  // ------------------------------------------------ the object

  class SignalMailbox {
    const awayIdle: real
    var activity: Option<Record<Signals>>
    var presence: map<string, Record<bool>>

    constructor (awayIdle: real)
      ensures Contents() == Box(None, map[]) && this.awayIdle == awayIdle
    {
      this.awayIdle := awayIdle;
      activity, presence := None, map[];
    }

    function Contents(): Box
      reads this
    {
      Box(activity, presence)
    }

    method SetActivity(signals: Signals, ttl: real, now: real) returns (changed: bool)
      modifies this
      ensures Contents() == old(Contents()).(activity := Some(Record(signals, now, ttl)))
      ensures changed <==> Coarse(old(Contents()), now, awayIdle) != Coarse(Contents(), now, awayIdle)
    {
      var before := CoarsePresence(now);
      activity := Some(Record(signals, now, ttl));
      var after := CoarsePresence(now);
      return before != after;
    }

    method SetPresence(source: string, present: bool, ttl: real, now: real) returns (changed: bool)
      modifies this
      ensures Contents() == old(Contents()).(sources := old(presence)[source := Record(present, now, ttl)])
      ensures changed <==> Coarse(old(Contents()), now, awayIdle) != Coarse(Contents(), now, awayIdle)
    {
      var before := CoarsePresence(now);
      presence := presence[source := Record(present, now, ttl)];
      var after := CoarsePresence(now);
      return before != after;
    }

    method Get(now: real) returns (signals: Signals)
      modifies this
      ensures Contents() == Pruned(old(Contents()), now)
      ensures signals == View(old(Contents()), now)
    {
      PruneIsInvisible(Contents(), now, now);
      Prune(now);
      signals := if activity.Some? then activity.value.says else Signals(None, None, None, None);
      var present := FusedPresent(now);
      signals := signals.(present := present);
    }

    method Prune(now: real)
      modifies this
      ensures Contents() == Pruned(old(Contents()), now)
    {
      if activity.Some? && Expired(activity.value, now) {
        activity := None;
      }
      presence := map key | key in presence && !Expired(presence[key], now) :: presence[key];
    }

    method FusedPresent(now: real) returns (present: Option<bool>)
      ensures present == Fused(Contents(), now)
    {
      var sawTrue, keys := false, presence.Keys;
      while keys != {}
        invariant keys <= presence.Keys
        invariant forall key :: key in presence.Keys - keys && FreshSource(Contents(), key, now) ==>
          presence[key].says && sawTrue
        invariant sawTrue ==> SomeoneSays(Contents(), now, true)
        decreases keys
      {
        var key :| key in keys;
        keys := keys - {key};
        if Expired(presence[key], now) {
          continue;
        }
        assert FreshSource(Contents(), key, now);
        if !presence[key].says {
          return Some(false);
        }
        sawTrue := true;
      }
      assert forall key :: FreshSource(Contents(), key, now) ==> key in presence.Keys - keys;
      return if sawTrue then Some(true) else None;
    }

    method CoarsePresence(now: real) returns (coarse: Option<Label>)
      ensures coarse == Coarse(Contents(), now, awayIdle)
    {
      var present := FusedPresent(now);
      if present == Some(false) {
        return Some(LabelAway);
      }
      if present == Some(true) {
        return Some(LabelPresent);
      }
      if activity.Some? && !Expired(activity.value, now) {
        var s := activity.value.says;
        if s.locked == Some(true) {
          return Some(LabelAway);
        }
        if s.idle.Some? {
          return Some(if s.idle.value >= awayIdle then LabelAway else LabelPresent);
        }
        if s.locked == Some(false) || s.foreground.Some? {
          return Some(LabelPresent);
        }
      }
      return None;
    }

    method NextExpiryAt(now: real) returns (soonest: Option<real>)
      ensures SoonestExpiry(Contents(), now, soonest)
    {
      soonest := None;
      var keys := presence.Keys;
      while keys != {}
        invariant keys <= presence.Keys
        invariant forall key :: key in presence.Keys - keys && FreshSource(Contents(), key, now) ==>
          soonest.Some? && soonest.value <= ExpiryOf(presence[key])
        invariant soonest.Some? ==>
          exists key :: FreshSource(Contents(), key, now) && ExpiryOf(presence[key]) == soonest.value
        decreases keys
      {
        var key :| key in keys;
        keys := keys - {key};
        if Expired(presence[key], now) {
          continue;
        }
        assert FreshSource(Contents(), key, now);
        var expiry := ExpiryOf(presence[key]);
        if soonest == None || expiry < soonest.value {
          soonest := Some(expiry);
        }
      }
      assert forall key :: FreshSource(Contents(), key, now) ==> key in presence.Keys - keys;
      if activity.Some? && !Expired(activity.value, now) {
        var expiry := ExpiryOf(activity.value);
        if soonest == None || expiry < soonest.value {
          soonest := Some(expiry);
        }
      }
    }
  }

  /** The earliest expiry of anything fresh. */
  ghost predicate SoonestExpiry(b: Box, now: real, soonest: Option<real>) {
    && (forall key :: FreshSource(b, key, now) ==> soonest.Some? && soonest.value <= ExpiryOf(b.sources[key]))
    && (FreshActivity(b, now) ==> soonest.Some? && soonest.value <= ExpiryOf(b.activity.value))
    && (soonest.Some? ==>
          || (FreshActivity(b, now) && ExpiryOf(b.activity.value) == soonest.value)
          || (exists key :: FreshSource(b, key, now) && ExpiryOf(b.sources[key]) == soonest.value))
  }

  // ------------------------------------------------ main results on the mailbox

  /** The same posts are fresh. */
  ghost predicate SameFresh(b: Box, t: real, u: real) {
    && (FreshActivity(b, t) <==> FreshActivity(b, u))
    && forall key :: FreshSource(b, key, t) <==> FreshSource(b, key, u)
  }

  lemma SameFreshSameView(b: Box, t: real, u: real, awayIdle: real)
    requires SameFresh(b, t, u)
    ensures View(b, t) == View(b, u) && Coarse(b, t, awayIdle) == Coarse(b, u, awayIdle)
  {
    assert forall says :: SomeoneSays(b, t, says) <==> SomeoneSays(b, u, says);
  }

  /** With no new posts, exactly the posts that are fresh now are fresh at a later time if and only if
      that time is no later than the announced expiry. */
  lemma FreshUntilExpiry(b: Box, now: real, soonest: Option<real>, t: real)
    requires SoonestExpiry(b, now, soonest) && now <= t
    ensures SameFresh(b, now, t) <==> soonest == None || t <= soonest.value
  {
    if soonest.Some? && t > soonest.value && !(FreshActivity(b, now) && ExpiryOf(b.activity.value) == soonest.value) {
      var key :| FreshSource(b, key, now) && ExpiryOf(b.sources[key]) == soonest.value;
      assert !FreshSource(b, key, t);
    }
  }

  /** So a read at any time up to and including the announced expiry gives what a read now gives. */
  lemma ViewIsStable(b: Box, now: real, soonest: Option<real>, t: real, awayIdle: real)
    requires SoonestExpiry(b, now, soonest) && now <= t && (soonest.Some? ==> t <= soonest.value)
    ensures View(b, t) == View(b, now) && Coarse(b, t, awayIdle) == Coarse(b, now, awayIdle)
  {
    FreshUntilExpiry(b, now, soonest, t);
    SameFreshSameView(b, t, now, awayIdle);
  }

  /** Pruning keeps exactly the records that have not expired. */
  lemma PruneKeepsExactly(b: Box, now: real)
    ensures forall key :: key in Pruned(b, now).sources <==> FreshSource(b, key, now)
    ensures forall key <- Pruned(b, now).sources :: Pruned(b, now).sources[key] == b.sources[key]
    ensures Pruned(b, now).activity == if FreshActivity(b, now) then b.activity else None
  {
  }

  lemma PruneKeepsFresh(b: Box, now: real, t: real)
    requires now <= t
    ensures FreshActivity(Pruned(b, now), t) <==> FreshActivity(b, t)
    ensures forall key :: FreshSource(Pruned(b, now), key, t) <==> FreshSource(b, key, t)
  {
  }

  /** No later read, label or expiry can tell whether a prune happened. */
  lemma PruneIsInvisible(b: Box, now: real, t: real)
    requires now <= t
    ensures View(Pruned(b, now), t) == View(b, t)
    ensures forall awayIdle :: Coarse(Pruned(b, now), t, awayIdle) == Coarse(b, t, awayIdle)
    ensures forall soonest :: SoonestExpiry(Pruned(b, now), t, soonest) <==> SoonestExpiry(b, t, soonest)
  {
    PruneKeepsFresh(b, now, t);
    assert forall says :: SomeoneSays(Pruned(b, now), t, says) <==> SomeoneSays(b, t, says);
  }

  // ------------------------------------------------ the tracker

  datatype PresenceState = Engaged | Ignoring | Away

  datatype Config = Config(engagedWindow: real, awayIdle: real, returnMin: real, focusJealousy: real)

  predicate ConfigOk(cfg: Config) {
    cfg.engagedWindow > 0.0 && cfg.awayIdle > 0.0 && cfg.returnMin > 0.0 && cfg.focusJealousy > 0.0
  }

  /** A recent direct interaction. */
  predicate Recent(cfg: Config, interacted: real, now: real) {
    interacted > 0.0 && now - interacted <= cfg.engagedWindow
  }

  function Classify(cfg: Config, interacted: real, now: real, s: Signals): PresenceState {
    if Recent(cfg, interacted, now) then Engaged
    else if s.present == Some(false) then Away
    else if s.present == Some(true) then Ignoring
    else if s.locked == Some(true) then Away
    else if s.idle.Some? then (if s.idle.value >= cfg.awayIdle then Away else Ignoring)
    else if s.locked == Some(false) then Ignoring
    else Away
  }

  /** Which class the tracker comes to: engaged exactly after an interaction within the window; else away exactly
      if a source says absent, or none says anything and the screen is locked, or the owner has been idle for long,
      or nothing is known at all. */
  lemma ClassifyExactly(cfg: Config, interacted: real, now: real, s: Signals)
    ensures var c := Classify(cfg, interacted, now, s);
            && (c == Engaged <==> interacted > 0.0 && now <= interacted + cfg.engagedWindow)
            && (c == Away <==>
                  && c != Engaged && s.present != Some(true)
                  && (|| s.present == Some(false) || s.locked == Some(true)
                      || (if s.idle.Some? then s.idle.value >= cfg.awayIdle else s.locked == None)))
  {
    ThreeValues(s.present);
    ThreeValues(s.locked);
  }

  /** Nothing is known but the name of the application in front. */
  predicate OnlyForeground(s: Signals) {
    s.present == None && s.locked == None && s.idle == None && s.foreground.Some?
  }

  /** The wake-up label says present exactly when the tracker would, but for a record that carries only
      the application in front. */
  lemma LabelAgainstTracker(b: Box, cfg: Config, interacted: real, now: real)
    requires !Recent(cfg, interacted, now)
    ensures Coarse(b, now, cfg.awayIdle) == Some(LabelPresent)
       <==> Classify(cfg, interacted, now, View(b, now)) == Ignoring || OnlyForeground(View(b, now))
  {
    ThreeValues(Fused(b, now));
    if FreshActivity(b, now) {
      ThreeValues(b.activity.value.says.locked);
    }
  }

  lemma ThreeValues(x: Option<bool>)
    ensures x == None || x == Some(true) || x == Some(false)
  {
    if x.Some? {
      assert if x.value then x == Some(true) else x == Some(false);
    }
  }

  /** A post that changes no label: with no recent interaction the tracker's class at that instant is the
      same before and after it exactly when the label is not `present`, or the view is reduced to a
      foreground application on both sides of the post or on neither. */
  lemma QuietPostKeepsClass(before: Box, after: Box, cfg: Config, interacted: real, now: real)
    requires !Recent(cfg, interacted, now)
    requires Coarse(before, now, cfg.awayIdle) == Coarse(after, now, cfg.awayIdle)
    ensures Classify(cfg, interacted, now, View(before, now)) == Classify(cfg, interacted, now, View(after, now))
       <==> (OnlyForeground(View(before, now)) <==> OnlyForeground(View(after, now)))
            || Coarse(before, now, cfg.awayIdle) != Some(LabelPresent)
  {
    LabelAgainstTracker(before, cfg, interacted, now);
    LabelAgainstTracker(after, cfg, interacted, now);
  }

  /** It does happen: a source reports present while only an application in front was known. */
  lemma QuietPostCanChangeClass(cfg: Config, now: real, app: string) returns (before: Box, after: Box)
    requires ConfigOk(cfg)
    ensures after == before.(sources := before.sources["helper" := Record(true, now, 30.0)])
    ensures Coarse(before, now, cfg.awayIdle) == Coarse(after, now, cfg.awayIdle)
    ensures Classify(cfg, 0.0, now, View(before, now)) != Classify(cfg, 0.0, now, View(after, now))
  {
    before := Box(Some(Record(Signals(None, None, Some(app), None), now, 90.0)), map[]);
    after := before.(sources := before.sources["helper" := Record(true, now, 30.0)]);
    assert FreshSource(after, "helper", now);
    LabelAgainstTracker(before, cfg, 0.0, now);
    LabelAgainstTracker(after, cfg, 0.0, now);
  }

  datatype Report = Report(state: PresenceState, ignoredSeconds: real, awaySeconds: real, returned: bool,
                           focusApp: Option<string>, focusPressure: real, justLeft: bool)

  /** The tracker's memory. */
  datatype Memory = Memory(state: Option<PresenceState>, stateSince: real, awaySince: real,
                           focusApp: Option<string>, focusSince: real)

  const BLANK := Memory(None, 0.0, 0.0, None, 0.0)

  function Remembered(m: Memory, state: PresenceState, app: Option<string>, now: real): Memory {
    Memory(Some(state),
           if m.state != Some(state) then now else m.stateSince,
           if state == Away && m.state != Some(Away) then now else m.awaySince,
           app,
           if app != m.focusApp then now else m.focusSince)
  }

  /** `if self._focus_app`: there is a name and it is not empty. */
  predicate InFront(app: Option<string>) {
    app.Some? && app.value != ""
  }

  function FocusPressure(cfg: Config, state: PresenceState, app: Option<string>, seconds: real): real
    requires ConfigOk(cfg)
  {
    if state != Ignoring || !InFront(app) || seconds < cfg.focusJealousy then 0.0
    else RMin(1.0, (seconds - cfg.focusJealousy) / cfg.focusJealousy)
  }

  function ReportOf(cfg: Config, m: Memory, m': Memory, state: PresenceState, now: real): Report
    requires ConfigOk(cfg)
  {
    Report(state,
           if state == Ignoring then now - m'.stateSince else 0.0,
           if state == Away then now - m'.awaySince else 0.0,
           m.state == Some(Away) && state != Away && RMax(0.0, now - m.awaySince) >= cfg.returnMin,
           m'.focusApp,
           FocusPressure(cfg, state, m'.focusApp, if InFront(m'.focusApp) then now - m'.focusSince else 0.0),
           state == Away && m.state.Some? && m.state != Some(Away))
  }

  class PresenceTracker {
    const config: Config
    var lastInteraction: real
    var state: Option<PresenceState>
    var stateSince: real
    var awaySince: real
    var focusApp: Option<string>
    var focusSince: real

    constructor (config: Config)
      ensures this.config == config && Value() == BLANK && lastInteraction == 0.0
    {
      this.config := config;
      lastInteraction, state, stateSince, awaySince, focusApp, focusSince := 0.0, None, 0.0, 0.0, None, 0.0;
    }

    function Value(): Memory
      reads this
    {
      Memory(state, stateSince, awaySince, focusApp, focusSince)
    }

    method NoteInteraction(now: real)
      modifies this`lastInteraction
      ensures lastInteraction == now
    {
      lastInteraction := now;
    }

    method UpdateFocus(now: real, signals: Signals)
      modifies this`focusApp, this`focusSince
      ensures focusApp == signals.foreground
      ensures focusSince == if signals.foreground != old(focusApp) then now else old(focusSince)
    {
      if signals.foreground != focusApp {
        focusApp := signals.foreground;
        focusSince := now;
      }
    }

    method Update(now: real, signals: Signals) returns (report: Report)
      requires ConfigOk(config)
      modifies this`state, this`stateSince, this`awaySince, this`focusApp, this`focusSince
      ensures var class_ := Classify(config, lastInteraction, now, signals);
              && Value() == Remembered(old(Value()), class_, signals.foreground, now)
              && report == ReportOf(config, old(Value()), Value(), class_, now)
    {
      var newState := Classify(config, lastInteraction, now, signals);
      UpdateFocus(now, signals);
      var previous := state;
      var returned := false;
      if previous == Some(Away) && newState != Away {
        returned := RMax(0.0, now - awaySince) >= config.returnMin;
      }
      var justLeft := newState == Away && previous.Some? && previous != Some(Away);
      if newState == Away && previous != Some(Away) {
        awaySince := now;
      }
      if Some(newState) != previous {
        stateSince := now;
      }
      var awaySeconds := if newState == Away then now - awaySince else 0.0;
      var ignoredSeconds := if newState == Ignoring then now - stateSince else 0.0;
      var focusSeconds := if InFront(focusApp) then now - focusSince else 0.0;
      var pressure := FocusPressure(config, newState, focusApp, focusSeconds);
      state := Some(newState);
      report := Report(newState, ignoredSeconds, awaySeconds, returned, focusApp, pressure, justLeft);
    }
  }

  // ------------------------------------------------ runs of the tracker

  /** One update: the clock, the class the signals came to, the application in front. */
  datatype Step = Step(now: real, state: PresenceState, app: Option<string>)

  function MemoryAt(steps: seq<Step>, i: nat): Memory
    requires i <= |steps|
  {
    if i == 0 then BLANK
    else Remembered(MemoryAt(steps, i - 1), steps[i - 1].state, steps[i - 1].app, steps[i - 1].now)
  }

  function ReportAt(cfg: Config, steps: seq<Step>, i: nat): Report
    requires ConfigOk(cfg) && i < |steps|
  {
    ReportOf(cfg, MemoryAt(steps, i), MemoryAt(steps, i + 1), steps[i].state, steps[i].now)
  }

  ghost predicate ClockRuns(steps: seq<Step>) {
    (forall i :: 0 <= i < |steps| ==> steps[i].now > 0.0)
    && forall i, j :: 0 <= i <= j < |steps| ==> steps[i].now <= steps[j].now
  }

  /** Reference: the first step of the unbroken stretch of steps like step i. */
  function StretchFrom<T(==)>(steps: seq<Step>, of: Step -> T, i: nat): (k: nat)
    requires i < |steps|
    ensures k <= i && forall j :: k <= j <= i ==> of(steps[j]) == of(steps[i])
    ensures k > 0 ==> of(steps[k - 1]) != of(steps[i])
  {
    if i == 0 || of(steps[i - 1]) != of(steps[i]) then i else StretchFrom(steps, of, i - 1)
  }

  lemma {:induction false} MemoryIsStretches(steps: seq<Step>, i: nat)
    requires i < |steps|
    ensures var m := MemoryAt(steps, i + 1);
            && m.state == Some(steps[i].state) && m.focusApp == steps[i].app
            && m.stateSince == steps[StretchFrom(steps, (s: Step) => s.state, i)].now
            && (steps[i].state == Away ==> m.awaySince == m.stateSince)
            && (steps[i].app.Some? ==> m.focusSince == steps[StretchFrom(steps, (s: Step) => s.app, i)].now)
  {
    if i > 0 {
      MemoryIsStretches(steps, i - 1);
    }
  }

  /** The seconds a report gives are those since the stretch began. */
  lemma SecondsAreStretches(cfg: Config, steps: seq<Step>, i: nat)
    requires ConfigOk(cfg) && i < |steps|
    ensures var r := ReportAt(cfg, steps, i);
            var held := steps[i].now - steps[StretchFrom(steps, (s: Step) => s.state, i)].now;
            && (r.state == Ignoring ==> r.ignoredSeconds == held && r.awaySeconds == 0.0)
            && (r.state == Away ==> r.awaySeconds == held && r.ignoredSeconds == 0.0)
  {
    MemoryIsStretches(steps, i);
  }

  /** A return is reported exactly at the step that ends an unbroken absence that began at least
      `returnMin` seconds before it. */
  lemma ReturnMeansLongAbsence(cfg: Config, steps: seq<Step>, i: nat)
    requires ConfigOk(cfg) && ClockRuns(steps) && i < |steps|
    ensures ReportAt(cfg, steps, i).returned
       <==> && i > 0 && steps[i - 1].state == Away && steps[i].state != Away
            && steps[i].now - steps[StretchFrom(steps, (s: Step) => s.state, i - 1)].now >= cfg.returnMin
  {
    if i > 0 {
      MemoryIsStretches(steps, i - 1);
    }
  }

  /** A leaving is reported exactly at the step that begins an absence after a step that was none. */
  lemma LeavingIsReported(cfg: Config, steps: seq<Step>, i: nat)
    requires ConfigOk(cfg) && i < |steps|
    ensures ReportAt(cfg, steps, i).justLeft
       <==> i > 0 && steps[i].state == Away && steps[i - 1].state != Away
  {
    if i > 0 {
      MemoryIsStretches(steps, i - 1);
    }
  }

  /** Pressure is between 0 and 1, and above 0 only for an ignored pet and one application that has been
      in front, without a break, for longer than the threshold. It then grows evenly with that time, and is
      full at twice the threshold. */
  lemma PressureMeansLongFocus(cfg: Config, steps: seq<Step>, i: nat)
    requires ConfigOk(cfg) && i < |steps|
    ensures var r := ReportAt(cfg, steps, i);
            && 0.0 <= r.focusPressure <= 1.0
            && (r.focusPressure > 0.0 <==>
                  && steps[i].state == Ignoring && steps[i].app.Some? && steps[i].app.value != ""
                  && steps[i].now - steps[StretchFrom(steps, (s: Step) => s.app, i)].now > cfg.focusJealousy)
            && (r.focusPressure > 0.0 ==>
                  r.focusPressure * cfg.focusJealousy
                  == RMin(cfg.focusJealousy,
                          steps[i].now - steps[StretchFrom(steps, (s: Step) => s.app, i)].now - cfg.focusJealousy))
  {
    MemoryIsStretches(steps, i);
    PressureRange(cfg, ReportAt(cfg, steps, i).state, steps[i].app, steps[i].now - MemoryAt(steps, i + 1).focusSince);
  }

  lemma PressureRange(cfg: Config, state: PresenceState, app: Option<string>, seconds: real)
    requires ConfigOk(cfg)
    ensures 0.0 <= FocusPressure(cfg, state, app, seconds) <= 1.0
    ensures FocusPressure(cfg, state, app, seconds) > 0.0
       <==> state == Ignoring && InFront(app) && seconds > cfg.focusJealousy
    ensures var p := FocusPressure(cfg, state, app, seconds);
            p > 0.0 ==> p * cfg.focusJealousy == RMin(cfg.focusJealousy, seconds - cfg.focusJealousy)
  {
    var part := (seconds - cfg.focusJealousy) / cfg.focusJealousy;
    assert part * cfg.focusJealousy == seconds - cfg.focusJealousy;
    assert part >= 1.0 <==> seconds - cfg.focusJealousy >= cfg.focusJealousy;
  }
}
