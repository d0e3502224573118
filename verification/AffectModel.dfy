/** Shiro's drives and feelings (host/affect.py), over the reals. */
module AffectModel {
  import opened Common
  import opened Behavior

  datatype Feelings = Feelings(social: real, play: real, rest: real, stimulation: real, energy: real, sleepiness: real,
                               affection: real, trust: real, loneliness: real, frustration: real, bond: real)

  predicate Level(x: real) {
    0.0 <= x <= 100.0
  }

  predicate InRange(f: Feelings) {
    && Level(f.social) && Level(f.play) && Level(f.rest) && Level(f.stimulation) && Level(f.energy)
    && Level(f.sleepiness) && Level(f.affection) && Level(f.trust) && Level(f.loneliness)
    && Level(f.frustration) && Level(f.bond)
  }

  // ------------------------------------------------ arithmetic

  function Clamp(x: real): real {
    RMin(100.0, RMax(0.0, x))
  }

  function Drop(x: real, amount: real): real {
    Clamp(x - amount)
  }

  function Rise(x: real, amount: real): real {
    Clamp(x + amount)
  }

  function Toward(x: real, target: real, amount: real): real {
    if x > target then RMax(target, x - amount)
    else if x < target then RMin(target, x + amount)
    else x
  }

  // ------------------------------------------------ the passing of time

  datatype Presence = Presence(ignoring: bool, away: bool, focus: real)

  /** What m minutes take from the social drive. */
  function SocialLoss(p: Presence, m: real): real {
    if p.away then 0.0 else if p.ignoring then 0.7 * 2.5 * m else 0.7 * m
  }

  function StimulationLoss(p: Presence, m: real): real {
    if p.away then 1.1 * 0.3 * m else 1.1 * m
  }

  function Focus(p: Presence): real {
    RMax(0.0, RMin(1.0, p.focus))
  }

  /** What m minutes short of social contact by `deficit` add to loneliness. */
  function Missed(deficit: real, m: real): real {
    0.6 * m * deficit
  }

  /** The same for a pet that is ignored, with the owner's focus elsewhere. */
  function Ignored(deficit: real, focus: real, m: real): real {
    Missed(deficit, m) * 2.2 + focus * 0.8 * m
  }

  function Gain(deficit: real, m: real, p: Presence): real {
    if p.ignoring then Ignored(deficit, Focus(p), m) else Missed(deficit, m)
  }

  /** How loneliness moves in m minutes once social has the value `social`. */
  function Lonelier(loneliness: real, social: real, m: real, p: Presence): real {
    if p.away then Drop(loneliness, 0.2 * m)
    else if social >= 55.0 then Drop(loneliness, 0.6 * m)
    else Rise(loneliness, Gain((55.0 - social) / 55.0, m, p))
  }

  function Frustrated(frustration: real, m: real, p: Presence): real {
    var calmer := Drop(frustration, 0.6 * m);
    if p.ignoring && Focus(p) > 0.0 then Rise(calmer, Focus(p) * 0.5 * m) else calmer
  }

  /** Elapsed minutes an advance applies. */
  function Minutes(since: real, now: real): real {
    if now <= since then 0.0 else RMin(now - since, 900.0) / 60.0
  }

  class Affect {
    var f: Feelings
    var lastUpdate: real

    constructor (f: Feelings, lastUpdate: real)
      ensures this.f == f && this.lastUpdate == lastUpdate
    {
      this.f := f;
      this.lastUpdate := lastUpdate;
    }

    method Advance(now: real, p: Presence)
      modifies this
      ensures lastUpdate == now
      ensures f == if old(lastUpdate) <= 0.0 then old(f) else Advanced(old(f), old(lastUpdate), now, p)
    {
      if lastUpdate <= 0.0 {
        lastUpdate := now;
        return;
      }
      var elapsed := now - lastUpdate;
      lastUpdate := now;
      if elapsed <= 0.0 {
        return;
      }
      elapsed := RMin(elapsed, 900.0);
      Age(elapsed / 60.0, p);
    }

    method Age(minutes: real, p: Presence)
      modifies this`f
      ensures f == Aged(old(f), minutes, p)
    {
      AdvanceDrives(minutes, p);
      AdvanceLoneliness(minutes, p);
      AdvanceFrustration(minutes, p);
      f := f.(affection := Toward(f.affection, 60.0, 0.05 * minutes));
      if f.loneliness > 60.0 {
        f := f.(bond := Drop(f.bond, 0.02 * minutes));
      }
    }

    method AdvanceDrives(minutes: real, p: Presence)
      modifies this`f
      ensures f == old(f).(social := Drop(old(f).social, SocialLoss(p, minutes)),
                           play := Drop(old(f).play, 0.9 * minutes),
                           rest := Drop(old(f).rest, 0.5 * minutes),
                           stimulation := Drop(old(f).stimulation, StimulationLoss(p, minutes)),
                           energy := Drop(old(f).energy, 0.2 * minutes),
                           sleepiness := Rise(old(f).sleepiness, 0.4 * minutes))
    {
      f := f.(social := Drop(f.social, SocialLoss(p, minutes)));
      f := f.(play := Drop(f.play, 0.9 * minutes));
      f := f.(rest := Drop(f.rest, 0.5 * minutes));
      f := f.(stimulation := Drop(f.stimulation, StimulationLoss(p, minutes)));
      f := f.(sleepiness := Rise(f.sleepiness, 0.4 * minutes));
      f := f.(energy := Drop(f.energy, 0.2 * minutes));
    }

    method AdvanceLoneliness(minutes: real, p: Presence)
      modifies this`f
      ensures f == old(f).(loneliness := Lonelier(old(f).loneliness, old(f).social, minutes, p))
    {
      if p.away {
        f := f.(loneliness := Drop(f.loneliness, 0.2 * minutes));
        return;
      }
      if f.social >= 55.0 {
        f := f.(loneliness := Drop(f.loneliness, 0.6 * minutes));
        return;
      }
      var deficit := (55.0 - f.social) / 55.0;
      var gain := 0.6 * minutes * deficit;
      if p.ignoring {
        gain := gain * 2.2;
        gain := gain + Focus(p) * 0.8 * minutes;
      }
      f := f.(loneliness := Rise(f.loneliness, gain));
    }

    method AdvanceFrustration(minutes: real, p: Presence)
      modifies this`f
      ensures f == old(f).(frustration := Frustrated(old(f).frustration, minutes, p))
    {
      f := f.(frustration := Drop(f.frustration, 0.6 * minutes));
      if p.ignoring && Focus(p) > 0.0 {
        f := f.(frustration := Rise(f.frustration, Focus(p) * 0.5 * minutes));
      }
    }

    method RegisterAttention()
      modifies this`f
      ensures f == Attended(old(f))
    {
      f := f.(social := Rise(f.social, 35.0));
      f := f.(stimulation := Rise(f.stimulation, 12.0));
      f := f.(loneliness := Drop(f.loneliness, 30.0));
      f := f.(affection := Rise(f.affection, 4.0));
      f := f.(trust := Rise(f.trust, 2.0));
      f := f.(bond := Rise(f.bond, 1.0));
    }

    method RegisterPraise()
      modifies this`f
      ensures f == Praised(old(f))
    {
      RegisterAttention();
      f := f.(affection := Rise(f.affection, 8.0));
      f := f.(trust := Rise(f.trust, 4.0));
      f := f.(frustration := Drop(f.frustration, 20.0));
      f := f.(bond := Rise(f.bond, 2.0));
    }

    method RegisterPlayInvite()
      modifies this`f
      ensures f == Invited(old(f))
    {
      f := f.(play := Rise(f.play, 26.0));
      f := f.(stimulation := Rise(f.stimulation, 16.0));
      f := f.(social := Rise(f.social, 15.0));
      f := f.(energy := Drop(f.energy, 6.0));
      f := f.(loneliness := Drop(f.loneliness, 15.0));
      f := f.(affection := Rise(f.affection, 3.0));
    }
  }

  /** The feelings after an advance from `since` to `now`. */
  function Advanced(f: Feelings, since: real, now: real, p: Presence): Feelings {
    if now <= since then f else Aged(f, Minutes(since, now), p)
  }

  function Aged(f: Feelings, m: real, p: Presence): Feelings {
    var d := AgedDrives(DrivesOf(f), m, p);
    var loneliness := Lonelier(f.loneliness, d.social, m, p);
    Feelings(d.social, d.play, d.rest, d.stimulation, d.energy, d.sleepiness, d.affection, f.trust, loneliness,
             Frustrated(f.frustration, m, p), if loneliness > 60.0 then Drop(f.bond, 0.02 * m) else f.bond)
  }

  /** The drives that depend on nothing but time and presence. */
  datatype Drives = Drives(social: real, play: real, rest: real, stimulation: real, energy: real, sleepiness: real,
                           affection: real)

  function DrivesOf(f: Feelings): Drives {
    Drives(f.social, f.play, f.rest, f.stimulation, f.energy, f.sleepiness, f.affection)
  }

  /** The drives after m minutes. */
  function AgedDrives(d: Drives, m: real, p: Presence): Drives {
    Drives(Drop(d.social, SocialLoss(p, m)), Drop(d.play, 0.9 * m), Drop(d.rest, 0.5 * m),
           Drop(d.stimulation, StimulationLoss(p, m)), Drop(d.energy, 0.2 * m), Rise(d.sleepiness, 0.4 * m),
           Toward(d.affection, 60.0, 0.05 * m))
  }

  function Attended(f: Feelings): Feelings {
    f.(social := Rise(f.social, 35.0), stimulation := Rise(f.stimulation, 12.0), loneliness := Drop(f.loneliness, 30.0),
       affection := Rise(f.affection, 4.0), trust := Rise(f.trust, 2.0), bond := Rise(f.bond, 1.0))
  }

  function Praised(f: Feelings): Feelings {
    var a := Attended(f);
    a.(affection := Rise(a.affection, 8.0), trust := Rise(a.trust, 4.0), frustration := Drop(a.frustration, 20.0),
       bond := Rise(a.bond, 2.0))
  }

  function Invited(f: Feelings): Feelings {
    f.(play := Rise(f.play, 26.0), stimulation := Rise(f.stimulation, 16.0), social := Rise(f.social, 15.0),
       energy := Drop(f.energy, 6.0), loneliness := Drop(f.loneliness, 15.0), affection := Rise(f.affection, 3.0))
  }

  // ------------------------------------------------ views

  datatype Overall = Content | Restless | Needy | Sad | Grumpy | Withdrawn

  function OverallState(f: Feelings): Overall {
    if f.energy < 25.0 && (f.loneliness > 60.0 || f.frustration > 60.0) then Withdrawn
    else if f.frustration >= 60.0 then Grumpy
    else if f.loneliness >= 60.0 then Sad
    else if f.loneliness >= 40.0 || f.social < 35.0 || f.play < 25.0 then Needy
    else if f.stimulation < 35.0 || f.play < 45.0 then Restless
    else Content
  }

  predicate IsSleepy(f: Feelings) {
    f.sleepiness >= 70.0 || f.energy < 25.0
  }

  function SuggestedAnimations(f: Feelings): (list: seq<Animation>)
    ensures list != [] && Animation.Alert !in list
  {
    var s := OverallState(f);
    if (s == Content || s == Restless || s == Needy) && IsSleepy(f) then [Animation.Sleepy, Nap, Idle]
    else match s
      case Content => [Idle, Blink, LookAround, Walk, Animation.Happy]
      case Restless => [Walk, LookAround, Play]
      case Needy => [Play, LookAround, Animation.Happy, Walk]
      case Sad => [Animation.Worried, Animation.Sleepy, Idle]
      case Grumpy => [Animation.Worried, LookAround, Walk]
      case Withdrawn => [Nap, Animation.Sleepy, Idle]
  }

  /** How time moves loneliness: it eases in an absence and in company, and else grows with what is missing, faster
      for a pet that is ignored and with the owner's focus elsewhere. */
  lemma LonelinessByPresence(loneliness: real, social: real, m: real, p: Presence)
    requires Level(loneliness) && m >= 0.0
    ensures var l := Lonelier(loneliness, social, m, p);
            var focus, missing := RMax(0.0, RMin(1.0, p.focus)), (55.0 - social) / 55.0;
            && (p.away ==> l == RMax(0.0, loneliness - 0.2 * m))
            && (!p.away && social >= 55.0 ==> l == RMax(0.0, loneliness - 0.6 * m))
            && (!p.away && social < 55.0 && !p.ignoring ==> l == Clamp(loneliness + 0.6 * m * missing))
            && (!p.away && social < 55.0 && p.ignoring ==>
                  l == Clamp(loneliness + (0.6 * m * missing * 2.2 + focus * 0.8 * m)))
  {
  }

  /** Frustration eases, but less under the owner's focus elsewhere. */
  lemma FrustrationByPresence(frustration: real, m: real, p: Presence)
    requires Level(frustration) && m >= 0.0
    ensures var x, focus := Frustrated(frustration, m, p), RMax(0.0, RMin(1.0, p.focus));
            && (!p.ignoring || focus == 0.0 ==> x == RMax(0.0, frustration - 0.6 * m))
            && (p.ignoring && focus > 0.0 ==> x == Clamp(RMax(0.0, frustration - 0.6 * m) + focus * 0.5 * m))
  {
  }

  /** One advance leaves trust alone, and the bond too unless loneliness is deep after it. */
  lemma BondWearsInDeepLoneliness(f: Feelings, m: real, p: Presence)
    requires InRange(f) && m >= 0.0
    ensures var g := Aged(f, m, p);
            && g.trust == f.trust && g.loneliness == Lonelier(f.loneliness, g.social, m, p)
            && g.frustration == Frustrated(f.frustration, m, p)
            && (g.loneliness <= 60.0 ==> g.bond == f.bond)
            && (g.loneliness > 60.0 ==> g.bond == Drop(f.bond, 0.02 * m))
  {
  }

  /** What praise and an invitation to play are worth, all steps of each taken together. */
  lemma WhatEventsAreWorth(f: Feelings)
    requires InRange(f)
    ensures Praised(f) == f.(social := RMin(100.0, f.social + 35.0), stimulation := RMin(100.0, f.stimulation + 12.0),
                             loneliness := RMax(0.0, f.loneliness - 30.0),
                             frustration := RMax(0.0, f.frustration - 20.0),
                             affection := RMin(100.0, f.affection + 12.0), trust := RMin(100.0, f.trust + 6.0),
                             bond := RMin(100.0, f.bond + 3.0))
    ensures Invited(f) == f.(play := RMin(100.0, f.play + 26.0), social := RMin(100.0, f.social + 15.0),
                             stimulation := RMin(100.0, f.stimulation + 16.0), energy := RMax(0.0, f.energy - 6.0),
                             loneliness := RMax(0.0, f.loneliness - 15.0), affection := RMin(100.0, f.affection + 3.0))
  {
  }

  /** When each overall state holds: low energy with distress comes first, then frustration, loneliness, needs. */
  lemma StatesInOrder(f: Feelings)
    ensures var s, low, needy := OverallState(f), f.energy < 25.0, f.loneliness >= 40.0 || f.social < 35.0;
            && (s == Withdrawn <==> low && (f.loneliness > 60.0 || f.frustration > 60.0))
            && (s == Grumpy <==> f.frustration >= 60.0 && s != Withdrawn)
            && (s == Sad <==> f.loneliness >= 60.0 && f.frustration < 60.0 && s != Withdrawn)
            && (s == Needy <==> (needy || f.play < 25.0) && f.loneliness < 60.0 && f.frustration < 60.0)
            && (s == Restless <==> f.loneliness < 40.0 && f.social >= 35.0 && 25.0 <= f.play && f.frustration < 60.0
                                   && (f.stimulation < 35.0 || f.play < 45.0))
  {
  }

  /** What is suggested fits the state: rest to the tired and the withdrawn, play to those who want it and are
      awake enough, worry to the sad and the grumpy, joy to the content and the needy. */
  lemma SuggestionsFit(f: Feelings)
    ensures var s, list := OverallState(f), SuggestedAnimations(f);
            var mild := s == Content || s == Restless || s == Needy;
            var tired := mild && (f.sleepiness >= 70.0 || f.energy < 25.0);
            && (Nap in list <==> tired || s == Withdrawn)
            && (Animation.Sleepy in list <==> tired || s == Sad || s == Withdrawn)
            && (Play in list <==> !tired && (s == Restless || s == Needy))
            && (Animation.Worried in list <==> s == Sad || s == Grumpy)
            && (Animation.Happy in list <==> !tired && (s == Content || s == Needy))
            && (Walk in list <==> !tired && (mild || s == Grumpy))
            && (LookAround in list <==> !tired && (mild || s == Grumpy))
            && (Idle in list <==> tired || s == Content || s == Sad || s == Withdrawn)
            && (Blink in list <==> !tired && s == Content)
  {
  }

  // ------------------------------------------------ cutting time into ticks

  /** The feelings after advances at the given clocks, the first from `since`. */
  function Ticked(f: Feelings, since: real, clocks: seq<real>, p: Presence): Feelings
    decreases |clocks|
  {
    if clocks == [] then f else Ticked(Advanced(f, since, clocks[0], p), clocks[0], clocks[1..], p)
  }

  ghost predicate Forward(since: real, clocks: seq<real>, until: real)
    decreases |clocks|
  {
    if clocks == [] then since <= until else since <= clocks[0] && Forward(clocks[0], clocks[1..], until)
  }

  lemma {:induction false} ForwardEnds(since: real, clocks: seq<real>, until: real)
    requires Forward(since, clocks, until)
    ensures since <= until
    decreases |clocks|
  {
    if clocks != [] {
      ForwardEnds(clocks[0], clocks[1..], until);
    }
  }

  predicate DrivesInRange(d: Drives) {
    && Level(d.social) && Level(d.play) && Level(d.rest) && Level(d.stimulation) && Level(d.energy)
    && Level(d.sleepiness) && Level(d.affection)
  }

  lemma AgeTwice(d: Drives, m: real, n: real, p: Presence)
    requires DrivesInRange(d) && m >= 0.0 && n >= 0.0
    ensures AgedDrives(AgedDrives(d, m, p), n, p) == AgedDrives(d, m + n, p)
  {
  }

  lemma AgedInRange(f: Feelings, m: real, p: Presence)
    requires InRange(f) && m >= 0.0
    ensures InRange(Aged(f, m, p))
  {
  }

  lemma AdvanceOfDrives(f: Feelings, since: real, now: real, p: Presence)
    requires InRange(f) && since <= now && now - since <= 900.0
    ensures DrivesOf(Advanced(f, since, now, p)) == AgedDrives(DrivesOf(f), (now - since) / 60.0, p)
  {
  }

  lemma {:induction false} LastIsForward(since: real, clocks: seq<real>, until: real)
    requires clocks != [] && Forward(since, clocks, until)
    ensures since <= clocks[|clocks| - 1] <= until
    decreases |clocks|
  {
    if |clocks| > 1 {
      LastIsForward(clocks[0], clocks[1..], until);
    }
  }

  /** The drives after a run of ticks, each applied in full. */
  function TickedDrives(d: Drives, since: real, clocks: seq<real>, p: Presence): Drives
    decreases |clocks|
  {
    if clocks == [] then d
    else TickedDrives(AgedDrives(d, (clocks[0] - since) / 60.0, p), clocks[0], clocks[1..], p)
  }

  lemma {:induction false} DrivesOfTicked(f: Feelings, since: real, clocks: seq<real>, until: real, p: Presence)
    requires InRange(f) && Forward(since, clocks, until) && until - since <= 900.0
    ensures DrivesOf(Ticked(f, since, clocks, p)) == TickedDrives(DrivesOf(f), since, clocks, p)
    decreases |clocks|
  {
    if clocks != [] {
      ForwardEnds(clocks[0], clocks[1..], until);
      AdvanceOfDrives(f, since, clocks[0], p);
      AdvancedInRange(f, since, clocks[0], p);
      DrivesOfTicked(Advanced(f, since, clocks[0], p), clocks[0], clocks[1..], until, p);
    }
  }

  lemma AgedDrivesInRange(d: Drives, m: real, p: Presence)
    requires DrivesInRange(d) && m >= 0.0
    ensures DrivesInRange(AgedDrives(d, m, p))
  {
  }

  /** What TickedDrivesAddUp says. */
  ghost predicate AddsUp(d: Drives, since: real, clocks: seq<real>, p: Presence)
    requires clocks != []
  {
    TickedDrives(d, since, clocks, p) == AgedDrives(d, (clocks[|clocks| - 1] - since) / 60.0, p)
  }

  lemma OneTickAddsUp(d: Drives, since: real, clocks: seq<real>, p: Presence)
    requires |clocks| == 1
    ensures AddsUp(d, since, clocks, p)
  {
    assert TickedDrives(AgedDrives(d, (clocks[0] - since) / 60.0, p), clocks[0], clocks[1..], p)
        == AgedDrives(d, (clocks[0] - since) / 60.0, p);
  }

  lemma OneMoreAddsUp(d: Drives, since: real, clocks: seq<real>, p: Presence)
    requires DrivesInRange(d) && |clocks| > 1 && since <= clocks[0] <= clocks[|clocks| - 1]
    requires AddsUp(AgedDrives(d, (clocks[0] - since) / 60.0, p), clocks[0], clocks[1..], p)
    ensures AddsUp(d, since, clocks, p)
  {
    JoinTimes(d, since, clocks[0], clocks[|clocks| - 1], p);
  }

  lemma {:induction false} TickedDrivesAddUp(d: Drives, since: real, clocks: seq<real>, until: real, p: Presence)
    requires DrivesInRange(d) && clocks != [] && Forward(since, clocks, until)
    ensures AddsUp(d, since, clocks, p)
    decreases |clocks|
  {
    if |clocks| > 1 {
      AgedDrivesInRange(d, (clocks[0] - since) / 60.0, p);
      LastIsForward(clocks[0], clocks[1..], until);
      TickedDrivesAddUp(AgedDrives(d, (clocks[0] - since) / 60.0, p), clocks[0], clocks[1..], until, p);
      OneMoreAddsUp(d, since, clocks, p);
    } else {
      OneTickAddsUp(d, since, clocks, p);
    }
  }

  /** However up to fifteen minutes of unchanged presence are cut into ticks, the drives end where one
      advance would have put them. */
  lemma TicksDoNotMatter(f: Feelings, since: real, clocks: seq<real>, p: Presence)
    requires InRange(f) && clocks != [] && Forward(since, clocks, since + 900.0)
    ensures DrivesOf(Ticked(f, since, clocks, p)) == DrivesOf(Advanced(f, since, clocks[|clocks| - 1], p))
  {
    DrivesOfTicked(f, since, clocks, since + 900.0, p);
    TickedDrivesAddUp(DrivesOf(f), since, clocks, since + 900.0, p);
    LastIsForward(since, clocks, since + 900.0);
    AdvanceOfDrives(f, since, clocks[|clocks| - 1], p);
  }

  /** So over any ticks the drives are what the clock alone says: how much each loses or gains a minute, for an
      owner who is there, ignores the pet, or is away, and where it stops. */
  lemma DrivesByTheClock(f: Feelings, since: real, clocks: seq<real>, p: Presence)
    requires InRange(f) && clocks != [] && Forward(since, clocks, since + 900.0)
    ensures var d, m := DrivesOf(Ticked(f, since, clocks, p)), (clocks[|clocks| - 1] - since) / 60.0;
            && (p.away ==> d.social == f.social && d.stimulation == RMax(0.0, f.stimulation - 0.33 * m))
            && (!p.away && p.ignoring ==> d.social == RMax(0.0, f.social - 1.75 * m))
            && (!p.away && !p.ignoring ==> d.social == RMax(0.0, f.social - 0.7 * m))
            && (!p.away ==> d.stimulation == RMax(0.0, f.stimulation - 1.1 * m))
            && d.play == RMax(0.0, f.play - 0.9 * m) && d.rest == RMax(0.0, f.rest - 0.5 * m)
            && d.energy == RMax(0.0, f.energy - 0.2 * m) && d.sleepiness == RMin(100.0, f.sleepiness + 0.4 * m)
            && (f.affection >= 60.0 ==> d.affection == RMax(60.0, f.affection - 0.05 * m))
            && (f.affection <= 60.0 ==> d.affection == RMin(60.0, f.affection + 0.05 * m))
  {
    TicksDoNotMatter(f, since, clocks, p);
    LastIsForward(since, clocks, since + 900.0);
    AdvanceOfDrives(f, since, clocks[|clocks| - 1], p);
  }

  lemma JoinTimes(d: Drives, a: real, b: real, c: real, p: Presence)
    requires DrivesInRange(d) && a <= b <= c
    ensures AgedDrives(AgedDrives(d, (b - a) / 60.0, p), (c - b) / 60.0, p) == AgedDrives(d, (c - a) / 60.0, p)
  {
    AgeTwice(d, (b - a) / 60.0, (c - b) / 60.0, p);
    assert (b - a) / 60.0 + (c - b) / 60.0 == (c - a) / 60.0;
  }

  lemma AdvancedInRange(f: Feelings, since: real, now: real, p: Presence)
    requires InRange(f)
    ensures InRange(Advanced(f, since, now, p))
  {
    if now > since {
      AgedInRange(f, Minutes(since, now), p);
    }
  }

  /** A longer gap counts as fifteen minutes. */
  lemma LongGapsAreCut(f: Feelings, since: real, now: real, p: Presence)
    requires now - since > 900.0
    ensures Advanced(f, since, now, p) == Advanced(f, since, since + 900.0, p)
  {
  }

  /** Every cutting of the time from `since` to `now`, for every Shiro, gives the drives of one advance. */
  ghost predicate TicksAgree(since: real, now: real, p: Presence) {
    forall f, clocks :: CutsTime(f, clocks, since, now) ==>
      DrivesOf(Ticked(f, since, clocks, p)) == DrivesOf(Advanced(f, since, now, p))
  }

  ghost predicate CutsTime(f: Feelings, clocks: seq<real>, since: real, now: real) {
    InRange(f) && clocks != [] && clocks[|clocks| - 1] == now && Forward(since, clocks, now)
  }

  /** The cuts never matter exactly when the time is at most fifteen minutes. Beyond that, a tick at
      fifteen minutes costs more energy than one advance over the whole gap. */
  lemma TicksAgreeExactlyUpToCatchUp(since: real, now: real, p: Presence)
    requires since <= now
    ensures TicksAgree(since, now, p) <==> now - since <= 900.0
  {
    if now - since <= 900.0 {
      forall f, clocks | CutsTime(f, clocks, since, now)
        ensures DrivesOf(Ticked(f, since, clocks, p)) == DrivesOf(Advanced(f, since, now, p))
      {
        ForwardFurther(since, clocks, now, since + 900.0);
        TicksDoNotMatter(f, since, clocks, p);
      }
    } else {
      var f := Feelings(100.0, 100.0, 100.0, 100.0, 100.0, 0.0, 60.0, 0.0, 0.0, 0.0, 0.0);
      var clocks := [since + 900.0, now];
      TwoTicks(f, since, since + 900.0, now, p);
      assert clocks[1..] == [now] && [now][1..] == [];
      assert CutsTime(f, clocks, since, now);
      TwoTicksCostMore(f, since, now, p);
    }
  }

  lemma {:induction false} ForwardFurther(since: real, clocks: seq<real>, until: real, later: real)
    requires Forward(since, clocks, until) && until <= later
    ensures Forward(since, clocks, later)
    decreases |clocks|
  {
    if clocks != [] {
      ForwardFurther(clocks[0], clocks[1..], until, later);
    }
  }

  lemma TwoTicks(f: Feelings, a: real, b: real, c: real, p: Presence)
    ensures Ticked(f, a, [b, c], p) == Advanced(Advanced(f, a, b, p), b, c, p)
  {
    assert [b, c][1..] == [c] && [c][1..] == [];
    var g := Advanced(f, a, b, p);
    assert Ticked(g, b, [c], p) == Ticked(Advanced(g, b, c, p), c, [], p);
  }

  lemma TwoTicksCostMore(f: Feelings, since: real, now: real, p: Presence)
    requires f.energy == 100.0 && now - since > 900.0
    ensures Advanced(Advanced(f, since, since + 900.0, p), since + 900.0, now, p).energy
          < Advanced(f, since, now, p).energy
  {
    assert Advanced(f, since, now, p).energy == 97.0;
    assert Advanced(f, since, since + 900.0, p).energy == 97.0;
  }

  // ------------------------------------------------ loneliness

  /** One tick of a run whose presence may change from tick to tick. */
  datatype Beat = Beat(now: real, presence: Presence)

  function Lived(f: Feelings, since: real, beats: seq<Beat>): Feelings
    decreases |beats|
  {
    if beats == [] then f
    else Lived(Advanced(f, since, beats[0].now, beats[0].presence), beats[0].now, beats[1..])
  }

  ghost predicate BeatsForward(since: real, beats: seq<Beat>)
    decreases |beats|
  {
    beats != [] ==> since <= beats[0].now && BeatsForward(beats[0].now, beats[1..])
  }

  /** The steepest way loneliness can rise. */
  lemma LonelierAtMost(loneliness: real, social: real, m: real, p: Presence)
    requires Level(loneliness) && Level(social) && m >= 0.0
    ensures Lonelier(loneliness, social, m, p) <= loneliness + 2.12 * m
    ensures p.away || social >= 55.0 ==> Lonelier(loneliness, social, m, p) <= loneliness
  {
    if !p.away && social < 55.0 {
      GainAtMost((55.0 - social) / 55.0, m, p);
    }
  }

  lemma GainAtMost(deficit: real, m: real, p: Presence)
    requires 0.0 <= deficit <= 1.0 && m >= 0.0
    ensures Gain(deficit, m, p) <= 2.12 * m
  {
    MissedAtMost(deficit, m);
    IgnoredAtMost(deficit, Focus(p), m);
  }

  lemma MissedAtMost(deficit: real, m: real)
    requires 0.0 <= deficit <= 1.0 && m >= 0.0
    ensures 0.0 <= Missed(deficit, m) <= 0.6 * m
  {
    ProductAtMost(m, deficit);
    assert Missed(deficit, m) == 0.6 * (m * deficit);
  }

  lemma IgnoredAtMost(deficit: real, focus: real, m: real)
    requires 0.0 <= deficit <= 1.0 && 0.0 <= focus <= 1.0 && m >= 0.0
    ensures Ignored(deficit, focus, m) <= 2.12 * m
  {
    MissedAtMost(deficit, m);
    ProductAtMost(m, focus);
    Weigh(Missed(deficit, m), m * focus, m);
    assert focus * 0.8 * m == 0.8 * (m * focus);
  }

  lemma Weigh(missed: real, r: real, m: real)
    requires missed <= 0.6 * m && r <= m
    ensures missed * 2.2 + 0.8 * r <= 2.12 * m
  {
  }

  lemma ProductAtMost(m: real, part: real)
    requires m >= 0.0 && 0.0 <= part <= 1.0
    ensures 0.0 <= m * part <= m
  {
    assert m * (1.0 - part) >= 0.0;
  }

  lemma AdvancedLoneliness(f: Feelings, since: real, now: real, p: Presence)
    requires InRange(f) && since <= now
    ensures Advanced(f, since, now, p).loneliness <= f.loneliness + 2.12 * ((now - since) / 60.0)
    ensures p.away ==> Advanced(f, since, now, p).loneliness <= f.loneliness
  {
    var m := Minutes(since, now);
    LonelierAtMost(f.loneliness, Drop(f.social, SocialLoss(p, m)), m, p);
  }

  /** Over any run loneliness rises by at most 2.12 per elapsed minute. */
  lemma {:induction false} LonelinessRisesSlowly(f: Feelings, since: real, beats: seq<Beat>)
    requires InRange(f) && beats != [] && BeatsForward(since, beats)
    ensures Lived(f, since, beats).loneliness <= f.loneliness + 2.12 * ((beats[|beats| - 1].now - since) / 60.0)
    decreases |beats|
  {
    var now := beats[0].now;
    AdvancedLoneliness(f, since, now, beats[0].presence);
    if |beats| > 1 {
      AdvancedInRange(f, since, now, beats[0].presence);
      LonelinessRisesSlowly(Advanced(f, since, now, beats[0].presence), now, beats[1..]);
    }
  }

  /** Over any run spent away it does not rise at all. */
  lemma {:induction false} AbsenceIsNotRejection(f: Feelings, since: real, beats: seq<Beat>)
    requires InRange(f) && BeatsForward(since, beats) && forall i :: 0 <= i < |beats| ==> beats[i].presence.away
    ensures Lived(f, since, beats).loneliness <= f.loneliness
    decreases |beats|
  {
    if beats != [] {
      var now, p := beats[0].now, beats[0].presence;
      AdvancedLoneliness(f, since, now, p);
      AdvancedInRange(f, since, now, p);
      AbsenceIsNotRejection(Advanced(f, since, now, p), now, beats[1..]);
    }
  }

  /** The bound is reached: wholly ignored, with no social contact left. */
  lemma LonelinessBoundIsTight(f: Feelings, since: real, now: real)
    requires f.social == 0.0 && f.loneliness == 0.0 && since < now <= since + 900.0
    ensures Advanced(f, since, now, Presence(true, false, 1.0)).loneliness == 2.12 * ((now - since) / 60.0)
  {
  }

  // ------------------------------------------------ making up

  function Praises(f: Feelings, n: nat): Feelings {
    if n == 0 then f else Praised(Praises(f, n - 1))
  }

  function Invites(f: Feelings, n: nat): Feelings {
    if n == 0 then f else Invited(Invites(f, n - 1))
  }

  /** What k praises do, at least, to make g of f. */
  predicate Cheered(f: Feelings, g: Feelings, k: real) {
    && InRange(g) && g.play == f.play && g.energy == f.energy
    && g.social >= RMin(100.0, 35.0 * k)
    && g.stimulation >= RMin(100.0, 12.0 * k)
    && g.loneliness <= RMax(0.0, 100.0 - 30.0 * k)
    && g.frustration == RMax(0.0, f.frustration - 20.0 * k)
  }

  lemma OnePraise(f: Feelings, g: Feelings, k: real)
    requires InRange(f) && Cheered(f, g, k)
    ensures Cheered(f, Praised(g), k + 1.0)
  {
  }

  lemma {:induction false} PraisesHelp(f: Feelings, n: nat)
    requires InRange(f)
    ensures Cheered(f, Praises(f, n), n as real)
  {
    if n > 0 {
      PraisesHelp(f, n - 1);
      OnePraise(f, Praises(f, n - 1), (n - 1) as real);
    }
  }

  lemma {:induction false} InvitesHelp(f: Feelings, n: nat)
    requires InRange(f)
    ensures var g := Invites(f, n);
            && InRange(g) && g.play == RMin(100.0, f.play + 26.0 * n as real)
            && g.frustration == f.frustration && g.loneliness <= f.loneliness
            && g.social >= f.social
            && g.stimulation >= RMin(100.0, f.stimulation + 16.0 * n as real)
  {
    if n > 0 {
      InvitesHelp(f, n - 1);
    }
  }

  /** Three praises and two play invites, or more, make any Shiro content. */
  lemma MakingUp(f: Feelings, praises: nat, invites: nat)
    requires InRange(f) && praises >= 3 && invites >= 2
    ensures OverallState(Invites(Praises(f, praises), invites)) == Content
  {
    PraisesHelp(f, praises);
    InvitesHelp(Praises(f, praises), invites);
  }

  /** Fewer of either are not enough for the worst-off Shiro. */
  lemma MakingUpTakesThat(praises: nat, invites: nat)
    requires praises < 3 || invites < 2
    ensures var worst := Feelings(0.0, 0.0, 0.0, 0.0, 100.0, 0.0, 0.0, 0.0, 100.0, 100.0, 0.0);
            InRange(worst) && OverallState(Invites(Praises(worst, praises), invites)) != Content
  {
    var worst := Feelings(0.0, 0.0, 0.0, 0.0, 100.0, 0.0, 0.0, 0.0, 100.0, 100.0, 0.0);
    PraisesHelp(worst, praises);
    InvitesHelp(Praises(worst, praises), invites);
  }
}
