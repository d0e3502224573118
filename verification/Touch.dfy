/** The touch classifier of device/touch/src/lib.rs: debounce, gesture phases, rate limit. The object
    is proved to be a cascade of three small machines; each machine is proved to meet a reference
    that looks at the whole run instead of a state. */
module Touch {
  import opened Common

  const DEBOUNCE_MS := 40
  const HOLD_MS := 700
  const DOUBLETAP_WINDOW_MS := 400
  const MIN_EVENT_GAP_MS := 250
  const HOLD_DURATION_MAX_MS := 60_000

  datatype Gesture = Tap | Hold(duration: int) | DoubleTap

  datatype Edge = Down | Up

  datatype Phase = Idle | FirstDown(start: nat) | WaitSecond(released: nat) | DrainRelease

  /** One call of update: the pad level and the clock. */
  datatype Sample = Sample(pressed: bool, now: nat)

  /** One sample after the debouncer. */
  datatype Item = Item(edge: Option<Edge>, now: nat)

  datatype Event = Event(gesture: Gesture, at: nat)

  /** saturating_sub */
  function Sub(a: int, b: int): int {
    if a < b then 0 else a - b
  }

  // ------------------------------------------------ first machine: the debouncer

  datatype Debouncer = Debouncer(initialized: bool, raw: bool, rawSince: nat, stable: bool)

  const FRESH := Debouncer(false, false, 0, false)

  function RawSince(d: Debouncer, s: Sample): nat {
    if s.pressed != d.raw then s.now else d.rawSince
  }

  function EdgeOf(d: Debouncer, s: Sample): Option<Edge> {
    if d.initialized && s.pressed != d.stable && Sub(s.now, RawSince(d, s)) >= DEBOUNCE_MS
    then Some(if s.pressed then Down else Up)
    else None
  }

  function Debounced(d: Debouncer, s: Sample): Debouncer {
    if !d.initialized then Debouncer(true, s.pressed, s.now, s.pressed)
    else Debouncer(true, s.pressed, RawSince(d, s), if EdgeOf(d, s).Some? then s.pressed else d.stable)
  }

  /** The debouncer after the first i samples. */
  function After(samples: seq<Sample>, i: nat): Debouncer
    requires i <= |samples|
  {
    if i == 0 then FRESH else Debounced(After(samples, i - 1), samples[i - 1])
  }

  function EdgeAt(samples: seq<Sample>, i: nat): Option<Edge>
    requires i < |samples|
  {
    EdgeOf(After(samples, i), samples[i])
  }

  function Items(samples: seq<Sample>): (items: seq<Item>)
    ensures |items| == |samples|
  {
    seq(|samples|, i requires 0 <= i < |samples| => Item(EdgeAt(samples, i), samples[i].now))
  }

  /** Reference: where the unbroken run of equal levels that contains sample i begins. */
  function RunStart(samples: seq<Sample>, i: nat): (k: nat)
    requires i < |samples|
    ensures k <= i && forall j :: k <= j <= i ==> samples[j].pressed == samples[i].pressed
    ensures k > 0 ==> samples[k - 1].pressed != samples[i].pressed
  {
    if i == 0 || samples[i - 1].pressed != samples[i].pressed then i else RunStart(samples, i - 1)
  }

  predicate LongEnough(samples: seq<Sample>, i: nat)
    requires i < |samples|
  {
    Sub(samples[i].now, samples[RunStart(samples, i)].now) >= DEBOUNCE_MS
  }

  /** Reference: the accepted level after sample i is that sample's level once it has been held long
      enough, else what it was. */
  function Level(samples: seq<Sample>, i: nat): bool
    requires i < |samples|
  {
    if i == 0 || LongEnough(samples, i) then samples[i].pressed else Level(samples, i - 1)
  }

  lemma {:induction false} DebouncerFollowsRuns(samples: seq<Sample>, i: nat)
    requires i < |samples|
    ensures After(samples, i + 1)
         == Debouncer(true, samples[i].pressed, samples[RunStart(samples, i)].now, Level(samples, i))
  {
    if i > 0 {
      DebouncerFollowsRuns(samples, i - 1);
    }
  }

  /** An edge is accepted exactly where the reference level changes, and it is that change. */
  lemma EdgesAreLevelChanges(samples: seq<Sample>, i: nat)
    requires i < |samples|
    ensures EdgeAt(samples, i)
         == if i > 0 && Level(samples, i) != Level(samples, i - 1)
            then Some(if Level(samples, i) then Down else Up) else None
  {
    if i > 0 {
      DebouncerFollowsRuns(samples, i - 1);
      DebouncerFollowsRuns(samples, i);
    }
  }

  ghost predicate ClockRuns(samples: seq<Sample>) {
    forall i, j :: 0 <= i <= j < |samples| ==> samples[i].now <= samples[j].now
  }

  /** No edge between samples i and j (exclusive): the level stays. */
  lemma {:induction false} LevelStays(samples: seq<Sample>, i: nat, j: nat)
    requires i < j < |samples|
    requires forall k :: i < k < j ==> EdgeAt(samples, k) == None
    ensures Level(samples, j - 1) == Level(samples, i)
    decreases j
  {
    if i < j - 1 {
      EdgesAreLevelChanges(samples, j - 1);
      LevelStays(samples, i, j - 1);
    }
  }

  /** Accepted edges are backed by an unbroken level of at least 40 ms ending at that sample. */
  lemma EdgeIsBacked(samples: seq<Sample>, i: nat) returns (k: nat)
    requires i < |samples| && EdgeAt(samples, i).Some?
    ensures k <= i && samples[i].now - samples[k].now >= DEBOUNCE_MS
    ensures forall j :: k <= j <= i ==> samples[j].pressed == EdgeAt(samples, i).value.Down?
  {
    EdgesAreLevelChanges(samples, i);
    k := RunStart(samples, i);
  }

  /** Two accepted edges with none between are of opposite kind and at least 40 ms apart. */
  lemma EdgesAlternateAndAreApart(samples: seq<Sample>, i: nat, j: nat)
    requires ClockRuns(samples) && i < j < |samples|
    requires EdgeAt(samples, i).Some? && EdgeAt(samples, j).Some?
    requires forall k :: i < k < j ==> EdgeAt(samples, k) == None
    ensures EdgeAt(samples, i) != EdgeAt(samples, j)
    ensures samples[j].now - samples[i].now >= DEBOUNCE_MS
  {
    EdgesAreLevelChanges(samples, i);
    EdgesAreLevelChanges(samples, j);
    LevelStays(samples, i, j);
    var k := RunStart(samples, j);
    assert samples[i].pressed != samples[j].pressed;
    assert k > i;
  }

  // ------------------------------------------------ second machine: the gesture phases

  function Duration(ms: int): int {
    Min(ms, HOLD_DURATION_MAX_MS)
  }

  /** What a sample means in a phase, before the rate limit. */
  function Recognised(p: Phase, x: Item): Option<Gesture> {
    match (p, x.edge)
    case (WaitSecond(r), Some(Up)) => None
    case (WaitSecond(r), e) =>
      if Sub(x.now, r) >= DOUBLETAP_WINDOW_MS then Some(Tap)
      else if e == Some(Down) then Some(DoubleTap) else None
    case (FirstDown(s), Some(Up)) => if Sub(x.now, s) >= HOLD_MS then Some(Hold(Duration(Sub(x.now, s)))) else None
    case _ => None
  }

  function NextPhase(p: Phase, x: Item): Phase {
    match (p, x.edge)
    case (Idle, Some(Down)) => FirstDown(x.now)
    case (FirstDown(s), Some(Up)) => if Sub(x.now, s) >= HOLD_MS then Idle else WaitSecond(x.now)
    case (WaitSecond(r), Some(Down)) => if Sub(x.now, r) < DOUBLETAP_WINDOW_MS then DrainRelease else FirstDown(x.now)
    case (WaitSecond(r), None) => if Sub(x.now, r) >= DOUBLETAP_WINDOW_MS then Idle else p
    case (DrainRelease, Some(Up)) => Idle
    case _ => p
  }

  function EventOf(p: Phase, x: Item): seq<Event> {
    match Recognised(p, x)
    case Some(g) => [Event(g, x.now)]
    case None => []
  }

  function Run(p: Phase, items: seq<Item>): seq<Event>
    decreases |items|
  {
    if items == [] then [] else EventOf(p, items[0]) + Run(NextPhase(p, items[0]), items[1..])
  }

  function PhaseAfter(p: Phase, items: seq<Item>): Phase
    decreases |items|
  {
    if items == [] then p else PhaseAfter(NextPhase(p, items[0]), items[1..])
  }

  /** Reference: the gestures of a stream of edges, read as a text. A press runs from an accepted down
      edge to the next up edge. */
  function Gestures(items: seq<Item>): seq<Event>
    decreases |items|
  {
    match From(items, Find(items, Down))
    case None => []
    case Some((down, rest)) => AfterDown(down.now, rest)
  }

  /** A long press is a hold; a short one waits. */
  function AfterDown(start: nat, items: seq<Item>): seq<Event>
    decreases |items|
  {
    match From(items, Find(items, Up))
    case None => []
    case Some((up, rest)) =>
      if Sub(up.now, start) >= HOLD_MS
      then [Event(Hold(Duration(Sub(up.now, start))), up.now)] + Gestures(rest)
      else AfterShort(up.now, rest)
  }

  /** After a short press: a press that starts within the window completes a double tap and is used
      up with it; once the window is over the press was a tap, and whatever ended the waiting is
      read afresh. */
  function AfterShort(released: nat, items: seq<Item>): seq<Event>
    decreases |items|
  {
    match From(items, FindEnd(released, items))
    case None => []
    case Some((end, rest)) =>
      if Sub(end.now, released) < DOUBLETAP_WINDOW_MS then [Event(DoubleTap, end.now)] + AfterDouble(rest)
      else [Event(Tap, end.now)] + (if end.edge == Some(Down) then AfterDown(end.now, rest) else Gestures(rest))
  }

  function AfterDouble(items: seq<Item>): seq<Event>
    decreases |items|
  {
    match From(items, Find(items, Up))
    case None => []
    case Some((up, rest)) => Gestures(rest)
  }

  /** Item i and what follows it, if there is an item i. */
  function From(items: seq<Item>, i: nat): (r: Option<(Item, seq<Item>)>)
    ensures r.Some? ==> |r.value.1| < |items|
  {
    if i < |items| then Some((items[i], items[i + 1..])) else None
  }

  /** The first item with edge `e`, or the end. */
  function Find(items: seq<Item>, e: Edge): (i: nat)
    ensures i <= |items| && (i < |items| ==> items[i].edge == Some(e))
    ensures forall j :: 0 <= j < i ==> items[j].edge != Some(e)
    decreases |items|
  {
    if items == [] || items[0].edge == Some(e) then 0 else 1 + Find(items[1..], e)
  }

  /** The first item that is a down edge, or comes when the window is over without being an up edge. */
  function FindEnd(released: nat, items: seq<Item>): (i: nat)
    ensures i <= |items| && (i < |items| ==> EndsWait(released, items[i]))
    ensures forall j :: 0 <= j < i ==> !EndsWait(released, items[j])
    decreases |items|
  {
    if items == [] || EndsWait(released, items[0]) then 0 else 1 + FindEnd(released, items[1..])
  }

  predicate EndsWait(released: nat, x: Item) {
    x.edge == Some(Down) || (x.edge == None && Sub(x.now, released) >= DOUBLETAP_WINDOW_MS)
  }

  function Reading(p: Phase, items: seq<Item>): seq<Event> {
    match p
    case Idle => Gestures(items)
    case FirstDown(s) => AfterDown(s, items)
    case WaitSecond(r) => AfterShort(r, items)
    case DrainRelease => AfterDouble(items)
  }

  lemma FromSkip(items: seq<Item>, i: nat)
    requires items != []
    ensures From(items, i + 1) == From(items[1..], i)
  {
  }

  /** An item that is not the one looked for does not matter. */
  lemma FindSkip(items: seq<Item>, e: Edge)
    requires items != [] && items[0].edge != Some(e)
    ensures From(items, Find(items, e)) == From(items[1..], Find(items[1..], e))
  {
    FromSkip(items, Find(items[1..], e));
  }

  lemma FindEndSkip(released: nat, items: seq<Item>)
    requires items != [] && !EndsWait(released, items[0])
    ensures From(items, FindEnd(released, items)) == From(items[1..], FindEnd(released, items[1..]))
  {
    FromSkip(items, FindEnd(released, items[1..]));
  }

  ghost predicate Steps(p: Phase, items: seq<Item>)
    requires items != []
  {
    Reading(p, items) == EventOf(p, items[0]) + Reading(NextPhase(p, items[0]), items[1..])
  }

  lemma IdleStep(items: seq<Item>)
    requires items != []
    ensures Steps(Idle, items)
  {
    if items[0].edge != Some(Down) {
      FindSkip(items, Down);
    }
  }

  lemma DownStep(start: nat, items: seq<Item>)
    requires items != []
    ensures Steps(FirstDown(start), items)
  {
    if items[0].edge == Some(Up) {
      DownEnds(start, items);
    } else {
      FindSkip(items, Up);
    }
  }

  lemma DownEnds(start: nat, items: seq<Item>)
    requires items != [] && items[0].edge == Some(Up)
    ensures Steps(FirstDown(start), items)
  {
    assert Find(items, Up) == 0;
  }

  lemma WaitStep(released: nat, items: seq<Item>)
    requires items != []
    ensures Steps(WaitSecond(released), items)
  {
    if !EndsWait(released, items[0]) {
      FindEndSkip(released, items);
    }
  }

  lemma DrainStep(items: seq<Item>)
    requires items != []
    ensures Steps(DrainRelease, items)
  {
    if items[0].edge != Some(Up) {
      FindSkip(items, Up);
    }
  }

  lemma ReadingStep(p: Phase, items: seq<Item>)
    requires items != []
    ensures Steps(p, items)
  {
    match p
    case Idle => IdleStep(items);
    case FirstDown(s) => DownStep(s, items);
    case WaitSecond(r) => WaitStep(r, items);
    case DrainRelease => DrainStep(items);
  }

  /** The phase machine reads the stream as the reference does, whatever the stream. */
  lemma {:induction false} PhasesReadGestures(p: Phase, items: seq<Item>)
    ensures Run(p, items) == Reading(p, items)
    decreases |items|
  {
    if items != [] {
      ReadingStep(p, items);
      PhasesReadGestures(NextPhase(p, items[0]), items[1..]);
    }
  }

  // ------------------------------------------------ third machine: the rate limit

  datatype Limiter = Limiter(last: nat, valid: bool)

  const OPEN := Limiter(0, false)

  function Passes(l: Limiter, e: Event): bool {
    e.gesture.Hold? || !(l.valid && Sub(e.at, l.last) < MIN_EVENT_GAP_MS)
  }

  function Limited(l: Limiter, e: Event): Limiter {
    if Passes(l, e) then Limiter(e.at, true) else l
  }

  /** Which of the recognised gestures are delivered. */
  function Flags(l: Limiter, events: seq<Event>): (flags: seq<bool>)
    ensures |flags| == |events|
    decreases |events|
  {
    if events == [] then [] else [Passes(l, events[0])] + Flags(Limited(l, events[0]), events[1..])
  }

  function Delivered(l: Limiter, events: seq<Event>): seq<Event>
    decreases |events|
  {
    if events == [] then []
    else (if Passes(l, events[0]) then [events[0]] else []) + Delivered(Limited(l, events[0]), events[1..])
  }

  ghost predicate InTime(events: seq<Event>) {
    forall i, j :: 0 <= i <= j < |events| ==> events[i].at <= events[j].at
  }

  /** Far enough from every delivered gesture before it. */
  ghost predicate Clear(events: seq<Event>, flags: seq<bool>, i: int)
    requires |flags| == |events| && 0 <= i < |events|
  {
    forall j :: 0 <= j < i && flags[j] ==> events[i].at - events[j].at >= MIN_EVENT_GAP_MS
  }

  ghost predicate ClearOf(l: Limiter, events: seq<Event>, i: int)
    requires 0 <= i < |events|
  {
    l.valid ==> events[i].at - l.last >= MIN_EVENT_GAP_MS
  }

  /** The rate limit without state: a gesture is delivered exactly when it is a hold or comes at least
      250 ms after every gesture delivered before it. */
  lemma {:induction false} RateLimitMeaning(l: Limiter, events: seq<Event>, i: int)
    requires InTime(events) && 0 <= i < |events|
    requires l.valid ==> l.last <= events[0].at
    ensures Flags(l, events)[i]
       <==> events[i].gesture.Hold? || (Clear(events, Flags(l, events), i) && ClearOf(l, events, i))
    decreases |events|
  {
    var rest, l' := events[1..], Limited(l, events[0]);
    var flags, flags' := Flags(l, events), Flags(l', rest);
    if i > 0 {
      assert InTime(rest);
      RateLimitMeaning(l', rest, i - 1);
      FlagsMove(l, events);
      ClearSplit(events, flags, rest, flags', i);
    }
  }

  lemma FlagsMove(l: Limiter, events: seq<Event>)
    requires events != []
    ensures var rest, flags' := events[1..], Flags(Limited(l, events[0]), events[1..]);
            && Flags(l, events)[0] == Passes(l, events[0])
            && forall j :: 0 <= j < |rest| ==> rest[j] == events[j + 1] && flags'[j] == Flags(l, events)[j + 1]
  {
  }

  lemma ClearSplit(events: seq<Event>, flags: seq<bool>, rest: seq<Event>, flags': seq<bool>, i: int)
    requires |flags| == |events| == |rest| + 1 == |flags'| + 1 && 0 < i < |events|
    requires forall j :: 0 <= j < |rest| ==> rest[j] == events[j + 1] && flags'[j] == flags[j + 1]
    ensures Clear(events, flags, i)
       <==> Clear(rest, flags', i - 1) && (flags[0] ==> events[i].at - events[0].at >= MIN_EVENT_GAP_MS)
  {
    if Clear(rest, flags', i - 1) && (flags[0] ==> events[i].at - events[0].at >= MIN_EVENT_GAP_MS) {
      forall j | 0 <= j < i && flags[j]
        ensures events[i].at - events[j].at >= MIN_EVENT_GAP_MS
      {
        if j > 0 {
          assert flags'[j - 1];
        }
      }
    }
    if Clear(events, flags, i) {
      forall j | 0 <= j < i - 1 && flags'[j]
        ensures rest[i - 1].at - rest[j].at >= MIN_EVENT_GAP_MS
      {
        assert flags[j + 1];
      }
    }
  }

  // ------------------------------------------------ taps are never suppressed

  ghost predicate ItemsInTime(items: seq<Item>, last: int) {
    && (forall i :: 0 <= i < |items| ==> last <= items[i].now)
    && (forall i, j :: 0 <= i <= j < |items| ==> items[i].now <= items[j].now)
  }

  /** Each tap comes at least a whole window after the event before it. */
  predicate TapsAreQuiet(last: int, events: seq<Event>)
    decreases |events|
  {
    events != [] ==>
      && last <= events[0].at
      && (events[0].gesture.Tap? ==> events[0].at - last >= DOUBLETAP_WINDOW_MS)
      && TapsAreQuiet(events[0].at, events[1..])
  }

  /** While a tap is pending, the event before it is no later than the release. */
  predicate Quiet(p: Phase, last: int) {
    p.WaitSecond? ==> last <= p.released
  }

  lemma {:induction false} RunIsQuiet(p: Phase, items: seq<Item>, last: int)
    requires ItemsInTime(items, last) && Quiet(p, last)
    ensures TapsAreQuiet(last, Run(p, items))
    decreases |items|
  {
    if items != [] {
      var e, rest := EventOf(p, items[0]), items[1..];
      var tail := Run(NextPhase(p, items[0]), rest);
      var last' := if e == [] then last else items[0].now;
      assert ItemsInTime(rest, last');
      RunIsQuiet(NextPhase(p, items[0]), rest, last');
      assert e + tail == Run(p, items);
      assert if e == [] then e + tail == tail else (e + tail)[1..] == tail;
    }
  }

  lemma {:induction false} QuietTapsPass(l: Limiter, events: seq<Event>, last: int, i: int)
    requires TapsAreQuiet(last, events) && (l.valid ==> l.last <= last)
    requires 0 <= i < |events| && events[i].gesture.Tap?
    ensures Flags(l, events)[i]
    decreases |events|
  {
    if i > 0 {
      QuietTapsPass(Limited(l, events[0]), events[1..], events[0].at, i - 1);
    }
  }

  // ------------------------------------------------ whole runs

  /** The gestures recognised in a run, delivered or not. */
  function Recognition(samples: seq<Sample>): seq<Event> {
    Run(Idle, Items(samples))
  }

  lemma ItemsKeepTime(samples: seq<Sample>)
    requires ClockRuns(samples)
    ensures ItemsInTime(Items(samples), 0)
  {
  }

  /** What is recognised is the reading of the accepted edges. */
  lemma RecognitionIsReading(samples: seq<Sample>)
    ensures Recognition(samples) == Gestures(Items(samples))
  {
    PhasesReadGestures(Idle, Items(samples));
  }

  /** In no run is a tap or a hold lost to the rate limit. */
  lemma OnlyDoubleTapsAreSuppressed(samples: seq<Sample>, i: int)
    requires ClockRuns(samples) && 0 <= i < |Recognition(samples)|
    requires !Flags(OPEN, Recognition(samples))[i]
    ensures Recognition(samples)[i].gesture == DoubleTap
  {
    var events := Recognition(samples);
    ItemsFirst(samples);
    if events[i].gesture.Tap? {
      TapPasses(samples, i);
    } else if events[i].gesture.Hold? {
      HoldPasses(OPEN, events, i);
    }
  }

  lemma ItemsFirst(samples: seq<Sample>)
    requires ClockRuns(samples)
    ensures TapsAreQuiet(0, Recognition(samples))
  {
    ItemsKeepTime(samples);
    RunIsQuiet(Idle, Items(samples), 0);
  }

  lemma TapPasses(samples: seq<Sample>, i: int)
    requires ClockRuns(samples) && 0 <= i < |Recognition(samples)|
    requires Recognition(samples)[i].gesture.Tap?
    ensures Flags(OPEN, Recognition(samples))[i]
  {
    ItemsFirst(samples);
    QuietTapsPass(OPEN, Recognition(samples), 0, i);
  }

  lemma {:induction false} HoldPasses(l: Limiter, events: seq<Event>, i: int)
    requires 0 <= i < |events| && events[i].gesture.Hold?
    ensures Flags(l, events)[i]
    decreases |events|
  {
    if i > 0 {
      HoldPasses(Limited(l, events[0]), events[1..], i - 1);
    }
  }

  lemma {:induction false} QuietIsInTime(last: int, events: seq<Event>)
    requires TapsAreQuiet(last, events)
    ensures InTime(events) && forall i :: 0 <= i < |events| ==> last <= events[i].at
    decreases |events|
  {
    if events != [] {
      QuietIsInTime(events[0].at, events[1..]);
      forall i, j | 0 <= i <= j < |events|
        ensures events[i].at <= events[j].at
      {
        if i > 0 {
          assert events[1..][i - 1].at <= events[1..][j - 1].at;
        } else if j > 0 {
          assert events[0].at <= events[1..][j - 1].at;
        }
      }
    }
  }

  /** The exact fate of every recognised gesture of a run. */
  lemma SuppressedExactlyWhenTooSoon(samples: seq<Sample>, i: int)
    requires ClockRuns(samples) && 0 <= i < |Recognition(samples)|
    ensures var events := Recognition(samples);
            Flags(OPEN, events)[i] <==> !events[i].gesture.DoubleTap? || Clear(events, Flags(OPEN, events), i)
  {
    var events := Recognition(samples);
    ItemsFirst(samples);
    QuietIsInTime(0, events);
    RateLimitMeaning(OPEN, events, i);
    if events[i].gesture.Tap? {
      TapPasses(samples, i);
    }
  }

  /** Taps and double taps are handed out at least 250 ms after anything handed out before them. */
  lemma DeliveriesAreSpaced(samples: seq<Sample>, i: int)
    requires ClockRuns(samples) && 0 <= i < |Recognition(samples)|
    requires Flags(OPEN, Recognition(samples))[i] && !Recognition(samples)[i].gesture.Hold?
    ensures Clear(Recognition(samples), Flags(OPEN, Recognition(samples)), i)
  {
    ItemsFirst(samples);
    QuietIsInTime(0, Recognition(samples));
    RateLimitMeaning(OPEN, Recognition(samples), i);
  }

  /** The flagged entries of a list. */
  function Kept(events: seq<Event>, flags: seq<bool>): seq<Event>
    requires |flags| == |events|
    decreases |events|
  {
    if events == [] then [] else (if flags[0] then [events[0]] else []) + Kept(events[1..], flags[1..])
  }

  lemma {:induction false} DeliveredAreTheFlagged(l: Limiter, events: seq<Event>)
    ensures Delivered(l, events) == Kept(events, Flags(l, events))
    decreases |events|
  {
    if events != [] {
      DeliveredAreTheFlagged(Limited(l, events[0]), events[1..]);
    }
  }

  // ------------------------------------------------ a run in which a double tap is lost

  /** The events of a run read forward from a state of the debouncer and the phases. */
  function Events(d: Debouncer, p: Phase, samples: seq<Sample>): seq<Event>
    decreases |samples|
  {
    if samples == [] then []
    else
      var x := Item(EdgeOf(d, samples[0]), samples[0].now);
      EventOf(p, x) + Events(Debounced(d, samples[0]), NextPhase(p, x), samples[1..])
  }

  lemma {:induction false} EventsFromPrefix(samples: seq<Sample>, i: nat)
    requires i <= |samples|
    ensures Run(PhaseAfter(Idle, Items(samples)[..i]), Items(samples)[i..])
         == Events(After(samples, i), PhaseAfter(Idle, Items(samples)[..i]), samples[i..])
    decreases |samples| - i
  {
    if i < |samples| {
      var p, x := PhaseAfter(Idle, Items(samples)[..i]), Items(samples)[i];
      EventsFromPrefix(samples, i + 1);
      OneLonger(Items(samples), i);
      RunAppend(Idle, Items(samples)[..i], x);
      assert Items(samples)[i..][1..] == Items(samples)[i + 1..] && samples[i..][1..] == samples[i + 1..];
    }
  }

  /** A run's recognition is its events read forward from the fresh object. */
  lemma RecognitionIsEvents(samples: seq<Sample>)
    ensures Recognition(samples) == Events(FRESH, Idle, samples)
  {
    EventsFromPrefix(samples, 0);
    assert Items(samples)[..0] == [] && Items(samples)[0..] == Items(samples) && samples[0..] == samples;
  }

  lemma OneMoreEvent(d: Debouncer, p: Phase, s: Sample, rest: seq<Sample>)
    ensures var x := Item(EdgeOf(d, s), s.now);
            Events(d, p, [s] + rest) == EventOf(p, x) + Events(Debounced(d, s), NextPhase(p, x), rest)
  {
    assert ([s] + rest)[1..] == rest;
  }

  /** A level that is held for 40 ms, seen in two samples. */
  function Contact(pressed: bool, at: nat, rest: seq<Sample>): seq<Sample> {
    [Sample(pressed, at)] + ([Sample(pressed, at + DEBOUNCE_MS)] + rest)
  }

  /** The debouncer once a level that began at `since` is accepted. */
  function Held(pressed: bool, since: nat): Debouncer {
    Debouncer(true, pressed, since, pressed)
  }

  function EdgeItem(pressed: bool, at: nat): Item {
    Item(Some(if pressed then Down else Up), at + DEBOUNCE_MS)
  }

  /** Such a level, after the opposite one, is one edge, accepted at its second sample. */
  lemma ContactIsEdge(pressed: bool, since: nat, p: Phase, at: nat, rest: seq<Sample>)
    requires p.FirstDown? || p.Idle? || p.DrainRelease? || (p.WaitSecond? && at < p.released + DOUBLETAP_WINDOW_MS)
    ensures Events(Held(!pressed, since), p, Contact(pressed, at, rest))
         == EventOf(p, EdgeItem(pressed, at)) + Events(Held(pressed, at), NextPhase(p, EdgeItem(pressed, at)), rest)
  {
    var d := Held(!pressed, since);
    var s, t := Sample(pressed, at), Sample(pressed, at + DEBOUNCE_MS);
    OneMoreEvent(d, p, s, [t] + rest);
    OneMoreEvent(Debounced(d, s), p, t, rest);
    assert Debounced(d, s) == Debouncer(true, pressed, at, !pressed);
    assert EventOf(p, Item(None, at)) == [] && NextPhase(p, Item(None, at)) == p;
  }

  /** A hold, and two quick taps right after it. */
  function HoldThenTaps(): seq<Sample> {
    [Sample(false, 0)]
    + Contact(true, 10, Contact(false, 760, Contact(true, 805, Contact(false, 850, Contact(true, 895, [])))))
  }

  lemma HoldIsSeen(rest: seq<Sample>)
    ensures Events(Held(false, 0), Idle, Contact(true, 10, Contact(false, 760, rest)))
         == [Event(Hold(750), 800)] + Events(Held(false, 760), Idle, rest)
  {
    ContactIsEdge(true, 0, Idle, 10, Contact(false, 760, rest));
    ContactIsEdge(false, 10, FirstDown(50), 760, rest);
  }

  lemma TapIsPending(rest: seq<Sample>)
    ensures Events(Held(false, 760), Idle, Contact(true, 805, Contact(false, 850, rest)))
         == Events(Held(false, 850), WaitSecond(890), rest)
  {
    ContactIsEdge(true, 760, Idle, 805, Contact(false, 850, rest));
    ContactIsEdge(false, 805, FirstDown(845), 850, rest);
  }

  lemma DoubleTapIsSeen()
    ensures Events(Held(false, 850), WaitSecond(890), Contact(true, 895, [])) == [Event(DoubleTap, 935)]
  {
    ContactIsEdge(true, 850, WaitSecond(890), 895, []);
  }

  lemma HoldThenTapsEvents()
    ensures Recognition(HoldThenTaps()) == [Event(Hold(750), 800), Event(DoubleTap, 935)]
  {
    var taps := Contact(true, 805, Contact(false, 850, Contact(true, 895, [])));
    RecognitionIsEvents(HoldThenTaps());
    OneMoreEvent(FRESH, Idle, Sample(false, 0), Contact(true, 10, Contact(false, 760, taps)));
    HoldIsSeen(taps);
    TapIsPending(Contact(true, 895, []));
    DoubleTapIsSeen();
  }

  lemma SecondIsSuppressed(a: Event, b: Event)
    requires a.gesture.Hold? && b.gesture.DoubleTap? && a.at <= b.at < a.at + MIN_EVENT_GAP_MS
    ensures Flags(OPEN, [a, b]) == [true, false]
  {
    assert [a, b][1..] == [b] && [b][1..] == [];
  }

  /** The clock runs, from `first` on. */
  ghost predicate RunsFrom(samples: seq<Sample>, first: int) {
    ClockRuns(samples) && forall i :: 0 <= i < |samples| ==> first <= samples[i].now
  }

  lemma OneMoreClock(s: Sample, rest: seq<Sample>, first: int)
    requires RunsFrom(rest, s.now) && first <= s.now
    ensures RunsFrom([s] + rest, first)
  {
  }

  lemma ContactClock(pressed: bool, at: nat, rest: seq<Sample>, first: int)
    requires RunsFrom(rest, at + DEBOUNCE_MS) && first <= at
    ensures RunsFrom(Contact(pressed, at, rest), first)
  {
    OneMoreClock(Sample(pressed, at + DEBOUNCE_MS), rest, at);
    OneMoreClock(Sample(pressed, at), [Sample(pressed, at + DEBOUNCE_MS)] + rest, first);
  }

  lemma HoldThenTapsClock()
    ensures ClockRuns(HoldThenTaps())
  {
    var five := Contact(true, 895, []);
    var four := Contact(false, 850, five);
    var three := Contact(true, 805, four);
    var two := Contact(false, 760, three);
    ContactClock(true, 895, [], 890);
    ContactClock(false, 850, five, 845);
    ContactClock(true, 805, four, 800);
    ContactClock(false, 760, three, 50);
    ContactClock(true, 10, two, 0);
    OneMoreClock(Sample(false, 0), Contact(true, 10, two), 0);
  }

  /** A double tap can be lost: in this run one completes 135 ms after a hold. */
  lemma DoubleTapCanBeSuppressed()
    ensures ClockRuns(HoldThenTaps())
    ensures Recognition(HoldThenTaps()) == [Event(Hold(750), 800), Event(DoubleTap, 935)]
    ensures Flags(OPEN, Recognition(HoldThenTaps())) == [true, false]
  {
    HoldThenTapsClock();
    HoldThenTapsEvents();
    SecondIsSuppressed(Event(Hold(750), 800), Event(DoubleTap, 935));
  }

  // ------------------------------------------------ accounting

  function Weight(g: Gesture): int {
    if g.DoubleTap? then 2 else 1
  }

  function Presses(events: seq<Event>): int
    decreases |events|
  {
    if events == [] then 0 else Weight(events[0].gesture) + Presses(events[1..])
  }

  function Downs(items: seq<Item>): int
    decreases |items|
  {
    if items == [] then 0 else (if items[0].edge == Some(Down) then 1 else 0) + Downs(items[1..])
  }

  /** Presses a phase has seen and not yet accounted for. */
  function Unsettled(p: Phase): int {
    if p.FirstDown? || p.WaitSecond? then 1 else 0
  }

  /** Edges alternate, the next one being a down edge iff `released`. */
  predicate Alternate(items: seq<Item>, released: bool)
    decreases |items|
  {
    items != [] ==>
      && (items[0].edge == Some(Down) ==> released)
      && (items[0].edge == Some(Up) ==> !released)
      && Alternate(items[1..], if items[0].edge == None then released else items[0].edge.value.Up?)
  }

  /** A phase that is inside a press is waiting for its up edge. */
  predicate Expects(p: Phase, released: bool) {
    p.FirstDown? || p.DrainRelease? ==> !released
  }

  lemma {:induction false} PressesAreAccountedFor(p: Phase, items: seq<Item>, released: bool)
    requires Alternate(items, released) && Expects(p, released)
    ensures Unsettled(p) + Downs(items) == Presses(Run(p, items)) + Unsettled(PhaseAfter(p, items))
    decreases |items|
  {
    if items != [] {
      var x := items[0];
      PressesAreAccountedFor(NextPhase(p, x), items[1..], if x.edge == None then released else x.edge.value.Up?);
      PressesOfOne(EventOf(p, x), Run(NextPhase(p, x), items[1..]));
    }
  }

  lemma PressesOfOne(events: seq<Event>, tail: seq<Event>)
    requires |events| <= 1
    ensures Presses(events + tail) == (if events == [] then 0 else Weight(events[0].gesture)) + Presses(tail)
  {
    assert if events == [] then events + tail == tail else (events + tail)[1..] == tail;
  }

  lemma {:induction false} ItemsAlternate(samples: seq<Sample>, i: nat)
    requires i < |samples|
    ensures Alternate(Items(samples)[i + 1..], !Level(samples, i))
    decreases |samples| - i
  {
    if i + 1 < |samples| {
      ItemsAlternate(samples, i + 1);
      EdgesAreLevelChanges(samples, i + 1);
      assert Items(samples)[i + 1..][1..] == Items(samples)[i + 2..];
      assert Items(samples)[i + 1..][0] == Item(EdgeAt(samples, i + 1), samples[i + 1].now);
    }
  }

  lemma RunAlternates(samples: seq<Sample>)
    requires samples != []
    ensures Alternate(Items(samples), !samples[0].pressed)
  {
    ItemsAlternate(samples, 0);
    EdgesAreLevelChanges(samples, 0);
  }

  /** In every run, accepted down edges = holds + taps + twice the double taps, delivered or not, plus
      the one press that is still open or may become a double tap. */
  lemma PressAccounting(samples: seq<Sample>)
    ensures Downs(Items(samples)) == Presses(Recognition(samples)) + Unsettled(PhaseAfter(Idle, Items(samples)))
  {
    if samples != [] {
      RunAlternates(samples);
      PressesAreAccountedFor(Idle, Items(samples), !samples[0].pressed);
    }
  }

  // ------------------------------------------------ branches that do not happen

  /** The phase sees an edge it has a use for. */
  predicate Expected(p: Phase, x: Item) {
    match x.edge
    case None => true
    case Some(Down) => p.Idle? || p.WaitSecond?
    case Some(Up) => p.FirstDown? || p.DrainRelease?
  }

  /** Outside a press the pad counts as released. */
  predicate InStep(p: Phase, released: bool) {
    released <==> p.Idle? || p.WaitSecond?
  }

  lemma {:induction false} EdgesAreExpected(p: Phase, items: seq<Item>, released: bool, i: nat)
    requires Alternate(items, released) && InStep(p, released) && i < |items|
    ensures Expected(PhaseAfter(p, items[..i]), items[i])
    decreases |items|
  {
    if i > 0 {
      var x := items[0];
      EdgesAreExpected(NextPhase(p, x), items[1..], if x.edge == None then released else x.edge.value.Up?, i - 1);
      assert items[..i][0] == x && items[..i][1..] == items[1..][..i - 1];
    }
  }

  /** Starting with the pad in contact: nothing happens until the one release, which is ignored. */
  lemma {:induction false} BootContact(items: seq<Item>, i: nat)
    requires Alternate(items, false) && i < |items|
    ensures Expected(PhaseAfter(Idle, items[..i]), items[i])
         || (i == Find(items, Up) && PhaseAfter(Idle, items[..i]) == Idle)
    decreases |items|
  {
    if i > 0 {
      assert items[..i][0] == items[0] && items[..i][1..] == items[1..][..i - 1];
      if items[0].edge == None {
        BootContact(items[1..], i - 1);
      } else {
        EdgesAreExpected(Idle, items[1..], true, i - 1);
      }
    }
  }

  /** In every run each accepted edge finds a phase that handles it, except the first release when the
      pad was in contact at the first sample. */
  lemma UnexpectedOnlyAfterBoot(samples: seq<Sample>, i: nat)
    requires i < |samples|
    ensures Expected(PhaseAfter(Idle, Items(samples)[..i]), Items(samples)[i])
         || (samples[0].pressed && i == Find(Items(samples), Up))
  {
    RunAlternates(samples);
    if samples[0].pressed {
      BootContact(Items(samples), i);
    } else {
      EdgesAreExpected(Idle, Items(samples), true, i);
    }
  }

  // ------------------------------------------------ the object

  /** The phase machine and the rate limit, in p and l, have taken item x, handed out `out` and are now
      in p' and l'. */
  predicate Took(p: Phase, l: Limiter, x: Item, out: Option<Gesture>, p': Phase, l': Limiter) {
    && p' == NextPhase(p, x)
    && match Recognised(p, x) {
         case None => out == None && l' == l
         case Some(g) =>
           && out == (if Passes(l, Event(g, x.now)) then Some(g) else None)
           && l' == Limited(l, Event(g, x.now))
       }
  }

  class TouchClassifier {
    var initialized: bool
    var rawLevel: bool
    var rawSinceMs: nat
    var stableLevel: bool
    var phase: Phase
    var lastEmitMs: nat
    var lastEmitValid: bool

    function Debouncing(): Debouncer
      reads this
    {
      Debouncer(initialized, rawLevel, rawSinceMs, stableLevel)
    }

    function Limiting(): Limiter
      reads this
    {
      Limiter(lastEmitMs, lastEmitValid)
    }

    constructor ()
      ensures Debouncing() == FRESH && phase == Idle && Limiting() == OPEN
    {
      initialized, rawLevel, rawSinceMs, stableLevel := false, false, 0, false;
      phase := Idle;
      lastEmitMs, lastEmitValid := 0, false;
    }

    method Debounce(pressed: bool, now: nat) returns (edge: Option<Edge>)
      modifies this`initialized, this`rawLevel, this`rawSinceMs, this`stableLevel
      ensures edge == EdgeOf(old(Debouncing()), Sample(pressed, now))
      ensures Debouncing() == Debounced(old(Debouncing()), Sample(pressed, now))
    {
      if !initialized {
        initialized := true;
        rawLevel := pressed;
        stableLevel := pressed;
        rawSinceMs := now;
        return None;
      }
      if pressed != rawLevel {
        rawLevel := pressed;
        rawSinceMs := now;
      }
      if rawLevel != stableLevel && Sub(now, rawSinceMs) >= DEBOUNCE_MS {
        stableLevel := rawLevel;
        return Some(if stableLevel then Down else Up);
      }
      return None;
    }

    method EmitLimited(gesture: Gesture, now: nat) returns (emitted: Option<Gesture>)
      requires !gesture.Hold?
      modifies this`lastEmitMs, this`lastEmitValid
      ensures emitted == if Passes(old(Limiting()), Event(gesture, now)) then Some(gesture) else None
      ensures Limiting() == Limited(old(Limiting()), Event(gesture, now))
    {
      if lastEmitValid && Sub(now, lastEmitMs) < MIN_EVENT_GAP_MS {
        return None;
      }
      lastEmitMs := now;
      lastEmitValid := true;
      return Some(gesture);
    }

    method OnPress(now: nat) returns (out: Option<Gesture>)
      modifies this`phase, this`lastEmitMs, this`lastEmitValid
      ensures Took(old(phase), old(Limiting()), Item(Some(Down), now), out, phase, Limiting())
    {
      match phase {
        case Idle =>
          phase := FirstDown(now);
          return None;
        case WaitSecond(released) =>
          if Sub(now, released) < DOUBLETAP_WINDOW_MS {
            phase := DrainRelease;
            out := EmitLimited(DoubleTap, now);
          } else {
            out := EmitLimited(Tap, now);
            phase := FirstDown(now);
          }
        case _ =>
          return None;
      }
    }

    method OnRelease(now: nat) returns (out: Option<Gesture>)
      modifies this`phase, this`lastEmitMs, this`lastEmitValid
      ensures Took(old(phase), old(Limiting()), Item(Some(Up), now), out, phase, Limiting())
    {
      match phase {
        case FirstDown(start) =>
          var duration := Sub(now, start);
          if duration >= HOLD_MS {
            phase := Idle;
            lastEmitMs := now;
            lastEmitValid := true;
            return Some(Hold(ClampDuration(duration)));
          } else {
            phase := WaitSecond(now);
            return None;
          }
        case DrainRelease =>
          phase := Idle;
          return None;
        case _ =>
          return None;
      }
    }

    method OnTick(now: nat) returns (out: Option<Gesture>)
      modifies this`phase, this`lastEmitMs, this`lastEmitValid
      ensures Took(old(phase), old(Limiting()), Item(None, now), out, phase, Limiting())
    {
      if phase.WaitSecond? && Sub(now, phase.released) >= DOUBLETAP_WINDOW_MS {
        phase := Idle;
        out := EmitLimited(Tap, now);
        return;
      }
      return None;
    }

    method Update(pressed: bool, now: nat) returns (out: Option<Gesture>)
      modifies this
      ensures Debouncing() == Debounced(old(Debouncing()), Sample(pressed, now))
      ensures Took(old(phase), old(Limiting()), Item(EdgeOf(old(Debouncing()), Sample(pressed, now)), now),
                   out, phase, Limiting())
    {
      var edge := Debounce(pressed, now);
      match edge {
        case Some(Down) => out := OnPress(now);
        case Some(Up) => out := OnRelease(now);
        case None => out := OnTick(now);
      }
    }
  }

  function ClampDuration(duration: int): int {
    if duration > HOLD_DURATION_MAX_MS then HOLD_DURATION_MAX_MS else duration
  }

  function LimiterAfter(l: Limiter, events: seq<Event>): Limiter
    decreases |events|
  {
    if events == [] then l else LimiterAfter(Limited(l, events[0]), events[1..])
  }

  lemma {:induction false} RunAppend(p: Phase, items: seq<Item>, x: Item)
    ensures Run(p, items + [x]) == Run(p, items) + EventOf(PhaseAfter(p, items), x)
    ensures PhaseAfter(p, items + [x]) == NextPhase(PhaseAfter(p, items), x)
    decreases |items|
  {
    if items == [] {
      assert [x][1..] == [];
    } else {
      assert (items + [x])[1..] == items[1..] + [x];
      RunAppend(NextPhase(p, items[0]), items[1..], x);
    }
  }

  lemma {:induction false} DeliveredAppend(l: Limiter, events: seq<Event>, e: Event)
    ensures Delivered(l, events + [e])
         == Delivered(l, events) + (if Passes(LimiterAfter(l, events), e) then [e] else [])
    ensures LimiterAfter(l, events + [e]) == Limited(LimiterAfter(l, events), e)
    decreases |events|
  {
    if events == [] {
      assert [e][1..] == [];
    } else {
      assert (events + [e])[1..] == events[1..] + [e];
      DeliveredAppend(Limited(l, events[0]), events[1..], e);
    }
  }

  lemma {:induction false} AfterPrefix(samples: seq<Sample>, more: seq<Sample>, i: nat)
    requires i <= |samples|
    ensures After(samples + more, i) == After(samples, i)
  {
    if i > 0 {
      AfterPrefix(samples, more, i - 1);
    }
  }

  lemma ItemPrefix(samples: seq<Sample>, s: Sample, i: nat)
    requires i < |samples|
    ensures Items(samples + [s])[i] == Items(samples)[i]
  {
    AfterPrefix(samples, [s], i);
  }

  lemma LastOne(a: seq<Item>, b: seq<Item>, x: Item)
    requires |a| == |b| + 1 && a[|b|] == x && forall i :: 0 <= i < |b| ==> a[i] == b[i]
    ensures a == b + [x]
  {
  }

  lemma ItemsAppend(samples: seq<Sample>, s: Sample)
    ensures Items(samples + [s]) == Items(samples) + [Item(EdgeOf(After(samples, |samples|), s), s.now)]
  {
    forall i | 0 <= i < |samples|
      ensures Items(samples + [s])[i] == Items(samples)[i]
    {
      ItemPrefix(samples, s, i);
    }
    AfterPrefix(samples, [s], |samples|);
    LastOne(Items(samples + [s]), Items(samples), Item(EdgeOf(After(samples, |samples|), s), s.now));
  }

  /** The three machines after the samples, and what has been handed out. */
  predicate Ran(samples: seq<Sample>, d: Debouncer, p: Phase, l: Limiter, log: seq<Event>) {
    && d == After(samples, |samples|)
    && p == PhaseAfter(Idle, Items(samples))
    && l == LimiterAfter(OPEN, Recognition(samples))
    && log == Delivered(OPEN, Recognition(samples))
  }

  function Logged(out: Option<Gesture>, now: nat): seq<Event> {
    if out.Some? then [Event(out.value, now)] else []
  }

  lemma RanOneMore(samples: seq<Sample>, d: Debouncer, p: Phase, l: Limiter, log: seq<Event>,
                   s: Sample, out: Option<Gesture>, p': Phase, l': Limiter)
    requires Ran(samples, d, p, l, log)
    requires Took(p, l, Item(EdgeOf(d, s), s.now), out, p', l')
    ensures Ran(samples + [s], Debounced(d, s), p', l', log + Logged(out, s.now))
  {
    var x := Item(EdgeOf(d, s), s.now);
    ItemsAppend(samples, s);
    AfterPrefix(samples, [s], |samples|);
    RunAppend(Idle, Items(samples), x);
    LimitOneMore(Recognition(samples), p, l, x, out, l');
  }

  lemma LimitOneMore(events: seq<Event>, p: Phase, l: Limiter, x: Item, out: Option<Gesture>, l': Limiter)
    requires l == LimiterAfter(OPEN, events) && Took(p, l, x, out, NextPhase(p, x), l')
    ensures l' == LimiterAfter(OPEN, events + EventOf(p, x))
    ensures Delivered(OPEN, events + EventOf(p, x)) == Delivered(OPEN, events) + Logged(out, x.now)
  {
    if Recognised(p, x).Some? {
      DeliveredAppend(OPEN, events, Event(Recognised(p, x).value, x.now));
    } else {
      assert events + [] == events;
    }
  }

  /** The sampling loop of the touch task over a finite run: what the object hands out is what the
      rate limit leaves of the reading of the accepted edges. */
  method Classify(samples: seq<Sample>) returns (log: seq<Event>)
    ensures log == Delivered(OPEN, Gestures(Items(samples)))
  {
    var c := new TouchClassifier();
    log := [];
    for i := 0 to |samples|
      invariant Ran(samples[..i], c.Debouncing(), c.phase, c.Limiting(), log)
    {
      ghost var d, p, l, log' := c.Debouncing(), c.phase, c.Limiting(), log;
      var out := c.Update(samples[i].pressed, samples[i].now);
      if out.Some? {
        log := log + [Event(out.value, samples[i].now)];
      }
      assert log == log' + Logged(out, samples[i].now);
      RanOneMore(samples[..i], d, p, l, log', samples[i], out, c.phase, c.Limiting());
      assert samples[..i] + [samples[i]] == samples[..i + 1];
    }
    assert samples[..|samples|] == samples;
    RecognitionIsReading(samples);
  }
}
