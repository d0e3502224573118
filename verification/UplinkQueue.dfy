/** The firmware's uplink queue and the two tasks around it (device/src/bin/main.rs 288-318 and
    384-436). The tasks are cooperative: each runs without interruption from one `await` to the
    next, so one event below is one such stretch. A gesture is named by the order in which it was
    classified. */
module UplinkQueue {
  import opened Common

  const INPUT_QUEUE_LEN := 8

  /** The bounded channel INPUT_CHANNEL. */
  class Channel {
    var items: seq<nat>

    ghost predicate Valid()
      reads this
    {
      |items| <= INPUT_QUEUE_LEN
    }

    constructor ()
      ensures Valid() && items == []
    {
      items := [];
    }

    method TrySend(g: nat) returns (full: bool)
      requires Valid()
      modifies this
      ensures Valid()
      ensures full == (|old(items)| == INPUT_QUEUE_LEN)
      ensures items == if full then old(items) else old(items) + [g]
    {
      full := |items| == INPUT_QUEUE_LEN;
      if !full {
        items := items + [g];
      }
    }

    method TryReceive() returns (g: Option<nat>)
      requires Valid()
      modifies this
      ensures Valid()
      ensures old(items) == [] ==> g == None && items == []
      ensures old(items) != [] ==> g == Some(old(items)[0]) && items == old(items)[1..]
    {
      if items == [] {
        g := None;
      } else {
        g := Some(items[0]);
        items := items[1..];
      }
    }

    method Clear()
      modifies this
      ensures Valid() && items == []
    {
      items := [];
    }

    /** enqueue_input: the newest gesture always gets in, at the cost of the oldest. */
    method EnqueueInput(g: nat)
      requires Valid()
      modifies this
      ensures Valid()
      ensures items == LastEight(old(items) + [g])
    {
      var full := TrySend(g);
      if full {
        var dropped := TryReceive();
        full := TrySend(g);
      }
    }
  }

  function LastEight(s: seq<nat>): seq<nat> {
    if |s| <= INPUT_QUEUE_LEN then s else s[|s| - INPUT_QUEUE_LEN..]
  }

  /** What behavior_server_task is doing. */
  datatype Server = Accepting | Receiving | Writing(g: nat)

  datatype State = State(
    server: Server,
    connected: bool,          // HOST_CONNECTED
    queue: seq<nat>,          // INPUT_CHANNEL
    born: seq<Option<nat>>,   // history: for each gesture, the connection it was classified in
    conn: nat,                // history: number of the current, or latest, connection
    enqueued: seq<nat>,       // history: what enqueue_input got since the last clear
    received: int,            // history: the last gesture received since the clear, -1 if none
    written: seq<(nat, nat)>, // history: (connection, gesture) for every completed write
    acked: set<nat>)          // history: gestures acknowledged locally

  datatype Event = Touch | Accept | Receive | WriteDone | WriteError | ReadEnd

  const START := State(Accepting, false, [], [], 0, [], -1, [], {})

  function Enqueue(queue: seq<nat>, g: nat): seq<nat> {
    if |queue| < INPUT_QUEUE_LEN then queue + [g] else queue[1..] + [g]
  }

  function Next(st: State, e: Event): State {
    match e
    case Touch =>
      var g := |st.born|;
      if st.connected
      then st.(queue := Enqueue(st.queue, g), born := st.born + [Some(st.conn)], enqueued := st.enqueued + [g])
      else st.(born := st.born + [None], acked := st.acked + {g})
    case Accept =>
      if st.server == Accepting
      then st.(server := Receiving, connected := true, queue := [], conn := st.conn + 1,
               enqueued := [], received := -1)
      else st
    case Receive =>
      if st.server == Receiving && st.queue != []
      then st.(server := Writing(st.queue[0]), queue := st.queue[1..], received := st.queue[0])
      else st
    case WriteDone =>
      if st.server.Writing?
      then st.(server := Receiving, written := st.written + [(st.conn, st.server.g)])
      else st
    case WriteError =>
      if st.server.Writing?
      then st.(server := Accepting, connected := false, acked := st.acked + {st.server.g})
      else st
    case ReadEnd =>
      if st.server == Accepting then st else st.(server := Accepting, connected := false)
  }

  function Run(st: State, events: seq<Event>): State
    decreases |events|
  {
    if events == [] then st else Run(Next(st, events[0]), events[1..])
  }

  // ---------------------------------------------------------------- invariant

  /** The gestures of `s` that came after gesture `k`. */
  function After(s: seq<nat>, k: int): seq<nat> {
    if s == [] then [] else (if s[0] > k then [s[0]] else []) + After(s[1..], k)
  }

  ghost predicate Increasing(s: seq<nat>) {
    forall i, j :: 0 <= i < j < |s| ==> s[i] < s[j]
  }

  ghost predicate QueueOk(st: State) {
    && Increasing(st.enqueued)
    && (forall i :: 0 <= i < |st.enqueued| ==> st.enqueued[i] < |st.born|)
    && st.received < |st.born|
    && st.queue == LastEight(After(st.enqueued, st.received))
  }

  /** Gestures still under way were classified in this connection and have met no end yet. */
  ghost predicate UnderWay(st: State, g: nat) {
    && g < |st.born|
    && st.born[g] == Some(st.conn)
    && g !in st.acked
    && (forall w :: w in st.written ==> w.1 < g)
  }

  ghost predicate FatesOk(st: State) {
    && (st.connected <==> st.server != Accepting)
    && (st.server != Accepting ==> forall g :: g in st.enqueued && g > st.received ==> UnderWay(st, g))
    && (st.server.Writing? ==> UnderWay(st, st.server.g) && st.received == st.server.g)
    && (forall g <- st.acked :: g < |st.born|)
    && (forall i, j :: 0 <= i < j < |st.written| ==> st.written[i].1 < st.written[j].1)
    && (forall w :: w in st.written ==> w.1 < |st.born| && w.1 !in st.acked && st.born[w.1] == Some(w.0))
  }

  ghost predicate Inv(st: State) {
    QueueOk(st) && FatesOk(st)
  }

  lemma {:induction false} AfterAppend(s: seq<nat>, k: int, g: nat)
    ensures After(s + [g], k) == After(s, k) + if g > k then [g] else []
  {
    if s == [] {
      assert s + [g] == [g];
      assert [g][1..] == [];
    } else {
      assert (s + [g])[1..] == s[1..] + [g];
      AfterAppend(s[1..], k, g);
    }
  }

  lemma {:induction false} AfterCut(s: seq<nat>, k: int, n: nat)
    requires n <= |s|
    requires forall i :: 0 <= i < |s| ==> (s[i] > k <==> i >= n)
    ensures After(s, k) == s[n..]
  {
    if s != [] {
      forall i | 0 <= i < |s| - 1
        ensures s[1..][i] > k <==> i >= n - 1
      {
        assert s[1..][i] == s[i + 1];
      }
      AfterCut(s[1..], k, if n == 0 then 0 else n - 1);
    }
  }

  /** In an increasing list, `After` is the tail that starts above `k`. */
  lemma {:induction false} FindCut(s: seq<nat>, k: int) returns (n: nat)
    requires Increasing(s)
    ensures n <= |s|
    ensures forall i :: 0 <= i < |s| ==> (s[i] > k <==> i >= n)
  {
    n := 0;
    while n < |s| && s[n] <= k
      invariant n <= |s|
      invariant forall i :: 0 <= i < n ==> s[i] <= k
    {
      n := n + 1;
    }
  }

  lemma EnqueueKeepsLastEight(s: seq<nat>, g: nat)
    ensures Enqueue(LastEight(s), g) == LastEight(s + [g])
    ensures Enqueue(LastEight(s), g) == LastEight(LastEight(s) + [g])
  {
  }

  lemma QueueAfterTouch(enqueued: seq<nat>, received: int, g: nat)
    requires received < g
    ensures Enqueue(LastEight(After(enqueued, received)), g) == LastEight(After(enqueued + [g], received))
  {
    AfterAppend(enqueued, received, g);
    EnqueueKeepsLastEight(After(enqueued, received), g);
  }

  lemma TouchQueue(st: State)
    requires Inv(st)
    ensures QueueOk(Next(st, Touch))
  {
    QueueAfterTouch(st.enqueued, st.received, |st.born|);
  }

  lemma TouchFates(st: State)
    requires Inv(st)
    ensures FatesOk(Next(st, Touch))
  {
  }

  /** The oldest gesture in the queue came after everything received, and what stays behind came
      after it. */
  lemma QueueHead(st: State)
    requires QueueOk(st) && st.queue != []
    ensures st.queue[0] in st.enqueued && st.queue[0] > st.received
    ensures LastEight(After(st.enqueued, st.queue[0])) == st.queue[1..]
  {
    var n := FindCut(st.enqueued, st.received);
    AfterCut(st.enqueued, st.received, n);
    var i := |st.enqueued| - |st.queue|;
    assert st.queue == st.enqueued[i..];
    AfterCut(st.enqueued, st.queue[0], i + 1);
  }

  lemma ServerInv(st: State, e: Event)
    requires Inv(st) && e != Touch
    ensures Inv(Next(st, e))
  {
    if e == Receive && st.queue != [] {
      QueueHead(st);
    }
  }

  lemma NextInv(st: State, e: Event)
    requires Inv(st)
    ensures Inv(Next(st, e))
  {
    if e == Touch {
      TouchQueue(st);
      TouchFates(st);
    } else {
      ServerInv(st, e);
    }
  }

  lemma {:induction false} RunInv(st: State, events: seq<Event>)
    requires Inv(st)
    ensures Inv(Run(st, events))
    decreases |events|
  {
    if events != [] {
      NextInv(st, events[0]);
      RunInv(Next(st, events[0]), events[1..]);
    }
  }

  // ---------------------------------------------------------------- main results

  /** A gesture is never both fully written to the host and acknowledged locally. */
  lemma NeverWrittenAndAcknowledged(events: seq<Event>, c: nat, g: nat)
    requires (c, g) in Run(START, events).written
    ensures g !in Run(START, events).acked
  {
    RunInv(START, events);
  }

  /** What is written on a connection was classified during that connection; writes happen in the
      order of classification, and none twice. */
  lemma WritesAreFreshAndInOrder(events: seq<Event>, i: nat, j: nat)
    requires i < j < |Run(START, events).written|
    ensures var r := Run(START, events);
            && r.written[i].1 < r.written[j].1 < |r.born|
            && r.born[r.written[i].1] == Some(r.written[i].0)
            && r.born[r.written[j].1] == Some(r.written[j].0)
  {
    RunInv(START, events);
    var r := Run(START, events);
    assert r.written[i] in r.written && r.written[j] in r.written;
  }

  /** The queue is always the last eight gestures among those enqueued since the clear and after
      the last one received. */
  lemma QueueIsLastEight(events: seq<Event>)
    ensures var r := Run(START, events); r.queue == LastEight(After(r.enqueued, r.received))
  {
    RunInv(START, events);
  }

  // ---------------------------------------------------------------- one fate for every gesture

  /** What has become of a gesture: acknowledged on the device; waiting in the queue; being written; fully
      written on a connection; pushed out of a full queue; cleared by the next accept; or cut off in the
      middle of its write when the reader half ended first. */
  datatype Fate = Acked | Queued | Sending | Sent(conn: nat) | Pushed | Cleared | Cut

  /** The fates after an event in state st. */
  function FateStep(st: State, fates: seq<Fate>, e: Event): seq<Fate>
    requires Placed(st) && |fates| == |st.born|
  {
    match e
    case Touch =>
      if !st.connected then fates + [Acked]
      else if |st.queue| < INPUT_QUEUE_LEN then fates + [Queued]
      else fates[st.queue[0] := Pushed] + [Queued]
    case Accept =>
      if st.server != Accepting then fates
      else seq(|fates|, g requires 0 <= g < |fates| => if fates[g] == Queued then Cleared else fates[g])
    case Receive => if st.server == Receiving && st.queue != [] then fates[st.queue[0] := Sending] else fates
    case WriteDone => if st.server.Writing? then fates[st.server.g := Sent(st.conn)] else fates
    case WriteError => if st.server.Writing? then fates[st.server.g := Acked] else fates
    case ReadEnd => if st.server.Writing? then fates[st.server.g := Cut] else fates
  }

  /** Every gesture on its way was classified in this connection and is in one place only; the queue holds
      gestures next to each other, while connected the latest ones. */
  predicate Placed(st: State) {
    && (forall i :: 0 <= i < |st.queue| ==> st.queue[i] == st.queue[0] + i)
    && (forall i :: 0 <= i < |st.queue| ==> st.queue[i] < |st.born| && st.born[st.queue[i]] == Some(st.conn))
    && |st.queue| <= INPUT_QUEUE_LEN
    && (st.connected && st.queue != [] ==> st.queue[0] + |st.queue| == |st.born|)
    && (st.server.Writing? ==>
          st.server.g < |st.born| && st.born[st.server.g] == Some(st.conn) && st.server.g !in st.queue)
  }

  lemma PlacedTouch(st: State)
    requires Placed(st)
    ensures Placed(Next(st, Touch))
  {
  }

  lemma PlacedServer(st: State, e: Event)
    requires Placed(st) && e != Touch
    ensures Placed(Next(st, e))
  {
  }

  lemma PlacedNext(st: State, e: Event)
    requires Placed(st)
    ensures Placed(Next(st, e))
  {
    if e == Touch {
      PlacedTouch(st);
    } else {
      PlacedServer(st, e);
    }
  }

  /** The fate of each gesture is where it is. */
  ghost predicate FatesAre(st: State, fates: seq<Fate>) {
    && |fates| == |st.born|
    && (forall g :: 0 <= g < |fates| ==> FateIs(st, g, fates[g]))
  }

  ghost predicate FateIs(st: State, g: nat, fate: Fate)
    requires g < |st.born|
  {
    && (fate == Queued <==> g in st.queue)
    && (fate == Sending <==> st.server == Writing(g))
    && (forall c: nat :: fate == Sent(c) <==> (c, g) in st.written)
    && (fate == Acked <==> g in st.acked)
    && (fate == Pushed ==>
          g + INPUT_QUEUE_LEN < |st.born| && st.born[g].Some? && st.born[g + INPUT_QUEUE_LEN] == st.born[g])
    && (fate == Cleared ==> st.born[g].Some? && st.born[g].value < st.conn)
    && (fate == Cut ==> st.born[g].Some?)
  }

  lemma TouchFatesAre(st: State, fates: seq<Fate>)
    requires Placed(st) && Inv(st) && FatesAre(st, fates)
    ensures FatesAre(Next(st, Touch), FateStep(st, fates, Touch))
  {
    var r, fates' := Next(st, Touch), FateStep(st, fates, Touch);
    forall g | 0 <= g < |fates'|
      ensures FateIs(r, g, fates'[g])
    {
      if g < |fates| {
        assert FateIs(st, g, fates[g]);
      }
    }
  }

  lemma ServerFatesAre(st: State, fates: seq<Fate>, e: Event)
    requires Placed(st) && Inv(st) && FatesAre(st, fates) && e != Touch
    ensures FatesAre(Next(st, e), FateStep(st, fates, e))
  {
    var r, fates' := Next(st, e), FateStep(st, fates, e);
    forall g | 0 <= g < |fates'|
      ensures FateIs(r, g, fates'[g])
    {
      assert FateIs(st, g, fates[g]);
    }
  }

  /** The fates of a whole run. */
  function Fates(st: State, fates: seq<Fate>, events: seq<Event>): seq<Fate>
    requires Placed(st) && |fates| == |st.born|
    decreases |events|
  {
    if events == [] then fates
    else
      PlacedNext(st, events[0]);
      Fates(Next(st, events[0]), FateStep(st, fates, events[0]), events[1..])
  }

  lemma {:induction false} RunFatesAre(st: State, fates: seq<Fate>, events: seq<Event>)
    requires Placed(st) && Inv(st) && FatesAre(st, fates)
    ensures FatesAre(Run(st, events), Fates(st, fates, events))
    decreases |events|
  {
    if events != [] {
      PlacedNext(st, events[0]);
      NextInv(st, events[0]);
      if events[0] == Touch {
        TouchFatesAre(st, fates);
      } else {
        ServerFatesAre(st, fates, events[0]);
      }
      RunFatesAre(Next(st, events[0]), FateStep(st, fates, events[0]), events[1..]);
    }
  }

  /** In every run each gesture has exactly one fate, and it is where its fate says. One that was
      pushed out has eight later ones of its own connection behind it; one that was cleared belongs to an
      earlier connection. */
  lemma EveryGestureHasOneFate(events: seq<Event>)
    ensures FatesAre(Run(START, events), Fates(START, [], events))
  {
    RunFatesAre(START, [], events);
  }

  // ---------------------------------------------------------------- connections and the write loop

  /** What is taken from the queue and written, in rounds of one receive and one good write. */
  function Rounds(n: nat): seq<Event> {
    if n == 0 then [] else [Receive, WriteDone] + Rounds(n - 1)
  }

  /** The events that finish a write in progress, if there is one, and then empty the queue. */
  function Draining(st: State): seq<Event> {
    (if st.server.Writing? then [WriteDone] else []) + Rounds(|st.queue|)
  }

  /** The gestures under way, in the order they will be written. */
  function Waiting(st: State): seq<nat> {
    (if st.server.Writing? then [st.server.g] else []) + st.queue
  }

  function On(conn: nat, gestures: seq<nat>): seq<(nat, nat)> {
    seq(|gestures|, i requires 0 <= i < |gestures| => (conn, gestures[i]))
  }

  lemma RunTwo(st: State, e: Event, f: Event, rest: seq<Event>)
    ensures Run(st, [e, f] + rest) == Run(Next(Next(st, e), f), rest)
  {
    assert ([e, f] + rest)[1..] == [f] + rest && ([f] + rest)[1..] == rest;
    assert Run(Next(st, e), [f] + rest) == Run(Next(Next(st, e), f), rest);
  }

  lemma OneWritten(written: seq<(nat, nat)>, c: nat, queue: seq<nat>)
    requires queue != []
    ensures written + [(c, queue[0])] + On(c, queue[1..]) == written + On(c, queue)
  {
    assert On(c, queue) == [(c, queue[0])] + On(c, queue[1..]);
  }

  /** The queue is empty on the same connection, and its gestures have been written on it. */
  ghost predicate Drained(st: State, r: State, gestures: seq<nat>) {
    && r.server == Receiving && r.connected == st.connected && r.conn == st.conn && r.queue == []
    && r.written == st.written + On(st.conn, gestures) && r.acked == st.acked
  }

  lemma {:induction false} RoundsEmpty(st: State)
    requires st.server == Receiving
    ensures Drained(st, Run(st, Rounds(|st.queue|)), st.queue)
    decreases |st.queue|
  {
    if st.queue == [] {
      assert st.written + On(st.conn, []) == st.written;
    } else {
      var next := Next(Next(st, Receive), WriteDone);
      RunTwo(st, Receive, WriteDone, Rounds(|st.queue| - 1));
      RoundsEmpty(next);
      OneWritten(st.written, st.conn, st.queue);
    }
  }

  /** A good write is never the end of a connection: from every reachable connected state, good writes empty
      the queue, on the same connection, and what was under way is written in order and nothing else. */
  lemma QueueDrains(events: seq<Event>)
    requires Run(START, events).connected
    ensures var st := Run(START, events);
            Drained(st, Run(st, Draining(st)), Waiting(st)) && Run(st, Draining(st)).connected
  {
    RunInv(START, events);
    DrainsFrom(Run(START, events));
  }

  lemma DrainsFrom(st: State)
    requires st.server != Accepting
    ensures Drained(st, Run(st, Draining(st)), Waiting(st))
  {
    if st.server.Writing? {
      var a := Next(st, WriteDone);
      assert ([WriteDone] + Rounds(|st.queue|))[1..] == Rounds(|st.queue|);
      RoundsEmpty(a);
      OneWritten(st.written, st.conn, [st.server.g] + st.queue);
      assert ([st.server.g] + st.queue)[1..] == st.queue;
    } else {
      RoundsEmpty(st);
      assert [] + Rounds(|st.queue|) == Rounds(|st.queue|) && [] + st.queue == st.queue;
    }
  }

  /** In every reachable state: an accept without a connection begins the next one with an empty queue; the end
      of the reader, or an error of a write under way, ends it; nothing else changes whether there is one. */
  lemma ConnectionsBeginAndEnd(events: seq<Event>, e: Event)
    ensures var st := Run(START, events);
            var r := Next(st, e);
            && r.connected == (if e == Accept then true
                               else if e == ReadEnd || (e == WriteError && st.server.Writing?) then false
                               else st.connected)
            && r.conn == st.conn + (if e == Accept && !st.connected then 1 else 0)
            && (e == Accept && !st.connected ==> r.queue == [] && r.server == Receiving)
            && (r.connected <==> r.server != Accepting)
  {
    RunInv(START, events);
    NextInv(Run(START, events), e);
  }
}
