/** How a presence post wakes the pet loop: SignalMailbox writes, HostInputQueue.submit_presence_signal
    and the loop's dequeue, interleaved in every possible way (host/control.py 212-215,
    host/inputs.py 114-151, host/pet_loop.py 138-142, 267 and 718-746).

    Posters write the mailbox and, when the write reports a change, submit a signal. The loop takes
    an item, clears the flag under the lock if the item is a signal, and then reads the mailbox. */
module PresenceWake {
  import opened Common

  type Tid = int

  datatype Kind = Presence | Other

  datatype PosterPc =
    | Idle
    | Reported     // the mailbox write is done and reported a change (control.py 212-214)
    | Inside       // holds the queue lock (inputs.py 123)
    | InHand       // set the flag, released the lock, has not put the item yet (inputs.py 132)
    | Putting      // about to put an item of another kind (inputs.py 50, 76, 90, 111)

  datatype LoopPc =
    | Top          // about to read the mailbox (pet_loop.py 139-140)
    | Busy         // the rest of the tick (pet_loop.py 144-266)
    | Waiting      // in get_nowait or wait (pet_loop.py 725, 738)
    | Got          // took a signal from the queue (inputs.py 143-148)
    | Clearing     // holds the lock to clear the flag (inputs.py 149-150)

  datatype Lock = Free | Poster(t: Tid) | Loop

  /** Where the presence token is. */
  datatype Place = Nowhere | Hand(t: Tid) | Queued | Taken

  datatype State = State(
    posters: map<Tid, PosterPc>,
    loop: LoopPc,
    queue: seq<Kind>,
    pending: bool,        // _presence_pending
    lock: Lock,
    writes: nat,          // history: how many mailbox writes there have been
    changed: nat,         // history: number of the last write that reported a change, 0 if none
    changer: Tid,         // history: who made it
    seen: nat,            // history: how many writes the loop's last mailbox read could see
    token: Place)         // history

  datatype Event =
    | Post(t: Tid, change: bool) // a mailbox write and what it reports
    | Submit(t: Tid)             // the poster's next step
    | SubmitOther(t: Tid)        // start handing in a message, alert, touch or build result
    | Step                       // the loop's next step
    | GiveUp                     // the loop's wait ran out

  ghost predicate Init(st: State) {
    && (forall t <- st.posters :: st.posters[t] == Idle)
    && st.loop == Top && st.queue == [] && !st.pending && st.lock == Free
    && st.writes == 0 && st.changed == 0 && st.seen == 0 && st.token == Nowhere
    && st.changer in st.posters
  }

  function At(st: State, t: Tid, p: PosterPc): State {
    st.(posters := st.posters[t := p])
  }

  function SubmitStep(st: State, t: Tid): State
    requires t in st.posters
  {
    match st.posters[t]
    case Idle => st
    case Reported => if st.lock == Free then At(st.(lock := Poster(t)), t, Inside) else st
    case Inside =>
      if st.pending then At(st.(lock := Free), t, Idle)
      else At(st.(lock := Free, pending := true, token := Hand(t)), t, InHand)
    case InHand => At(st.(queue := st.queue + [Presence], token := Queued), t, Idle)
    case Putting => At(st.(queue := st.queue + [Other]), t, Idle)
  }

  function LoopStep(st: State): State {
    match st.loop
    case Top => st.(loop := Busy, seen := st.writes)
    case Busy => st.(loop := Waiting)
    case Waiting =>
      if st.queue == [] then st
      else if st.queue[0] == Presence
      then st.(queue := st.queue[1..], loop := Got, token := Taken)
      else st.(queue := st.queue[1..], loop := Top)
    case Got => if st.lock == Free then st.(lock := Loop, loop := Clearing) else st
    case Clearing => st.(lock := Free, pending := false, loop := Top, token := Nowhere)
  }

  function Next(st: State, e: Event): State {
    match e
    case Post(t, change) =>
      if t !in st.posters || st.posters[t] != Idle then st
      else if change
      then At(st.(writes := st.writes + 1, changed := st.writes + 1, changer := t), t, Reported)
      else st.(writes := st.writes + 1)
    case SubmitOther(t) =>
      if t !in st.posters || st.posters[t] != Idle then st else At(st, t, Putting)
    case Submit(t) => if t in st.posters then SubmitStep(st, t) else st
    case Step => LoopStep(st)
    case GiveUp => if st.loop == Waiting then st.(loop := Top) else st
  }

  function Run(st: State, schedule: seq<Event>): State
    decreases |schedule|
  {
    if schedule == [] then st else Run(Next(st, schedule[0]), schedule[1..])
  }

  /** A post or a hand-in of a thread that is not in the middle of one. */
  predicate Starts(st: State, t: Tid) {
    t in st.posters && st.posters[t] == Idle
  }

  /** The number of mailbox writes of a run, and the number of the last that reported a change. */
  function Posts(st: State, events: seq<Event>, writes: nat, changed: nat): (nat, nat)
    decreases |events|
  {
    if events == [] then (writes, changed)
    else
      var e, rest := events[0], Next(st, events[0]);
      if e.Post? && Starts(st, e.t) then Posts(rest, events[1..], writes + 1, if e.change then writes + 1 else changed)
      else Posts(rest, events[1..], writes, changed)
  }

  /** The history fields are what the schedule says. */
  lemma {:induction false} HistoryIsThePosts(st: State, events: seq<Event>)
    ensures (Run(st, events).writes, Run(st, events).changed) == Posts(st, events, st.writes, st.changed)
    decreases |events|
  {
    if events != [] {
      HistoryIsThePosts(Next(st, events[0]), events[1..]);
    }
  }

  /** What one event puts into the queue: a poster's last step puts its presence signal or its other input. */
  function PutOne(st: State, e: Event): seq<Kind> {
    if e.Submit? && e.t in st.posters && st.posters[e.t] == InHand then [Presence]
    else if e.Submit? && e.t in st.posters && st.posters[e.t] == Putting then [Other]
    else []
  }

  /** What one event takes out of it. */
  function TookOne(st: State, e: Event): seq<Kind> {
    if e == Step && st.loop == Waiting && st.queue != [] then [st.queue[0]] else []
  }

  function Put(st: State, events: seq<Event>): seq<Kind>
    decreases |events|
  {
    if events == [] then [] else PutOne(st, events[0]) + Put(Next(st, events[0]), events[1..])
  }

  function Took(st: State, events: seq<Event>): seq<Kind>
    decreases |events|
  {
    if events == [] then [] else TookOne(st, events[0]) + Took(Next(st, events[0]), events[1..])
  }

  lemma OneInOneOut(st: State, e: Event)
    ensures st.queue + PutOne(st, e) == TookOne(st, e) + Next(st, e).queue
  {
  }

  /** Nothing gets lost or changes places in the queue: what was in it and what was put is what was taken and
      what is in it now. */
  lemma {:induction false} QueueKeepsAll(st: State, events: seq<Event>)
    ensures st.queue + Put(st, events) == Took(st, events) + Run(st, events).queue
    decreases |events|
  {
    if events != [] {
      var e, st', rest := events[0], Next(st, events[0]), events[1..];
      OneInOneOut(st, e);
      QueueKeepsAll(st', rest);
      Regroup(st.queue, PutOne(st, e), Put(st', rest));
      Regroup(TookOne(st, e), st'.queue, Put(st', rest));
      Regroup(TookOne(st, e), Took(st', rest), Run(st', rest).queue);
    }
  }

  /** A reported change is handed in: with the lock free, three steps of its poster leave the flag set, and a signal
      in the queue unless the flag was set already. */
  lemma ReportIsHandedIn(st: State, t: Tid)
    requires st.lock == Free && t in st.posters && st.posters[t] == Reported
    ensures var r := Run(st, [Submit(t), Submit(t), Submit(t)]);
            && t in r.posters && r.posters[t] == Idle && r.pending && r.lock == Free
            && r.queue == if st.pending then st.queue else st.queue + [Presence]
  {
    var a := Next(st, Submit(t));
    var b := Next(a, Submit(t));
    var c := Next(b, Submit(t));
    assert [Submit(t), Submit(t), Submit(t)][1..] == [Submit(t), Submit(t)];
    assert [Submit(t), Submit(t)][1..] == [Submit(t)] && [Submit(t)][1..] == [];
    assert Run(c, []) == c && Run(b, [Submit(t)]) == c && Run(a, [Submit(t), Submit(t)]) == c;
  }

  /** A wait that runs out is the end of a wait: the loop reads next, all that has been written. */
  lemma TimeoutsReadToo(st: State)
    requires st.loop == Waiting
    ensures Run(st, [GiveUp, Step]).seen == st.writes
  {
    assert [GiveUp, Step][1..] == [Step] && [Step][1..] == [];
    var a := Next(st, GiveUp);
    assert Run(a, [Step]) == Run(Next(a, Step), []);
  }

  /** A thread in the middle of nothing begins something only when it is told to, and the signal only after a
      change was reported. */
  lemma PostersWaitToBeTold(st: State, e: Event, t: Tid)
    requires Starts(st, t)
    ensures var p := Next(st, e).posters;
            && t in p
            && p[t] == if e == Post(t, true) then Reported else if e == SubmitOther(t) then Putting else Idle
  {
  }

  function Signals(queue: seq<Kind>): nat {
    if queue == [] then 0 else (if queue[0] == Presence then 1 else 0) + Signals(queue[1..])
  }

  lemma {:induction false} SignalsAppend(queue: seq<Kind>, k: Kind)
    ensures Signals(queue + [k]) == Signals(queue) + if k == Presence then 1 else 0
  {
    if queue == [] {
      assert queue + [k] == [k];
      assert [k][1..] == [];
    } else {
      assert (queue + [k])[1..] == queue[1..] + [k];
      SignalsAppend(queue[1..], k);
    }
  }

  /** The token is in the place the history says and in no other, and the flag says whether it
      exists. */
  ghost predicate TokenOk(st: State) {
    && (st.pending <==> st.token != Nowhere)
    && (forall t <- st.posters :: st.posters[t] == InHand <==> st.token == Hand(t))
    && (st.token.Hand? ==> st.token.t in st.posters)
    && Signals(st.queue) == (if st.token == Queued then 1 else 0)
    && (st.loop == Got || st.loop == Clearing <==> st.token == Taken)
  }

  ghost predicate LockOk(st: State) {
    && (forall t <- st.posters :: st.posters[t] == Inside <==> st.lock == Poster(t))
    && (st.lock.Poster? ==> st.lock.t in st.posters)
    && (st.loop == Clearing <==> st.lock == Loop)
  }

  /** A change the loop has not read yet is still on its way. */
  ghost predicate OnItsWay(st: State)
    requires st.changer in st.posters
  {
    || st.changed <= st.seen
    || st.pending
    || st.loop == Top
    || st.posters[st.changer] == Reported
    || st.posters[st.changer] == Inside
  }

  ghost predicate Inv(st: State) {
    && TokenOk(st)
    && LockOk(st)
    && st.changed <= st.writes
    && st.changer in st.posters
    && OnItsWay(st)
  }

  lemma TokenSubmit(st: State, t: Tid)
    requires TokenOk(st) && LockOk(st) && t in st.posters
    ensures TokenOk(SubmitStep(st, t))
  {
    SignalsAppend(st.queue, Presence);
    SignalsAppend(st.queue, Other);
  }

  lemma TokenLoop(st: State)
    requires TokenOk(st) && LockOk(st)
    ensures TokenOk(LoopStep(st))
  {
  }

  lemma TokenStep(st: State, e: Event)
    requires TokenOk(st) && LockOk(st)
    ensures TokenOk(Next(st, e))
  {
    match e
    case Post(t, change) =>
    case SubmitOther(t) =>
    case Submit(t) => if t in st.posters { TokenSubmit(st, t); }
    case Step => TokenLoop(st);
    case GiveUp =>
  }

  lemma LockStep(st: State, e: Event)
    requires LockOk(st)
    ensures LockOk(Next(st, e))
  {
    var r := Next(st, e);
    forall t | t in r.posters
      ensures r.posters[t] == Inside <==> r.lock == Poster(t)
    {
      assert t in st.posters;
    }
  }

  lemma WaySubmit(st: State, t: Tid)
    requires Inv(st) && t in st.posters
    ensures OnItsWay(SubmitStep(st, t))
  {
  }

  lemma WayStep(st: State, e: Event)
    requires Inv(st)
    ensures var r := Next(st, e); r.changed <= r.writes && r.changer in r.posters && OnItsWay(r)
  {
    match e
    case Post(t, change) =>
    case SubmitOther(t) =>
    case Submit(t) => if t in st.posters { WaySubmit(st, t); }
    case Step =>
    case GiveUp =>
  }

  lemma NextInv(st: State, e: Event)
    requires Inv(st)
    ensures Inv(Next(st, e))
  {
    TokenStep(st, e);
    LockStep(st, e);
    WayStep(st, e);
  }

  lemma {:induction false} RunInv(st: State, schedule: seq<Event>)
    requires Inv(st)
    ensures Inv(Run(st, schedule))
    decreases |schedule|
  {
    if schedule != [] {
      NextInv(st, schedule[0]);
      RunInv(Next(st, schedule[0]), schedule[1..]);
    }
  }

  // ---------------------------------------------------------------- main results

  ghost predicate Carries(st: State, t: Tid) {
    t in st.posters && st.posters[t] == InHand
  }

  predicate LoopCarries(st: State) {
    st.loop == Got || st.loop == Clearing
  }

  /** The flag is set iff exactly one token exists, in one submitter's hand, or once in the queue,
      or in the loop's hand before it clears the flag. */
  lemma FlagMeansOneToken(st: State, schedule: seq<Event>)
    requires Init(st)
    ensures var r := Run(st, schedule);
            && Signals(r.queue) <= 1
            && (forall t, u :: Carries(r, t) && Carries(r, u) ==> t == u)
            && ((exists t :: Carries(r, t)) ==> Signals(r.queue) == 0 && !LoopCarries(r))
            && (Signals(r.queue) == 1 ==> !LoopCarries(r))
            && (r.pending <==> (exists t :: Carries(r, t)) || Signals(r.queue) == 1 || LoopCarries(r))
  {
    RunInv(st, schedule);
    var r := Run(st, schedule);
    if r.token.Hand? {
      assert Carries(r, r.token.t);
    }
  }

  /** The poster of the last reported change has not yet set the flag, or found it set. */
  predicate NotYetSubmitted(st: State)
    requires st.changer in st.posters
  {
    st.posters[st.changer] == Reported || st.posters[st.changer] == Inside
  }

  /** No wake-up is lost: a loop that waits on an empty queue has read every change that was reported,
      unless the poster of the last one has still to look at the flag, or the holder of the token has still
      to put it into the queue. */
  lemma NoLostWakeUp(st: State, schedule: seq<Event>)
    requires Init(st)
    ensures var r := Run(st, schedule);
            r.loop == Waiting && r.queue == [] ==>
              || r.changed <= r.seen
              || (r.changer in r.posters && NotYetSubmitted(r))
              || (exists t :: Carries(r, t))
  {
    RunInv(st, schedule);
    var r := Run(st, schedule);
    if r.loop == Waiting && r.queue == [] && r.changed > r.seen && r.pending {
      assert Carries(r, r.token.t);
    }
  }

  function LoopAlone(st: State, n: nat): State
    decreases n
  {
    if n == 0 then st else LoopAlone(Next(st, Step), n - 1)
  }

  /** How many of its own steps the loop is away from its next mailbox read, at most. */
  function ToRead(loop: LoopPc): nat {
    match loop
    case Top => 1
    case Clearing => 2
    case Got => 3
    case Waiting => 4
    case Busy => 5
  }

  /** Once a reported change has been submitted to the end, the loop by itself reads the mailbox
      within five steps, and that read sees the change. */
  lemma {:induction false} SubmittedChangeIsRead(st: State) returns (n: nat)
    requires Inv(st)
    requires st.lock == Free || st.lock == Loop
    requires forall t <- st.posters :: st.posters[t] == Idle
    requires st.changed > st.seen
    ensures n <= ToRead(st.loop) <= 5
    ensures LoopAlone(st, n).changed == st.changed <= LoopAlone(st, n).seen
    decreases ToRead(st.loop)
  {
    var st' := Next(st, Step);
    NextInv(st, Step);
    if st.loop == Top {
      n := 1;
      assert LoopAlone(st', 0) == st';
    } else {
      assert st.loop == Waiting ==> st.queue != [];
      var m := SubmittedChangeIsRead(st');
      n := m + 1;
    }
  }

  // ---------------------------------------------------------------- with the posters running on

  /** The event moves the loop on. */
  predicate MovesLoop(st: State, e: Event) {
    Next(st, e).loop != st.loop
  }

  /** How often the loop moves on in a schedule. */
  function LoopMoves(st: State, schedule: seq<Event>): nat
    decreases |schedule|
  {
    if schedule == [] then 0
    else (if MovesLoop(st, schedule[0]) then 1 else 0) + LoopMoves(Next(st, schedule[0]), schedule[1..])
  }

  lemma {:induction false} SeenGrows(st: State, schedule: seq<Event>)
    requires st.seen <= st.writes
    ensures st.seen <= Run(st, schedule).seen <= Run(st, schedule).writes && st.writes <= Run(st, schedule).writes
    decreases |schedule|
  {
    if schedule != [] {
      SeenGrows(Next(st, schedule[0]), schedule[1..]);
    }
  }

  lemma MoveNearsRead(st: State, e: Event)
    requires MovesLoop(st, e) && st.loop != Top
    ensures ToRead(Next(st, e).loop) < ToRead(st.loop)
  {
  }

  /** Whatever the posters do meanwhile, a loop that has moved on as often as it was steps away from its
      next read, five times at most, has read everything that was in the mailbox at the start. */
  lemma {:induction false} LoopReadsInFiveMoves(st: State, schedule: seq<Event>)
    requires st.seen <= st.writes && LoopMoves(st, schedule) >= ToRead(st.loop)
    ensures ToRead(st.loop) <= 5 && Run(st, schedule).seen >= st.writes
    decreases |schedule|
  {
    var e, rest := schedule[0], schedule[1..];
    SeenGrows(Next(st, e), rest);
    if MovesLoop(st, e) && st.loop == Top {
      assert Next(st, e).seen == st.writes;
    } else {
      if MovesLoop(st, e) {
        MoveNearsRead(st, e);
      }
      LoopReadsInFiveMoves(Next(st, e), rest);
    }
  }

  /** In every run and for every continuation, however many posters run on: once the loop has moved on five
      times, it has seen every change that had been reported. */
  lemma ReportedChangeIsReadAmongOthers(st: State, before: seq<Event>, after: seq<Event>)
    requires Init(st) && LoopMoves(Run(st, before), after) >= 5
    ensures Run(Run(st, before), after).seen >= Run(st, before).changed
  {
    RunInv(st, before);
    SeenGrows(st, before);
    LoopReadsInFiveMoves(Run(st, before), after);
  }

  /** And the loop can move on: with a submitted change unread, only a poster that holds the token or the
      queue's lock can keep it where it is, and one step of that poster frees it. */
  lemma LoopIsNeverStuck(st: State, schedule: seq<Event>) returns (u: Tid)
    requires Init(st)
    requires var r := Run(st, schedule);
             r.changed > r.seen && r.changer in r.posters && !NotYetSubmitted(r) && !MovesLoop(r, Step)
    ensures var r := Run(st, schedule);
            && u in r.posters && (r.posters[u] == InHand || r.posters[u] == Inside)
            && MovesLoop(Next(r, Submit(u)), Step)
  {
    RunInv(st, schedule);
    var r := Run(st, schedule);
    u := FreesLoop(r);
  }

  lemma FreesLoop(st: State) returns (u: Tid)
    requires Inv(st) && st.changed > st.seen && !NotYetSubmitted(st) && !MovesLoop(st, Step)
    ensures u in st.posters && (st.posters[u] == InHand || st.posters[u] == Inside)
    ensures MovesLoop(Next(st, Submit(u)), Step)
  {
    if st.loop == Waiting {
      u := st.token.t;
    } else {
      u := LockHolder(st);
    }
  }

  lemma LockHolder(st: State) returns (u: Tid)
    requires Inv(st) && st.loop == Got && st.lock != Free
    ensures u in st.posters && st.posters[u] == Inside && st.lock == Poster(u)
  {
    assert st.lock.Poster?;
    u := st.lock.t;
  }
}
