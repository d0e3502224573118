/** The host's device connection (host/transport.py, class BehaviorClient) as a transition system.

    Any number of threads send, keep alive, close and read at the same time. One event of a
    schedule names a thread and the outcome of whatever that thread is waiting for; an event that
    is not possible leaves the state alone, so every finite schedule is a run. A step is one access
    to shared state. In particular `_closed` is written without the lock, and a publisher reads
    `_closed` and writes `_sock` in two different steps. */
module Connection {
  import opened Common

  type Sock = int
  type Tid = int

  /** What the caller of `_drop` does afterwards. */
  datatype After = Retry(attempt: nat) | Return | Resume

  /** Program points of `send` and `_ensure_connected`; n is the attempt, 0 or 1. */
  datatype SendPc =
    | Acquire1(n: nat)                 // line 187
    | Peek(n: nat)                     // 188-189
    | Connect(n: nat)                  // 191
    | Acquire2(n: nat, s: Sock)        // 192
    | Check(n: nat, s: Sock)           // 193
    | Refuse(s: Sock)                  // 194-195
    | Install(n: nat, s: Sock)         // 196, 200
    | Mark(n: nat, s: Sock)            // 201-202
    | Lose(n: nat, s: Sock)            // 198
    | Borrow(n: nat)                   // 199

  /** Program points of `send_keepalive`, and of `sendall` under the send lock. */
  datatype WritePc =
    | KeepAcquire                      // 160
    | KeepPeek                         // 161-162
    | WaitTurn(s: Sock, k: After)      // 139, 164
    | Write(s: Sock, k: After, call: int) // 140, 165

  datatype DropPc =
    | DropAcquire(s: Sock, k: After)   // 205
    | DropClear(s: Sock, k: After)     // 206-207
    | DropClose(s: Sock, k: After, cleared: bool) // 208

  datatype ClosePc =
    | Flag                             // 170
    | ReadAcquire | ReadRef            // 171
    | ClearAcquire(cur: Option<Sock>)  // 172
    | ClearRef(cur: Option<Sock>)      // 173
    | CloseSocket(cur: Option<Sock>, cleared: bool) // 174-176

  /** Program points of `_read_loop` and `_probe_reconnect`. */
  datatype ReadPc =
    | Top                              // 215
    | TopAcquire | TopPeek             // 216
    | NoSocket                         // 222
    | Recv(s: Sock)                    // 232
    | Probe                            // 257
    | ProbeAcquire(s: Sock)            // 264
    | ProbeCheck(s: Sock)              // 265, first half
    | ProbeInstall(s: Sock)            // 265, second half, and 268
    | ProbeRefuse(s: Sock)             // 266
    | ProbeMark(s: Sock)               // 269

  datatype Pc =
    | Idle
    | Exited
    | Sending(send: SendPc)
    | Writing(write: WritePc)
    | Dropping(drop: DropPc)
    | Closing(close: ClosePc)
    | Reading(read: ReadPc)

  /** Everything the threads share. The last five fields are history: nothing reads them. */
  datatype Shared = Shared(
    sock: Option<Sock>,        // _sock
    closed: bool,              // _closed
    everConnected: bool,       // _ever_connected
    lock: Option<Tid>,         // _lock
    sendLock: Option<Tid>,     // _send_lock
    wire: map<Sock, seq<int>>, // each socket ever opened, with the sendall call behind each byte
    shut: set<Sock>,           // sockets on which close() was called
    calls: int,                // how many sendall calls have started
    everPub: set<Sock>,        // sockets that were `_sock` at some time
    owner: map<Sock, Tid>,     // who last connected a socket, or took it out of `_sock`
    barrier: bool,             // some close() has read `_sock` after setting `_closed`
    swept: bool,               // some close() has cleared `_sock`
    finished: bool)            // some close() has closed what it read

  datatype State = State(pc: map<Tid, Pc>, sh: Shared)

  datatype Outcome =
    | Go                       // the step needs no answer from outside
    | Opened(s: Sock)          // a connect succeeded with a new socket
    | Sent                     // one more byte of the payload went out
    | Fail                     // connect, sendall or recv failed, or recv returned end of stream
    | CallSend | CallKeepalive | CallClose

  datatype Event = Event(t: Tid, o: Outcome)

  ghost predicate Init(st: State) {
    && (forall t <- st.pc :: st.pc[t] == Idle || st.pc[t] == Reading(Top))
    && st.sh == Shared(None, false, false, None, None, map[], {}, 0, {}, map[], false, false, false)
  }

  function Acquire(sh: Shared, t: Tid, p: Pc, next: Pc): (Shared, Pc) {
    if sh.lock == None then (sh.(lock := Some(t)), next) else (sh, p)
  }

  function Release(sh: Shared, next: Pc): (Shared, Pc) {
    (sh.(lock := None), next)
  }

  function Shut(sh: Shared, s: Sock): Shared {
    sh.(shut := sh.shut + {s})
  }

  function Publish(sh: Shared, s: Sock): Shared {
    sh.(sock := Some(s), everPub := sh.everPub + {s})
  }

  function Open(sh: Shared, t: Tid, s: Sock): Shared {
    sh.(wire := sh.wire[s := []], owner := sh.owner[s := t])
  }

  function ExecSend(sh: Shared, t: Tid, q: SendPc, o: Outcome): (Shared, Pc) {
    match q
    case Acquire1(n) => Acquire(sh, t, Sending(q), Sending(Peek(n)))
    case Peek(n) =>
      Release(sh, if sh.sock.Some? then Writing(WaitTurn(sh.sock.value, Retry(n))) else Sending(Connect(n)))
    case Connect(n) =>
      if o.Opened? && o.s !in sh.wire then (Open(sh, t, o.s), Sending(Acquire2(n, o.s)))
      else if o == Fail then (sh, Idle)
      else (sh, Sending(q))
    case Acquire2(n, s) => Acquire(sh, t, Sending(q), Sending(Check(n, s)))
    case Check(n, s) => (sh, Sending(if sh.closed then Refuse(s) else Install(n, s)))
    case Refuse(s) => Release(Shut(sh, s), Idle)
    case Install(n, s) =>
      if sh.sock.Some? then (sh, Sending(Lose(n, s))) else (Publish(sh, s), Sending(Mark(n, s)))
    case Mark(n, s) => Release(sh.(everConnected := true), Writing(WaitTurn(s, Retry(n))))
    case Lose(n, s) => (Shut(sh, s), Sending(Borrow(n)))
    case Borrow(n) =>
      if sh.sock.Some? then Release(sh, Writing(WaitTurn(sh.sock.value, Retry(n)))) else (sh, Sending(q))
  }

  function ExecWrite(sh: Shared, t: Tid, q: WritePc, o: Outcome): (Shared, Pc) {
    match q
    case KeepAcquire => Acquire(sh, t, Writing(q), Writing(KeepPeek))
    case KeepPeek =>
      Release(sh, if sh.sock.Some? then Writing(WaitTurn(sh.sock.value, Return)) else Idle)
    case WaitTurn(s, k) =>
      if sh.sendLock == None
      then (sh.(sendLock := Some(t), calls := sh.calls + 1), Writing(Write(s, k, sh.calls)))
      else (sh, Writing(q))
    case Write(s, k, call) =>
      if o == Sent && s in sh.wire
      then (sh.(wire := sh.wire[s := sh.wire[s] + [call]]), Writing(q))
      else if o == Go then (sh.(sendLock := None), Idle)
      else if o == Fail then (sh.(sendLock := None), Dropping(DropAcquire(s, k)))
      else (sh, Writing(q))
  }

  function ExecDrop(sh: Shared, t: Tid, q: DropPc): (Shared, Pc) {
    match q
    case DropAcquire(s, k) => Acquire(sh, t, Dropping(q), Dropping(DropClear(s, k)))
    case DropClear(s, k) =>
      if sh.sock == Some(s)
      then Release(sh.(sock := None, owner := sh.owner[s := t]), Dropping(DropClose(s, k, true)))
      else Release(sh, Dropping(DropClose(s, k, false)))
    case DropClose(s, k, _) =>
      (Shut(sh, s),
       match k
       case Retry(n) => if n == 0 then Sending(Acquire1(1)) else Idle
       case Return => Idle
       case Resume => Reading(Top))
  }

  function ExecClose(sh: Shared, t: Tid, q: ClosePc): (Shared, Pc) {
    match q
    case Flag => (sh.(closed := true), Closing(ReadAcquire))
    case ReadAcquire => Acquire(sh, t, Closing(q), Closing(ReadRef))
    case ReadRef => Release(sh.(barrier := true), Closing(ClearAcquire(sh.sock)))
    case ClearAcquire(cur) => Acquire(sh, t, Closing(q), Closing(ClearRef(cur)))
    case ClearRef(cur) =>
      var owner := if sh.sock.Some? then sh.owner[sh.sock.value := t] else sh.owner;
      Release(sh.(sock := None, owner := owner, swept := true),
              Closing(CloseSocket(cur, sh.sock.Some?)))
    case CloseSocket(cur, _) =>
      ((if cur.Some? then Shut(sh, cur.value) else sh).(finished := true), Idle)
  }

  function ExecRead(sh: Shared, t: Tid, q: ReadPc, o: Outcome): (Shared, Pc) {
    match q
    case Top => (sh, if sh.closed then Exited else Reading(TopAcquire))
    case TopAcquire => Acquire(sh, t, Reading(q), Reading(TopPeek))
    case TopPeek => Release(sh, Reading(if sh.sock.Some? then Recv(sh.sock.value) else NoSocket))
    case NoSocket => (sh, Reading(if sh.everConnected then Probe else Top))
    case Recv(s) => (sh, if o == Fail then Dropping(DropAcquire(s, Resume)) else Reading(Top))
    case Probe =>
      if o.Opened? && o.s !in sh.wire then (Open(sh, t, o.s), Reading(ProbeAcquire(o.s)))
      else if o == Fail then (sh, Reading(Top))
      else (sh, Reading(q))
    case ProbeAcquire(s) => Acquire(sh, t, Reading(q), Reading(ProbeCheck(s)))
    case ProbeCheck(s) => (sh, Reading(if sh.closed then ProbeRefuse(s) else ProbeInstall(s)))
    case ProbeInstall(s) =>
      if sh.sock.Some? then (sh, Reading(ProbeRefuse(s))) else (Publish(sh, s), Reading(ProbeMark(s)))
    case ProbeRefuse(s) => Release(Shut(sh, s), Reading(Top))
    case ProbeMark(s) => Release(sh.(everConnected := true), Reading(Top))
  }

  function ExecIdle(sh: Shared, o: Outcome): (Shared, Pc) {
    match o
    case CallSend => (sh, Sending(Acquire1(0)))
    case CallKeepalive => (sh, Writing(KeepAcquire))
    case CallClose => (sh, Closing(Flag))
    case _ => (sh, Idle)
  }

  /** One step of thread `t` at program point `p`. */
  function Exec(sh: Shared, t: Tid, p: Pc, o: Outcome): (Shared, Pc) {
    match p
    case Idle => ExecIdle(sh, o)
    case Exited => (sh, p)
    case Sending(q) => ExecSend(sh, t, q, o)
    case Writing(q) => ExecWrite(sh, t, q, o)
    case Dropping(q) => ExecDrop(sh, t, q)
    case Closing(q) => ExecClose(sh, t, q)
    case Reading(q) => ExecRead(sh, t, q, o)
  }

  function Next(st: State, e: Event): State {
    if e.t !in st.pc then st
    else
      var (sh, p) := Exec(st.sh, e.t, st.pc[e.t], e.o);
      State(st.pc[e.t := p], sh)
  }

  function Run(st: State, schedule: seq<Event>): State
    decreases |schedule|
  {
    if schedule == [] then st else Run(Next(st, schedule[0]), schedule[1..])
  }

  // ---------------------------------------------------------------- who must close what

  /** The socket this thread connected and has not yet published or closed. */
  function Fresh(p: Pc): Option<Sock> {
    match p
    case Sending(q) =>
      if q.Acquire2? || q.Check? || q.Refuse? || q.Install? || q.Lose? then Some(q.s) else None
    case Reading(q) =>
      if q.ProbeAcquire? || q.ProbeCheck? || q.ProbeInstall? || q.ProbeRefuse? then Some(q.s) else None
    case _ => None
  }

  /** The socket this thread itself took out of `_sock` and has not yet closed. */
  function Retired(p: Pc): Option<Sock> {
    match p
    case Dropping(q) => if q.DropClose? && q.cleared then Some(q.s) else None
    case Closing(q) => if q.CloseSocket? && q.cleared then q.cur else None
    case _ => None
  }

  predicate Owns(p: Pc, s: Sock) {
    Fresh(p) == Some(s) || Retired(p) == Some(s)
  }

  /** A socket this thread read out of `_sock` at some earlier time. */
  function Borrowed(p: Pc): Option<Sock> {
    match p
    case Sending(q) => if q.Mark? then Some(q.s) else None
    case Writing(q) => if q.WaitTurn? || q.Write? then Some(q.s) else None
    case Dropping(q) => Some(q.s)
    case Closing(q) => if q.ClearAcquire? || q.ClearRef? || q.CloseSocket? then q.cur else None
    case Reading(q) => if q.Recv? then Some(q.s) else None
    case _ => None
  }

  predicate Holds(p: Pc) {
    match p
    case Sending(q) => !(q.Acquire1? || q.Connect? || q.Acquire2?)
    case Writing(q) => q.KeepPeek?
    case Dropping(q) => q.DropClear?
    case Closing(q) => q.ReadRef? || q.ClearRef?
    case Reading(q) => q.TopPeek? || q.ProbeCheck? || q.ProbeInstall? || q.ProbeRefuse? || q.ProbeMark?
    case _ => false
  }

  ghost predicate LocksOk(sh: Shared, t: Tid, p: Pc) {
    && (Holds(p) <==> sh.lock == Some(t))
    && ((p.Writing? && p.write.Write?) <==> sh.sendLock == Some(t))
    && (p.Writing? && p.write.Write? ==> sh.calls == p.write.call + 1)
  }

  ghost predicate SocketsOk(sh: Shared, t: Tid, p: Pc) {
    && (Fresh(p).Some? ==>
          var s := Fresh(p).value;
          s in sh.wire && s !in sh.shut && s !in sh.everPub && s in sh.owner && sh.owner[s] == t)
    && (Retired(p).Some? ==>
          var s := Retired(p).value;
          s in sh.owner && sh.owner[s] == t)
    && (Borrowed(p).Some? ==> Borrowed(p).value in sh.everPub)
  }

  ghost predicate PointOk(sh: Shared, p: Pc) {
    match p
    case Sending(q) =>
      && (q.Lose? || q.Borrow? ==> sh.sock.Some?)
      && (q.Install? ==> !sh.barrier)
    case Dropping(q) => q.DropClose? ==> sh.sock != Some(q.s)
    case Closing(q) =>
      && (q.ReadAcquire? || q.ReadRef? ==> sh.closed)
      && (q.ClearAcquire? || q.ClearRef? ==> sh.barrier && (sh.sock == None || sh.sock == q.cur))
      && (q.CloseSocket? ==> sh.swept && (q.cleared ==> q.cur.Some?))
    case Reading(q) => q.ProbeInstall? ==> !sh.barrier
    case _ => true
  }

  ghost predicate ThreadOk(sh: Shared, t: Tid, p: Pc) {
    LocksOk(sh, t, p) && SocketsOk(sh, t, p) && PointOk(sh, p)
  }

  ghost predicate SharedOk(sh: Shared) {
    && (sh.sock.Some? ==> sh.sock.value in sh.everPub && sh.sock.value !in sh.shut)
    && sh.everPub <= sh.wire.Keys
    && sh.shut <= sh.wire.Keys
    && (sh.barrier ==> sh.closed)
    && (sh.swept ==> sh.barrier && sh.sock == None)
    && (sh.finished ==> sh.swept)
    && (forall s <- sh.wire :: Ordered(sh.wire[s], sh.calls))
  }

  /** Call numbers along one socket never decrease, and stay below the next number. */
  ghost predicate Ordered(w: seq<int>, calls: int) {
    && (forall i, j :: 0 <= i <= j < |w| ==> w[i] <= w[j])
    && (forall i :: 0 <= i < |w| ==> w[i] < calls)
  }

  predicate Unclaimed(sh: Shared, s: Sock) {
    s in sh.wire && s !in sh.shut && sh.sock != Some(s)
  }

  /** After a step of `t`, the unclaimed socket `s` is owned by `t`, or by whoever owned it before. */
  ghost predicate HandedOver(sh: Shared, t: Tid, after: (Shared, Pc), s: Sock) {
    s in after.0.owner
    && if after.0.owner[s] == t then Owns(after.1, s)
       else Unclaimed(sh, s) && s in sh.owner && after.0.owner[s] == sh.owner[s]
  }

  ghost predicate Inv(st: State) {
    && (forall t <- st.pc :: ThreadOk(st.sh, t, st.pc[t]))
    && SharedOk(st.sh)
    && (forall s :: Unclaimed(st.sh, s) ==>
          s in st.sh.owner && st.sh.owner[s] in st.pc && Owns(st.pc[st.sh.owner[s]], s))
  }

  lemma InitInv(st: State)
    requires Init(st)
    ensures Inv(st)
  {
  }

  lemma SendLocks(sh: Shared, t: Tid, q: SendPc, o: Outcome)
    requires SharedOk(sh) && ThreadOk(sh, t, Sending(q))
    ensures var (sh', p') := ExecSend(sh, t, q, o); LocksOk(sh', t, p')
  {
  }

  lemma SendActor(sh: Shared, t: Tid, q: SendPc, o: Outcome)
    requires SharedOk(sh) && ThreadOk(sh, t, Sending(q))
    ensures var (sh', p') := ExecSend(sh, t, q, o); SocketsOk(sh', t, p') && PointOk(sh', p')
  {
  }

  lemma SendShared(sh: Shared, t: Tid, q: SendPc, o: Outcome)
    requires SharedOk(sh) && ThreadOk(sh, t, Sending(q))
    ensures SharedOk(ExecSend(sh, t, q, o).0)
  {
  }

  lemma SendOtherLocks(sh: Shared, t: Tid, q: SendPc, o: Outcome, u: Tid, r: Pc)
    requires SharedOk(sh) && ThreadOk(sh, t, Sending(q)) && ThreadOk(sh, u, r) && t != u
    ensures LocksOk(ExecSend(sh, t, q, o).0, u, r)
  {
  }

  lemma SendOtherSockets(sh: Shared, t: Tid, q: SendPc, o: Outcome, u: Tid, r: Pc)
    requires SharedOk(sh) && ThreadOk(sh, t, Sending(q)) && ThreadOk(sh, u, r) && t != u
    ensures SocketsOk(ExecSend(sh, t, q, o).0, u, r)
  {
  }

  lemma SendOtherPoint(sh: Shared, t: Tid, q: SendPc, o: Outcome, u: Tid, r: Pc)
    requires SharedOk(sh) && ThreadOk(sh, t, Sending(q)) && ThreadOk(sh, u, r) && t != u
    ensures PointOk(ExecSend(sh, t, q, o).0, r)
  {
  }

  lemma SendOther(sh: Shared, t: Tid, q: SendPc, o: Outcome, u: Tid, r: Pc)
    requires SharedOk(sh) && ThreadOk(sh, t, Sending(q)) && ThreadOk(sh, u, r) && t != u
    ensures ThreadOk(ExecSend(sh, t, q, o).0, u, r)
  {
    SendOtherLocks(sh, t, q, o, u, r);
    SendOtherSockets(sh, t, q, o, u, r);
    SendOtherPoint(sh, t, q, o, u, r);
  }

  lemma SendHandOver(sh: Shared, t: Tid, q: SendPc, o: Outcome, s: Sock)
    requires SharedOk(sh) && ThreadOk(sh, t, Sending(q))
    requires Unclaimed(ExecSend(sh, t, q, o).0, s)
    requires Unclaimed(sh, s) ==> s in sh.owner && (sh.owner[s] == t ==> Owns(Sending(q), s))
    ensures HandedOver(sh, t, ExecSend(sh, t, q, o), s)
  {
  }

  lemma WriteActor(sh: Shared, t: Tid, q: WritePc, o: Outcome)
    requires SharedOk(sh) && ThreadOk(sh, t, Writing(q))
    ensures var (sh', p') := ExecWrite(sh, t, q, o); ThreadOk(sh', t, p')
  {
  }

  lemma WriteShared(sh: Shared, t: Tid, q: WritePc, o: Outcome)
    requires SharedOk(sh) && ThreadOk(sh, t, Writing(q))
    ensures SharedOk(ExecWrite(sh, t, q, o).0)
  {
  }

  lemma WriteOtherLocks(sh: Shared, t: Tid, q: WritePc, o: Outcome, u: Tid, r: Pc)
    requires SharedOk(sh) && ThreadOk(sh, t, Writing(q)) && ThreadOk(sh, u, r) && t != u
    ensures LocksOk(ExecWrite(sh, t, q, o).0, u, r)
  {
  }

  lemma WriteKeepsOwner(sh: Shared, t: Tid, q: WritePc, o: Outcome, s: Sock)
    ensures var sh' := ExecWrite(sh, t, q, o).0;
            && (s in sh.owner ==> s in sh'.owner && sh'.owner[s] == sh.owner[s])
            && (s in sh'.everPub <==> s in sh.everPub) && (s in sh'.shut <==> s in sh.shut)
  {
  }

  lemma WriteKeepsWires(sh: Shared, t: Tid, q: WritePc, o: Outcome, s: Sock)
    requires s in sh.wire
    ensures s in ExecWrite(sh, t, q, o).0.wire
  {
  }

  lemma WriteOtherSockets(sh: Shared, t: Tid, q: WritePc, o: Outcome, u: Tid, r: Pc)
    requires SharedOk(sh) && ThreadOk(sh, t, Writing(q)) && ThreadOk(sh, u, r) && t != u
    ensures SocketsOk(ExecWrite(sh, t, q, o).0, u, r)
  {
    if Fresh(r).Some? {
      WriteKeepsOwner(sh, t, q, o, Fresh(r).value);
      WriteKeepsWires(sh, t, q, o, Fresh(r).value);
    }
    if Retired(r).Some? {
      WriteKeepsOwner(sh, t, q, o, Retired(r).value);
    }
    if Borrowed(r).Some? {
      WriteKeepsOwner(sh, t, q, o, Borrowed(r).value);
    }
  }

  lemma WriteOtherPoint(sh: Shared, t: Tid, q: WritePc, o: Outcome, u: Tid, r: Pc)
    requires SharedOk(sh) && ThreadOk(sh, t, Writing(q)) && ThreadOk(sh, u, r) && t != u
    ensures PointOk(ExecWrite(sh, t, q, o).0, r)
  {
  }

  lemma WriteOther(sh: Shared, t: Tid, q: WritePc, o: Outcome, u: Tid, r: Pc)
    requires SharedOk(sh) && ThreadOk(sh, t, Writing(q)) && ThreadOk(sh, u, r) && t != u
    ensures ThreadOk(ExecWrite(sh, t, q, o).0, u, r)
  {
    WriteOtherLocks(sh, t, q, o, u, r);
    WriteOtherSockets(sh, t, q, o, u, r);
    WriteOtherPoint(sh, t, q, o, u, r);
  }

  lemma WriteHandOver(sh: Shared, t: Tid, q: WritePc, o: Outcome, s: Sock)
    requires SharedOk(sh) && ThreadOk(sh, t, Writing(q))
    requires Unclaimed(ExecWrite(sh, t, q, o).0, s)
    requires Unclaimed(sh, s) ==> s in sh.owner && (sh.owner[s] == t ==> Owns(Writing(q), s))
    ensures HandedOver(sh, t, ExecWrite(sh, t, q, o), s)
  {
  }

  lemma DropActor(sh: Shared, t: Tid, q: DropPc)
    requires SharedOk(sh) && ThreadOk(sh, t, Dropping(q))
    ensures var (sh', p') := ExecDrop(sh, t, q); ThreadOk(sh', t, p')
  {
  }

  lemma DropShared(sh: Shared, t: Tid, q: DropPc)
    requires SharedOk(sh) && ThreadOk(sh, t, Dropping(q))
    ensures SharedOk(ExecDrop(sh, t, q).0)
  {
  }

  lemma DropOtherLocks(sh: Shared, t: Tid, q: DropPc, u: Tid, r: Pc)
    requires SharedOk(sh) && ThreadOk(sh, t, Dropping(q)) && ThreadOk(sh, u, r) && t != u
    ensures LocksOk(ExecDrop(sh, t, q).0, u, r)
  {
  }

  lemma DropOtherSockets(sh: Shared, t: Tid, q: DropPc, u: Tid, r: Pc)
    requires SharedOk(sh) && ThreadOk(sh, t, Dropping(q)) && ThreadOk(sh, u, r) && t != u
    ensures SocketsOk(ExecDrop(sh, t, q).0, u, r)
  {
  }

  lemma DropOtherPoint(sh: Shared, t: Tid, q: DropPc, u: Tid, r: Pc)
    requires SharedOk(sh) && ThreadOk(sh, t, Dropping(q)) && ThreadOk(sh, u, r) && t != u
    ensures PointOk(ExecDrop(sh, t, q).0, r)
  {
  }

  lemma DropOther(sh: Shared, t: Tid, q: DropPc, u: Tid, r: Pc)
    requires SharedOk(sh) && ThreadOk(sh, t, Dropping(q)) && ThreadOk(sh, u, r) && t != u
    ensures ThreadOk(ExecDrop(sh, t, q).0, u, r)
  {
    DropOtherLocks(sh, t, q, u, r);
    DropOtherSockets(sh, t, q, u, r);
    DropOtherPoint(sh, t, q, u, r);
  }

  lemma DropHandOver(sh: Shared, t: Tid, q: DropPc, s: Sock)
    requires SharedOk(sh) && ThreadOk(sh, t, Dropping(q))
    requires Unclaimed(ExecDrop(sh, t, q).0, s)
    requires Unclaimed(sh, s) ==> s in sh.owner && (sh.owner[s] == t ==> Owns(Dropping(q), s))
    ensures HandedOver(sh, t, ExecDrop(sh, t, q), s)
  {
  }

  lemma CloseActor(sh: Shared, t: Tid, q: ClosePc)
    requires SharedOk(sh) && ThreadOk(sh, t, Closing(q))
    ensures var (sh', p') := ExecClose(sh, t, q); ThreadOk(sh', t, p')
  {
  }

  lemma CloseShared(sh: Shared, t: Tid, q: ClosePc)
    requires SharedOk(sh) && ThreadOk(sh, t, Closing(q))
    ensures SharedOk(ExecClose(sh, t, q).0)
  {
  }

  lemma CloseOtherLocks(sh: Shared, t: Tid, q: ClosePc, u: Tid, r: Pc)
    requires SharedOk(sh) && ThreadOk(sh, t, Closing(q)) && ThreadOk(sh, u, r) && t != u
    ensures LocksOk(ExecClose(sh, t, q).0, u, r)
  {
  }

  lemma CloseOtherSockets(sh: Shared, t: Tid, q: ClosePc, u: Tid, r: Pc)
    requires SharedOk(sh) && ThreadOk(sh, t, Closing(q)) && ThreadOk(sh, u, r) && t != u
    ensures SocketsOk(ExecClose(sh, t, q).0, u, r)
  {
  }

  lemma CloseOtherPoint(sh: Shared, t: Tid, q: ClosePc, u: Tid, r: Pc)
    requires SharedOk(sh) && ThreadOk(sh, t, Closing(q)) && ThreadOk(sh, u, r) && t != u
    ensures PointOk(ExecClose(sh, t, q).0, r)
  {
  }

  lemma CloseOther(sh: Shared, t: Tid, q: ClosePc, u: Tid, r: Pc)
    requires SharedOk(sh) && ThreadOk(sh, t, Closing(q)) && ThreadOk(sh, u, r) && t != u
    ensures ThreadOk(ExecClose(sh, t, q).0, u, r)
  {
    CloseOtherLocks(sh, t, q, u, r);
    CloseOtherSockets(sh, t, q, u, r);
    CloseOtherPoint(sh, t, q, u, r);
  }

  lemma CloseHandOver(sh: Shared, t: Tid, q: ClosePc, s: Sock)
    requires SharedOk(sh) && ThreadOk(sh, t, Closing(q))
    requires Unclaimed(ExecClose(sh, t, q).0, s)
    requires Unclaimed(sh, s) ==> s in sh.owner && (sh.owner[s] == t ==> Owns(Closing(q), s))
    ensures HandedOver(sh, t, ExecClose(sh, t, q), s)
  {
  }

  lemma ReadLocks(sh: Shared, t: Tid, q: ReadPc, o: Outcome)
    requires SharedOk(sh) && ThreadOk(sh, t, Reading(q))
    ensures var (sh', p') := ExecRead(sh, t, q, o); LocksOk(sh', t, p')
  {
  }

  lemma ReadActor(sh: Shared, t: Tid, q: ReadPc, o: Outcome)
    requires SharedOk(sh) && ThreadOk(sh, t, Reading(q))
    ensures var (sh', p') := ExecRead(sh, t, q, o); SocketsOk(sh', t, p') && PointOk(sh', p')
  {
    ReadPoint(sh, t, q, o);
  }

  lemma ReadPoint(sh: Shared, t: Tid, q: ReadPc, o: Outcome)
    requires SharedOk(sh) && ThreadOk(sh, t, Reading(q))
    ensures var (sh', p') := ExecRead(sh, t, q, o); PointOk(sh', p')
  {
  }

  lemma ReadShared(sh: Shared, t: Tid, q: ReadPc, o: Outcome)
    requires SharedOk(sh) && ThreadOk(sh, t, Reading(q))
    ensures SharedOk(ExecRead(sh, t, q, o).0)
  {
  }

  lemma ReadOtherLocks(sh: Shared, t: Tid, q: ReadPc, o: Outcome, u: Tid, r: Pc)
    requires SharedOk(sh) && ThreadOk(sh, t, Reading(q)) && ThreadOk(sh, u, r) && t != u
    ensures LocksOk(ExecRead(sh, t, q, o).0, u, r)
  {
  }

  lemma ReadOtherSockets(sh: Shared, t: Tid, q: ReadPc, o: Outcome, u: Tid, r: Pc)
    requires SharedOk(sh) && ThreadOk(sh, t, Reading(q)) && ThreadOk(sh, u, r) && t != u
    ensures SocketsOk(ExecRead(sh, t, q, o).0, u, r)
  {
  }

  lemma ReadOtherPoint(sh: Shared, t: Tid, q: ReadPc, o: Outcome, u: Tid, r: Pc)
    requires SharedOk(sh) && ThreadOk(sh, t, Reading(q)) && ThreadOk(sh, u, r) && t != u
    ensures PointOk(ExecRead(sh, t, q, o).0, r)
  {
  }

  lemma ReadOther(sh: Shared, t: Tid, q: ReadPc, o: Outcome, u: Tid, r: Pc)
    requires SharedOk(sh) && ThreadOk(sh, t, Reading(q)) && ThreadOk(sh, u, r) && t != u
    ensures ThreadOk(ExecRead(sh, t, q, o).0, u, r)
  {
    ReadOtherLocks(sh, t, q, o, u, r);
    ReadOtherSockets(sh, t, q, o, u, r);
    ReadOtherPoint(sh, t, q, o, u, r);
  }

  lemma ReadHandOver(sh: Shared, t: Tid, q: ReadPc, o: Outcome, s: Sock)
    requires SharedOk(sh) && ThreadOk(sh, t, Reading(q))
    requires Unclaimed(ExecRead(sh, t, q, o).0, s)
    requires Unclaimed(sh, s) ==> s in sh.owner && (sh.owner[s] == t ==> Owns(Reading(q), s))
    ensures HandedOver(sh, t, ExecRead(sh, t, q, o), s)
  {
  }

  lemma Actor(sh: Shared, t: Tid, p: Pc, o: Outcome)
    requires SharedOk(sh) && ThreadOk(sh, t, p)
    ensures var (sh', p') := Exec(sh, t, p, o); ThreadOk(sh', t, p') && SharedOk(sh')
  {
    match p
    case Idle =>
    case Exited =>
    case Sending(q) => SendLocks(sh, t, q, o); SendActor(sh, t, q, o); SendShared(sh, t, q, o);
    case Writing(q) => WriteActor(sh, t, q, o); WriteShared(sh, t, q, o);
    case Dropping(q) => DropActor(sh, t, q); DropShared(sh, t, q);
    case Closing(q) => CloseActor(sh, t, q); CloseShared(sh, t, q);
    case Reading(q) => ReadLocks(sh, t, q, o); ReadActor(sh, t, q, o); ReadShared(sh, t, q, o);
  }

  lemma Other(sh: Shared, t: Tid, p: Pc, o: Outcome, u: Tid, r: Pc)
    requires SharedOk(sh) && ThreadOk(sh, t, p) && ThreadOk(sh, u, r) && t != u
    ensures ThreadOk(Exec(sh, t, p, o).0, u, r)
  {
    match p
    case Idle =>
    case Exited =>
    case Sending(q) => SendOther(sh, t, q, o, u, r);
    case Writing(q) => WriteOther(sh, t, q, o, u, r);
    case Dropping(q) => DropOther(sh, t, q, u, r);
    case Closing(q) => CloseOther(sh, t, q, u, r);
    case Reading(q) => ReadOther(sh, t, q, o, u, r);
  }

  lemma HandOver(sh: Shared, t: Tid, p: Pc, o: Outcome, s: Sock)
    requires SharedOk(sh) && ThreadOk(sh, t, p)
    requires Unclaimed(Exec(sh, t, p, o).0, s)
    requires Unclaimed(sh, s) ==> s in sh.owner && (sh.owner[s] == t ==> Owns(p, s))
    ensures HandedOver(sh, t, Exec(sh, t, p, o), s)
  {
    match p
    case Idle =>
    case Exited =>
    case Sending(q) => SendHandOver(sh, t, q, o, s);
    case Writing(q) => WriteHandOver(sh, t, q, o, s);
    case Dropping(q) => DropHandOver(sh, t, q, s);
    case Closing(q) => CloseHandOver(sh, t, q, s);
    case Reading(q) => ReadHandOver(sh, t, q, o, s);
  }

  lemma NextInv(st: State, e: Event)
    requires Inv(st)
    ensures Inv(Next(st, e))
  {
    if e.t in st.pc {
      var t, p := e.t, st.pc[e.t];
      var after := Exec(st.sh, t, p, e.o);
      Actor(st.sh, t, p, e.o);
      forall u | u in st.pc && u != t
        ensures ThreadOk(after.0, u, st.pc[u])
      {
        Other(st.sh, t, p, e.o, u, st.pc[u]);
      }
      forall s | Unclaimed(after.0, s)
        ensures HandedOver(st.sh, t, after, s)
      {
        HandOver(st.sh, t, p, e.o, s);
      }
    }
  }

  lemma {:induction false} RunInv(st: State, schedule: seq<Event>)
    requires Inv(st)
    ensures Inv(Run(st, schedule))
    decreases |schedule|
  {
    if schedule != [] {
      NextInv(st, schedule[0]);
      RunInv(Next(st, schedule[0]), schedule[1..]);
    }
  }

  // ---------------------------------------------------------------- how `_sock` moves

  /** A step of `t` leaves `_sock` alone, or it holds the lock and installs the socket it connected itself
      where there was none, or it holds the lock and clears the reference from one of the two places that
      may. */
  ghost predicate SockMoves(sh: Shared, t: Tid, p: Pc, sh': Shared) {
    && (sh.swept ==> sh'.swept)
    && (|| (sh'.sock == sh.sock && sh'.everPub == sh.everPub)
        || (sh.lock == Some(t) && sh.sock == None && Fresh(p).Some? && sh'.sock == Fresh(p)
            && sh'.everPub == sh.everPub + {Fresh(p).value})
        || (sh.lock == Some(t) && sh'.sock == None && sh'.everPub == sh.everPub && Clears(p, sh.sock)))
  }

  ghost predicate Clears(p: Pc, sock: Option<Sock>) {
    && sock.Some?
    && (|| (p.Dropping? && p.drop.DropClear? && p.drop.s == sock.value)
        || p == Closing(ClearRef(sock)))
  }

  lemma SendMoves(sh: Shared, t: Tid, q: SendPc, o: Outcome)
    requires SharedOk(sh) && ThreadOk(sh, t, Sending(q))
    ensures SockMoves(sh, t, Sending(q), ExecSend(sh, t, q, o).0)
  {
  }

  lemma WriteMoves(sh: Shared, t: Tid, q: WritePc, o: Outcome)
    requires SharedOk(sh) && ThreadOk(sh, t, Writing(q))
    ensures SockMoves(sh, t, Writing(q), ExecWrite(sh, t, q, o).0)
  {
  }

  lemma DropMoves(sh: Shared, t: Tid, q: DropPc)
    requires SharedOk(sh) && ThreadOk(sh, t, Dropping(q))
    ensures SockMoves(sh, t, Dropping(q), ExecDrop(sh, t, q).0)
  {
  }

  lemma CloseMoves(sh: Shared, t: Tid, q: ClosePc)
    requires SharedOk(sh) && ThreadOk(sh, t, Closing(q))
    ensures SockMoves(sh, t, Closing(q), ExecClose(sh, t, q).0)
  {
  }

  lemma ReadMoves(sh: Shared, t: Tid, q: ReadPc, o: Outcome)
    requires SharedOk(sh) && ThreadOk(sh, t, Reading(q))
    ensures SockMoves(sh, t, Reading(q), ExecRead(sh, t, q, o).0)
  {
  }

  lemma Moves(sh: Shared, t: Tid, p: Pc, o: Outcome)
    requires SharedOk(sh) && ThreadOk(sh, t, p)
    ensures SockMoves(sh, t, p, Exec(sh, t, p, o).0)
  {
    match p
    case Idle =>
    case Exited =>
    case Sending(q) => SendMoves(sh, t, q, o);
    case Writing(q) => WriteMoves(sh, t, q, o);
    case Dropping(q) => DropMoves(sh, t, q);
    case Closing(q) => CloseMoves(sh, t, q);
    case Reading(q) => ReadMoves(sh, t, q, o);
  }

  lemma {:induction false} RunAppend(st: State, a: seq<Event>, b: seq<Event>)
    ensures Run(st, a + b) == Run(Run(st, a), b)
    decreases |a|
  {
    if a == [] {
      assert a + b == b;
    } else {
      assert (a + b)[1..] == a[1..] + b;
      RunAppend(Next(st, a[0]), a[1..], b);
    }
  }

  // ---------------------------------------------------------------- main results

  ghost predicate SoleOwner(st: State, t: Tid, s: Sock) {
    t in st.pc && Owns(st.pc[t], s) && forall u <- st.pc :: Owns(st.pc[u], s) ==> u == t
  }

  ghost predicate Quiescent(st: State) {
    forall t <- st.pc :: OwesNothing(st.pc[t])
  }

  predicate OwesNothing(p: Pc) {
    Fresh(p) == None && Retired(p) == None
  }

  /** Every socket ever opened is closed, or it is `_sock` and nobody else answers for it, or there
      is exactly one thread that still has to publish or close it. */
  lemma EverySocketIsAccountedFor(st: State, schedule: seq<Event>, s: Sock)
    requires Init(st)
    requires s in Run(st, schedule).sh.wire
    ensures var r := Run(st, schedule);
            if s in r.sh.shut then r.sh.sock != Some(s)
            else if r.sh.sock == Some(s) then forall t <- r.pc :: !Owns(r.pc[t], s)
            else exists t :: SoleOwner(r, t, s)
  {
    InitInv(st);
    RunInv(st, schedule);
    var r := Run(st, schedule);
    if s !in r.sh.shut && r.sh.sock != Some(s) {
      assert Unclaimed(r.sh, s);
      assert SoleOwner(r, r.sh.owner[s], s);
    }
  }

  lemma OwnerExists(st: State, s: Sock) returns (t: Tid)
    requires Inv(st) && Unclaimed(st.sh, s)
    ensures t in st.pc && !OwesNothing(st.pc[t])
  {
    t := st.sh.owner[s];
  }

  /** When no thread is between a connect and its publication, or between a clear and its close,
      the only socket that can be open is `_sock`; once close() is done there is none. */
  lemma AtRestOnlyTheReferenceIsOpen(st: State, schedule: seq<Event>)
    requires Init(st)
    requires Quiescent(Run(st, schedule))
    ensures var r := Run(st, schedule);
            && (forall s <- r.sh.wire :: s !in r.sh.shut <==> r.sh.sock == Some(s))
            && (r.sh.finished ==> r.sh.shut == r.sh.wire.Keys)
  {
    InitInv(st);
    RunInv(st, schedule);
    var r := Run(st, schedule);
    forall s | s in r.sh.wire
      ensures s !in r.sh.shut <==> r.sh.sock == Some(s)
    {
      if Unclaimed(r.sh, s) {
        var t := OwnerExists(r, s);
        assert false;
      }
    }
  }

  ghost predicate Kept(sh: Shared, sh': Shared, p: Sock) {
    && (sh.swept ==> sh'.swept)
    && sh.everPub <= sh'.everPub
    && (p in sh.everPub && sh.sock != Some(p) ==> sh'.sock != Some(p))
  }

  lemma {:induction false} Remembers(st: State, schedule: seq<Event>, p: Sock)
    requires Inv(st)
    ensures Kept(st.sh, Run(st, schedule).sh, p)
    decreases |schedule|
  {
    if schedule != [] {
      var st' := Next(st, schedule[0]);
      NextInv(st, schedule[0]);
      StepRemembers(st, schedule[0], p);
      Remembers(st', schedule[1..], p);
    }
  }

  lemma StepRemembers(st: State, e: Event, p: Sock)
    requires Inv(st)
    ensures Kept(st.sh, Next(st, e).sh, p)
  {
    if e.t in st.pc {
      Moves(st.sh, e.t, st.pc[e.t], e.o);
    }
  }

  /** Once some close() has cleared `_sock` it stays clear, whatever any thread does next. */
  lemma ClearedForGood(st: State, before: seq<Event>, after: seq<Event>)
    requires Init(st)
    requires Run(st, before).sh.swept
    ensures Run(st, before + after).sh.sock == None
  {
    InitInv(st);
    RunInv(st, before);
    RunAppend(st, before, after);
    Remembers(Run(st, before), after, 0);
    RunInv(Run(st, before), after);
  }

  /** A socket that has left `_sock` never comes back. */
  lemma NeverRepublished(st: State, before: seq<Event>, after: seq<Event>, p: Sock)
    requires Init(st)
    requires var m := Run(st, before); p in m.sh.everPub && m.sh.sock != Some(p)
    ensures Run(st, before + after).sh.sock != Some(p)
  {
    InitInv(st);
    RunInv(st, before);
    RunAppend(st, before, after);
    Remembers(Run(st, before), after, p);
  }

  /** Only a drop of that very socket, or close(), takes a socket out of `_sock`; a drop of a stale
      one, or a connect that lost the race, leaves the newer one in place. And close() only ever
      clears the socket it is going to close. */
  lemma OnlyItsOwnDropUnpublishes(st: State, schedule: seq<Event>, e: Event, p: Sock)
    requires Init(st)
    requires Run(st, schedule).sh.sock == Some(p)
    requires Next(Run(st, schedule), e).sh.sock != Some(p)
    ensures var r := Run(st, schedule);
            && e.t in r.pc
            && Next(r, e).sh.sock == None
            && ((exists k :: r.pc[e.t] == Dropping(DropClear(p, k)))
                || r.pc[e.t] == Closing(ClearRef(Some(p))))
  {
    InitInv(st);
    RunInv(st, schedule);
    var r := Run(st, schedule);
    Moves(r.sh, e.t, r.pc[e.t], e.o);
    if r.pc[e.t].Dropping? {
      assert r.pc[e.t] == Dropping(DropClear(p, r.pc[e.t].drop.k));
    }
  }

  /** Thread `t` taking `n` steps by itself. */
  function Solo(sh: Shared, t: Tid, p: Pc, n: nat): (Shared, Pc)
    decreases n
  {
    if n == 0 then (sh, p)
    else var (sh', p') := Exec(sh, t, p, Go); Solo(sh', t, p', n - 1)
  }

  ghost predicate SettledAfter(sh: Shared, t: Tid, p: Pc, s: Sock, n: nat) {
    var r := Solo(sh, t, p, n).0;
    s in r.shut || (r.sock == Some(s) && !sh.barrier)
  }

  /** How many of its own steps an owner is away from publishing or closing its socket, at most. */
  function Distance(p: Pc): nat {
    match p
    case Sending(q) => if q.Acquire2? then 4 else if q.Check? then 3 else if q.Install? then 2 else 1
    case Reading(q) => if q.ProbeAcquire? then 4 else if q.ProbeCheck? then 3 else if q.ProbeInstall? then 2 else 1
    case _ => 1
  }

  ghost predicate Advances(sh: Shared, t: Tid, p: Pc, after: (Shared, Pc), s: Sock) {
    || s in after.0.shut
    || (after.0.sock == Some(s) && !sh.barrier)
    || (Owns(after.1, s) && Distance(after.1) < Distance(p)
        && after.0.lock == Some(t) && after.0.barrier == sh.barrier)
  }

  lemma SendAdvances(sh: Shared, t: Tid, q: SendPc, s: Sock)
    requires SharedOk(sh) && ThreadOk(sh, t, Sending(q)) && Owns(Sending(q), s)
    requires sh.lock == None || sh.lock == Some(t)
    ensures Advances(sh, t, Sending(q), ExecSend(sh, t, q, Go), s)
  {
  }

  lemma ReadAdvances(sh: Shared, t: Tid, q: ReadPc, s: Sock)
    requires SharedOk(sh) && ThreadOk(sh, t, Reading(q)) && Owns(Reading(q), s)
    requires sh.lock == None || sh.lock == Some(t)
    ensures Advances(sh, t, Reading(q), ExecRead(sh, t, q, Go), s)
  {
  }

  lemma OwnerAdvances(sh: Shared, t: Tid, p: Pc, s: Sock)
    requires SharedOk(sh) && ThreadOk(sh, t, p) && Owns(p, s)
    requires sh.lock == None || sh.lock == Some(t)
    ensures Advances(sh, t, p, Exec(sh, t, p, Go), s)
  {
    match p
    case Idle =>
    case Exited =>
    case Sending(q) => SendAdvances(sh, t, q, s);
    case Writing(q) =>
    case Dropping(q) =>
    case Closing(q) =>
    case Reading(q) => ReadAdvances(sh, t, q, s);
  }

  /** Ownership is a real obligation: an owner that can get the lock settles its socket within four
      steps of its own, and only by closing it once a close() has read the reference. */
  lemma {:induction false} OwnerSettles(sh: Shared, t: Tid, p: Pc, s: Sock) returns (n: nat)
    requires SharedOk(sh) && ThreadOk(sh, t, p) && Owns(p, s)
    requires sh.lock == None || sh.lock == Some(t)
    ensures n <= 4 && n <= Distance(p) && SettledAfter(sh, t, p, s, n)
    decreases Distance(p)
  {
    var (sh', p') := Exec(sh, t, p, Go);
    OwnerAdvances(sh, t, p, s);
    if s in sh'.shut || (sh'.sock == Some(s) && !sh.barrier) {
      n := 1;
      assert Solo(sh', t, p', 0) == (sh', p');
    } else {
      Actor(sh, t, p, Go);
      var m := OwnerSettles(sh', t, p', s);
      n := m + 1;
    }
  }

  // ---------------------------------------------------------------- the lock is always given back

  /** How many of its own steps a holder is away from releasing the lock, at most. */
  function ToRelease(p: Pc): nat {
    match p
    case Sending(q) => if q.Check? then 4 else if q.Install? then 3 else if q.Lose? then 2 else 1
    case Reading(q) => if q.ProbeCheck? then 3 else if q.ProbeInstall? then 2 else 1
    case _ => 1
  }

  ghost predicate Releases(t: Tid, p: Pc, after: (Shared, Pc)) {
    after.0.lock == None || (Holds(after.1) && ToRelease(after.1) < ToRelease(p))
  }

  lemma HolderAdvances(sh: Shared, t: Tid, p: Pc)
    requires SharedOk(sh) && ThreadOk(sh, t, p) && Holds(p)
    ensures Releases(t, p, Exec(sh, t, p, Go))
  {
  }

  /** No thread waits for anything while it holds the lock: within four steps of its own it has given it
      back. */
  lemma {:induction false} HolderReleases(sh: Shared, t: Tid, p: Pc) returns (n: nat)
    requires SharedOk(sh) && ThreadOk(sh, t, p) && Holds(p)
    ensures n <= ToRelease(p) <= 4 && Solo(sh, t, p, n).0.lock == None
    decreases ToRelease(p)
  {
    var (sh', p') := Exec(sh, t, p, Go);
    HolderAdvances(sh, t, p);
    if sh'.lock == None {
      n := 1;
      assert Solo(sh', t, p', 0) == (sh', p');
    } else {
      Actor(sh, t, p, Go);
      var m := HolderReleases(sh', t, p');
      n := m + 1;
    }
  }

  /** The lock is held by one of the threads, if at all. */
  predicate HolderExists(st: State) {
    st.sh.lock.Some? ==> st.sh.lock.value in st.pc
  }

  /** A step of `t` leaves the lock alone, takes it or frees it. */
  predicate LockMoved(sh: Shared, t: Tid, sh': Shared) {
    sh'.lock == None || sh'.lock == sh.lock || sh'.lock == Some(t)
  }

  lemma SendLockMoves(sh: Shared, t: Tid, q: SendPc, o: Outcome)
    ensures LockMoved(sh, t, ExecSend(sh, t, q, o).0)
  {
  }

  lemma WriteLockMoves(sh: Shared, t: Tid, q: WritePc, o: Outcome)
    ensures LockMoved(sh, t, ExecWrite(sh, t, q, o).0)
  {
  }

  lemma DropLockMoves(sh: Shared, t: Tid, q: DropPc)
    ensures LockMoved(sh, t, ExecDrop(sh, t, q).0)
  {
  }

  lemma CloseLockMoves(sh: Shared, t: Tid, q: ClosePc)
    ensures LockMoved(sh, t, ExecClose(sh, t, q).0)
  {
  }

  lemma ReadLockMoves(sh: Shared, t: Tid, q: ReadPc, o: Outcome)
    ensures LockMoved(sh, t, ExecRead(sh, t, q, o).0)
  {
  }

  lemma LockMoves(sh: Shared, t: Tid, p: Pc, o: Outcome)
    ensures LockMoved(sh, t, Exec(sh, t, p, o).0)
  {
    match p
    case Idle =>
    case Exited =>
    case Sending(q) => SendLockMoves(sh, t, q, o);
    case Writing(q) => WriteLockMoves(sh, t, q, o);
    case Dropping(q) => DropLockMoves(sh, t, q);
    case Closing(q) => CloseLockMoves(sh, t, q);
    case Reading(q) => ReadLockMoves(sh, t, q, o);
  }

  lemma {:induction false} RunHolderExists(st: State, schedule: seq<Event>)
    requires HolderExists(st)
    ensures HolderExists(Run(st, schedule))
    decreases |schedule|
  {
    if schedule != [] {
      var e := schedule[0];
      if e.t in st.pc {
        LockMoves(st.sh, e.t, st.pc[e.t], e.o);
      }
      RunHolderExists(Next(st, e), schedule[1..]);
    }
  }

  /** n steps of thread t alone, as a schedule. */
  function Alone(t: Tid, n: nat): (schedule: seq<Event>)
    ensures |schedule| == n
  {
    seq(n, _ => Event(t, Go))
  }

  lemma {:induction false} SoloIsRun(st: State, t: Tid, n: nat)
    requires t in st.pc
    ensures var (sh, p) := Solo(st.sh, t, st.pc[t], n);
            Run(st, Alone(t, n)) == State(st.pc[t := p], sh)
    decreases n
  {
    if n > 0 {
      SoloIsRun(Next(st, Event(t, Go)), t, n - 1);
      assert Alone(t, n)[1..] == Alone(t, n - 1);
    } else {
      assert st.pc[t := st.pc[t]] == st.pc;
    }
  }

  /** A holder of the lock can always be let go on until it releases it; nobody else moves meanwhile. */
  lemma HolderIsLetGo(st: State) returns (more: seq<Event>)
    requires Inv(st) && HolderExists(st)
    ensures |more| <= 4 && Run(st, more).sh.lock == None
    ensures forall t <- st.pc :: st.sh.lock != Some(t) ==> t in Run(st, more).pc && Run(st, more).pc[t] == st.pc[t]
  {
    more := [];
    if st.sh.lock.Some? {
      var u := st.sh.lock.value;
      var n := HolderReleases(st.sh, u, st.pc[u]);
      more := Alone(u, n);
      SoloIsRun(st, u, n);
    }
  }

  lemma OwnerAlone(st: State, t: Tid, s: Sock) returns (more: seq<Event>)
    requires Inv(st) && t in st.pc && Owns(st.pc[t], s) && (st.sh.lock == None || st.sh.lock == Some(t))
    ensures |more| <= 4
    ensures s in Run(st, more).sh.shut || Run(st, more).sh.sock == Some(s)
  {
    var n := OwnerSettles(st.sh, t, st.pc[t], s);
    more := Alone(t, n);
    SoloIsRun(st, t, n);
  }

  /** In every reachable state the owner of a socket can still settle it: at most four steps of whoever
      holds the lock and four of its own close or publish the socket. */
  lemma OwnerCanAlwaysSettle(st: State, schedule: seq<Event>, t: Tid, s: Sock) returns (more: seq<Event>)
    requires Init(st) && t in Run(st, schedule).pc && Owns(Run(st, schedule).pc[t], s)
    ensures |more| <= 8
    ensures s in Run(st, schedule + more).sh.shut || Run(st, schedule + more).sh.sock == Some(s)
  {
    InitInv(st);
    RunInv(st, schedule);
    RunHolderExists(st, schedule);
    var r := Run(st, schedule);
    var first := [];
    if r.sh.lock != Some(t) {
      first := HolderIsLetGo(r);
    }
    RunInv(r, first);
    var second := OwnerAlone(Run(r, first), t, s);
    more := first + second;
    RunAppend(r, first, second);
    RunAppend(st, schedule, more);
  }

  /** The bytes of one sendall call are contiguous on the socket they were written to. */
  lemma CallsDoNotInterleave(st: State, schedule: seq<Event>, s: Sock, i: nat, j: nat, k: nat)
    requires Init(st)
    requires s in Run(st, schedule).sh.wire
    requires i <= j <= k < |Run(st, schedule).sh.wire[s]|
    requires Run(st, schedule).sh.wire[s][i] == Run(st, schedule).sh.wire[s][k]
    ensures Run(st, schedule).sh.wire[s][j] == Run(st, schedule).sh.wire[s][i]
  {
    InitInv(st);
    RunInv(st, schedule);
    assert Ordered(Run(st, schedule).sh.wire[s], Run(st, schedule).sh.calls);
  }
}
