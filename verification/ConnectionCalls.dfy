/** What the calls of the shared connection do (host/transport.py, class BehaviorClient): each call run alone
    does what its text says, taken as one piece; and over every interleaving each call that has ended did
    its work or has one of the reasons the source allows for not doing it. */
module ConnectionCalls {
  import opened Common
  import opened Connection

  // ---------------------------------------------------------------- the calls as wholes

  /** The connection as it is between calls. */
  datatype Link = Link(sock: Option<Sock>, closed: bool, everConnected: bool, wire: map<Sock, seq<int>>,
                       shut: set<Sock>, calls: int)

  function Seen(sh: Shared): Link {
    Link(sh.sock, sh.closed, sh.everConnected, sh.wire, sh.shut, sh.calls)
  }

  /** What the network does with one attempt: the socket a connect gives, if it gives one; how many bytes go
      out; and whether the sendall then fails. */
  datatype Net = Net(connect: Option<Sock>, bytes: nat, broken: bool)

  /** The reference is a socket; a connect gives a new one. */
  predicate Fits(l: Link, net: Net) {
    && (l.sock.Some? ==> l.sock.value in l.wire)
    && (net.connect.Some? ==> net.connect.value !in l.wire)
  }

  function CloseSock(l: Link, s: Sock): Link {
    l.(shut := l.shut + {s})
  }

  /** `_drop` */
  function DropSock(l: Link, s: Sock): Link {
    CloseSock(if l.sock == Some(s) then l.(sock := None) else l, s)
  }

  /** A connect, and its publication unless the client is closed. */
  function Reconnect(l: Link, s: Sock): Link {
    var up := l.(wire := l.wire[s := []]);
    if l.closed then CloseSock(up, s) else up.(sock := Some(s), everConnected := true)
  }

  /** `_ensure_connected` */
  function EnsureConnected(l: Link, net: Net): Link {
    if l.sock.Some? || net.connect == None then l else Reconnect(l, net.connect.value)
  }

  /** One sendall: n bytes of a new call on s. */
  function SendAll(l: Link, s: Sock, n: nat): Link
    requires s in l.wire
  {
    l.(wire := l.wire[s := l.wire[s] + seq(n, _ => l.calls)], calls := l.calls + 1)
  }

  /** One attempt of `send`: sendall on the reference, if there is one now, and the drop if it fails. */
  function Attempt(l: Link, net: Net): Link
    requires Fits(l, net)
  {
    var c := EnsureConnected(l, net);
    if c.sock == None then c
    else
      var sent := SendAll(c, c.sock.value, net.bytes);
      if net.broken then DropSock(sent, c.sock.value) else sent
  }

  /** The attempt reaches the sendall, and that fails. */
  predicate Breaks(l: Link, net: Net) {
    EnsureConnected(l, net).sock.Some? && net.broken
  }

  /** `send`: a second attempt after a first that broke, and no third. */
  function SendCall(l: Link, first: Net, second: Net): Link
    requires Fits(l, first) && Fits(Attempt(l, first), second)
  {
    var a := Attempt(l, first);
    if Breaks(l, first) then Attempt(a, second) else a
  }

  /** `send_keepalive` */
  function KeepaliveCall(l: Link, net: Net): Link
    requires Fits(l, net)
  {
    Attempt(l, net.(connect := None))
  }

  /** `close` */
  function CloseCall(l: Link): Link {
    var cleared := l.(closed := true, sock := None);
    if l.sock == None then cleared else CloseSock(cleared, l.sock.value)
  }

  /** One turn of `_read_loop`: what recv answers, or what the probe's connect gives. */
  function ReadTurn(l: Link, broken: bool, connect: Option<Sock>): Link {
    if l.closed then l
    else if l.sock.Some? then (if broken then DropSock(l, l.sock.value) else l)
    else if l.everConnected && connect.Some? then Reconnect(l, connect.value)
    else l
  }

  // ---------------------------------------------------------------- a thread by itself

  /** Thread t takes these steps and nobody else moves. */
  function Does(sh: Shared, t: Tid, p: Pc, answers: seq<Outcome>): (Shared, Pc)
    decreases |answers|
  {
    if answers == [] then (sh, p)
    else
      var (sh', p') := Exec(sh, t, p, answers[0]);
      Does(sh', t, p', answers[1..])
  }

  lemma {:induction false} DoesAppend(sh: Shared, t: Tid, p: Pc, a: seq<Outcome>, b: seq<Outcome>)
    ensures Does(sh, t, p, a + b) == var (sh', p') := Does(sh, t, p, a); Does(sh', t, p', b)
    decreases |a|
  {
    if a == [] {
      assert a + b == b;
    } else {
      var (sh', p') := Exec(sh, t, p, a[0]);
      assert (a + b)[1..] == a[1..] + b;
      DoesAppend(sh', t, p', a[1..], b);
    }
  }

  function Steps(t: Tid, answers: seq<Outcome>): seq<Event> {
    seq(|answers|, i requires 0 <= i < |answers| => Event(t, answers[i]))
  }

  lemma {:induction false} DoesIsRun(st: State, t: Tid, answers: seq<Outcome>)
    requires t in st.pc
    ensures var (sh, p) := Does(st.sh, t, st.pc[t], answers);
            Run(st, Steps(t, answers)) == State(st.pc[t := p], sh)
    decreases |answers|
  {
    if answers == [] {
      assert st.pc[t := st.pc[t]] == st.pc;
    } else {
      DoesIsRun(Next(st, Event(t, answers[0])), t, answers[1..]);
      assert Steps(t, answers)[1..] == Steps(t, answers[1..]);
    }
  }

  /** Both locks are free, and the reference is a socket. */
  predicate Free(sh: Shared) {
    sh.lock == None && sh.sendLock == None && (sh.sock.Some? ==> sh.sock.value in sh.wire)
  }

  /** These steps lead from (sh, p) to (sh', p'). */
  predicate Leads(sh: Shared, t: Tid, p: Pc, answers: seq<Outcome>, sh': Shared, p': Pc) {
    Does(sh, t, p, answers) == (sh', p')
  }

  lemma Then(sh: Shared, t: Tid, p: Pc, a: seq<Outcome>, sh': Shared, p': Pc, b: seq<Outcome>, sh'': Shared, p'': Pc)
    requires Leads(sh, t, p, a, sh', p') && Leads(sh', t, p', b, sh'', p'')
    ensures Leads(sh, t, p, a + b, sh'', p'')
  {
    DoesAppend(sh, t, p, a, b);
  }

  function Sents(n: nat): seq<Outcome> {
    seq(n, _ => Sent)
  }

  lemma {:induction false} Bytes(sh: Shared, t: Tid, s: Sock, k: After, call: int, n: nat)
    requires s in sh.wire
    ensures var p := Writing(Write(s, k, call));
            Leads(sh, t, p, Sents(n), sh.(wire := sh.wire[s := sh.wire[s] + seq(n, _ => call)]), p)
    decreases n
  {
    var p := Writing(Write(s, k, call));
    if n == 0 {
      assert sh.wire[s] + seq(n, _ => call) == sh.wire[s];
      assert sh.wire[s := sh.wire[s]] == sh.wire;
    } else {
      var one := sh.(wire := sh.wire[s := sh.wire[s] + [call]]);
      One(sh, t, p, Sent);
      Bytes(one, t, s, k, call, n - 1);
      var whole := one.(wire := one.wire[s := one.wire[s] + seq(n - 1, _ => call)]);
      Then(sh, t, p, [Sent], one, p, Sents(n - 1), whole, p);
      assert [Sent] + Sents(n - 1) == Sents(n);
      assert one.wire[s] + seq(n - 1, _ => call) == sh.wire[s] + seq(n, _ => call);
      assert whole.wire == sh.wire[s := sh.wire[s] + seq(n, _ => call)];
    }
  }

  lemma One(sh: Shared, t: Tid, p: Pc, o: Outcome)
    ensures var (sh', p') := Exec(sh, t, p, o); Leads(sh, t, p, [o], sh', p')
  {
    var (sh', p') := Exec(sh, t, p, o);
    assert Does(sh', t, p', []) == (sh', p');
    assert [o][1..] == [];
  }

  /** Where two steps that wait for nothing lead. */
  function Two(sh: Shared, t: Tid, p: Pc): (Shared, Pc) {
    var (sh', p') := Exec(sh, t, p, Go); Exec(sh', t, p', Go)
  }

  lemma TwoSteps(sh: Shared, t: Tid, p: Pc)
    ensures var (sh', p') := Two(sh, t, p); Leads(sh, t, p, [Go, Go], sh', p')
  {
    var (a, pa) := Exec(sh, t, p, Go);
    One(sh, t, p, Go);
    One(a, t, pa, Go);
    Then(sh, t, p, [Go], a, pa, [Go], Exec(a, t, pa, Go).0, Exec(a, t, pa, Go).1);
    assert [Go] + [Go] == [Go, Go];
  }

  // ---------------------------------------------------------------- the parts of a call, alone

  /** From the wait for the send lock to the end of the sendall. */
  lemma TurnAlone(sh: Shared, t: Tid, s: Sock, k: After, net: Net) returns (answers: seq<Outcome>, sh': Shared)
    requires Free(sh) && s in sh.wire
    ensures Seen(sh') == SendAll(Seen(sh), s, net.bytes) && sh'.lock == None && sh'.sendLock == None
    ensures Leads(sh, t, Writing(WaitTurn(s, k)), answers, sh',
                  if net.broken then Dropping(DropAcquire(s, k)) else Idle)
  {
    var p, q := Writing(WaitTurn(s, k)), Writing(Write(s, k, sh.calls));
    var a := Exec(sh, t, p, Go).0;
    var b := a.(wire := a.wire[s := a.wire[s] + seq(net.bytes, _ => sh.calls)]);
    var last := if net.broken then Fail else Go;
    One(sh, t, p, Go);
    Bytes(a, t, s, k, sh.calls, net.bytes);
    Then(sh, t, p, [Go], a, q, Sents(net.bytes), b, q);
    One(b, t, q, last);
    sh' := b.(sendLock := None);
    var end := if net.broken then Dropping(DropAcquire(s, k)) else Idle;
    answers := [Go] + Sents(net.bytes) + [last];
    Then(sh, t, p, [Go] + Sents(net.bytes), b, q, [last], sh', end);
  }

  function AfterDrop(k: After): Pc {
    match k
    case Retry(n) => if n == 0 then Sending(Acquire1(1)) else Idle
    case Return => Idle
    case Resume => Reading(Top)
  }

  lemma ClearAlone(sh: Shared, t: Tid, s: Sock, k: After) returns (sh': Shared, cleared: bool)
    requires Free(sh)
    ensures Seen(sh') == Seen(sh).(sock := if sh.sock == Some(s) then None else sh.sock) && Free(sh')
    ensures Leads(sh, t, Dropping(DropAcquire(s, k)), [Go, Go], sh', Dropping(DropClose(s, k, cleared)))
  {
    TwoSteps(sh, t, Dropping(DropAcquire(s, k)));
    sh' := Two(sh, t, Dropping(DropAcquire(s, k))).0;
    cleared := sh.sock == Some(s);
  }

  lemma ShutAlone(sh: Shared, t: Tid, s: Sock, k: After, cleared: bool)
    ensures Leads(sh, t, Dropping(DropClose(s, k, cleared)), [Go], Shut(sh, s), AfterDrop(k))
  {
    One(sh, t, Dropping(DropClose(s, k, cleared)), Go);
  }

  lemma DropAlone(sh: Shared, t: Tid, s: Sock, k: After) returns (answers: seq<Outcome>, sh': Shared)
    requires Free(sh)
    ensures Seen(sh') == DropSock(Seen(sh), s) && Free(sh')
    ensures Leads(sh, t, Dropping(DropAcquire(s, k)), answers, sh', AfterDrop(k))
  {
    var a, cleared := ClearAlone(sh, t, s, k);
    ShutAlone(a, t, s, k, cleared);
    answers, sh' := [Go, Go] + [Go], Shut(a, s);
    Then(sh, t, Dropping(DropAcquire(s, k)), [Go, Go], a, Dropping(DropClose(s, k, cleared)), [Go], sh', AfterDrop(k));
  }

  /** A thread that has just connected s takes the lock, looks and publishes or closes. */
  lemma ConnectAlone(sh: Shared, t: Tid, n: nat, s: Sock) returns (answers: seq<Outcome>, sh': Shared)
    requires Free(sh) && sh.sock == None && s !in sh.wire
    ensures Seen(sh') == Reconnect(Seen(sh), s) && Free(sh')
    ensures Leads(sh, t, Sending(Connect(n)), answers, sh',
                  if sh.closed then Idle else Writing(WaitTurn(s, Retry(n))))
  {
    var p, q := Sending(Connect(n)), Sending(Acquire2(n, s));
    var a := Open(sh, t, s);
    One(sh, t, p, Opened(s));
    var (b, pb) := Two(a, t, q);
    TwoSteps(a, t, q);
    Then(sh, t, p, [Opened(s)], a, q, [Go, Go], b, pb);
    if sh.closed {
      One(b, t, pb, Go);
      sh' := Exec(b, t, pb, Go).0;
      answers := [Opened(s)] + [Go, Go] + [Go];
      Then(sh, t, p, [Opened(s)] + [Go, Go], b, pb, [Go], sh', Idle);
    } else {
      TwoSteps(b, t, pb);
      sh' := Two(b, t, pb).0;
      answers := [Opened(s)] + [Go, Go] + [Go, Go];
      Then(sh, t, p, [Opened(s)] + [Go, Go], b, pb, [Go, Go], sh', Writing(WaitTurn(s, Retry(n))));
    }
  }

  lemma EnsureAlone(sh: Shared, t: Tid, n: nat, net: Net) returns (answers: seq<Outcome>, sh': Shared)
    requires Free(sh) && Fits(Seen(sh), net)
    ensures Seen(sh') == EnsureConnected(Seen(sh), net) && Free(sh')
    ensures Leads(sh, t, Sending(Acquire1(n)), answers, sh',
                  if sh'.sock == None then Idle else Writing(WaitTurn(sh'.sock.value, Retry(n))))
  {
    var p := Sending(Acquire1(n));
    var (a, pa) := Two(sh, t, p);
    TwoSteps(sh, t, p);
    if sh.sock.Some? {
      answers, sh' := [Go, Go], a;
    } else if net.connect == None {
      One(a, t, pa, Fail);
      answers, sh' := [Go, Go] + [Fail], a;
      Then(sh, t, p, [Go, Go], a, pa, [Fail], a, Idle);
    } else {
      var more, end := ConnectAlone(a, t, n, net.connect.value);
      answers, sh' := [Go, Go] + more, end;
      Then(sh, t, p, [Go, Go], a, pa, more, end,
           if sh.closed then Idle else Writing(WaitTurn(net.connect.value, Retry(n))));
    }
  }

  /** One attempt of `send`, alone. */
  lemma AttemptAlone(sh: Shared, t: Tid, n: nat, net: Net) returns (answers: seq<Outcome>, sh': Shared)
    requires Free(sh) && Fits(Seen(sh), net)
    ensures Seen(sh') == Attempt(Seen(sh), net) && Free(sh')
    ensures Leads(sh, t, Sending(Acquire1(n)), answers, sh',
                  if Breaks(Seen(sh), net) then AfterDrop(Retry(n)) else Idle)
  {
    var a;
    answers, a := EnsureAlone(sh, t, n, net);
    sh' := a;
    if a.sock.Some? {
      var s, p := a.sock.value, Sending(Acquire1(n));
      var q := Writing(WaitTurn(s, Retry(n)));
      var more, b := TurnAlone(a, t, s, Retry(n), net);
      var after := if net.broken then Dropping(DropAcquire(s, Retry(n))) else Idle;
      Then(sh, t, p, answers, a, q, more, b, after);
      answers, sh' := answers + more, b;
      if net.broken {
        var rest, c := DropAlone(b, t, s, Retry(n));
        Then(sh, t, p, answers, b, after, rest, c, AfterDrop(Retry(n)));
        answers, sh' := answers + rest, c;
      }
    }
  }

  lemma KeepaliveAlone(sh: Shared, t: Tid, net: Net) returns (answers: seq<Outcome>, sh': Shared)
    requires Free(sh) && Fits(Seen(sh), net)
    ensures Seen(sh') == KeepaliveCall(Seen(sh), net) && Free(sh')
    ensures Leads(sh, t, Writing(KeepAcquire), answers, sh', Idle)
  {
    var p := Writing(KeepAcquire);
    var (a, pa) := Two(sh, t, p);
    TwoSteps(sh, t, p);
    answers, sh' := [Go, Go], a;
    if sh.sock.Some? {
      var s := sh.sock.value;
      var more, b := TurnAlone(a, t, s, Return, net);
      var after := if net.broken then Dropping(DropAcquire(s, Return)) else Idle;
      Then(sh, t, p, answers, a, pa, more, b, after);
      answers, sh' := answers + more, b;
      if net.broken {
        var rest, c := DropAlone(b, t, s, Return);
        Then(sh, t, p, answers, b, after, rest, c, Idle);
        answers, sh' := answers + rest, c;
      }
    }
  }

  lemma CloseAlone(sh: Shared, t: Tid) returns (answers: seq<Outcome>, sh': Shared)
    requires Free(sh)
    ensures Seen(sh') == CloseCall(Seen(sh))
    ensures Leads(sh, t, Closing(Flag), answers, sh', Idle)
  {
    var p := Closing(Flag);
    var (a, pa) := Two(sh, t, p);
    TwoSteps(sh, t, p);
    var (b, pb) := Two(a, t, pa);
    TwoSteps(a, t, pa);
    Then(sh, t, p, [Go, Go], a, pa, [Go, Go], b, pb);
    TwoSteps(b, t, pb);
    sh' := Two(b, t, pb).0;
    answers := [Go, Go] + [Go, Go] + [Go, Go];
    Then(sh, t, p, [Go, Go] + [Go, Go], b, pb, [Go, Go], sh', Idle);
  }

  lemma TurnOfReader(sh: Shared, t: Tid, broken: bool, connect: Option<Sock>)
    returns (answers: seq<Outcome>, sh': Shared)
    requires Free(sh) && (connect.Some? ==> connect.value !in sh.wire)
    ensures Seen(sh') == ReadTurn(Seen(sh), broken, connect)
    ensures Leads(sh, t, Reading(Top), answers, sh', if sh.closed then Exited else Reading(Top))
  {
    var p := Reading(Top);
    One(sh, t, p, Go);
    answers, sh' := [Go], sh;
    if !sh.closed {
      TwoSteps(sh, t, Reading(TopAcquire));
      var (a, pa) := Two(sh, t, Reading(TopAcquire));
      Then(sh, t, p, [Go], sh, Reading(TopAcquire), [Go, Go], a, pa);
      var more := [];
      if sh.sock.Some? {
        more, sh' := AnswerOfReader(a, t, sh.sock.value, broken);
      } else {
        more, sh' := ProbeOfReader(a, t, connect);
      }
      Then(sh, t, p, [Go] + [Go, Go], a, pa, more, sh', Reading(Top));
      answers := [Go] + [Go, Go] + more;
    }
  }

  lemma AnswerOfReader(sh: Shared, t: Tid, s: Sock, broken: bool) returns (answers: seq<Outcome>, sh': Shared)
    requires Free(sh)
    ensures Seen(sh') == if broken then DropSock(Seen(sh), s) else Seen(sh)
    ensures Leads(sh, t, Reading(Recv(s)), answers, sh', Reading(Top))
  {
    var o := if broken then Fail else Go;
    One(sh, t, Reading(Recv(s)), o);
    answers, sh' := [o], sh;
    if broken {
      var more, a := DropAlone(sh, t, s, Resume);
      Then(sh, t, Reading(Recv(s)), [o], sh, Dropping(DropAcquire(s, Resume)), more, a, Reading(Top));
      answers, sh' := [o] + more, a;
    }
  }

  lemma ProbeOfReader(sh: Shared, t: Tid, connect: Option<Sock>) returns (answers: seq<Outcome>, sh': Shared)
    requires Free(sh) && sh.sock == None && !sh.closed && (connect.Some? ==> connect.value !in sh.wire)
    ensures Seen(sh') == if sh.everConnected && connect.Some? then Reconnect(Seen(sh), connect.value) else Seen(sh)
    ensures Leads(sh, t, Reading(NoSocket), answers, sh', Reading(Top))
  {
    var p := Reading(NoSocket);
    One(sh, t, p, Go);
    answers, sh' := [Go], sh;
    if sh.everConnected && connect == None {
      One(sh, t, Reading(Probe), Fail);
      Then(sh, t, p, [Go], sh, Reading(Probe), [Fail], sh, Reading(Top));
      answers := [Go] + [Fail];
    } else if sh.everConnected {
      var s := connect.value;
      var a := Open(sh, t, s);
      One(sh, t, Reading(Probe), Opened(s));
      Then(sh, t, p, [Go], sh, Reading(Probe), [Opened(s)], a, Reading(ProbeAcquire(s)));
      var (b, pb) := Two(a, t, Reading(ProbeAcquire(s)));
      TwoSteps(a, t, Reading(ProbeAcquire(s)));
      Then(sh, t, p, [Go] + [Opened(s)], a, Reading(ProbeAcquire(s)), [Go, Go], b, pb);
      sh' := Two(b, t, pb).0;
      TwoSteps(b, t, pb);
      Then(sh, t, p, [Go] + [Opened(s)] + [Go, Go], b, pb, [Go, Go], sh', Reading(Top));
      answers := [Go] + [Opened(s)] + [Go, Go] + [Go, Go];
    }
  }

  // ---------------------------------------------------------------- main results on a thread by itself

  /** A state some schedule reaches, in which nobody holds a lock and t is at point p. */
  ghost predicate Reached(start: State, before: seq<Event>, t: Tid, p: Pc) {
    var st := Run(start, before);
    Init(start) && t in st.pc && st.pc[t] == p && st.sh.lock == None && st.sh.sendLock == None
  }

  /** These steps of t take it to point p and make the link l; no other thread moves. */
  ghost predicate Makes(st: State, t: Tid, schedule: seq<Event>, l: Link, p: Pc)
    requires t in st.pc
  {
    && (forall e <- schedule :: e.t == t)
    && Run(st, schedule).pc == st.pc[t := p]
    && Seen(Run(st, schedule).sh) == l
  }

  lemma ReachedIsFree(start: State, before: seq<Event>, t: Tid, p: Pc)
    requires Reached(start, before, t, p)
    ensures Free(Run(start, before).sh)
  {
    InitInv(start);
    RunInv(start, before);
  }

  lemma Made(st: State, t: Tid, call: seq<Outcome>, p: Pc, more: seq<Outcome>, sh': Shared, p': Pc)
    requires t in st.pc && Leads(st.sh, t, st.pc[t], call, st.sh, p) && Leads(st.sh, t, p, more, sh', p')
    ensures Makes(st, t, Steps(t, call + more), Seen(sh'), p')
  {
    Then(st.sh, t, st.pc[t], call, st.sh, p, more, sh', p');
    DoesIsRun(st, t, call + more);
  }

  /** From every reachable state with both locks free, `send` has the effect of the whole call, whatever the
      network does. */
  lemma SendByItself(start: State, before: seq<Event>, t: Tid, first: Net, second: Net) returns (schedule: seq<Event>)
    requires Reached(start, before, t, Idle)
    requires var l := Seen(Run(start, before).sh); Fits(l, first) && Fits(Attempt(l, first), second)
    ensures var st := Run(start, before);
            Makes(st, t, schedule, SendCall(Seen(st.sh), first, second), Idle)
  {
    var st := Run(start, before);
    ReachedIsFree(start, before, t, Idle);
    One(st.sh, t, Idle, CallSend);
    var answers, a := AttemptAlone(st.sh, t, 0, first);
    if Breaks(Seen(st.sh), first) {
      var more, b := AttemptAlone(a, t, 1, second);
      Then(st.sh, t, Sending(Acquire1(0)), answers, a, Sending(Acquire1(1)), more, b, Idle);
      answers, a := answers + more, b;
    }
    Made(st, t, [CallSend], Sending(Acquire1(0)), answers, a, Idle);
    schedule := Steps(t, [CallSend] + answers);
  }

  /** So does `send_keepalive`. */
  lemma KeepaliveByItself(start: State, before: seq<Event>, t: Tid, net: Net) returns (schedule: seq<Event>)
    requires Reached(start, before, t, Idle)
    requires Fits(Seen(Run(start, before).sh), net)
    ensures var st := Run(start, before);
            Makes(st, t, schedule, KeepaliveCall(Seen(st.sh), net), Idle)
  {
    var st := Run(start, before);
    ReachedIsFree(start, before, t, Idle);
    One(st.sh, t, Idle, CallKeepalive);
    var answers, a := KeepaliveAlone(st.sh, t, net);
    Made(st, t, [CallKeepalive], Writing(KeepAcquire), answers, a, Idle);
    schedule := Steps(t, [CallKeepalive] + answers);
  }

  /** So does `close`. */
  lemma CloseByItself(start: State, before: seq<Event>, t: Tid) returns (schedule: seq<Event>)
    requires Reached(start, before, t, Idle)
    ensures var st := Run(start, before);
            Makes(st, t, schedule, CloseCall(Seen(st.sh)), Idle)
  {
    var st := Run(start, before);
    ReachedIsFree(start, before, t, Idle);
    One(st.sh, t, Idle, CallClose);
    var answers, a := CloseAlone(st.sh, t);
    Made(st, t, [CallClose], Closing(Flag), answers, a, Idle);
    schedule := Steps(t, [CallClose] + answers);
  }

  /** And a turn of the reader, which ends the thread exactly when the client is closed. */
  lemma ReaderByItself(start: State, before: seq<Event>, t: Tid, broken: bool, connect: Option<Sock>)
    returns (schedule: seq<Event>)
    requires Reached(start, before, t, Reading(Top))
    requires connect.Some? ==> connect.value !in Run(start, before).sh.wire
    ensures var st := Run(start, before);
            Makes(st, t, schedule, ReadTurn(Seen(st.sh), broken, connect),
                  if st.sh.closed then Exited else Reading(Top))
  {
    var st := Run(start, before);
    ReachedIsFree(start, before, t, Reading(Top));
    var answers, a := TurnOfReader(st.sh, t, broken, connect);
    assert Leads(st.sh, t, Reading(Top), [], st.sh, Reading(Top));
    Made(st, t, [], Reading(Top), answers, a, if st.sh.closed then Exited else Reading(Top));
    schedule := Steps(t, [] + answers);
  }

  // ---------------------------------------------------------------- what a call has done, among others

  datatype Call = Send | Keepalive | Close

  function Calling(c: Call): Outcome {
    match c
    case Send => CallSend
    case Keepalive => CallKeepalive
    case Close => CallClose
  }

  /** What one thread was seen to do since its call: how often it has taken the send lock, how many of those
      sendalls failed and on which sockets, whether a connect of its own failed, and whether it found no
      reference while it held the lock. */
  datatype Story = Story(calls: nat, failed: nat, lost: set<Sock>, unreachable: bool, none: bool)

  const NEW := Story(0, 0, {}, false, false)

  /** Told by the locks and the events alone, but for where a connect is and on which socket a sendall is. */
  function Told(y: Story, t: Tid, sh: Shared, p: Pc, o: Outcome, sh': Shared): Story {
    if sh.sendLock != Some(t) && sh'.sendLock == Some(t) then y.(calls := y.calls + 1)
    else if sh.sendLock == Some(t) && sh'.sendLock != Some(t) && o == Fail && p.Writing? && p.write.Write? then
      y.(failed := y.failed + 1, lost := y.lost + {p.write.s})
    else if p.Sending? && p.send.Connect? && o == Fail then y.(unreachable := true)
    else if sh.lock == Some(t) && sh.sock == None then y.(none := true)
    else y
  }

  function StoryOf(y: Story, st: State, t: Tid, events: seq<Event>): Story
    decreases |events|
  {
    if events == [] then y
    else
      var e, st' := events[0], Next(st, events[0]);
      StoryOf(if e.t == t && t in st.pc then Told(y, t, st.sh, st.pc[t], e.o, st'.sh) else y, st', t, events[1..])
  }

  /** The call is not over before the last of these events. */
  ghost predicate During(st: State, t: Tid, events: seq<Event>)
    decreases |events|
  {
    && t in st.pc
    && (events == [] || (st.pc[t] != Idle && During(Next(st, events[0]), t, events[1..])))
  }

  /** How a call may end. A send has written a whole payload at its first or second sendall; or has failed at
      two; or has failed at none or one and then could not connect, or found the client closed. A keepalive has
      tried one sendall, unless it found no reference. After a close the client is closed for good. The sockets
      of failed sendalls are closed. */
  ghost predicate Ended(c: Call, sh: Shared, y: Story) {
    && (forall s <- y.lost :: s in sh.shut)
    && match c
       case Send =>
         || (y.calls == y.failed + 1 <= 2 && !y.unreachable)
         || (y.calls == y.failed == 2 && !y.unreachable)
         || (y.calls == y.failed <= 1 && (y.unreachable || sh.closed))
       case Keepalive => (y.calls == 1 && y.failed <= 1) || (y.calls == y.failed == 0 && y.none)
       case Close => y.calls == 0 && sh.closed && sh.swept && sh.finished
  }

  /** The sockets of failed sendalls are closed, but for one that is about to be. */
  ghost predicate LostOk(sh: Shared, p: Pc, y: Story) {
    forall s <- y.lost :: s in sh.shut || (p.Dropping? && p.drop.s == s)
  }

  ghost predicate SendOk(sh: Shared, p: Pc, y: Story) {
    && !y.unreachable
    && match p
       case Sending(q) =>
         if q.Refuse? then y.calls == y.failed <= 1 && sh.closed
         else y.calls == y.failed == q.n <= 1
       case Writing(q) =>
         if q.WaitTurn? then q.k.Retry? && y.calls == y.failed == q.k.attempt <= 1
         else q.Write? && q.k.Retry? && y.failed == q.k.attempt <= 1 && y.calls == y.failed + 1
       case Dropping(q) => q.k.Retry? && y.calls == y.failed == q.k.attempt + 1 <= 2
       case _ => false
  }

  ghost predicate KeepaliveOk(sh: Shared, p: Pc, y: Story) {
    match p
    case Writing(q) =>
      if q.KeepAcquire? || q.KeepPeek? then y.calls == y.failed == 0
      else q.k == Return && y.failed == 0 && y.calls == if q.Write? then 1 else 0
    case Dropping(q) => q.k == Return && y.calls == y.failed == 1
    case _ => false
  }

  ghost predicate CloseOk(sh: Shared, p: Pc, y: Story) {
    && y.calls == 0 && p.Closing?
    && (p.close.Flag? || sh.closed) && (p.close.CloseSocket? ==> sh.swept)
  }

  ghost predicate StoryOk(c: Call, sh: Shared, p: Pc, y: Story) {
    && LostOk(sh, p, y)
    && if p == Idle then Ended(c, sh, y)
       else match c
         case Send => SendOk(sh, p, y)
         case Keepalive => KeepaliveOk(sh, p, y)
         case Close => CloseOk(sh, p, y)
  }

  /** What a step never takes back: a socket that was closed, and the marks of a close. */
  predicate Stays(sh: Shared, sh': Shared, s: Sock) {
    && (s in sh.shut ==> s in sh'.shut)
    && (sh.closed ==> sh'.closed) && (sh.swept ==> sh'.swept) && (sh.finished ==> sh'.finished)
  }

  lemma SendStays(sh: Shared, t: Tid, q: SendPc, o: Outcome, s: Sock)
    ensures Stays(sh, ExecSend(sh, t, q, o).0, s)
  {
  }

  lemma WriteStays(sh: Shared, t: Tid, q: WritePc, o: Outcome, s: Sock)
    ensures Stays(sh, ExecWrite(sh, t, q, o).0, s)
  {
  }

  lemma DropStays(sh: Shared, t: Tid, q: DropPc, s: Sock)
    ensures Stays(sh, ExecDrop(sh, t, q).0, s)
    ensures q.s == s ==> s in ExecDrop(sh, t, q).0.shut || ExecDrop(sh, t, q).1.Dropping?
    ensures ExecDrop(sh, t, q).1.Dropping? ==> ExecDrop(sh, t, q).1.drop.s == q.s
  {
  }

  lemma CloseStays(sh: Shared, t: Tid, q: ClosePc, s: Sock)
    ensures Stays(sh, ExecClose(sh, t, q).0, s)
  {
  }

  lemma ReadStays(sh: Shared, t: Tid, q: ReadPc, o: Outcome, s: Sock)
    ensures Stays(sh, ExecRead(sh, t, q, o).0, s)
  {
  }

  lemma StepStays(sh: Shared, t: Tid, p: Pc, o: Outcome, s: Sock)
    ensures Stays(sh, Exec(sh, t, p, o).0, s)
  {
    match p
    case Idle =>
    case Exited =>
    case Sending(q) => SendStays(sh, t, q, o, s);
    case Writing(q) => WriteStays(sh, t, q, o, s);
    case Dropping(q) => DropStays(sh, t, q, s);
    case Closing(q) => CloseStays(sh, t, q, s);
    case Reading(q) => ReadStays(sh, t, q, o, s);
  }

  lemma LostNext(sh: Shared, t: Tid, p: Pc, o: Outcome, y: Story)
    requires LocksOk(sh, t, p) && LostOk(sh, p, y)
    ensures var (sh', p') := Exec(sh, t, p, o); LostOk(sh', p', Told(y, t, sh, p, o, sh'))
  {
    var (sh', p') := Exec(sh, t, p, o);
    forall s | s in Told(y, t, sh, p, o, sh').lost
      ensures s in sh'.shut || (p'.Dropping? && p'.drop.s == s)
    {
      if s in y.lost {
        StepStays(sh, t, p, o, s);
        if p.Dropping? {
          DropStays(sh, t, p.drop, s);
        }
      }
    }
  }

  lemma SendingNext(sh: Shared, t: Tid, q: SendPc, o: Outcome, y: Story)
    requires LocksOk(sh, t, Sending(q)) && StoryOk(Send, sh, Sending(q), y)
    ensures var (sh', p') := Exec(sh, t, Sending(q), o); StoryOk(Send, sh', p', Told(y, t, sh, Sending(q), o, sh'))
  {
    LostNext(sh, t, Sending(q), o, y);
  }

  lemma WritingNext(c: Call, sh: Shared, t: Tid, q: WritePc, o: Outcome, y: Story)
    requires LocksOk(sh, t, Writing(q)) && StoryOk(c, sh, Writing(q), y)
    ensures var (sh', p') := Exec(sh, t, Writing(q), o); StoryOk(c, sh', p', Told(y, t, sh, Writing(q), o, sh'))
  {
    LostNext(sh, t, Writing(q), o, y);
  }

  lemma DroppingNext(c: Call, sh: Shared, t: Tid, q: DropPc, o: Outcome, y: Story)
    requires LocksOk(sh, t, Dropping(q)) && StoryOk(c, sh, Dropping(q), y)
    ensures var (sh', p') := Exec(sh, t, Dropping(q), o); StoryOk(c, sh', p', Told(y, t, sh, Dropping(q), o, sh'))
  {
    LostNext(sh, t, Dropping(q), o, y);
  }

  lemma ClosingNext(sh: Shared, t: Tid, q: ClosePc, o: Outcome, y: Story)
    requires LocksOk(sh, t, Closing(q)) && StoryOk(Close, sh, Closing(q), y)
    ensures var (sh', p') := Exec(sh, t, Closing(q), o); StoryOk(Close, sh', p', Told(y, t, sh, Closing(q), o, sh'))
  {
    LostNext(sh, t, Closing(q), o, y);
  }

  lemma OwnNext(c: Call, sh: Shared, t: Tid, p: Pc, o: Outcome, y: Story)
    requires LocksOk(sh, t, p) && StoryOk(c, sh, p, y) && p != Idle
    ensures var (sh', p') := Exec(sh, t, p, o); StoryOk(c, sh', p', Told(y, t, sh, p, o, sh'))
  {
    match p
    case Exited =>
    case Sending(q) => SendingNext(sh, t, q, o, y);
    case Writing(q) => WritingNext(c, sh, t, q, o, y);
    case Dropping(q) => DroppingNext(c, sh, t, q, o, y);
    case Closing(q) => ClosingNext(sh, t, q, o, y);
    case Reading(q) =>
  }

  lemma OtherNext(c: Call, sh: Shared, sh': Shared, p: Pc, y: Story)
    requires StoryOk(c, sh, p, y) && forall s :: Stays(sh, sh', s)
    ensures StoryOk(c, sh', p, y)
  {
    assert Stays(sh, sh', 0);
    forall s | s in y.lost
      ensures s in sh'.shut || (p.Dropping? && p.drop.s == s)
    {
      assert Stays(sh, sh', s);
    }
  }

  lemma {:induction false} StoryInv(c: Call, st: State, t: Tid, events: seq<Event>, y: Story)
    requires Inv(st) && During(st, t, events) && StoryOk(c, st.sh, st.pc[t], y)
    ensures Inv(Run(st, events)) && t in Run(st, events).pc
    ensures StoryOk(c, Run(st, events).sh, Run(st, events).pc[t], StoryOf(y, st, t, events))
    decreases |events|
  {
    if events != [] {
      var e, st' := events[0], Next(st, events[0]);
      NextInv(st, e);
      if e.t == t {
        OwnNext(c, st.sh, t, st.pc[t], e.o, y);
        StoryInv(c, st', t, events[1..], Told(y, t, st.sh, st.pc[t], e.o, st'.sh));
      } else {
        if e.t in st.pc {
          forall s
            ensures Stays(st.sh, st'.sh, s)
          {
            StepStays(st.sh, e.t, st.pc[e.t], e.o, s);
          }
        }
        OtherNext(c, st.sh, st'.sh, st.pc[t], y);
        StoryInv(c, st', t, events[1..], y);
      }
    }
  }

  /** Over every interleaving with any other threads, a call that is over has ended in one of the ways it
      may. */
  lemma EveryCallIsAnswered(start: State, before: seq<Event>, t: Tid, c: Call, events: seq<Event>)
    requires Init(start) && t in Run(start, before).pc && Run(start, before).pc[t] == Idle
    requires During(Next(Run(start, before), Event(t, Calling(c))), t, events)
    ensures var st := Next(Run(start, before), Event(t, Calling(c)));
            t in Run(st, events).pc
            && (Run(st, events).pc[t] == Idle ==> Ended(c, Run(st, events).sh, StoryOf(NEW, st, t, events)))
  {
    InitInv(start);
    RunInv(start, before);
    NextInv(Run(start, before), Event(t, Calling(c)));
    StoryInv(c, Next(Run(start, before), Event(t, Calling(c))), t, events, NEW);
  }

  lemma {:induction false} ExitedMeansClosed(st: State, schedule: seq<Event>, t: Tid)
    requires t in st.pc && (st.pc[t] == Exited ==> st.sh.closed)
    ensures t in Run(st, schedule).pc && (Run(st, schedule).pc[t] == Exited ==> Run(st, schedule).sh.closed)
    decreases |schedule|
  {
    if schedule != [] {
      var e := schedule[0];
      if e.t in st.pc {
        StepStays(st.sh, e.t, st.pc[e.t], e.o, 0);
      }
      ExitedMeansClosed(Next(st, e), schedule[1..], t);
    }
  }

  /** The reader stops for nothing but a close. */
  lemma ReaderStopsOnlyWhenClosed(start: State, schedule: seq<Event>, t: Tid)
    requires Init(start) && t in start.pc
    ensures var r := Run(start, schedule); t in r.pc && (r.pc[t] == Exited ==> r.sh.closed)
  {
    ExitedMeansClosed(start, schedule, t);
  }
}
