/** The uplink from end to end: pad samples, the gestures the classifier hands out, the queue and the
    connections they pass through, the bytes on one connection, and what the host's touch sink is called
    with. */
module UplinkTrip {
  import opened Common
  import opened LineText
  import opened UplinkWire
  import T = Touch
  import Q = UplinkQueue
  import U = UplinkStream

  // ------------------------------------------------ the gestures of a run

  /** The gestures the classifier hands out over a run of samples. */
  function Gestures(samples: seq<T.Sample>): seq<T.Event> {
    T.Delivered(T.OPEN, T.Recognition(samples))
  }

  ghost predicate AllFit(events: seq<T.Event>) {
    forall i :: 0 <= i < |events| ==> OnDevice(events[i].gesture)
  }

  lemma {:induction false} RecognisedFit(p: T.Phase, items: seq<T.Item>)
    ensures AllFit(T.Run(p, items))
    decreases |items|
  {
    if items != [] {
      RecognisedFit(T.NextPhase(p, items[0]), items[1..]);
    }
  }

  lemma {:induction false} DeliveredFit(l: T.Limiter, events: seq<T.Event>)
    requires AllFit(events)
    ensures AllFit(T.Delivered(l, events))
    decreases |events|
  {
    if events != [] {
      DeliveredFit(T.Limited(l, events[0]), events[1..]);
    }
  }

  /** Every gesture the classifier hands out has a frame. */
  lemma GesturesFit(samples: seq<T.Sample>)
    ensures AllFit(Gestures(samples))
  {
    RecognisedFit(T.Idle, T.Items(samples));
    DeliveredFit(T.OPEN, T.Recognition(samples));
  }

  // ------------------------------------------------ the gestures of a connection

  /** The gestures fully written on connection c, in the order of their writes. */
  function WrittenOn(written: seq<(nat, nat)>, c: nat): seq<nat>
    decreases |written|
  {
    if written == [] then []
    else (if written[0].0 == c then [written[0].1] else []) + WrittenOn(written[1..], c)
  }

  lemma {:induction false} WrittenOnHas(written: seq<(nat, nat)>, c: nat, g: nat)
    ensures g in WrittenOn(written, c) <==> (c, g) in written
    decreases |written|
  {
    if written != [] {
      WrittenOnHas(written[1..], c, g);
      assert written == [written[0]] + written[1..];
    }
  }

  ghost predicate Rising(written: seq<(nat, nat)>) {
    forall i, j :: 0 <= i < j < |written| ==> written[i].1 < written[j].1
  }

  lemma {:induction false} WrittenOnRises(written: seq<(nat, nat)>, c: nat)
    requires Rising(written)
    ensures var w := WrittenOn(written, c); forall i, j :: 0 <= i < j < |w| ==> w[i] < w[j]
    decreases |written|
  {
    if written != [] {
      var rest := WrittenOn(written[1..], c);
      WrittenOnRises(written[1..], c);
      forall k | 0 <= k < |rest|
        ensures written[0].1 < rest[k]
      {
        WrittenOnHas(written[1..], c, rest[k]);
        assert (c, rest[k]) in written[1..];
      }
    }
  }

  /** How many gestures a run classifies. */
  function Touches(events: seq<Q.Event>): nat
    decreases |events|
  {
    if events == [] then 0 else (if events[0] == Q.Touch then 1 else 0) + Touches(events[1..])
  }

  lemma {:induction false} BornAreTouches(st: Q.State, events: seq<Q.Event>)
    ensures |Q.Run(st, events).born| == |st.born| + Touches(events)
    decreases |events|
  {
    if events != [] {
      BornAreTouches(Q.Next(st, events[0]), events[1..]);
    }
  }

  /** The gestures written on connection c: in the order of classification, each once, and exactly those
      whose fate is to have been sent on c; all were classified during c. */
  lemma WrittenAreTheSent(events: seq<Q.Event>, c: nat)
    ensures var r, fates := Q.Run(Q.START, events), Q.Fates(Q.START, [], events);
            var w := WrittenOn(r.written, c);
            && (forall i, j :: 0 <= i < j < |w| ==> w[i] < w[j])
            && |fates| == |r.born| == Touches(events)
            && (forall g: nat :: g in w <==> g < |fates| && fates[g] == Q.Sent(c))
            && (forall g <- w :: g < |r.born| && r.born[g] == Some(c))
  {
    var r, fates := Q.Run(Q.START, events), Q.Fates(Q.START, [], events);
    Q.RunInv(Q.START, events);
    Q.EveryGestureHasOneFate(events);
    BornAreTouches(Q.START, events);
    WrittenOnRises(r.written, c);
    forall g: nat
      ensures g in WrittenOn(r.written, c) <==> g < |fates| && fates[g] == Q.Sent(c)
      ensures g in WrittenOn(r.written, c) ==> g < |r.born| && r.born[g] == Some(c)
    {
      WrittenOnHas(r.written, c, g);
      if (c, g) in r.written {
        assert (c, g).1 < |r.born|;
      }
      if g < |fates| {
        assert Q.FateIs(r, g, fates[g]);
      }
    }
  }

  ghost predicate AllBelow(numbers: seq<nat>, n: nat) {
    forall i :: 0 <= i < |numbers| ==> numbers[i] < n
  }

  lemma WrittenAreBorn(events: seq<Q.Event>, c: nat)
    ensures AllBelow(WrittenOn(Q.Run(Q.START, events).written, c), Touches(events))
  {
    Q.RunInv(Q.START, events);
    BornAreTouches(Q.START, events);
    var r := Q.Run(Q.START, events);
    var w := WrittenOn(r.written, c);
    forall i | 0 <= i < |w|
      ensures w[i] < Touches(events)
    {
      WrittenOnHas(r.written, c, w[i]);
      assert (c, w[i]) in r.written;
    }
  }

  // ------------------------------------------------ the bytes of a connection

  /** The gestures of these numbers, as what the device writes. */
  function Pieces(gestures: seq<T.Event>, numbers: seq<nat>): seq<Option<T.Gesture>>
    requires AllBelow(numbers, |gestures|)
  {
    seq(|numbers|, i requires 0 <= i < |numbers| => Some(gestures[numbers[i]].gesture))
  }

  /** The lines of the beginning of a text are the beginning of its lines. */
  lemma LinesOfPrefix(s: string, rest: string)
    ensures Lines(s) <= Lines(s + rest)
  {
    LinesAppend(s, rest);
  }

  /** A cut-off frame at the end adds no line. */
  lemma PartialAddsNothing(pieces: seq<Option<T.Gesture>>, partial: string)
    requires U.AllOnDevice(pieces) && '\n' !in partial
    ensures Lines(U.Written(pieces) + partial) == U.PieceLines(pieces)
  {
    U.WrittenLines(pieces);
    LinesAppend(U.Written(pieces), partial);
    assert "" + partial == partial;
    NoLine(partial);
  }

  lemma {:induction false} SomesOfAll<A>(list: seq<Option<A>>)
    requires forall i :: 0 <= i < |list| ==> list[i].Some?
    ensures |U.Somes(list)| == |list| && forall i :: 0 <= i < |list| ==> U.Somes(list)[i] == list[i].value
    decreases |list|
  {
    if list != [] {
      SomesOfAll(list[1..]);
    }
  }

  // ------------------------------------------------ from the pad to the sink

  /** The gestures of a run that were fully written on connection c. */
  function SentOn(samples: seq<T.Sample>, events: seq<Q.Event>, c: nat): (pieces: seq<Option<T.Gesture>>)
    requires Touches(events) == |Gestures(samples)|
    ensures U.AllOnDevice(pieces) && forall i :: 0 <= i < |pieces| ==> pieces[i].Some?
  {
    WrittenAreBorn(events, c);
    GesturesFit(samples);
    Pieces(Gestures(samples), WrittenOn(Q.Run(Q.START, events).written, c))
  }

  lemma ShortPrefix(pieces: seq<Option<T.Gesture>>, lines: seq<string>)
    requires U.AllOnDevice(pieces) && lines <= U.PieceLines(pieces)
    ensures U.Within(lines, U.MAX_UPLINK_LINE_BYTES)
    ensures U.Heard(ParseInputFrame, lines) == U.Somes(pieces[..|lines|])
  {
    forall i | 0 <= i < |lines|
      ensures |lines[i]| <= U.MAX_UPLINK_LINE_BYTES && ParseInputFrame(lines[i]) == pieces[..|lines|][i]
    {
      assert lines[i] == U.PieceLines(pieces)[i];
      U.PieceIsShort(pieces[i]);
      U.PieceIsRead(pieces[i]);
    }
    U.HeardEach(ParseInputFrame, lines, pieces[..|lines|]);
  }

  lemma SomesPrefix<A>(list: seq<Option<A>>, k: nat)
    requires k <= |list| && forall i :: 0 <= i < |list| ==> list[i].Some?
    ensures |U.Somes(list)| == |list| && U.Somes(list[..k]) == U.Somes(list)[..k]
  {
    SomesOfAll(list);
    SomesOfAll(list[..k]);
  }

  lemma LongerBeginning(s: string, rest: string, whole: string, partial: string)
    requires s + rest == whole + partial && |s| >= |whole|
    ensures whole <= s
  {
    assert s == (s + rest)[..|s|];
    assert whole == (whole + partial)[..|whole|] == s[..|whole|];
  }

  lemma LinesBetween(whole: string, s: string)
    requires whole <= s
    ensures Lines(whole) <= Lines(s)
  {
    assert s == whole + s[|whole|..];
    LinesOfPrefix(whole, s[|whole|..]);
  }

  /** A beginning of a connection's bytes holds a beginning of its lines, and all of them once it holds all
      its whole frames. */
  lemma BeginningHoldsLines(pieces: seq<Option<T.Gesture>>, partial: string, s: string, rest: string)
    requires U.AllOnDevice(pieces) && '\n' !in partial && s + rest == U.Written(pieces) + partial
    ensures Lines(s) <= U.PieceLines(pieces)
    ensures |s| >= |U.Written(pieces)| ==> Lines(s) == U.PieceLines(pieces)
  {
    PartialAddsNothing(pieces, partial);
    LinesOfPrefix(s, rest);
    if |s| >= |U.Written(pieces)| {
      LongerBeginning(s, rest, U.Written(pieces), partial);
      LinesBetween(U.Written(pieces), s);
      U.WrittenLines(pieces);
    }
  }

  /** From the pad to the sink. Take any samples, any run of the firmware's tasks in which the gestures
      classified from them are touched, accepts, disconnects and errors falling anywhere, and any connection
      c of that run: its bytes are the frames fully written on it and perhaps a piece of one more. A host
      that receives any beginning of them, cut in any way, on a socket that has just come up, calls its sink
      with the beginning of the list of the gestures sent on c; with all of them once all whole frames are
      in. */
  lemma TouchToSink(samples: seq<T.Sample>, events: seq<Q.Event>, c: nat, partial: string,
                    r: U.Reading, turns: seq<U.Turn>, sock: U.Socket, rest: string)
    requires Touches(events) == |Gestures(samples)| && '\n' !in partial
    requires U.Live(turns, sock) && r.attached != Some(sock)
    requires U.Received(turns) + rest == U.Written(SentOn(samples, events, c)) + partial
    ensures U.Heard(ParseInputFrame, U.LinesOfRun(r, turns)) <= U.Somes(SentOn(samples, events, c))
    ensures |U.Received(turns)| >= |U.Written(SentOn(samples, events, c))| ==>
      U.Heard(ParseInputFrame, U.LinesOfRun(r, turns)) == U.Somes(SentOn(samples, events, c))
  {
    var pieces, s := SentOn(samples, events, c), U.Received(turns);
    BeginningHoldsLines(pieces, partial, s, rest);
    ShortPrefix(pieces, Lines(s));
    U.CutsNeverMatterExactlyForShortLines(r, sock, s);
    assert U.LinesOfRun(r, turns) == Lines(s);
    SomesPrefix(pieces, |Lines(s)|);
  }
}
