/** How long the pet loop waits, and what it does meanwhile: `_adaptive_interval`, the cap at the next
    expiry, and `_next_event` (host/pet_loop.py 262-267, 718-746, 788-801). */
module Waiting {
  import opened Common
  import opened Behavior
  import P = Presence

  const KEEPALIVE_INTERVAL_SECONDS := 15.0

  function AdaptiveInterval(base: real, idle: bool, away: bool, ignoring: bool, c: Command): real {
    if !idle then base
    else if away || c.animation == Animation.Sleepy || c.animation == Nap then
      RMin(60.0, RMax(base, RMax(base * 4.0, c.durationMs as real / 1000.0)))
    else if ignoring || c.animation == Play || c.animation == Excited || c.animation == Animation.Alert then
      RMax(2.0, base * 0.5)
    else base
  }

  /** What stretches the interval between idle ticks, and what shortens it: an owner away or a body at rest
      makes the loop wait four times as long, or for the behavior if that is longer, but a minute at most; an owner
      who ignores the pet, or a lively pose, makes it wait half as long, but two seconds at least. */
  lemma RestStretchesTheWait(base: real, idle: bool, away: bool, ignoring: bool, c: Command)
    requires base > 0.0 && HostValid(c)
    ensures var w := AdaptiveInterval(base, idle, away, ignoring, c);
            var resting := away || c.mood == Mood.Sleepy;
            var lively := !resting && (ignoring || c.animation in {Play, Excited, Animation.Alert});
            && (!idle || (!resting && !lively) ==> w == base)
            && (idle && resting ==>
                  && w <= 60.0 && (w == 60.0 || (w >= 4.0 * base && 1000.0 * w >= c.durationMs as real))
                  && (w == 60.0 || w == 4.0 * base || 1000.0 * w == c.durationMs as real)
                  && (w == 60.0 ==> 4.0 * base >= 60.0))
            && (idle && lively ==> 2.0 <= w && base <= 2.0 * w && (w == 2.0 || 2.0 * w == base))
  {
  }

  /** The wait after a tick at `now` whose mailbox announced `expiry`. */
  function WaitSeconds(interval: real, now: real, expiry: Option<real>): real {
    if expiry == None then interval else RMin(interval, RMax(1.0, expiry.value - now))
  }

  /** When the loop reads the mailbox again at the latest. `busy` is all the time between the two reads that
      is not spent waiting: the rest of the tick, which sends, asks the model and sends again, and the
      keepalives sent between the pieces of the wait. */
  function NextReadBy(interval: real, now: real, expiry: Option<real>, busy: real): real {
    now + busy + WaitSeconds(interval, now, expiry)
  }

  /** With no new posts, the loop goes on as if the view it read at `now` were the true one until it reads
      again at `next`. That view is true through the expiry announced at `now`, and the records it came
      from are not the fresh ones at any time after it; the stretch after it lasts at most `busy` and one
      second. */
  lemma BeliefIsFresh(b: P.Box, interval: real, now: real, soonest: Option<real>, busy: real, next: real, t: real)
    requires P.SoonestExpiry(b, now, soonest) && busy >= 0.0
    requires now <= t <= next <= NextReadBy(interval, now, soonest, busy)
    ensures soonest == None || t <= soonest.value ==> P.View(b, t) == P.View(b, now)
    ensures P.SameFresh(b, now, t) <==> soonest == None || t <= soonest.value
    ensures soonest.Some? ==> next - soonest.value <= busy + 1.0
  {
    P.FreshUntilExpiry(b, now, soonest, t);
    if soonest == None || t <= soonest.value {
      P.ViewIsStable(b, now, soonest, t, 300.0);
    }
  }

  /** The bound is reached, however long `busy` is: a presence record read in its last instant is believed
      for all that time and a second more, and all along the true view is another. */
  lemma BeliefCanBeStale(interval: real, now: real, busy: real, t: real) returns (b: P.Box)
    requires interval >= 1.0 && busy >= 0.0
    requires now < t <= NextReadBy(interval, now, Some(now), busy)
    ensures P.SoonestExpiry(b, now, Some(now)) && NextReadBy(interval, now, Some(now), busy) == now + busy + 1.0
    ensures P.View(b, t) != P.View(b, now)
  {
    b := P.Box(None, map["helper" := P.Record(true, now - 30.0, 30.0)]);
    assert P.FreshSource(b, "helper", now) && P.ExpiryOf(b.sources["helper"]) == now;
    assert P.SomeoneSays(b, now, true);
    assert forall key :: !P.FreshSource(b, key, t);
  }

  /** Every wait is positive, and at most a minute for an interval of at most a minute. */
  lemma WaitsAreBounded(base: real, idle: bool, away: bool, ignoring: bool, c: Command, now: real, expiry: Option<real>)
    requires base > 0.0 && HostValid(c)
    ensures var w := WaitSeconds(AdaptiveInterval(base, idle, away, ignoring, c), now, expiry);
            0.0 < w && (base <= 60.0 ==> w <= 60.0)
  {
  }

  // ------------------------------------------------ waiting for an event

  /** What the k-th wait on the queue comes to, k from 0; None when its time is up. */
  type Answers<T> = nat -> Option<T>

  function Sum(chunks: seq<real>): real {
    if chunks == [] then 0.0 else Sum(chunks[..|chunks| - 1]) + chunks[|chunks| - 1]
  }

  /** The sum of whole keepalive intervals and a last wait. */
  function Total(chunks: seq<real>): real {
    if chunks == [] then 0.0
    else KEEPALIVE_INTERVAL_SECONDS * (|chunks| - 1) as real + chunks[|chunks| - 1]
  }

  lemma {:induction false} TotalIsSum(chunks: seq<real>)
    requires forall i :: 0 <= i < |chunks| - 1 ==> chunks[i] == KEEPALIVE_INTERVAL_SECONDS
    ensures Sum(chunks) == Total(chunks)
    decreases |chunks|
  {
    if |chunks| > 1 {
      TotalIsSum(chunks[..|chunks| - 1]);
    }
  }

  /** Every chunk but the last is a whole keepalive interval. */
  ghost predicate Chunked(chunks: seq<real>) {
    && (forall i :: 0 <= i < |chunks| ==> 0.0 < chunks[i] <= KEEPALIVE_INTERVAL_SECONDS)
    && (forall i :: 0 <= i < |chunks| - 1 ==> chunks[i] == KEEPALIVE_INTERVAL_SECONDS)
  }

  /** What the waits come to. They add up to what was asked for unless an event comes first. With a live
      connection (`chunked`) no wait is longer than fifteen seconds and a keepalive is sent between any two;
      without one there is one wait and no keepalive. With no queue (`answers` is None) the loop only
      sleeps. */
  ghost predicate WaitedFor<T>(wait: real, answers: Option<Answers<T>>, chunked: bool,
                               item: Option<T>, chunks: seq<real>, keepalives: nat)
  {
    && keepalives == (if chunks == [] then 0 else |chunks| - 1)
    && (if chunked then Chunked(chunks) else |chunks| <= 1)
    && Total(chunks) <= RMax(0.0, wait) && (item == None ==> Total(chunks) == RMax(0.0, wait))
    && if answers == None then item == None else AnsweredAt(answers.value, |chunks|, item)
  }

  /** The last of n waits came to `item`, and the ones before it to nothing. */
  ghost predicate AnsweredAt<T>(answers: Answers<T>, n: nat, item: Option<T>) {
    Silent(answers, n - 1) && item == (if n == 0 then None else answers(n - 1))
  }

  ghost predicate Silent<T>(answers: Answers<T>, n: int) {
    forall k :: 0 <= k < n ==> answers(k) == None
  }

  /** An event that is already queued is taken at once; else the loop waits. */
  method NextEvent<T>(waitSeconds: real, queued: Option<T>, answers: Option<Answers<T>>, chunked: bool)
    returns (item: Option<T>, chunks: seq<real>, keepalives: nat)
    ensures if answers.Some? && queued.Some? then item == queued && chunks == [] && keepalives == 0
            else WaitedFor(waitSeconds, answers, chunked, item, chunks, keepalives)
  {
    if answers.Some? && queued.Some? {
      return queued, [], 0;
    }
    item, chunks, keepalives := WaitForEvent(waitSeconds, answers, chunked);
  }

  method WaitForEvent<T>(waitSeconds: real, answers: Option<Answers<T>>, chunked: bool)
    returns (item: Option<T>, chunks: seq<real>, keepalives: nat)
    ensures WaitedFor(waitSeconds, answers, chunked, item, chunks, keepalives)
  {
    chunks, keepalives := [], 0;
    var remaining := waitSeconds;
    while remaining > 0.0
      invariant Waited(waitSeconds, chunked, chunks, remaining, keepalives)
      invariant answers.Some? ==> Silent(answers.value, |chunks|)
      decreases if remaining > KEEPALIVE_INTERVAL_SECONDS then 1.0 + remaining
                else if remaining > 0.0 then 1.0 else 0.0
    {
      var chunk := if chunked then RMin(KEEPALIVE_INTERVAL_SECONDS, remaining) else remaining;
      WaitOn(waitSeconds, chunked, chunks, remaining, keepalives);
      chunks := chunks + [chunk];
      if answers.Some? {
        var answer := answers.value(|chunks| - 1);
        if answer.Some? {
          return answer, chunks, keepalives;
        }
      }
      remaining := remaining - chunk;
      if chunked && remaining > 0.0 {
        keepalives := keepalives + 1;
      }
    }
    item := None;
  }

  /** The loop between two waits. */
  ghost predicate Waited(wait: real, chunked: bool, chunks: seq<real>, remaining: real, keepalives: nat) {
    && (if chunked then Chunked(chunks) else |chunks| <= 1 && (remaining > 0.0 ==> chunks == []))
    && (if wait > 0.0 then remaining >= 0.0 && Total(chunks) + remaining == wait else chunks == [] && remaining == wait)
    && (remaining > 0.0 ==> keepalives == |chunks| && Whole(chunks))
    && (remaining <= 0.0 ==> keepalives == (if chunks == [] then 0 else |chunks| - 1))
  }

  /** One more wait: before the time is up for good, or as the last one. */
  lemma WaitOn(wait: real, chunked: bool, chunks: seq<real>, remaining: real, keepalives: nat)
    requires Waited(wait, chunked, chunks, remaining, keepalives) && remaining > 0.0
    ensures var chunk := if chunked then RMin(KEEPALIVE_INTERVAL_SECONDS, remaining) else remaining;
            var left := remaining - chunk;
            var sent := if chunked && left > 0.0 then keepalives + 1 else keepalives;
            && Waited(wait, chunked, chunks + [chunk], left, sent)
            && (if chunked then Chunked(chunks + [chunk]) else chunks == [])
            && left >= 0.0 && keepalives == |chunks| && Total(chunks + [chunk]) == wait - left
  {
  }

  /** The waits do add up. */
  lemma WaitsAddUp<T>(wait: real, answers: Option<Answers<T>>, chunked: bool,
                      item: Option<T>, chunks: seq<real>, keepalives: nat)
    requires WaitedFor(wait, answers, chunked, item, chunks, keepalives)
    ensures Sum(chunks) <= RMax(0.0, wait) && (item == None ==> Sum(chunks) == RMax(0.0, wait))
  {
    TotalIsSum(chunks);
  }

  ghost predicate Whole(chunks: seq<real>) {
    forall i :: 0 <= i < |chunks| ==> chunks[i] == KEEPALIVE_INTERVAL_SECONDS
  }
}
