/** Retry before the first byte: the wrapper every upstream stream passes through. An attempt is a finite script
    of events with the way it ends; sleeping between attempts and the clock are not part of the model. */
module Resilience {
  import opened Prelude
  import opened StreamTypes

  datatype Ending = Clean | TimedOut | UpstreamFailure(retryable: bool, message: string, code: string)
                  | UnexpectedFailure(message: string)

  datatype Attempt = Attempt(events: seq<StreamEvent>, ending: Ending)

  const RATE_LIMITED := StreamError("rate limit exceeded; retry later", "rate_limited")

  /** The events before the first error event. */
  function Body(events: seq<StreamEvent>): (body: seq<StreamEvent>)
    ensures body <= events && forall i | 0 <= i < |body| :: !body[i].StreamError?
  {
    if events == [] || events[0].StreamError? then [] else [events[0]] + Body(events[1..])
  }

  predicate Failed(a: Attempt) {
    |Body(a.events)| < |a.events| || !a.ending.Clean?
  }

  /** The error an attempt ends in: its own first error event, or one made from the exception. */
  function Failure(a: Attempt): (e: StreamEvent)
    requires Failed(a)
    ensures e.StreamError?
  {
    var n := |Body(a.events)|;
    if n < |a.events| then
      BodyStopsAtError(a.events);
      a.events[n]
    else
      match a.ending
      case TimedOut => StreamError("gateway timeout", "timeout")
      case UpstreamFailure(_, message, code) => StreamError(message, code)
      case UnexpectedFailure(message) => StreamError("internal error: " + message, "internal")
  }

  lemma BodyStopsAtError(events: seq<StreamEvent>)
    requires |Body(events)| < |events|
    ensures events[|Body(events)|].StreamError?
  {
  }

  /** Error events and retryable upstream failures may be retried; timeouts and anything else may not. */
  predicate MayRetry(a: Attempt) {
    |Body(a.events)| < |a.events| || (a.ending.UpstreamFailure? && a.ending.retryable)
  }

  predicate Produced(events: seq<StreamEvent>) {
    exists i | 0 <= i < |events| :: IsContent(events[i])
  }

  predicate Retries(a: Attempt, attempt: nat, maxRetries: nat) {
    Failed(a) && MayRetry(a) && !Produced(Body(a.events)) && attempt < maxRetries
  }

  /** The attempt whose outcome the consumer gets. */
  function LastAttempt(attempts: nat -> Attempt, attempt: nat, maxRetries: nat): (k: nat)
    ensures attempt <= k && (attempt <= maxRetries ==> k <= maxRetries)
    ensures !Retries(attempts(k), k, maxRetries)
    ensures forall i | attempt <= i < k :: Retries(attempts(i), i, maxRetries)
    decreases maxRetries - attempt
  {
    if Retries(attempts(attempt), attempt, maxRetries) then LastAttempt(attempts, attempt + 1, maxRetries) else attempt
  }

  function Final(a: Attempt): seq<StreamEvent> {
    Body(a.events) + if Failed(a) then [Failure(a)] else []
  }

  /** What the first `n` attempts had already emitted when they were given up. */
  function Leaked(attempts: nat -> Attempt, n: nat): seq<StreamEvent> {
    if n == 0 then [] else Leaked(attempts, n - 1) + Body(attempts(n - 1).events)
  }

  lemma {:induction false} BodyIsPrefix(events: seq<StreamEvent>, n: nat)
    requires n <= |events| && forall i | 0 <= i < n :: !events[i].StreamError?
    requires n < |events| ==> events[n].StreamError?
    ensures Body(events) == events[..n]
  {
    if n > 0 {
      BodyIsPrefix(events[1..], n - 1);
      assert events[..n] == [events[0]] + events[1..][..n - 1];
    }
  }

  /** Relay one attempt up to its first error event, noting whether it produced content. */
  method Relay(events: seq<StreamEvent>) returns (emitted: seq<StreamEvent>, produced: bool)
    ensures emitted == Body(events) && (produced <==> Produced(emitted))
  {
    emitted, produced := [], false;
    var n := 0;
    while n < |events| && !events[n].StreamError?
      invariant n <= |events| && emitted == events[..n]
      invariant forall i | 0 <= i < n :: !events[i].StreamError?
      invariant produced <==> Produced(emitted)
    {
      hide Produced;
      ProducedExtends(emitted, events[n]);
      if IsContent(events[n]) {
        produced := true;
      }
      emitted := emitted + [events[n]];
      n := n + 1;
    }
    BodyIsPrefix(events, n);
  }

  /** One attempt: what it emitted, whether that was content, and the error it ended in, if it did. */
  method RunOnce(a: Attempt)
    returns (emitted: seq<StreamEvent>, produced: bool, error: Option<StreamEvent>, retryable: bool)
    ensures emitted == Body(a.events) && (produced <==> Produced(emitted))
    ensures error == if Failed(a) then Some(Failure(a)) else None
    ensures Failed(a) ==> (retryable <==> MayRetry(a))
  {
    hide Produced, Body;
    emitted, produced := Relay(a.events);
    retryable := false;
    if |emitted| < |a.events| {
      BodyStopsAtError(a.events);
      error, retryable := Some(a.events[|emitted|]), true;
    } else {
      match a.ending {
        case Clean => error := None;
        case UpstreamFailure(mayRetry, message, code) => error, retryable := Some(StreamError(message, code)), mayRetry;
        case TimedOut => error := Some(StreamError("gateway timeout", "timeout"));
        case UnexpectedFailure(message) => error := Some(StreamError("internal error: " + message, "internal"));
      }
    }
  }

  lemma NextAttempt(attempts: nat -> Attempt, attempt: nat, maxRetries: nat)
    ensures LastAttempt(attempts, attempt, maxRetries)
            == if Retries(attempts(attempt), attempt, maxRetries) then LastAttempt(attempts, attempt + 1, maxRetries)
               else attempt
    ensures Leaked(attempts, attempt + 1) == Leaked(attempts, attempt) + Body(attempts(attempt).events)
  {
  }

  /** The stream, and how many attempts were opened. */
  method ChatStream(admitted: bool, attempts: nat -> Attempt, maxRetries: nat)
    returns (out: seq<StreamEvent>, tries: nat)
    ensures !admitted ==> out == [StreamError("rate limit exceeded; retry later", "rate_limited")] && tries == 0
    ensures admitted ==> var k := LastAttempt(attempts, 0, maxRetries);
                         tries == k + 1 && out == Leaked(attempts, k) + Final(attempts(k))
  {
    if !admitted {
      return [RATE_LIMITED], 0;
    }
    out := [];
    var attempt := 0;
    while true
      invariant attempt <= maxRetries
      invariant LastAttempt(attempts, attempt, maxRetries) == LastAttempt(attempts, 0, maxRetries)
      invariant out == Leaked(attempts, attempt)
      decreases maxRetries - attempt
    {
      NextAttempt(attempts, attempt, maxRetries);
      hide Produced, Body, Failed, Failure, MayRetry, LastAttempt, Leaked;
      var emitted, produced, error, retryable := RunOnce(attempts(attempt));
      if error.None? {
        assert Final(attempts(attempt)) == emitted;
        return out + emitted, attempt + 1;
      }
      if produced || !retryable || attempt >= maxRetries {
        assert out + emitted + [error.value] == out + Final(attempts(attempt));
        return out + emitted + [error.value], attempt + 1;
      }
      out := out + emitted;
      attempt := attempt + 1;
    }
  }

  lemma ProducedExtends(events: seq<StreamEvent>, e: StreamEvent)
    ensures Produced(events + [e]) <==> Produced(events) || IsContent(e)
  {
    var all := events + [e];
    if Produced(events) {
      var i :| 0 <= i < |events| && IsContent(events[i]);
      assert IsContent(all[i]);
    }
    if IsContent(e) {
      assert IsContent(all[|events|]);
    }
  }

  /** An error event at `n`, and nothing before it that is content. */
  predicate FailsEarly(a: Attempt, n: nat) {
    && n < |a.events| && a.events[n].StreamError?
    && forall i | 0 <= i < n :: !a.events[i].StreamError? && !a.events[i].ContentDelta? && !a.events[i].MessageStart?
  }

  /** The attempt may be made again: it failed with an error event, or an upstream failure said to be retryable, before
      any text or message start. */
  predicate MayBeMadeAgain(a: Attempt) {
    || (exists n | 0 <= n < |a.events| :: FailsEarly(a, n))
    || (a.ending.UpstreamFailure? && a.ending.retryable
        && forall i | 0 <= i < |a.events| ::
             !a.events[i].StreamError? && !a.events[i].ContentDelta? && !a.events[i].MessageStart?)
  }

  lemma RetriesIff(a: Attempt, attempt: nat, maxRetries: nat)
    ensures Retries(a, attempt, maxRetries) <==> MayBeMadeAgain(a) && attempt < maxRetries
  {
    var n := |Body(a.events)|;
    if n < |a.events| {
      BodyStopsAtError(a.events);
      assert forall i | 0 <= i < n :: a.events[i] == Body(a.events)[i];
      if !Produced(Body(a.events)) {
        assert FailsEarly(a, n);
      }
      if m :| 0 <= m < |a.events| && FailsEarly(a, m) {
        BodyIsPrefix(a.events, m);
      }
    } else {
      assert Body(a.events) == a.events;
    }
  }

  /** The retry rule, both ways: the attempt that counts is the first that may not be made again, or the last
      allowed. */
  lemma LastAttemptIs(attempts: nat -> Attempt, maxRetries: nat)
    ensures var k := LastAttempt(attempts, 0, maxRetries);
            && k <= maxRetries && (forall i | 0 <= i < k :: MayBeMadeAgain(attempts(i)))
            && (MayBeMadeAgain(attempts(k)) ==> k == maxRetries)
  {
    var k := LastAttempt(attempts, 0, maxRetries);
    hide Retries, MayBeMadeAgain;
    RetriesIff(attempts(k), k, maxRetries);
    forall i | 0 <= i < k
      ensures MayBeMadeAgain(attempts(i))
    {
      RetriesIff(attempts(i), i, maxRetries);
    }
  }

  /** What the last attempt brings: its events up to its first error event and that one; or all of them, and an error
      made from how it ended, unless it ended cleanly. */
  lemma FinalIs(a: Attempt, n: nat)
    ensures n < |a.events| && a.events[n].StreamError? && (forall i | 0 <= i < n :: !a.events[i].StreamError?) ==>
              Final(a) == a.events[..n + 1]
    ensures (forall i | 0 <= i < |a.events| :: !a.events[i].StreamError?) ==>
              Final(a)
              == a.events + match a.ending
                            case Clean => []
                            case TimedOut => [StreamError("gateway timeout", "timeout")]
                            case UpstreamFailure(_, message, code) => [StreamError(message, code)]
                            case UnexpectedFailure(message) => [StreamError("internal error: " + message, "internal")]
  {
    if n < |a.events| && a.events[n].StreamError? && (forall i | 0 <= i < n :: !a.events[i].StreamError?) {
      BodyIsPrefix(a.events, n);
    }
    if forall i | 0 <= i < |a.events| :: !a.events[i].StreamError? {
      BodyIsPrefix(a.events, |a.events|);
    }
  }

  /** The provider contract: the first event that is not an error starts the message or carries text. */
  ghost predicate StartsWithContent(a: Attempt) {
    Body(a.events) != [] ==> IsContent(Body(a.events)[0])
  }

  /** The rule itself: text or a message start, once emitted, is never followed by a retry. */
  lemma NoRetryAfterContent(attempts: nat -> Attempt, maxRetries: nat, i: nat)
    requires i < LastAttempt(attempts, 0, maxRetries)
    ensures forall e | e in Body(attempts(i).events) :: !IsContent(e)
  {
    assert Retries(attempts(i), i, maxRetries);
  }

  lemma {:induction false} LeakedIsEmpty(attempts: nat -> Attempt, n: nat)
    ensures (Leaked(attempts, n) == []) <==> (forall i | 0 <= i < n :: Body(attempts(i).events) == [])
  {
    if n > 0 {
      LeakedIsEmpty(attempts, n - 1);
    }
  }

  /** A retried attempt emitted nothing exactly when it kept the provider contract. */
  lemma RetriedEmitsNothingIff(attempts: nat -> Attempt, maxRetries: nat, i: nat)
    requires i < LastAttempt(attempts, 0, maxRetries)
    ensures StartsWithContent(attempts(i)) <==> Body(attempts(i).events) == []
  {
    NoRetryAfterContent(attempts, maxRetries, i);
    var body := Body(attempts(i).events);
    assert body != [] ==> body[0] in body;
  }

  /** The consumer sees the last attempt and nothing else if and only if every retried attempt kept the provider
      contract; and otherwise it sees more, in front. */
  lemma NoLeakIff(attempts: nat -> Attempt, maxRetries: nat)
    ensures var k := LastAttempt(attempts, 0, maxRetries);
            Leaked(attempts, k) + Final(attempts(k)) == Final(attempts(k))
            <==> forall i | 0 <= i < k :: StartsWithContent(attempts(i))
  {
    var k := LastAttempt(attempts, 0, maxRetries);
    hide Leaked, Final, LastAttempt, StartsWithContent;
    LeakedIsEmpty(attempts, k);
    forall i | 0 <= i < k
      ensures StartsWithContent(attempts(i)) <==> Body(attempts(i).events) == []
    {
      RetriedEmitsNothingIff(attempts, maxRetries, i);
    }
    assert |Leaked(attempts, k) + Final(attempts(k))| == |Leaked(attempts, k)| + |Final(attempts(k))|;
  }

  const OPENING := Passthrough(Some(BlockStart(0, Block("text", Some(""), None, None, None, ""))))
  const LEAKING := Attempt([OPENING, StreamError("overloaded", "")], Clean)
  const ANSWERING := Attempt([MessageStop], Clean)

  /** Such a run: the opened block of the given-up attempt stands in front of the answer. */
  method LeakingRun() returns (out: seq<StreamEvent>, tries: nat)
    ensures out == [OPENING, MessageStop] && tries == 2
  {
    var attempts: nat -> Attempt := i => if i == 0 then LEAKING else ANSWERING;
    BodyIsPrefix(LEAKING.events, 1);
    BodyIsPrefix(ANSWERING.events, 1);
    assert Body(LEAKING.events) == [OPENING] && Body(ANSWERING.events) == [MessageStop];
    assert Retries(attempts(0), 0, 1) && !Retries(attempts(1), 1, 1);
    assert LastAttempt(attempts, 0, 1) == 1;
    out, tries := ChatStream(true, attempts, 1);
    assert Leaked(attempts, 0) == [] && Leaked(attempts, 1) == [] + Body(attempts(0).events);
  }

  /** With providers that keep their contract, the consumer sees the events of exactly one attempt, in order, and
      at most one error, which is last; no more than maxRetries + 1 attempts are opened. */
  lemma OneAttemptReachesTheConsumer(attempts: nat -> Attempt, maxRetries: nat)
    requires forall i | 0 <= i < LastAttempt(attempts, 0, maxRetries) :: StartsWithContent(attempts(i))
    ensures var k := LastAttempt(attempts, 0, maxRetries);
            var out := Leaked(attempts, k) + Final(attempts(k));
            && k + 1 <= maxRetries + 1
            && out == Final(attempts(k))
            && (forall i | 0 <= i < |out| - 1 :: !out[i].StreamError?)
            && (out != [] && out[|out| - 1].StreamError? <==> Failed(attempts(k)))
            && (if Failed(attempts(k)) then out[..|out| - 1] <= attempts(k).events else out == attempts(k).events)
  {
    NoLeakIff(attempts, maxRetries);
  }
}
