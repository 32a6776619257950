/**
 * What the polling engine guarantees, stated over single steps and over
 * sequences of events.
 */
module Properties {
  import opened Opt
  import opened Backoff
  import opened Effects
  import opened Commands
  import opened Polling

  /** Starting a running engine changes nothing; the first start clears the count and arms a cycle at once. */
  lemma StartStep(s: State)
    ensures s.running ==> Step(s, Start) == Transition(s, [])
    ensures !s.running ==> Step(s, Start).next == State(true, 0) && Delays(Step(s, Start).effects) == [0]
    ensures !s.running ==> Statuses(Step(s, Start).effects) == [] && Fetches(Step(s, Start).effects) == 0
  {
  }

  /**
   * A cycle while stopped does nothing. A running cycle whose request is
   * enqueued fetches once and arms the next cycle after the polling
   * interval, leaving the state alone; one whose request throws is handled
   * as a processing error.
   */
  lemma CycleStep(s: State, requestThrows: bool)
    ensures !s.running ==> Step(s, Cycle(requestThrows)) == Transition(s, [])
    ensures s.running && !requestThrows ==>
              var t := Step(s, Cycle(false));
              t.next == s && Fetches(t.effects) == 1 && Delays(t.effects) == [PollingInterval]
              && Statuses(t.effects) == [] && Rebuilds(t.effects) == 0
    ensures s.running && requestThrows ==> Step(s, Cycle(true)) == Step(s, NetworkFailure)
  {
    if s.running && !requestThrows {
      LogAppend([Fetch], [Schedule(PollingInterval)]);
    }
  }

  /**
   * A counted failure adds exactly one to the count. On reaching the
   * threshold, recovery clears the count, rebuilds the client once, arms one
   * cycle after the recovery delay and shows "recovering"; below it, one
   * retry is armed after the backoff delay and "retrying" is shown.
   */
  lemma NetworkFailureStep(s: State)
    ensures var t := Step(s, NetworkFailure);
            var n := s.consecutiveErrors + 1;
            t.next.running == s.running
            && (n >= MaxConsecutiveErrors ==>
                  t.next.consecutiveErrors == 0 && Rebuilds(t.effects) == 1
                  && Delays(t.effects) == (if s.running then [RecoveryDelay] else [])
                  && Statuses(t.effects) == [Recovering] && Fetches(t.effects) == 0)
            && (n < MaxConsecutiveErrors ==>
                  t.next.consecutiveErrors == n && Rebuilds(t.effects) == 0
                  && Delays(t.effects) == (if s.running then [Delay(n)] else [])
                  && Statuses(t.effects) == [Retrying] && Fetches(t.effects) == 0)
  {
    assert Step(s, NetworkFailure) == HandleCountedError(s);
    CountedErrorEffects(s);
  }

  /** The effects of counting one error, stated on the shared handler itself. */
  lemma CountedErrorEffects(s: State)
    ensures var t := HandleCountedError(s);
            var n := s.consecutiveErrors + 1;
            t.next.running == s.running
            && (n >= MaxConsecutiveErrors ==>
                  t.next.consecutiveErrors == 0 && Rebuilds(t.effects) == 1
                  && Delays(t.effects) == (if s.running then [RecoveryDelay] else [])
                  && Statuses(t.effects) == [Recovering] && Fetches(t.effects) == 0)
            && (n < MaxConsecutiveErrors ==>
                  t.next.consecutiveErrors == n && Rebuilds(t.effects) == 0
                  && Delays(t.effects) == (if s.running then [Delay(n)] else [])
                  && Statuses(t.effects) == [Retrying] && Fetches(t.effects) == 0)
  {
    var n := s.consecutiveErrors + 1;
    var counted := s.(consecutiveErrors := n);
    if n >= MaxConsecutiveErrors {
      var head := [RebuildClient] + ScheduleCycle(counted, RecoveryDelay);
      assert HandleCountedError(s) == Transition(s.(consecutiveErrors := 0), head + [Notify(Recovering)]);
      assert Delays(head) == (if s.running then [RecoveryDelay] else []) && Statuses(head) == []
             && Rebuilds(head) == 1 && Fetches(head) == 0 by {
        LogAppend([RebuildClient], ScheduleCycle(counted, RecoveryDelay));
      }
      LogAppend(head, [Notify(Recovering)]);
    } else {
      var retry := ScheduleCycle(counted, Delay(n));
      assert HandleCountedError(s) == Transition(counted, retry + [Notify(Retrying)]);
      LogAppend(retry, [Notify(Retrying)]);
    }
  }

  /**
   * The processing-error paths (a 2xx body that cannot be read, a request
   * that throws while being enqueued) behave exactly like a transport failure.
   */
  lemma PollingErrorStep(s: State, code: int)
    requires IsSuccess(code)
    ensures Step(s, Response(code, Unreadable)) == Step(s, NetworkFailure)
    ensures s.running ==> Step(s, Cycle(true)) == Step(s, NetworkFailure)
  {
  }

  /**
   * A non-2xx status adds one to the count and never triggers recovery,
   * whatever the count; only a server error (5xx and above) arms a retry,
   * every other status has no effect at all. The body is ignored.
   */
  lemma HttpErrorStep(s: State, code: int, body: Body)
    requires !IsSuccess(code)
    ensures var t := Step(s, Response(code, body));
            t.next == s.(consecutiveErrors := s.consecutiveErrors + 1)
            && Rebuilds(t.effects) == 0 && Fetches(t.effects) == 0
            && (code >= 500 ==>
                  Delays(t.effects) == (if s.running then [Delay(s.consecutiveErrors + 1)] else [])
                  && Statuses(t.effects) == [Retrying])
            && (code < 500 ==> t.effects == [])
    ensures Step(s, Response(code, body)) == Step(s, Response(code, Empty))
  {
    var n := s.consecutiveErrors + 1;
    if code >= 500 {
      LogAppend(ScheduleCycle(s.(consecutiveErrors := n), Delay(n)), [Notify(Retrying)]);
    }
  }

  /**
   * Any 2xx response whose body can be read leaves the count at zero and
   * shows "connected" last, whatever the count was before; an empty body
   * does nothing else.
   */
  lemma SuccessStep(s: State, code: int, body: Body)
    requires IsSuccess(code) && !body.Unreadable?
    ensures var t := Step(s, Response(code, body));
            t.next == s.(consecutiveErrors := 0)
            && |Statuses(t.effects)| > 0 && Statuses(t.effects)[|Statuses(t.effects)| - 1] == Connected
            && Fetches(t.effects) == 0
    ensures body == Empty ==> Step(s, Response(code, body)).effects == [Notify(Connected)]
  {
    assert Step(s, Response(code, body)) == OnResponse(s, code, body);
    if body.Text? {
      var p := ProcessServerResponse(s, body.json);
      assert Fetches(p.effects) == 0 && p.next.running == s.running by {
        ProcessingFetchesNothing(s, body.json);
      }
      assert OnResponse(s, code, body) == Transition(s.(consecutiveErrors := 0), p.effects + [Notify(Connected)]);
      LogAppend(p.effects, [Notify(Connected)]);
    }
  }

  /** Processing a body never enqueues a fetch and never changes `running`. */
  lemma ProcessingFetchesNothing(s: State, json: Json)
    ensures Fetches(ProcessServerResponse(s, json).effects) == 0
    ensures ProcessServerResponse(s, json).next.running == s.running
  {
    match json
    case Malformed => CountedErrorEffects(s);
    case Object(None) =>
    case Object(Some(cs)) => DispatchSchedulesNothing(cs);
  }

  /**
   * A malformed body is counted as a processing error (retry or recovery is
   * armed), but the error is swallowed and the success path then clears the
   * count: the net count is zero and "connected" follows the error status.
   */
  lemma MalformedBodyStep(s: State, code: int)
    requires IsSuccess(code)
    ensures var t := Step(s, Response(code, Text(Malformed)));
            var n := s.consecutiveErrors + 1;
            t.next == s.(consecutiveErrors := 0) && Fetches(t.effects) == 0
            && (n >= MaxConsecutiveErrors ==>
                  Rebuilds(t.effects) == 1 && Statuses(t.effects) == [Recovering, Connected]
                  && Delays(t.effects) == (if s.running then [RecoveryDelay] else []))
            && (n < MaxConsecutiveErrors ==>
                  Rebuilds(t.effects) == 0 && Statuses(t.effects) == [Retrying, Connected]
                  && Delays(t.effects) == (if s.running then [Delay(n)] else []))
  {
    var e := Step(s, NetworkFailure);
    NetworkFailureStep(s);
    LogAppend(e.effects, [Notify(Connected)]);
  }

  /**
   * A body whose `commands` member is missing, not an array, or empty runs no
   * handler and sends no acknowledgement.
   */
  lemma NoCommandsStep(s: State, code: int, commands: Option<seq<Entry>>)
    requires IsSuccess(code)
    requires commands == None || commands == Some([])
    ensures Step(s, Response(code, Text(Object(commands)))) ==
            Transition(s.(consecutiveErrors := 0), [Notify(Connected)])
  {
  }

  /**
   * A body with a command array dispatches it and then reports success: the
   * acknowledgements and handler calls are exactly those of the batch, and
   * nothing is scheduled.
   */
  lemma CommandsStep(s: State, code: int, cs: seq<Entry>)
    requires IsSuccess(code)
    ensures var t := Step(s, Response(code, Text(Object(Some(cs)))));
            t.effects == Dispatch(cs) + [Notify(Connected)]
            && Acks(t.effects) == Acks(Dispatch(cs)) && Invoked(t.effects) == Invoked(Dispatch(cs))
            && Delays(t.effects) == [] && Rebuilds(t.effects) == 0 && Fetches(t.effects) == 0
            && t.next == s.(consecutiveErrors := 0)
  {
    DispatchSchedulesNothing(cs);
    LogAppend(Dispatch(cs), [Notify(Connected)]);
  }

  /** The failures that go through the threshold check (`handleNetworkError`, `handlePollingError`). */
  predicate CountedFailure(e: Event)
  {
    e == NetworkFailure || e == Cycle(true) || (e.Response? && IsSuccess(e.code) && e.body == Unreadable)
  }

  /** A response with a status of 500 or above. */
  predicate ServerError(e: Event)
  {
    e.Response? && e.code >= 500
  }

  /** The delays of k successive backoff retries after a count of c. */
  function BackoffDelays(c: nat, k: nat): seq<int>
  {
    seq(k, i requires 0 <= i < k => Delay(c + i + 1))
  }

  /** The first retry of a run of backoff retries, and the rest. */
  lemma BackoffDelaysCons(c: nat, k: nat)
    requires k > 0
    ensures BackoffDelays(c, k) == [Delay(c + 1)] + BackoffDelays(c + 1, k - 1)
  {
  }

  /** One counted failure below the threshold while running: one retry at the backoff delay. */
  lemma RetryStep(s: State, e: Event)
    requires s.running && CountedFailure(e)
    requires s.consecutiveErrors + 1 < MaxConsecutiveErrors
    ensures var t := Step(s, e);
            t.next == s.(consecutiveErrors := s.consecutiveErrors + 1)
            && Delays(t.effects) == [Delay(s.consecutiveErrors + 1)]
            && Statuses(t.effects) == [Retrying] && Rebuilds(t.effects) == 0
  {
    CountedFailureStep(s, e);
    NetworkFailureStep(s);
  }

  /** A counted failure that reaches the threshold while running: exactly one recovery. */
  lemma RecoveryStep(s: State, e: Event)
    requires s.running && CountedFailure(e)
    requires s.consecutiveErrors + 1 >= MaxConsecutiveErrors
    ensures var t := Step(s, e);
            t.next == s.(consecutiveErrors := 0)
            && Delays(t.effects) == [RecoveryDelay]
            && Statuses(t.effects) == [Recovering] && Rebuilds(t.effects) == 1
  {
    CountedFailureStep(s, e);
    NetworkFailureStep(s);
  }

  /** The first nine backoff delays from a clean count. */
  lemma NineRetryDelays()
    ensures BackoffDelays(0, 9) == [30000, 60000, 90000, 120000, 150000, 180000, 210000, 240000, 270000]
  {
  }

  /** Every delay lies between zero and the backoff cap. */
  predicate DelaysInRange(ds: seq<int>)
  {
    forall i :: 0 <= i < |ds| ==> 0 <= ds[i] <= MaxBackoffTime
  }

  /** Folding over two sequences one after the other is folding over their concatenation. */
  lemma {:induction false} FoldAppend(step: (State, Event) -> Transition, s: State, a: seq<Event>, b: seq<Event>)
    ensures var ra := Fold(step, s, a);
            var rb := Fold(step, ra.next, b);
            Fold(step, s, a + b) == Transition(rb.next, ra.effects + rb.effects)
    decreases |a|
  {
    if a == [] {
      assert a + b == b;
    } else {
      assert (a + b)[0] == a[0];
      assert (a + b)[1..] == a[1..] + b;
      FoldAppend(step, step(s, a[0]).next, a[1..], b);
    }
  }

  /** Running two event sequences one after the other is running their concatenation. */
  lemma RunAppend(s: State, a: seq<Event>, b: seq<Event>)
    ensures var ra := Run(s, a);
            var rb := Run(ra.next, b);
            Run(s, a + b) == Transition(rb.next, ra.effects + rb.effects)
  {
    FoldAppend(Step, s, a, b);
  }

  /** A non-empty run is its first step followed by the run of the rest. */
  lemma RunCons(s: State, es: seq<Event>)
    requires es != []
    ensures var first := Step(s, es[0]);
            var rest := Run(first.next, es[1..]);
            Run(s, es) == Transition(rest.next, first.effects + rest.effects)
  {
  }

  /** Only a start sets `running`, and nothing clears it. */
  lemma {:induction false} RunKeepsRunning(s: State, es: seq<Event>)
    ensures Run(s, es).next.running <==> s.running || exists i :: 0 <= i < |es| && es[i].Start?
    decreases |es|
  {
    if es != [] {
      var first := Step(s, es[0]);
      RunCons(s, es);
      RunKeepsRunning(first.next, es[1..]);
      assert forall i :: 0 <= i < |es[1..]| ==> es[1..][i] == es[i + 1];
      if exists i :: 0 <= i < |es| && es[i].Start? {
        var i :| 0 <= i < |es| && es[i].Start?;
        if i > 0 {
          assert es[1..][i - 1] == es[i];
        }
      }
    }
  }

  /** While running, every counted failure is handled as a transport failure. */
  lemma CountedFailureStep(s: State, e: Event)
    requires s.running && CountedFailure(e)
    ensures Step(s, e) == Step(s, NetworkFailure)
  {
  }

  /** Every delay a single step schedules is between zero and the backoff cap. */
  lemma StepDelaysInRange(s: State, e: Event)
    ensures DelaysInRange(Delays(Step(s, e).effects))
  {
    match e
    case Start => StartStep(s);
    case Cycle(requestThrows) =>
      CycleStep(s, requestThrows);
      if requestThrows {
        NetworkFailureStep(s);
      }
    case NetworkFailure => NetworkFailureStep(s);
    case Response(code, body) =>
      if !IsSuccess(code) {
        HttpErrorStep(s, code, body);
      } else if body.Unreadable? {
        PollingErrorStep(s, code);
        NetworkFailureStep(s);
      } else if body == Text(Malformed) {
        MalformedBodyStep(s, code);
      } else if body.Text? && body.json.commands.Some? {
        CommandsStep(s, code, body.json.commands.value);
      } else if body.Text? {
        NoCommandsStep(s, code, body.json.commands);
      }
  }

  /** No event sequence ever schedules a negative delay or one above the cap. */
  lemma {:induction false} RunDelaysInRange(s: State, es: seq<Event>)
    ensures DelaysInRange(Delays(Run(s, es).effects))
    decreases |es|
  {
    if es != [] {
      var first := Step(s, es[0]);
      RunCons(s, es);
      StepDelaysInRange(s, es[0]);
      RunDelaysInRange(first.next, es[1..]);
      DelaysAppend(first.effects, Run(first.next, es[1..]).effects);
    }
  }

  /**
   * Below the threshold the count stays below it for as long as no non-2xx
   * status arrives: only the HTTP-error path skips the threshold check.
   */
  lemma {:induction false} BelowThresholdWithoutHttpErrors(s: State, es: seq<Event>)
    requires s.consecutiveErrors < MaxConsecutiveErrors
    requires forall i :: 0 <= i < |es| ==> !(es[i].Response? && !IsSuccess(es[i].code))
    ensures Run(s, es).next.consecutiveErrors < MaxConsecutiveErrors
    decreases |es|
  {
    if es != [] {
      var e := es[0];
      if e.Start? {
        StartStep(s);
      } else if e.Cycle? {
        CycleStep(s, e.requestThrows);
        NetworkFailureStep(s);
      } else if e.NetworkFailure? {
        NetworkFailureStep(s);
      } else if e.body.Unreadable? {
        PollingErrorStep(s, e.code);
        NetworkFailureStep(s);
      } else {
        SuccessStep(s, e.code, e.body);
      }
      assert Step(s, e).next.consecutiveErrors < MaxConsecutiveErrors;
      assert forall i :: 0 <= i < |es[1..]| ==> es[1..][i] == es[i + 1];
      BelowThresholdWithoutHttpErrors(Step(s, e).next, es[1..]);
    }
  }

  /** Before the first start no cycle is ever scheduled and no request is made. */
  lemma {:induction false} IdleSchedulesNothing(s: State, es: seq<Event>)
    requires !s.running
    requires forall i :: 0 <= i < |es| ==> !es[i].Start?
    ensures Delays(Run(s, es).effects) == [] && Fetches(Run(s, es).effects) == 0
    decreases |es|
  {
    if es != [] {
      var first := Step(s, es[0]);
      RunCons(s, es);
      var e := es[0];
      assert !e.Start?;
      if e.NetworkFailure? {
        NetworkFailureStep(s);
      } else if e.Response? {
        var code, body := e.code, e.body;
        if !IsSuccess(code) {
          HttpErrorStep(s, code, body);
        } else if body.Unreadable? {
          PollingErrorStep(s, code);
          NetworkFailureStep(s);
        } else if body == Text(Malformed) {
          MalformedBodyStep(s, code);
        } else if body.Text? && body.json.commands.Some? {
          CommandsStep(s, code, body.json.commands.value);
        } else if body.Text? {
          NoCommandsStep(s, code, body.json.commands);
        } else {
          SuccessStep(s, code, body);
        }
      }
      assert Delays(first.effects) == [] && Fetches(first.effects) == 0;
      assert forall i :: 0 <= i < |es[1..]| ==> es[1..][i] == es[i + 1];
      IdleSchedulesNothing(first.next, es[1..]);
      DelaysAppend(first.effects, Run(first.next, es[1..]).effects);
      FetchesAppend(first.effects, Run(first.next, es[1..]).effects);
    }
  }

  /**
   * Below the threshold, k counted failures in a row add k to the count and
   * arm k retries whose delays follow the backoff schedule, one per count.
   */
  lemma {:induction false} CountedFailuresBackOff(s: State, es: seq<Event>)
    requires s.running
    requires s.consecutiveErrors + |es| < MaxConsecutiveErrors
    requires forall i :: 0 <= i < |es| ==> CountedFailure(es[i])
    ensures var t := Run(s, es);
            t.next == s.(consecutiveErrors := s.consecutiveErrors + |es|)
            && Delays(t.effects) == BackoffDelays(s.consecutiveErrors, |es|)
            && Rebuilds(t.effects) == 0
    decreases |es|
  {
    if es != [] {
      var c := s.consecutiveErrors;
      var first := Step(s, es[0]);
      var rest := Run(first.next, es[1..]);
      assert Run(s, es) == Transition(rest.next, first.effects + rest.effects) by {
        RunCons(s, es);
      }
      assert first.next == s.(consecutiveErrors := c + 1)
             && Delays(first.effects) == [Delay(c + 1)] && Rebuilds(first.effects) == 0 by {
        RetryStep(s, es[0]);
      }
      assert rest.next == s.(consecutiveErrors := c + |es|)
             && Delays(rest.effects) == BackoffDelays(c + 1, |es| - 1) && Rebuilds(rest.effects) == 0 by {
        assert forall i :: 0 <= i < |es[1..]| ==> es[1..][i] == es[i + 1];
        CountedFailuresBackOff(first.next, es[1..]);
      }
      DelaysAppend(first.effects, rest.effects);
      RebuildsAppend(first.effects, rest.effects);
      BackoffDelaysCons(c, |es|);
    }
  }

  /** Below the threshold, each counted failure while running shows "retrying" exactly once. */
  lemma {:induction false} CountedFailuresRetry(s: State, es: seq<Event>)
    requires s.running
    requires s.consecutiveErrors + |es| < MaxConsecutiveErrors
    requires forall i :: 0 <= i < |es| ==> CountedFailure(es[i])
    ensures Statuses(Run(s, es).effects) == seq(|es|, i => Retrying)
    decreases |es|
  {
    if es != [] {
      var first := Step(s, es[0]);
      RunCons(s, es);
      RetryStep(s, es[0]);
      assert forall i :: 0 <= i < |es[1..]| ==> es[1..][i] == es[i + 1];
      CountedFailuresRetry(first.next, es[1..]);
      StatusesAppend(first.effects, Run(first.next, es[1..]).effects);
    }
  }

  /**
   * Ten counted failures in a row from a clean count: nine retries with
   * growing delays, then recovery exactly once, leaving the count at zero.
   * The next failure starts the backoff sequence again from one.
   */
  lemma TenFailuresRecoverOnce(s: State, es: seq<Event>)
    requires s.running && s.consecutiveErrors == 0
    requires |es| == MaxConsecutiveErrors
    requires forall i :: 0 <= i < |es| ==> CountedFailure(es[i])
    ensures var t := Run(s, es);
            t.next == s && Rebuilds(t.effects) == 1
            && Delays(t.effects) == [30000, 60000, 90000, 120000, 150000, 180000, 210000, 240000, 270000, 60000]
            && Statuses(t.effects) == seq(9, i => Retrying) + [Recovering]
    ensures var after := Step(Run(s, es).next, NetworkFailure);
            after.next.consecutiveErrors == 1 && Delays(after.effects) == [PollingInterval]
  {
    var nine := es[..9];
    assert es == nine + [es[9]];
    CountedFailuresBackOff(s, nine);
    CountedFailuresRetry(s, nine);
    RunAppend(s, nine, [es[9]]);
    var mid := Run(s, nine);
    RecoveryStep(mid.next, es[9]);
    var last := Run(mid.next, [es[9]]);
    RunCons(mid.next, [es[9]]);
    assert [es[9]][1..] == [];
    assert last == Step(mid.next, es[9]);
    LogAppend(mid.effects, last.effects);
    NineRetryDelays();
    NetworkFailureStep(s);
  }

  /**
   * Server errors in a row, from any count: each adds one and arms a retry at
   * the backoff delay for the new count, and recovery never runs, so the
   * count grows without bound.
   */
  lemma {:induction false} ServerErrorsAccumulate(s: State, es: seq<Event>)
    requires s.running
    requires forall i :: 0 <= i < |es| ==> ServerError(es[i])
    ensures var t := Run(s, es);
            t.next == s.(consecutiveErrors := s.consecutiveErrors + |es|)
            && Delays(t.effects) == BackoffDelays(s.consecutiveErrors, |es|)
            && Rebuilds(t.effects) == 0
    decreases |es|
  {
    if es != [] {
      var c := s.consecutiveErrors;
      var first := Step(s, es[0]);
      var rest := Run(first.next, es[1..]);
      assert Run(s, es) == Transition(rest.next, first.effects + rest.effects) by {
        RunCons(s, es);
      }
      assert first.next == s.(consecutiveErrors := c + 1) && first.next.running
             && Delays(first.effects) == [Delay(c + 1)] && Rebuilds(first.effects) == 0 by {
        HttpErrorStep(s, es[0].code, es[0].body);
      }
      assert rest.next == s.(consecutiveErrors := c + |es|)
             && Delays(rest.effects) == BackoffDelays(c + 1, |es| - 1) && Rebuilds(rest.effects) == 0 by {
        assert forall i :: 0 <= i < |es[1..]| ==> es[1..][i] == es[i + 1];
        ServerErrorsAccumulate(first.next, es[1..]);
      }
      DelaysAppend(first.effects, rest.effects);
      RebuildsAppend(first.effects, rest.effects);
      BackoffDelaysCons(c, |es|);
    }
  }

  /** Ten server errors in a row from a clean count leave the count at ten: no recovery. */
  lemma TenServerErrorsDoNotRecover(s: State)
    requires s.running && s.consecutiveErrors == 0
    ensures var t := Run(s, seq(10, i => Response(503, Empty)));
            t.next.consecutiveErrors == 10 && Rebuilds(t.effects) == 0
  {
    ServerErrorsAccumulate(s, seq(10, i => Response(503, Empty)));
  }

  /**
   * The count the Java backoff overflows at is reachable: 71583 server errors
   * in a row from a clean count. The model arms the five-minute cap there,
   * where the Java product has already wrapped to a negative delay.
   */
  lemma OverflowReachable(s: State)
    requires s.running && s.consecutiveErrors == 0
    ensures var t := Run(s, seq(LastSafeCount + 1, i => Response(503, Empty)));
            t.next.consecutiveErrors == LastSafeCount + 1
            && |Delays(t.effects)| == LastSafeCount + 1
            && Delays(t.effects)[LastSafeCount] == MaxBackoffTime
            && BackoffAsWritten(t.next.consecutiveErrors) < 0
  {
    ServerErrorsAccumulate(s, seq(LastSafeCount + 1, i => Response(503, Empty)));
    AsWrittenNegative(LastSafeCount + 1);
  }

  /**
   * Three 503 responses and then a 2xx with an empty body: retries at 30, 60
   * and 90 seconds, then the count is back at zero and "connected" is shown.
   */
  lemma ServerErrorsThenSuccess(s: State)
    requires s.running && s.consecutiveErrors == 0
    ensures var t := Run(s, [Response(503, Empty), Response(503, Empty), Response(503, Empty), Response(200, Empty)]);
            t.next == s && Delays(t.effects) == [30000, 60000, 90000]
            && Statuses(t.effects) == [Retrying, Retrying, Retrying, Connected]
  {
    var errors := [Response(503, Empty), Response(503, Empty), Response(503, Empty)];
    var success := [Response(200, Empty)];
    assert errors + success ==
           [Response(503, Empty), Response(503, Empty), Response(503, Empty), Response(200, Empty)];
    RunAppend(s, errors, success);
    var mid := Run(s, errors);
    ThreeServerErrors(s);
    var last := Run(mid.next, success);
    assert last == Transition(s, [Notify(Connected)]) by {
      RunCons(mid.next, success);
      assert success[1..] == [];
      SuccessStep(mid.next, 200, Empty);
    }
    LogAppend(mid.effects, last.effects);
  }

  /** The first half of the scenario above: three 503 responses from a clean start. */
  lemma ThreeServerErrors(s: State)
    requires s.running && s.consecutiveErrors == 0
    ensures var t := Run(s, [Response(503, Empty), Response(503, Empty), Response(503, Empty)]);
            t.next == s.(consecutiveErrors := 3) && Delays(t.effects) == [30000, 60000, 90000]
            && Statuses(t.effects) == [Retrying, Retrying, Retrying]
  {
    var errors := [Response(503, Empty), Response(503, Empty), Response(503, Empty)];
    assert forall i :: 0 <= i < |errors| ==> ServerError(errors[i]);
    ServerErrorsAccumulate(s, errors);
    assert BackoffDelays(0, 3) == [30000, 60000, 90000];
    StatusesOfServerErrors(s, errors);
  }

  /** Each server error while running shows "retrying" exactly once. */
  lemma {:induction false} StatusesOfServerErrors(s: State, es: seq<Event>)
    requires s.running
    requires forall i :: 0 <= i < |es| ==> ServerError(es[i])
    ensures Statuses(Run(s, es).effects) == seq(|es|, i => Retrying)
    decreases |es|
  {
    if es != [] {
      var first := Step(s, es[0]);
      RunCons(s, es);
      HttpErrorStep(s, es[0].code, es[0].body);
      assert forall i :: 0 <= i < |es[1..]| ==> es[1..][i] == es[i + 1];
      StatusesOfServerErrors(first.next, es[1..]);
      StatusesAppend(first.effects, Run(first.next, es[1..]).effects);
    }
  }

  /**
   * Every cycle arms its follow-up before the fetch completes, and a failed
   * fetch arms a retry on top: one cycle that fails leaves two cycles armed.
   */
  lemma CycleThenFailureForks(s: State)
    requires s.running && s.consecutiveErrors + 1 < MaxConsecutiveErrors
    ensures Delays(Run(s, [Cycle(false), NetworkFailure]).effects) ==
            [PollingInterval, Delay(s.consecutiveErrors + 1)]
  {
    CycleStep(s, false);
    var first := Step(s, Cycle(false));
    NetworkFailureStep(first.next);
    var second := Step(first.next, NetworkFailure);
    assert [Cycle(false), NetworkFailure][1..] == [NetworkFailure];
    assert Run(first.next, [NetworkFailure]).effects == second.effects;
    DelaysAppend(first.effects, second.effects);
  }

  /**
   * A 404 counts as a failure but arms nothing; polling goes on only because
   * the cycle already armed its follow-up, and the service keeps running.
   */
  lemma NotFoundKeepsPolling(s: State)
    requires s.running
    ensures var t := Run(s, [Cycle(false), Response(404, Empty)]);
            t.next == s.(consecutiveErrors := s.consecutiveErrors + 1)
            && Delays(t.effects) == [PollingInterval] && Fetches(t.effects) == 1
  {
    CycleStep(s, false);
    var first := Step(s, Cycle(false));
    HttpErrorStep(first.next, 404, Empty);
    var second := Step(first.next, Response(404, Empty));
    assert [Cycle(false), Response(404, Empty)][1..] == [Response(404, Empty)];
    assert Run(first.next, [Response(404, Empty)]).effects == second.effects;
    DelaysAppend(first.effects, second.effects);
    FetchesAppend(first.effects, second.effects);
  }
}
