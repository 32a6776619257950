/**
 * The polling engine as pure transitions. The service's mutable fields
 * `isServiceRunning` and `consecutiveErrors` form the State; every callback
 * (start, a scheduled cycle, the fetch's failure or response) is one Event,
 * handled atomically, and what the Java code does on the side is returned as
 * a log of Effects.
 */
module Polling {
  import opened Opt
  import opened Backoff
  import opened Effects
  import opened Commands

  datatype State = State(running: bool, consecutiveErrors: nat)

  /** A non-empty 2xx body after JSON decoding. */
  datatype Json =
    | Malformed                           // not a JSON object: the parser throws or yields null
    | Object(commands: Option<seq<Entry>>) // None: no `commands` member, or one that is not an array

  /** The body of a 2xx response. */
  datatype Body =
    | Unreadable  // reading the body text throws
    | Empty       // no body, or the empty string
    | Text(json: Json)

  datatype Event =
    | Start                              // the service is asked to start polling
    | Cycle(requestThrows: bool)         // a scheduled cycle fires; building or enqueuing the request may throw
    | NetworkFailure                     // the fetch fails at the transport level
    | Response(code: int, body: Body)    // the fetch completes with an HTTP status

  datatype Transition = Transition(next: State, effects: seq<Effect>)

  /** The state of a freshly created service. */
  const Initial: State := State(false, 0)

  predicate IsSuccess(code: int)
  {
    200 <= code < 300
  }

  /**
   * Hands a cycle to the scheduler. The scheduler exists and is not shut down
   * exactly while the service is running, so nothing is scheduled otherwise.
   */
  function ScheduleCycle(s: State, delayMs: int): seq<Effect>
  {
    if s.running then [Schedule(delayMs)] else []
  }

  /** Arms a retry after the backoff delay for the current count. */
  function ScheduleRetryWithBackoff(s: State): seq<Effect>
  {
    ScheduleCycle(s, Delay(s.consecutiveErrors)) + [Notify(Retrying)]
  }

  /** Clears the count, rebuilds the HTTP client and arms one cycle after the recovery delay. */
  function InitiateErrorRecovery(s: State): Transition
  {
    Transition(s.(consecutiveErrors := 0),
               [RebuildClient] + ScheduleCycle(s, RecoveryDelay) + [Notify(Recovering)])
  }

  /**
   * A transport failure or a processing error: count it, then either recover
   * (threshold reached) or back off. `handleNetworkError` and
   * `handlePollingError` do exactly this.
   */
  function HandleCountedError(s: State): Transition
  {
    var counted := s.(consecutiveErrors := s.consecutiveErrors + 1);
    if counted.consecutiveErrors >= MaxConsecutiveErrors then InitiateErrorRecovery(counted)
    else Transition(counted, ScheduleRetryWithBackoff(counted))
  }

  /** A non-2xx status: count it, and back off only on a server error; no threshold check. */
  function HandleHttpError(s: State, code: int): Transition
  {
    var counted := s.(consecutiveErrors := s.consecutiveErrors + 1);
    if code >= 500 then Transition(counted, ScheduleRetryWithBackoff(counted))
    else Transition(counted, [])
  }

  /** A non-empty body: parse it and dispatch a non-empty command array; a parse error is a processing error. */
  function ProcessServerResponse(s: State, json: Json): Transition
  {
    match json
    case Malformed => HandleCountedError(s)
    case Object(None) => Transition(s, [])
    case Object(Some(cs)) => if |cs| > 0 then Transition(s, Dispatch(cs)) else Transition(s, [])
  }

  /** The response callback. Its parse-error path is swallowed, so the count is then cleared regardless. */
  function OnResponse(s: State, code: int, body: Body): Transition
  {
    if !IsSuccess(code) then HandleHttpError(s, code)
    else match body
      case Unreadable => HandleCountedError(s)
      case Empty => Transition(s.(consecutiveErrors := 0), [Notify(Connected)])
      case Text(json) =>
        var t := ProcessServerResponse(s, json);
        Transition(t.next.(consecutiveErrors := 0), t.effects + [Notify(Connected)])
  }

  /** Starting is idempotent; the first start clears the count and arms a cycle at once. */
  function StartPolling(s: State): Transition
  {
    if s.running then Transition(s, [])
    else Transition(State(true, 0), [Schedule(0)])
  }

  /**
   * A scheduled cycle: ignored when not running; otherwise it enqueues the
   * fetch and arms the next cycle after the polling interval, whatever the
   * fetch's outcome will be. A throw before the fetch is enqueued is a
   * processing error instead.
   */
  function PerformPollingCycle(s: State, requestThrows: bool): Transition
  {
    if !s.running then Transition(s, [])
    else if requestThrows then HandleCountedError(s)
    else Transition(s, [Fetch] + ScheduleCycle(s, PollingInterval))
  }

  /** One atomic step of the engine. Only a start ever changes `running`. */
  function Step(s: State, e: Event): (t: Transition)
    ensures t.next.running == (s.running || e.Start?)
  {
    match e
    case Start => StartPolling(s)
    case Cycle(requestThrows) => PerformPollingCycle(s, requestThrows)
    case NetworkFailure => HandleCountedError(s)
    case Response(code, body) => OnResponse(s, code, body)
  }

  /** Folds a step function over a sequence of events, concatenating the effect logs. */
  function Fold(step: (State, Event) -> Transition, s: State, es: seq<Event>): Transition
    decreases |es|
  {
    if es == [] then Transition(s, [])
    else
      var first := step(s, es[0]);
      var rest := Fold(step, first.next, es[1..]);
      Transition(rest.next, first.effects + rest.effects)
  }

  /** A sequence of events, handled in order by the engine. */
  function Run(s: State, es: seq<Event>): Transition
  {
    Fold(Step, s, es)
  }
}
