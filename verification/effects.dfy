/**
 * The observable effects of the polling service, recorded as one ordered log:
 * cycles handed to the scheduler, fetch requests, HTTP-client rebuilds,
 * notification texts, command-handler invocations and acknowledgements.
 */
module Effects {

  /** The four command handlers the service knows. */
  datatype Handler = EnableLocation | RequestLocation | LockDevice | UnlockDevice

  /** The texts the persistent notification shows. */
  datatype Status =
    | Connected           // after a successful 2xx response
    | Retrying            // a backoff retry has been armed
    | Recovering          // error recovery has run
    | Handled(h: Handler) // the text a handler shows once it has acted

  datatype Effect =
    | Schedule(delayMs: int)  // one more polling cycle is handed to the scheduler
    | Fetch                   // the check-commands request is enqueued
    | RebuildClient           // the HTTP client is rebuilt from scratch
    | Notify(status: Status)  // the notification text is replaced
    | Invoke(handler: Handler) // a command handler starts
    | Ack(commandId: string)  // an acknowledgement is posted for a command id

  /** The delays of all scheduled cycles, in log order. */
  function Delays(log: seq<Effect>): seq<int>
  {
    if log == [] then []
    else (if log[0].Schedule? then [log[0].delayMs] else []) + Delays(log[1..])
  }

  /** The notification texts, in log order. */
  function Statuses(log: seq<Effect>): seq<Status>
  {
    if log == [] then []
    else (if log[0].Notify? then [log[0].status] else []) + Statuses(log[1..])
  }

  /** The handlers invoked, in log order. */
  function Invoked(log: seq<Effect>): seq<Handler>
  {
    if log == [] then []
    else (if log[0].Invoke? then [log[0].handler] else []) + Invoked(log[1..])
  }

  /** The acknowledged command ids, in log order. */
  function Acks(log: seq<Effect>): seq<string>
  {
    if log == [] then []
    else (if log[0].Ack? then [log[0].commandId] else []) + Acks(log[1..])
  }

  /** How many times the HTTP client was rebuilt. */
  function Rebuilds(log: seq<Effect>): nat
  {
    if log == [] then 0 else (if log[0].RebuildClient? then 1 else 0) + Rebuilds(log[1..])
  }

  /** How many check-commands requests were enqueued. */
  function Fetches(log: seq<Effect>): nat
  {
    if log == [] then 0 else (if log[0].Fetch? then 1 else 0) + Fetches(log[1..])
  }

  lemma {:induction false} DelaysAppend(a: seq<Effect>, b: seq<Effect>)
    ensures Delays(a + b) == Delays(a) + Delays(b)
  {
    if a == [] {
      assert a + b == b;
    } else {
      assert (a + b)[0] == a[0];
      assert (a + b)[1..] == a[1..] + b;
      DelaysAppend(a[1..], b);
    }
  }

  lemma {:induction false} StatusesAppend(a: seq<Effect>, b: seq<Effect>)
    ensures Statuses(a + b) == Statuses(a) + Statuses(b)
  {
    if a == [] {
      assert a + b == b;
    } else {
      assert (a + b)[0] == a[0];
      assert (a + b)[1..] == a[1..] + b;
      StatusesAppend(a[1..], b);
    }
  }

  lemma {:induction false} InvokedAppend(a: seq<Effect>, b: seq<Effect>)
    ensures Invoked(a + b) == Invoked(a) + Invoked(b)
  {
    if a == [] {
      assert a + b == b;
    } else {
      assert (a + b)[0] == a[0];
      assert (a + b)[1..] == a[1..] + b;
      InvokedAppend(a[1..], b);
    }
  }

  lemma {:induction false} AcksAppend(a: seq<Effect>, b: seq<Effect>)
    ensures Acks(a + b) == Acks(a) + Acks(b)
  {
    if a == [] {
      assert a + b == b;
    } else {
      assert (a + b)[0] == a[0];
      assert (a + b)[1..] == a[1..] + b;
      AcksAppend(a[1..], b);
    }
  }

  lemma {:induction false} RebuildsAppend(a: seq<Effect>, b: seq<Effect>)
    ensures Rebuilds(a + b) == Rebuilds(a) + Rebuilds(b)
  {
    if a == [] {
      assert a + b == b;
    } else {
      assert (a + b)[0] == a[0];
      assert (a + b)[1..] == a[1..] + b;
      RebuildsAppend(a[1..], b);
    }
  }

  lemma {:induction false} FetchesAppend(a: seq<Effect>, b: seq<Effect>)
    ensures Fetches(a + b) == Fetches(a) + Fetches(b)
  {
    if a == [] {
      assert a + b == b;
    } else {
      assert (a + b)[0] == a[0];
      assert (a + b)[1..] == a[1..] + b;
      FetchesAppend(a[1..], b);
    }
  }

  /** Every projection of a log distributes over concatenation. */
  lemma LogAppend(a: seq<Effect>, b: seq<Effect>)
    ensures Delays(a + b) == Delays(a) + Delays(b)
    ensures Statuses(a + b) == Statuses(a) + Statuses(b)
    ensures Invoked(a + b) == Invoked(a) + Invoked(b)
    ensures Acks(a + b) == Acks(a) + Acks(b)
    ensures Rebuilds(a + b) == Rebuilds(a) + Rebuilds(b)
    ensures Fetches(a + b) == Fetches(a) + Fetches(b)
  {
    DelaysAppend(a, b);
    StatusesAppend(a, b);
    InvokedAppend(a, b);
    AcksAppend(a, b);
    RebuildsAppend(a, b);
    FetchesAppend(a, b);
  }
}
