# Knets Jr polling engine — a Dafny model

This project models the self-healing command-polling core of the Knets Jr
child-device service (`BulletproofPollingService`): the backoff policy, the
consecutive-error counter with its threshold-triggered recovery, and the
dispatcher that routes the parent's commands to handlers and acknowledges them.

The service's mutable fields `isServiceRunning` and `consecutiveErrors` become
an immutable `Polling.State`. Every callback the Java code runs — a start
request, a scheduled cycle, the fetch's `onFailure`, the fetch's `onResponse`
— is one `Polling.Event`, handled atomically by the pure function
`Polling.Step`. What the code does on the side is returned as an ordered log
of `Effects.Effect` values:

- cycles handed to the scheduler, with their delay;
- fetch requests;
- HTTP-client rebuilds;
- notification texts;
- handler invocations;
- acknowledged command ids.

`Polling.Run` folds `Step` over a sequence of events. Properties of the log are
stated through projections (`Delays`, `Statuses`, `Acks`, `Invoked`,
`Rebuilds`, `Fetches`).

Modules:

- `Opt` (option.dfy): the optional value used for decoded fields.
- `Backoff` (backoff.dfy): the constants and the delay formula.
  - `Wrap32` gives Java `int` arithmetic.
  - `BackoffAsWritten` is the delay as the code computes it.
  - `Delay` is the overflow-free delay that the rest of the model uses.
- `Effects` (effects.dfy): handlers, notification texts, the effect log and its projections.
- `Commands` (commands.dfy): the decoded command entries and the per-command dispatcher.
  - `Dispatch` is the functional definition.
  - `ProcessParentCommands` is the index-order loop of the code.
- `Polling` (polling.dfy): state, events, one function per Java method of the core, `Step` and `Run`.
- `Properties` (properties.dfy): lemmas over single steps and over event sequences.

Modelling choices:

- The scheduler exists, and is not shut down, exactly while the service is
  running: it is created by the first start, and stopping is not modelled. So
  every "schedule if the scheduler is live" guard becomes "schedule if
  running". Notification updates are not guarded, and they are logged either way.
- A 2xx body arrives already decoded. It is one of:
  - `Unreadable`: reading the text throws, which goes to the outer catch;
  - `Empty`;
  - `Text(Malformed)`: the parser throws, or yields no object;
  - `Text(Object(commands))`: `commands` is None when the member is missing or is not an array.
- A command entry is either `NotAnObject` or `Command(typeName, id, handlerThrows)`.
  The `typeName` and `id` fields are None when missing or not readable as a string.
  A handler is modelled as "invoked", plus whether it throws.
- A cycle whose synchronous part throws (building or enqueuing the request)
  takes the `handlePollingError` path and arms no 30 s follow-up.

Behaviour of the code a reader might not expect:

- Non-2xx statuses never trigger recovery. Only 5xx and above arm a retry. A
  404, like every other non-5xx status, only bumps the counter
  (`Properties.HttpErrorStep`, `Properties.TenServerErrorsDoNotRecover`).
- A handler that throws suppresses that command's acknowledgement. An unknown
  type is still acknowledged (`Commands.DispatchOneEffects`).
- A malformed body is counted and arms a retry or recovery, but the error is
  swallowed. The success path then clears the counter, so the net count is
  zero (`Properties.MalformedBodyStep`).
- Every running cycle arms its 30 s follow-up before the fetch completes. A
  failing fetch arms a second cycle on top, so a failure leaves two cycles
  armed for the one that fired (`Properties.CycleThenFailureForks`).
- The response callbacks do not check `isServiceRunning`.

## Model

| member | source | states |
|---|---|---|
| Backoff.Wrap32 | app/src/main/java/com/knets/jr/BulletproofPollingService.java:398 | the `int` product: result within the 32-bit range, congruent to the exact value modulo 2^32, and equal to it when it fits |
| Backoff.Delay | app/src/main/java/com/knets/jr/BulletproofPollingService.java:398 | the backoff delay is never above 300000 ms; it is 30000 ms per failure up to 10 failures and the 300000 ms cap from 10 on |
| Backoff.DelayMonotone | app/src/main/java/com/knets/jr/BulletproofPollingService.java:398 | the backoff delay is non-decreasing in the failure count |
| Backoff.BackoffAsWritten | app/src/main/java/com/knets/jr/BulletproofPollingService.java:398 | the delay as the code computes it is never above the cap and equals the intended delay for every count up to 71582 |
| Backoff.AsWrittenNegative | app/src/main/java/com/knets/jr/BulletproofPollingService.java:398 | for counts 71583 to 143165 the code's `int` product wraps and the delay it computes is negative, below the intended one |
| Backoff.AsWrittenNotMonotone | app/src/main/java/com/knets/jr/BulletproofPollingService.java:398 | the code's delay drops from the 300000 ms cap at count 71582 to -2147477296 at count 71583 |
| Commands.HandlerFor | app/src/main/java/com/knets/jr/BulletproofPollingService.java:262-278 | a `type` string selects the handler whose type name it is, and selects none exactly when it matches no handler's name |
| Commands.HandlerForTypeName | app/src/main/java/com/knets/jr/BulletproofPollingService.java:262-274 | each of the four type names selects its own handler |
| Commands.DispatchOneEffects | app/src/main/java/com/knets/jr/BulletproofPollingService.java:255-285 | one entry invokes the handler its type selects. It shows that handler's text unless the handler throws. It is acknowledged iff it is an object with `type` and `id` and either its type is unknown or its handler did not throw. It never schedules, fetches or rebuilds |
| Commands.DispatchSchedulesNothing | app/src/main/java/com/knets/jr/BulletproofPollingService.java:253-287 | processing a batch never schedules a cycle, fetches, or rebuilds the client |
| Commands.DispatchAppend | app/src/main/java/com/knets/jr/BulletproofPollingService.java:254-286 | processing a concatenated batch is processing its parts one after the other |
| Commands.DispatchAt | app/src/main/java/com/knets/jr/BulletproofPollingService.java:254-286 | fault isolation: entry i contributes exactly its own effects, between those of the entries before it and those after it |
| Commands.AckedIff | app/src/main/java/com/knets/jr/BulletproofPollingService.java:253-287 | an id is acknowledged iff some entry carrying it passes the acknowledgement rule |
| Commands.InvokedIff | app/src/main/java/com/knets/jr/BulletproofPollingService.java:262-278 | a handler is invoked iff some well-formed entry's type selects it |
| Commands.UnknownThenKnown | app/src/main/java/com/knets/jr/BulletproofPollingService.java:262-281 | a batch of an entry whose type matches no handler, then an entry of any known type: only the known type's handler runs, and both ids are acknowledged in batch order |
| Commands.ProcessParentCommands | app/src/main/java/com/knets/jr/BulletproofPollingService.java:253-287 | the index-order loop produces exactly the batch's dispatch effects, and acknowledges an id iff some entry carrying it passes the acknowledgement rule |
| Polling.Step | app/src/main/java/com/knets/jr/BulletproofPollingService.java:151-167 | only a start sets `running`, and nothing clears it |
| Properties.RunKeepsRunning | app/src/main/java/com/knets/jr/BulletproofPollingService.java:151-167 | after a sequence of events the engine is running iff it was running before or some event was a start |
| Polling.StartPolling | app/src/main/java/com/knets/jr/BulletproofPollingService.java:151-167 | starting is idempotent: a start while running does nothing, and a first start sets running, clears the counter and arms one cycle at once (stated by Properties.StartStep) |
| Polling.PerformPollingCycle | app/src/main/java/com/knets/jr/BulletproofPollingService.java:169-186 | a cycle while stopped does nothing; a running cycle fetches once and arms its 30000 ms follow-up; a request that throws is a processing error (stated by Properties.CycleStep and Properties.PollingErrorStep) |
| Polling.HandleCountedError | app/src/main/java/com/knets/jr/BulletproofPollingService.java:361-395 | a transport or processing error adds one to the counter, then recovers at 10 or more and otherwise backs off (stated by Properties.CountedErrorEffects and Properties.NetworkFailureStep) |
| Polling.HandleHttpError | app/src/main/java/com/knets/jr/BulletproofPollingService.java:373-384 | a non-2xx status adds one to the counter without a threshold check, and backs off only for 500 and above (stated by Properties.HttpErrorStep and Properties.ServerErrorsAccumulate) |
| Polling.ScheduleRetryWithBackoff | app/src/main/java/com/knets/jr/BulletproofPollingService.java:397-407 | one retry armed at the capped backoff delay for the current count while running, and "retrying" shown (stated by Properties.RetryStep and Properties.CountedFailuresBackOff) |
| Polling.InitiateErrorRecovery | app/src/main/java/com/knets/jr/BulletproofPollingService.java:409-427 | the counter is cleared, the client rebuilt once, one cycle armed at 60000 ms while running, and "recovering" shown (stated by Properties.RecoveryStep) |
| Polling.ProcessServerResponse | app/src/main/java/com/knets/jr/BulletproofPollingService.java:234-251 | a malformed body is a processing error; a missing, non-array or empty `commands` member does nothing; a non-empty array is dispatched; nothing is fetched and `running` is kept (stated by Properties.ProcessingFetchesNothing, Properties.MalformedBodyStep, Properties.NoCommandsStep and Properties.CommandsStep) |
| Polling.OnResponse | app/src/main/java/com/knets/jr/BulletproofPollingService.java:206-230 | a non-2xx status goes to the HTTP error path, an unreadable body to the processing-error path, and any other 2xx body ends with counter 0 and "connected" (stated by Properties.HttpErrorStep, Properties.PollingErrorStep and Properties.SuccessStep) |
| Commands.DispatchOne | app/src/main/java/com/knets/jr/BulletproofPollingService.java:255-285 | one entry: skipped when malformed, acknowledged only when its type is unknown, otherwise its handler runs and the entry is acknowledged unless the handler throws (stated by Commands.DispatchOneEffects) |
| Commands.Dispatch | app/src/main/java/com/knets/jr/BulletproofPollingService.java:253-287 | a batch processed entry by entry in index order, each entry isolated from the others' failures (stated by Commands.DispatchAt, Commands.AckedIff, Commands.InvokedIff and Commands.ProcessParentCommands) |
| Properties.StartStep | app/src/main/java/com/knets/jr/BulletproofPollingService.java:151-167 | a start while running changes neither state nor log. A first start sets running, clears the counter and arms exactly one cycle at delay 0 |
| Properties.CycleStep | app/src/main/java/com/knets/jr/BulletproofPollingService.java:169-186 | a cycle while stopped does nothing. A running cycle fetches once, arms one follow-up at 30000 ms and leaves the state unchanged. One whose request throws is handled as a processing error |
| Properties.NetworkFailureStep | app/src/main/java/com/knets/jr/BulletproofPollingService.java:361-371 | a transport failure adds exactly one to the counter. At 10 or more it recovers: counter 0, one rebuild, one cycle at 60000 ms, "recovering". Otherwise it arms one retry at the backoff delay and shows "retrying" |
| Properties.CountedErrorEffects | app/src/main/java/com/knets/jr/BulletproofPollingService.java:386-427 | the shared error path adds exactly one to the counter. At 10 or more it resets the counter, rebuilds the client once, arms one cycle at 60000 ms when running and shows "recovering". Below 10 it arms one retry at the backoff delay for the new count when running and shows "retrying". It never fetches and never changes `running` |
| Properties.PollingErrorStep | app/src/main/java/com/knets/jr/BulletproofPollingService.java:386-395 | an unreadable 2xx body, and a cycle whose request throws, are handled exactly like a transport failure |
| Properties.CountedFailureStep | app/src/main/java/com/knets/jr/BulletproofPollingService.java:386-395 | while running, every failure that passes through the threshold check has the transport failure's transition |
| Properties.HttpErrorStep | app/src/main/java/com/knets/jr/BulletproofPollingService.java:373-384 | a non-2xx status adds one to the counter and never recovers or rebuilds. It arms a retry and shows "retrying" only for status 500 and above; any other status has no effect. The body is ignored |
| Properties.SuccessStep | app/src/main/java/com/knets/jr/BulletproofPollingService.java:214-222 | every readable 2xx response ends with counter 0 and "connected" as the last status, whatever the prior count. An empty body does nothing else |
| Properties.MalformedBodyStep | app/src/main/java/com/knets/jr/BulletproofPollingService.java:216-229 | a malformed body arms a backoff retry ("retrying"), or recovers at the threshold ("recovering"), then shows "connected". The net counter is 0 |
| Properties.NoCommandsStep | app/src/main/java/com/knets/jr/BulletproofPollingService.java:238-245 | a missing, non-array or empty `commands` member runs no handler and sends no acknowledgement: only "connected" is shown and the counter is cleared |
| Properties.CommandsStep | app/src/main/java/com/knets/jr/BulletproofPollingService.java:234-245 | a body with a command array has exactly the batch's effects followed by "connected". Nothing is scheduled, and the counter is cleared |
| Properties.StepDelaysInRange | app/src/main/java/com/knets/jr/BulletproofPollingService.java:397-427 | every delay a single event arms lies between 0 and 300000 ms |
| Properties.RunDelaysInRange | app/src/main/java/com/knets/jr/BulletproofPollingService.java:397-427 | every delay any event sequence arms lies between 0 and 300000 ms |
| Properties.BelowThresholdWithoutHttpErrors | app/src/main/java/com/knets/jr/BulletproofPollingService.java:361-395 | a counter below 10 stays below 10 as long as no non-2xx status arrives |
| Properties.IdleSchedulesNothing | app/src/main/java/com/knets/jr/BulletproofPollingService.java:402-404 | before the first start no cycle is armed and no request is made, whatever callbacks arrive |
| Properties.RetryStep | app/src/main/java/com/knets/jr/BulletproofPollingService.java:361-371 | one counted failure below the threshold arms one retry at the backoff delay for the new count |
| Properties.RecoveryStep | app/src/main/java/com/knets/jr/BulletproofPollingService.java:409-427 | while running, the counted failure that reaches the threshold clears the counter, rebuilds once, arms exactly one cycle at 60000 ms and shows "recovering" |
| Properties.CountedFailuresBackOff | app/src/main/java/com/knets/jr/BulletproofPollingService.java:361-371 | k counted failures below the threshold add k to the counter and arm retries at 30000 ms times 1, 2, ..., k above the prior count, with no rebuild |
| Properties.CountedFailuresRetry | app/src/main/java/com/knets/jr/BulletproofPollingService.java:397-407 | each of those failures shows "retrying" exactly once |
| Properties.TenFailuresRecoverOnce | app/src/main/java/com/knets/jr/BulletproofPollingService.java:409-427 | ten counted failures from a clean counter give nine retries at 30 s to 270 s, then exactly one recovery at 60 s with one rebuild. The counter ends at 0, and the next failure restarts backoff from 1 |
| Properties.ServerErrorsAccumulate | app/src/main/java/com/knets/jr/BulletproofPollingService.java:373-384 | successive 5xx responses add one each and arm retries along the backoff schedule. Recovery never runs, so the counter grows without bound |
| Properties.StatusesOfServerErrors | app/src/main/java/com/knets/jr/BulletproofPollingService.java:373-379 | each 5xx response while running shows "retrying" once |
| Properties.TenServerErrorsDoNotRecover | app/src/main/java/com/knets/jr/BulletproofPollingService.java:373-384 | ten 503 responses from a clean counter leave it at 10, with no rebuild |
| Properties.OverflowReachable | app/src/main/java/com/knets/jr/BulletproofPollingService.java:398 | 71583 successive 503 responses reach the count at which the code's backoff product is negative. The model arms the 300000 ms cap there |
| Properties.ThreeServerErrors | app/src/main/java/com/knets/jr/BulletproofPollingService.java:373-407 | three 503 responses from a clean counter leave it at 3, arm retries at 30, 60 and 90 s, and show "retrying" three times |
| Properties.ServerErrorsThenSuccess | app/src/main/java/com/knets/jr/BulletproofPollingService.java:206-222 | three 503 responses then an empty 2xx: retries at 30, 60 and 90 s, then counter 0 and "connected" |
| Properties.CycleThenFailureForks | app/src/main/java/com/knets/jr/BulletproofPollingService.java:180 | a running cycle followed by a transport failure arms two cycles, the 30 s follow-up and the backoff retry |
| Properties.NotFoundKeepsPolling | app/src/main/java/com/knets/jr/BulletproofPollingService.java:380-383 | a cycle answered by 404 counts one failure and arms only the cycle's own 30 s follow-up. The service keeps running |

## Findings

| source | as written | input that shows it | evidently intended | confidence | as-written member | corrected member |
|---|---|---|---|---|---|---|
| app/src/main/java/com/knets/jr/BulletproofPollingService.java:398 | `Math.min(POLLING_INTERVAL * consecutiveErrors, MAX_BACKOFF_TIME)` multiplies two `int`s. The product wraps before the minimum is taken | `consecutiveErrors` = 71583, reached by 71583 successive 5xx responses. `handleHttpError` never checks the threshold or resets. The product wraps to -2147477296, so the retry is armed with a negative delay, i.e. at once | the five-minute cap, 300000 ms | high (arithmetic); not executed | Backoff.BackoffAsWritten, shown by Backoff.AsWrittenNegative and Properties.OverflowReachable | Backoff.Delay, with Backoff.DelayMonotone and Properties.RunDelaysInRange |

## Left out

- Polling.ScheduleRetryWithBackoff: arms `Backoff.Delay(n)`, the intended capped delay, where the code arms the wrapped `int` product once the count passes 71582; `Step` and `Run` therefore describe the corrected engine, and the code's negative delay is shown separately by `Backoff.BackoffAsWritten`, `Backoff.AsWrittenNegative` and `Properties.OverflowReachable` (see Findings).
- Service lifecycle is not modelled: `onCreate`, `onStartCommand`'s START_STICKY,
  `onDestroy` and the 15 s restart in `scheduleServiceRestart`. These are
  Android host plumbing. With no stop event, the behaviour of results that
  arrive after a stop is not modelled either.
- Notifications: the channel and notification builders are UI. Each
  `updateNotification` call is one `Notify(status)` entry. The exact texts,
  with their emoji, are not modelled; `Status` names which text is shown.
- OkHttp transport: timeouts, `enqueue` and its callback threads, and the
  acknowledgement POST with its own callbacks are not modelled. The fetch
  outcome is an input event, and an acknowledgement is a logged command id.
- Gson parsing is a foreign library. The body arrives already decoded, as `Body`/`Json`/`Entry`.
- Handler side effects are not modelled: starting `EnhancedLocationService`
  is an intent, a foreign call. A handler is "invoked", plus whether it throws.
- Device identity and URLs: `loadDeviceIdentifier` is SharedPreferences/Settings
  I/O, and `getServerBaseUrl` and the request URLs are constants.
- Thread interleavings: `consecutiveErrors` is mutated from OkHttp callback
  threads and the scheduler thread without synchronisation. Each event is one
  atomic step here.
- Time and the scheduler queue: the log records that a cycle is armed, and
  with which delay. Firing is a later `Cycle` event; there is no clock.
- Log messages are not modelled.
- State: `consecutiveErrors` is an unbounded `nat`. The wrap of the Java
  `int` counter after 2^31 increments is not modelled.
- BootReceiver.java is boot-broadcast plumbing and is not part of this model.
