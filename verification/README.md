# Aurelia CLI dev-server bridge, modelled in Dafny

This project models the decision layer of the ASP.NET Core bridge that starts the
Aurelia CLI dev server and proxies SPA requests to it during development:

- `UseAureliaCliServer` (extensions.dfy) checks its builder and source path, then
  delegates to `Attach`.
- `Attach` (middleware.dfy) checks the source path and then the script name. It
  starts the server, derives the shared target-URI task with `ContinueWith`, and on
  every request races that task against the startup timeout.
- `StartAureliaCliServerAsync` (startup.dfy) launches the npm script with
  ` --port <N>`. It waits for the "Compiled successfully" line and maps an early
  end of standard output to an `InvalidOperationException` that carries the
  standard-error text. It then reads the port back from `http://localhost:<N>`.
- `WaitForAureliaCliServerToAcceptRequests` (backoff.dfy) is the readiness loop.
  Each attempt has a timeout of 1000 ms at first, widened by 3000 ms after each
  failure while it is below 10000 ms. Each failure is followed by a 500 ms delay.
  The first response ends the loop.
- Both `WithTimeout` overloads (tasks.dfy) race a shared task against a delay.

The outside world is abstract. The chosen port, how the wait for the build line
ended, the standard-error text, the probe outcomes and the moment the startup task
settles are parameters (`StartupInput`). A task is a value that settles once, at a
given moment, with one outcome, or never (`Future`). A race compares that moment
with the end of the delay. `Task.Result` and `Task.Wait()` wrap a task's exception
in an `AggregateException`, so a request that meets a failed startup sees
`Aggregate(Aggregate(InvalidOperation(...)))`. The `ContinueWith` step adds the
first layer; `WithTimeout` adds the second.

Shared helpers: wrappers.dfy (`Option` for null, `Result` for return-or-throw),
exceptions.dfy (the .NET exception kinds), decimal.dfy (how an `int` is
interpolated into a string, and its inverse).

## Model

| member | source | states |
|---|---|---|
| Backoff.AttemptTimeoutClosedForm | Aurelia.AspNetCore.SpaServices.AureliaCli/SpaServices/AureliaCli/AureliaCliMiddleware.cs:113-138 | attempt k waits min(1000 + 3000 k, 10000) ms: 1000, 4000, 7000, 10000, 10000, ... |
| Backoff.AttemptTimeoutRange | Aurelia.AspNetCore.SpaServices.AureliaCli/SpaServices/AureliaCli/AureliaCliMiddleware.cs:113-138 | the attempt timeout stays between 1000 and 10000 ms and takes only the values 1000, 4000, 7000, 10000; it reaches the cap exactly from the fourth attempt on |
| Backoff.AttemptTimeoutMonotone | Aurelia.AspNetCore.SpaServices.AureliaCli/SpaServices/AureliaCli/AureliaCliMiddleware.cs:135-138 | the attempt timeout never decreases from one attempt to a later one |
| Backoff.PollFrom | Aurelia.AspNetCore.SpaServices.AureliaCli/SpaServices/AureliaCli/AureliaCliMiddleware.cs:113-140 | the loop returns iff some probe got a response, and it stops at the first one; every failed attempt sends with the current timeout and is followed by a 500 ms wait; while every probe fails it keeps polling and never gives up |
| Backoff.PollIgnoresLaterProbes | Aurelia.AspNetCore.SpaServices.AureliaCli/SpaServices/AureliaCli/AureliaCliMiddleware.cs:119-123 | probe outcomes after the first response do not affect the run |
| Backoff.WaitForServer | Aurelia.AspNetCore.SpaServices.AureliaCli/SpaServices/AureliaCli/AureliaCliMiddleware.cs:106-141 | the while(true) loop with a mutable timeout returns after the first responding attempt, or keeps going through every failure; its last attempt's timeout follows the backoff schedule, and its attempt count matches the reference run |
| Tasks.WhenAny | AureliaHelpers/TaskTimeoutExtensions.cs:11 | given a delay `Task.Delay` accepted, the task side wins only if the task has settled by the end of the delay; a task already settled when the race starts always wins |
| Tasks.WithTimeout | AureliaHelpers/TaskTimeoutExtensions.cs:21-31 | generic overload: the task's value iff it won and ran to completion; a TimeoutException with exactly the given message iff the delay won; a faulted or cancelled task surfaces inside an AggregateException |
| Tasks.WithTimeoutVoid | AureliaHelpers/TaskTimeoutExtensions.cs:9-19 | non-generic overload: completes normally iff the task won and ran to completion; its exception propagates wrapped by Wait(); a TimeoutException with the given message iff the delay won |
| Tasks.AwaitWithTimeout | AureliaHelpers/TaskTimeoutExtensions.cs:21-31 | a delay above Int32.MaxValue ms is an ArgumentOutOfRangeException from `Task.Delay`, whatever the task's state, and only then; a caller gets a value only if the task ran to completion by the end of its delay |
| Tasks.WithTimeoutOverloadsAgree | AureliaHelpers/TaskTimeoutExtensions.cs:9-31 | the two overloads give the same result on the same race |
| Tasks.AwaitTimesOutIff | AureliaHelpers/TaskTimeoutExtensions.cs:23-30 | a caller times out exactly when its delay is accepted and the task has not settled before the delay ends |
| Tasks.TimedOutCallerLeavesTaskIntact | AureliaHelpers/TaskTimeoutExtensions.cs:21-31 | the shared task is an immutable value that no wait changes, so after an earlier timeout a later caller whose accepted window covers its completion gets the value |
| Tasks.CallersAgree | AureliaHelpers/TaskTimeoutExtensions.cs:21-31 | any two callers with accepted delays that do not time out see the same result from the shared task |
| Tasks.LongerDelayKeepsResult | AureliaHelpers/TaskTimeoutExtensions.cs:23-26 | a longer accepted delay from the same start never turns a result into a timeout |
| Tasks.TwoSecondsThenTenSeconds | AureliaHelpers/TaskTimeoutExtensions.cs:21-31 | a task that succeeds after 5 s: a 2 s wait started with it times out, and a 10 s wait made once that one has timed out returns its value |
| Decimal.ParseNatToString | Aurelia.AspNetCore.SpaServices.AureliaCli/SpaServices/AureliaCli/AureliaCliMiddleware.cs:75 | an interpolated int reads back as the same number |
| AureliaCliStartup.PortArgumentsRoundTrip | Aurelia.AspNetCore.SpaServices.AureliaCli/SpaServices/AureliaCli/AureliaCliMiddleware.cs:71-75 | the argument string given to the npm script names exactly the port that was found |
| AureliaCliStartup.LocalServerUriRoundTrip | Aurelia.AspNetCore.SpaServices.AureliaCli/SpaServices/AureliaCli/AureliaCliMiddleware.cs:96-97 | parsing `http://localhost:<port>` yields scheme http, host localhost and that port, so the recorded port is the chosen one |
| AureliaCliStartup.AwaitCompiledLine | Aurelia.AspNetCore.SpaServices.AureliaCli/SpaServices/AureliaCli/AureliaCliMiddleware.cs:78-94 | the wait is still pending exactly while no line has matched and the stream has not ended; every EndOfStreamException becomes the startup failure; any other exception the wait faults with passes through unchanged; a matched line continues the startup |
| AureliaCliStartup.EndOfStreamNeverEscapes | Aurelia.AspNetCore.SpaServices.AureliaCli/SpaServices/AureliaCli/AureliaCliMiddleware.cs:87-92 | a bare EndOfStreamException never leaves the wait: each failure is the startup failure or the wait's own exception of another kind |
| AureliaCliStartup.StartupFailureMessageCarriesDetails | Aurelia.AspNetCore.SpaServices.AureliaCli/SpaServices/AureliaCli/AureliaCliMiddleware.cs:89-92 | the failure message names the script and ends with the standard-error text, verbatim |
| AureliaCliStartup.StartupFailureMessageInjective | Aurelia.AspNetCore.SpaServices.AureliaCli/SpaServices/AureliaCli/AureliaCliMiddleware.cs:89-92 | for one script, different standard-error texts give different failure messages |
| AureliaCliStartup.StartAureliaCliServer | Aurelia.AspNetCore.SpaServices.AureliaCli/SpaServices/AureliaCli/AureliaCliMiddleware.cs:68-104 | the script runs in the source path with ` --port N`; a completed server info records the same N; the task settles only once standard output matched, ended or the wait faulted; an end of output, however reported, faults with the failure that carries the standard-error text; after the build line the task completes iff some probe got a response |
| AureliaCliMiddleware.ContinueWithTargetUri | Aurelia.AspNetCore.SpaServices.AureliaCli/SpaServices/AureliaCli/AureliaCliMiddleware.cs:49-54 | the target task settles when the server-info task does; it yields http://localhost:<port>, or faults with the antecedent's exception inside an AggregateException; it is never cancelled |
| AureliaCliMiddleware.Attach | Aurelia.AspNetCore.SpaServices.AureliaCli/SpaServices/AureliaCli/AureliaCliMiddleware.cs:24-54 | an empty or null source path fails first, then an empty or null script name, each with its own ArgumentException; it succeeds iff both are present, launching the script in the source path with the found port |
| AureliaCliMiddleware.AttachTargetIsLocalhostOnScriptPort | Aurelia.AspNetCore.SpaServices.AureliaCli/SpaServices/AureliaCli/AureliaCliMiddleware.cs:42-54 | any URI the target task yields has scheme http, host localhost and the port passed as `--port` |
| AureliaCliMiddleware.AttachResolvesOnFirstResponse | Aurelia.AspNetCore.SpaServices.AureliaCli/SpaServices/AureliaCli/AureliaCliMiddleware.cs:96-103 | after the build line, the target task completes with http://localhost:<port> exactly when a probe got a response |
| AureliaCliMiddleware.TimeoutMessageStatesTimeout | Aurelia.AspNetCore.SpaServices.AureliaCli/SpaServices/AureliaCli/AureliaCliMiddleware.cs:60-64 | the per-request timeout message states the configured timeout in whole seconds |
| AureliaCliMiddleware.AsWrittenReportsSecondsComponent | Aurelia.AspNetCore.SpaServices.AureliaCli/SpaServices/AureliaCli/AureliaCliMiddleware.cs:63 | the message as written reports only `TimeSpan.Seconds`, the timeout's seconds component modulo 60 |
| AureliaCliMiddleware.AsWrittenAgreesIffUnderAMinute | Aurelia.AspNetCore.SpaServices.AureliaCli/SpaServices/AureliaCli/AureliaCliMiddleware.cs:60-64 | the message as written equals the corrected one iff the timeout is under one minute |
| AureliaCliMiddleware.AsWrittenMisreportsTwoMinutes | Aurelia.AspNetCore.SpaServices.AureliaCli/SpaServices/AureliaCli/AureliaCliMiddleware.cs:63 | with a 120 s timeout the message as written says 0 seconds, while the corrected one says 120 |
| AureliaCliMiddleware.ProxyTarget | Aurelia.AspNetCore.SpaServices.AureliaCli/SpaServices/AureliaCli/AureliaCliMiddleware.cs:56-65 | each request reads the current timeout; a timeout above Int32.MaxValue ms fails with ArgumentOutOfRangeException; otherwise it races the shared target task against a fresh delay, getting the target URI iff the task completed first and a TimeoutException with the message built from `timeout.Seconds` iff the delay won |
| AureliaCliMiddleware.ProxyTargetCorrected | Aurelia.AspNetCore.SpaServices.AureliaCli/SpaServices/AureliaCli/AureliaCliMiddleware.cs:56-65 | the same gate, including the ArgumentOutOfRangeException for an over-long timeout; when the delay wins, the exception's message reads back as the timeout in whole seconds |
| AureliaCliMiddleware.ProxyTargetsDifferOnlyInMessage | Aurelia.AspNetCore.SpaServices.AureliaCli/SpaServices/AureliaCli/AureliaCliMiddleware.cs:60-64 | the program's lookup and the corrected one give the same result iff the task won the race, the timeout is under one minute, or the timeout is rejected |
| AureliaCliMiddleware.RequestTimesOutWithoutBuildLine | Aurelia.AspNetCore.SpaServices.AureliaCli/SpaServices/AureliaCli/AureliaCliMiddleware.cs:83-85 | while the script runs without printing the build-success line, the target task never settles and every request with an accepted timeout times out |
| AureliaCliMiddleware.RequestSeesStartupFailure | Aurelia.AspNetCore.SpaServices.AureliaCli/SpaServices/AureliaCli/AureliaCliMiddleware.cs:87-92 | after standard output ends before the build line, every later request fails; with an accepted timeout it gets the startup failure inside two AggregateException layers, carrying the script name and the standard-error text |
| AureliaCliMiddlewareExtensions.UseAureliaCliServer | Aurelia.AspNetCore.SpaServices.AureliaCli/SpaServices/AureliaCli/AureliaCliMiddlewareExtensions.cs:19-36 | a null builder is an ArgumentNullException before any other check; a null or empty SourcePath is an InvalidOperationException before Attach; otherwise it returns Attach's result on the same builder and script name |
| AureliaCliMiddlewareExtensions.UseAureliaCliServerSucceedsIff | Aurelia.AspNetCore.SpaServices.AureliaCli/SpaServices/AureliaCli/AureliaCliMiddlewareExtensions.cs:23-35 | the entry point succeeds iff a builder is given and both the source path and the script name are non-empty |
| AureliaCliMiddlewareExtensions.SourcePathArgumentErrorUnreachable | Aurelia.AspNetCore.SpaServices.AureliaCli/SpaServices/AureliaCli/AureliaCliMiddlewareExtensions.cs:28-35 | through the entry point, Attach's source-path ArgumentException can never fire; the only ArgumentException is the script name's |

## Left out

- `TcpPortFinder`: OS socket binding. It is the `port` parameter, a number from 0 to 65535.
- `NpmScriptRunner`: process spawning and the `npm run <script> -- <args>` command line. The model records only the working directory, script name and extra arguments it is given.
- The HTTP HEAD probe and `HttpClient`: networking. Each attempt is an abstract `Probe` outcome.
- The "Compiled successfully" regex and its 5 s per-evaluation match timeout: an opaque predicate on lines. `EventedStreamReader.WaitForMatch` is not part of this model. The model assumes only what the await on line 83 can observe: a matched line, an end of the stream, a fault with some exception, or a wait that is still pending (`NoMatchYet`, which also covers a script that keeps running without ever printing the line). Every `EndOfStreamException` is caught (line 87), however the wait reports it; the model lets any other exception through unchanged.
- `EventedStreamStringReader`: how standard-error lines are gathered. The gathered text is the `stdErrText` parameter.
- Timers, `Task.Delay`, `Task.WhenAny` scheduling and concurrent readers: concurrency. A race compares settle times. A dead heat is decided by a `tie` parameter. The moment the startup task settles is the `settleTime` parameter.
- Logging (`AttachToLogger`, `LogInformation`, the logger lookup): side channel only.
- `UseProxyToSpaDevelopmentServer` and byte forwarding: external. The model keeps only the target lookup it calls per request (`ProxyTarget`).
- `Attach` with a null builder: `Attach` is internal and only reached through `UseAureliaCliServer` after its null check, so `Attach` takes a builder.
- Timeouts are whole, non-negative milliseconds. Negative or infinite `TimeSpan` values, which `Task.Delay` rejects or treats specially, are not modelled. A delay above Int32.MaxValue ms is modelled as the `ArgumentOutOfRangeException` `Task.Delay` throws (`Tasks.MaxDelayMs`).
- Tasks.AwaitWithTimeout: uses the Int32.MaxValue ms upper bound of `Task.Delay` on .NET Core 3.x and .NET 5; on .NET 6 and later the bound is 4294967294 ms, and delays between the two are rejected in the model but accepted there.
- `System.Uri` parsing: only the `http://localhost:<digits>` form that line 96 builds is modelled.
- Tasks.WhenAny: `Task.WhenAny` does not promise which task wins when both complete at the same moment; the `tie` parameter stands for that choice.
- The front-end `main.ts` and `fetchdata.ts`: UI bootstrapping with no local logic.

## Findings

| source | as written | input that shows it | evidently intended | confidence | as-written member | corrected member |
|---|---|---|---|---|---|---|
| Aurelia.AspNetCore.SpaServices.AureliaCli/SpaServices/AureliaCli/AureliaCliMiddleware.cs:63 | the timeout message interpolates `timeout.Seconds`, the seconds component (0-59) of the `TimeSpan` | a startup timeout of 120 s (ASP.NET Core's default) gives "within the timeout period of 0 seconds" | the total length of the timeout in seconds | high (not executed) | AureliaCliMiddleware.AsWrittenMisreportsTwoMinutes | AureliaCliMiddleware.ProxyTargetCorrected |

The request gate as the program builds it (`ProxyTarget`) uses the as-written
message (`TimeoutMessageAsWritten`). `ProxyTargetCorrected` is the same gate with
the corrected message (`TimeoutMessage`). `ProxyTargetsDifferOnlyInMessage` proves
that the two differ only in a timed-out request's message, and only for timeouts
of a minute or more.
