/** `AureliaCliMiddleware.Attach`: checks its arguments, starts the dev server in
    the background, derives the target-URI task from the server-info task, and
    registers a proxy whose target lookup races that shared task against the
    startup timeout on every request. */
module AureliaCliMiddleware {
  import opened Wrappers
  import opened Exceptions
  import opened Decimal
  import opened Backoff
  import opened Tasks
  import opened AureliaCliStartup

  /** The `SpaOptions` the bridge reads: a source path that may be null, and the
      startup timeout in whole milliseconds. */
  datatype SpaOptions = SpaOptions(sourcePath: Option<string>, startupTimeoutMs: nat)

  /** An `ISpaBuilder`, reduced to its options. */
  datatype SpaBuilder = SpaBuilder(options: SpaOptions)

  /** What a successful `Attach` leaves behind: the launch it started and the shared
      target-URI task every request consults. */
  datatype Attachment = Attachment(launch: Launch, targetUri: Future<Uri>)

  /** `string.IsNullOrEmpty` */
  predicate IsNullOrEmpty(s: Option<string>) {
    s.None? || s.value == ""
  }

  const NullOrEmptyMessage := "Cannot be null or empty"

  /** The proxy target: `UriBuilder("http", "localhost", port).Uri`. */
  function TargetUri(info: ServerInfo): Uri {
    Uri("http", "localhost", info.port)
  }

  /** `serverInfoTask.ContinueWith(task => TargetUri(task.Result))`. The continuation
      runs whatever way the antecedent ended; on a faulted or cancelled antecedent
      `task.Result` throws an `AggregateException`, which faults the new task. */
  function ContinueWithTargetUri(serverInfo: Future<ServerInfo>): (r: Future<Uri>)
    ensures r.Never? <==> serverInfo.Never?
    ensures r.SettlesAt? ==> r.time == serverInfo.time
    ensures r.SettlesAt? && serverInfo.outcome.RanToCompletion? ==>
              r.outcome == RanToCompletion(Uri("http", "localhost", serverInfo.outcome.value.port))
    ensures r.SettlesAt? && serverInfo.outcome.Faulted? ==>
              r.outcome == Faulted(Aggregate(serverInfo.outcome.exception))
    ensures r.SettlesAt? ==> !r.outcome.Canceled?
  {
    match serverInfo
    case Never => Never
    case SettlesAt(t, RanToCompletion(info)) => SettlesAt(t, RanToCompletion(TargetUri(info)))
    case SettlesAt(t, Faulted(e)) => SettlesAt(t, Faulted(Aggregate(e)))
    case SettlesAt(t, Canceled) => SettlesAt(t, Faulted(Aggregate(TaskCanceled)))
  }

  /** `Attach`: the source path is checked first, then the script name, each with its
      own `ArgumentException`; only when both are present is the server started. */
  function Attach(builder: SpaBuilder, npmScriptName: Option<string>, input: StartupInput): (r: Result<Attachment, Exception>)
    ensures IsNullOrEmpty(builder.options.sourcePath) ==>
              r == Failure(Argument(NullOrEmptyMessage, "sourcePath"))
    ensures !IsNullOrEmpty(builder.options.sourcePath) && IsNullOrEmpty(npmScriptName) ==>
              r == Failure(Argument(NullOrEmptyMessage, "npmScriptName"))
    ensures r.Success? <==> !IsNullOrEmpty(builder.options.sourcePath) && !IsNullOrEmpty(npmScriptName)
    ensures r.Success? ==>
              && r.value.launch.workingDirectory == builder.options.sourcePath.value
              && r.value.launch.scriptName == npmScriptName.value
              && PortFromArguments(r.value.launch.arguments) == Some(input.port)
  {
    if IsNullOrEmpty(builder.options.sourcePath) then
      Failure(Argument(NullOrEmptyMessage, "sourcePath"))
    else if IsNullOrEmpty(npmScriptName) then
      Failure(Argument(NullOrEmptyMessage, "npmScriptName"))
    else
      var startup := StartAureliaCliServer(builder.options.sourcePath.value, npmScriptName.value, input);
      Success(Attachment(startup.launch, ContinueWithTargetUri(startup.serverInfo)))
  }

  /** Every URI the target task can yield is `http://localhost:<port>` with the port
      handed to the npm script as ` --port <port>`. */
  lemma AttachTargetIsLocalhostOnScriptPort(builder: SpaBuilder, npmScriptName: Option<string>, input: StartupInput)
    requires Attach(builder, npmScriptName, input).Success?
    ensures var a := Attach(builder, npmScriptName, input).value;
      a.targetUri.SettlesAt? && a.targetUri.outcome.RanToCompletion? ==>
        && a.targetUri.outcome.value.scheme == "http"
        && a.targetUri.outcome.value.host == "localhost"
        && Some(a.targetUri.outcome.value.port) == PortFromArguments(a.launch.arguments)
  {
  }

  /** Once standard output has yielded the build-success line, the target task
      completes with `http://localhost:<port>` exactly when some probe got a response. */
  lemma AttachResolvesOnFirstResponse(builder: SpaBuilder, npmScriptName: Option<string>, input: StartupInput)
    requires Attach(builder, npmScriptName, input).Success?
    requires input.stdout.Matched?
    ensures var a := Attach(builder, npmScriptName, input).value;
      && (a.targetUri.SettlesAt? <==> Responded in input.probes)
      && (a.targetUri.SettlesAt? ==> a.targetUri.outcome == RanToCompletion(Uri("http", "localhost", input.port)))
  {
  }

  // ---------------------------------------------------------------------------
  // The per-request timeout message.

  const TimeoutMessagePrefix := "The Aurelia CLI process did not start listening for requests within the timeout period of "
  const TimeoutMessageSuffix := " seconds. Check the log output for error information."
  const MillisecondsPerSecond: nat := 1000

  /** The message as the source builds it: it interpolates `timeout.Seconds`, the
      seconds COMPONENT of the `TimeSpan` (0 to 59), not its total length. */
  function TimeoutMessageAsWritten(timeoutMs: nat): string {
    TimeoutMessagePrefix + NatToString((timeoutMs / MillisecondsPerSecond) % 60) + TimeoutMessageSuffix
  }

  /** The message with the whole number of seconds in the timeout. */
  function TimeoutMessage(timeoutMs: nat): string {
    TimeoutMessagePrefix + NatToString(timeoutMs / MillisecondsPerSecond) + TimeoutMessageSuffix
  }

  /** The number of seconds a timeout message states, read back from its text. */
  function ReportedSeconds(message: string): Option<nat> {
    if |TimeoutMessagePrefix| + |TimeoutMessageSuffix| <= |message|
       && message[..|TimeoutMessagePrefix|] == TimeoutMessagePrefix
       && message[|message| - |TimeoutMessageSuffix|..] == TimeoutMessageSuffix
    then ParseNat(message[|TimeoutMessagePrefix|..|message| - |TimeoutMessageSuffix|])
    else None
  }

  /** The number between the fixed opening and closing of a message is read back
      exactly. */
  lemma ReportedSecondsRoundTrip(n: nat)
    ensures ReportedSeconds(TimeoutMessagePrefix + NatToString(n) + TimeoutMessageSuffix) == Some(n)
  {
    var m := TimeoutMessagePrefix + NatToString(n) + TimeoutMessageSuffix;
    assert m[..|TimeoutMessagePrefix|] == TimeoutMessagePrefix;
    assert m[|m| - |TimeoutMessageSuffix|..] == TimeoutMessageSuffix;
    assert m[|TimeoutMessagePrefix|..|m| - |TimeoutMessageSuffix|] == NatToString(n);
    ParseNatToString(n);
  }

  /** The corrected message states the configured timeout: the seconds it reports
      times 1000 is the timeout rounded down to a whole second. */
  lemma TimeoutMessageStatesTimeout(timeoutMs: nat)
    ensures ReportedSeconds(TimeoutMessage(timeoutMs)).Some?
    ensures var s := ReportedSeconds(TimeoutMessage(timeoutMs)).value;
      s * MillisecondsPerSecond <= timeoutMs < (s + 1) * MillisecondsPerSecond
  {
    ReportedSecondsRoundTrip(timeoutMs / MillisecondsPerSecond);
  }

  /** As written, the message reports only the seconds component of the timeout. */
  lemma AsWrittenReportsSecondsComponent(timeoutMs: nat)
    ensures ReportedSeconds(TimeoutMessageAsWritten(timeoutMs)) == Some((timeoutMs / MillisecondsPerSecond) % 60)
  {
    ReportedSecondsRoundTrip((timeoutMs / MillisecondsPerSecond) % 60);
  }

  /** The two messages agree exactly for timeouts under one minute. */
  lemma AsWrittenAgreesIffUnderAMinute(timeoutMs: nat)
    ensures TimeoutMessageAsWritten(timeoutMs) == TimeoutMessage(timeoutMs) <==> timeoutMs < 60 * MillisecondsPerSecond
  {
    var s := timeoutMs / MillisecondsPerSecond;
    NatToStringInjective(s % 60, s);
    if TimeoutMessageAsWritten(timeoutMs) == TimeoutMessage(timeoutMs) {
      var k := |TimeoutMessagePrefix|;
      var a := TimeoutMessageAsWritten(timeoutMs);
      var b := TimeoutMessage(timeoutMs);
      assert a[k..|a| - |TimeoutMessageSuffix|] == NatToString(s % 60);
      assert b[k..|b| - |TimeoutMessageSuffix|] == NatToString(s);
    }
  }

  /** A two-minute startup timeout is reported as "0 seconds". */
  lemma AsWrittenMisreportsTwoMinutes()
    ensures ReportedSeconds(TimeoutMessageAsWritten(120000)) == Some(0)
    ensures ReportedSeconds(TimeoutMessage(120000)) == Some(120)
  {
    AsWrittenReportsSecondsComponent(120000);
    ReportedSecondsRoundTrip(120);
  }

  // ---------------------------------------------------------------------------
  // The per-request target lookup.

  /** The target lookup the proxy makes for one request that starts at `start`: the
      current startup timeout is read, and the shared target task is raced against a
      fresh delay of that length. When the delay wins, the exception carries the
      message as the source builds it, with `timeout.Seconds`. */
  function ProxyTarget(a: Attachment, options: SpaOptions, start: nat, tie: Side): (r: Result<Uri, Exception>)
    ensures r.Success? <==> a.targetUri.SettlesAt? && a.targetUri.outcome.RanToCompletion?
                            && options.startupTimeoutMs <= MaxDelayMs
                            && WhenAny(a.targetUri, start, options.startupTimeoutMs, tie).TaskFirst?
    ensures r.Success? ==> r.value == a.targetUri.outcome.value
    ensures options.startupTimeoutMs > MaxDelayMs ==> r == Failure(ArgumentOutOfRange("delay"))
    ensures options.startupTimeoutMs <= MaxDelayMs && WhenAny(a.targetUri, start, options.startupTimeoutMs, tie).DelayFirst? <==>
              r == Failure(Timeout(TimeoutMessageAsWritten(options.startupTimeoutMs)))
  {
    AwaitWithTimeout(a.targetUri, start, options.startupTimeoutMs, tie, TimeoutMessageAsWritten(options.startupTimeoutMs))
  }

  /** The target lookup with the corrected message: the same race, and when the delay
      wins the exception states the whole timeout in seconds. */
  function ProxyTargetCorrected(a: Attachment, options: SpaOptions, start: nat, tie: Side): (r: Result<Uri, Exception>)
    ensures r.Success? <==> a.targetUri.SettlesAt? && a.targetUri.outcome.RanToCompletion?
                            && options.startupTimeoutMs <= MaxDelayMs
                            && WhenAny(a.targetUri, start, options.startupTimeoutMs, tie).TaskFirst?
    ensures r.Success? ==> r.value == a.targetUri.outcome.value
    ensures options.startupTimeoutMs > MaxDelayMs ==> r == Failure(ArgumentOutOfRange("delay"))
    ensures options.startupTimeoutMs <= MaxDelayMs && WhenAny(a.targetUri, start, options.startupTimeoutMs, tie).DelayFirst? <==>
              r == Failure(Timeout(TimeoutMessage(options.startupTimeoutMs)))
    ensures r.Failure? && r.error.Timeout? && r.error.message == TimeoutMessage(options.startupTimeoutMs) ==>
              ReportedSeconds(r.error.message) == Some(options.startupTimeoutMs / MillisecondsPerSecond)
  {
    ReportedSecondsRoundTrip(options.startupTimeoutMs / MillisecondsPerSecond);
    AwaitWithTimeout(a.targetUri, start, options.startupTimeoutMs, tie, TimeoutMessage(options.startupTimeoutMs))
  }

  /** The two lookups differ only in a timed-out request's message, and only for
      timeouts of a minute or more: with a two-minute timeout and a target task that
      has not settled, the program reports 0 seconds and the corrected lookup 120. */
  lemma {:induction false} ProxyTargetsDifferOnlyInMessage(a: Attachment, options: SpaOptions, start: nat, tie: Side)
    ensures ProxyTarget(a, options, start, tie) == ProxyTargetCorrected(a, options, start, tie)
            <==> WhenAny(a.targetUri, start, options.startupTimeoutMs, tie).TaskFirst?
                 || options.startupTimeoutMs < 60 * MillisecondsPerSecond
                 || options.startupTimeoutMs > MaxDelayMs
  {
    AsWrittenAgreesIffUnderAMinute(options.startupTimeoutMs);
  }

  /** While the script runs without printing the build-success line, the target task
      stays unsettled, so every request whose timeout `Task.Delay` accepts times out
      with the program's message. */
  lemma RequestTimesOutWithoutBuildLine(builder: SpaBuilder, npmScriptName: Option<string>, input: StartupInput,
                                        options: SpaOptions, start: nat, tie: Side)
    requires Attach(builder, npmScriptName, input).Success?
    requires input.stdout.NoMatchYet?
    ensures options.startupTimeoutMs <= MaxDelayMs ==>
              ProxyTarget(Attach(builder, npmScriptName, input).value, options, start, tie)
              == Failure(Timeout(TimeoutMessageAsWritten(options.startupTimeoutMs)))
  {
  }

  /** When standard output ends before the build-success line, every request made
      after the startup task settled fails: with a timeout `Task.Delay` accepts, the
      exception at the bottom of its `AggregateException` layers is the startup
      failure naming the script and carrying the standard-error text. */
  lemma RequestSeesStartupFailure(builder: SpaBuilder, npmScriptName: Option<string>, input: StartupInput,
                                  options: SpaOptions, start: nat, tie: Side)
    requires Attach(builder, npmScriptName, input).Success?
    requires input.stdout.StreamEnded? || (input.stdout.ReaderFailed? && input.stdout.exception.EndOfStream?)
    requires input.settleTime <= start
    ensures var r := ProxyTarget(Attach(builder, npmScriptName, input).value, options, start, tie);
      && r.Failure?
      && (options.startupTimeoutMs <= MaxDelayMs ==>
            && r == Failure(Aggregate(Aggregate(StartupFailure(npmScriptName.value, input.stdErrText))))
            && Innermost(r.error) == StartupFailure(npmScriptName.value, input.stdErrText))
  {
  }
}
