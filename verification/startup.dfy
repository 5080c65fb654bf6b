/** `StartAureliaCliServerAsync`: launch the npm script on a free port, wait for the
    build-success line on its standard output, then poll until the server answers.

    Outside inputs are parameters: the port the port finder picked, how the wait for
    the build-success line ended, the text gathered from standard error, the
    outcomes of the readiness probes, and the moment the startup task settles. */
module AureliaCliStartup {
  import opened Wrappers
  import opened Exceptions
  import opened Decimal
  import opened Backoff
  import opened Tasks

  /** A TCP port number as the port finder returns it. */
  type Port = p: nat | p <= 65535

  /** The parts of a `System.Uri` the bridge uses. */
  datatype Uri = Uri(scheme: string, host: string, port: nat)

  /** `AureliaCliServerInfo`: what a successful startup records. */
  datatype ServerInfo = ServerInfo(port: nat)

  /** The npm script launch: working directory, script name, extra arguments. */
  datatype Launch = Launch(workingDirectory: string, scriptName: string, arguments: string)

  /** How the await of `StdOut.WaitForMatch` stands: a line matched the
      build-success pattern, the stream ended first (`EndOfStreamException`), the
      wait faulted with some other exception, or no line has matched while the
      script keeps running (the await has no deadline, so it stays pending). */
  datatype LineMatch = Matched(line: string) | StreamEnded | ReaderFailed(exception: Exception) | NoMatchYet

  /** Everything the startup sequence gets from the outside world. */
  datatype StartupInput = StartupInput(
    port: Port,
    stdout: LineMatch,
    stdErrText: string,
    probes: seq<Probe>,
    settleTime: nat)

  /** The launch performed and the server-info task it produces. */
  datatype Startup = Startup(launch: Launch, serverInfo: Future<ServerInfo>)

  const PortSwitch := " --port "

  /** The extra arguments handed to the npm script. */
  function PortArguments(port: Port): string {
    PortSwitch + NatToString(port)
  }

  /** The port an argument string of that shape names. */
  function PortFromArguments(arguments: string): Option<nat> {
    NatAfter(PortSwitch, arguments)
  }

  lemma PortArgumentsRoundTrip(port: Port)
    ensures PortFromArguments(PortArguments(port)) == Some(port)
  {
    NatAfterRoundTrip(PortSwitch, port);
  }

  const LocalhostPrefix := "http://localhost:"

  /** The URI text built from the chosen port before it is parsed. */
  function LocalServerUriText(port: Port): string {
    LocalhostPrefix + NatToString(port)
  }

  /** `new Uri(text)` for text of the form `http://localhost:<digits>`: a port above
      65535 is a `UriFormatException`. Other URI syntax is not modelled. */
  function ParseLocalServerUri(text: string): Result<Uri, Exception> {
    match NatAfter(LocalhostPrefix, text)
    case Some(p) =>
      if p <= 65535 then Success(Uri("http", "localhost", p))
      else Failure(Other("UriFormatException", "Invalid URI: Invalid port specified."))
    case None => Failure(Other("UriFormatException", "Invalid URI: The format of the URI could not be determined."))
  }

  /** Building the URI text from a port and parsing it gives back that port. */
  lemma LocalServerUriRoundTrip(port: Port)
    ensures ParseLocalServerUri(LocalServerUriText(port)) == Success(Uri("http", "localhost", port))
  {
    NatAfterRoundTrip(LocalhostPrefix, port);
  }

  const FailurePrefix := "The NPM script '"
  const FailureMiddle := "' exited without indicating that the Aurelia CLI was listening for requests. The error output was: "

  function StartupFailureMessage(scriptName: string, stdErrText: string): string {
    FailurePrefix + scriptName + FailureMiddle + stdErrText
  }

  /** The exception raised when standard output ends before the build-success line. */
  function StartupFailure(scriptName: string, stdErrText: string): Exception {
    InvalidOperation(StartupFailureMessage(scriptName, stdErrText), Some(EndOfStream))
  }

  /** The failure message names the script right after its fixed opening and ends
      with the captured standard-error text, verbatim. */
  lemma StartupFailureMessageCarriesDetails(scriptName: string, stdErrText: string)
    ensures var m := StartupFailureMessage(scriptName, stdErrText);
      && m[..|FailurePrefix|] == FailurePrefix
      && m[|FailurePrefix|..|FailurePrefix| + |scriptName|] == scriptName
      && m[|m| - |stdErrText|..] == stdErrText
  {
  }

  /** Different standard-error texts give different messages for the same script. */
  lemma StartupFailureMessageInjective(scriptName: string, e1: string, e2: string)
    ensures StartupFailureMessage(scriptName, e1) == StartupFailureMessage(scriptName, e2) <==> e1 == e2
  {
    var k := |FailurePrefix + scriptName + FailureMiddle|;
    if StartupFailureMessage(scriptName, e1) == StartupFailureMessage(scriptName, e2) {
      assert e1 == StartupFailureMessage(scriptName, e1)[k..];
      assert e2 == StartupFailureMessage(scriptName, e2)[k..];
    }
  }

  /** Waiting for the build-success line: `None` while the await is still pending;
      otherwise every `EndOfStreamException` (however the wait reports it) becomes
      the startup failure, and any other exception passes through unchanged. */
  function AwaitCompiledLine(scriptName: string, stdout: LineMatch, stdErrText: string): (r: Option<Result<string, Exception>>)
    ensures r.None? <==> stdout.NoMatchYet?
    ensures r.Some? && r.value.Success? <==> stdout.Matched?
    ensures stdout.Matched? ==> r == Some(Success(stdout.line))
    ensures stdout.StreamEnded? ==> r == Some(Failure(StartupFailure(scriptName, stdErrText)))
    ensures stdout.ReaderFailed? && stdout.exception.EndOfStream? ==>
              r == Some(Failure(StartupFailure(scriptName, stdErrText)))
    ensures stdout.ReaderFailed? && !stdout.exception.EndOfStream? ==> r == Some(Failure(stdout.exception))
  {
    match stdout
    case Matched(line) => Some(Success(line))
    case StreamEnded => Some(Failure(StartupFailure(scriptName, stdErrText)))
    case ReaderFailed(e) =>
      if e.EndOfStream? then Some(Failure(StartupFailure(scriptName, stdErrText))) else Some(Failure(e))
    case NoMatchYet => None
  }

  /** A bare `EndOfStreamException` never escapes the wait: every failure it reports
      is either the startup failure or an exception of another kind. */
  lemma EndOfStreamNeverEscapes(scriptName: string, stdout: LineMatch, stdErrText: string)
    ensures var r := AwaitCompiledLine(scriptName, stdout, stdErrText);
      r.Some? && r.value.Failure? ==>
        && !r.value.error.EndOfStream?
        && (r.value.error == StartupFailure(scriptName, stdErrText) || r.value.error == stdout.exception)
  {
  }

  /** The startup sequence. The script is launched in `sourcePath` with
      ` --port <port>`; while no line has matched and the stream has not ended the
      task has not settled; after the build-success line the recorded port is read back
      from `http://localhost:<port>`, and the task completes once a probe gets a
      response. While every probe fails the loop is still polling and the task has
      not settled. */
  function StartAureliaCliServer(sourcePath: string, scriptName: string, input: StartupInput): (r: Startup)
    ensures r.launch.workingDirectory == sourcePath && r.launch.scriptName == scriptName
    ensures PortFromArguments(r.launch.arguments) == Some(input.port)
    ensures r.serverInfo.SettlesAt? && r.serverInfo.outcome.RanToCompletion? ==>
              Some(r.serverInfo.outcome.value.port) == PortFromArguments(r.launch.arguments)
    ensures input.stdout.StreamEnded? || (input.stdout.ReaderFailed? && input.stdout.exception.EndOfStream?) ==>
              r.serverInfo == SettlesAt(input.settleTime, Faulted(StartupFailure(scriptName, input.stdErrText)))
    ensures input.stdout.ReaderFailed? && !input.stdout.exception.EndOfStream? ==>
              r.serverInfo == SettlesAt(input.settleTime, Faulted(input.stdout.exception))
    ensures input.stdout.NoMatchYet? ==> r.serverInfo.Never?
    ensures r.serverInfo.SettlesAt? ==> !input.stdout.NoMatchYet?
    ensures input.stdout.Matched? ==>
              && (r.serverInfo.SettlesAt? <==> Responded in input.probes)
              && (r.serverInfo.SettlesAt? ==> r.serverInfo.outcome == RanToCompletion(ServerInfo(input.port)))
  {
    PortArgumentsRoundTrip(input.port);
    LocalServerUriRoundTrip(input.port);
    var launch := Launch(sourcePath, scriptName, PortArguments(input.port));
    var serverInfo :=
      match AwaitCompiledLine(scriptName, input.stdout, input.stdErrText)
      case None => Never
      case Some(Failure(e)) => SettlesAt(input.settleTime, Faulted(e))
      case Some(Success(_)) =>
        match ParseLocalServerUri(LocalServerUriText(input.port))
        case Failure(e) => SettlesAt(input.settleTime, Faulted(e))
        case Success(uri) =>
          if Poll(input.probes).ready then SettlesAt(input.settleTime, RanToCompletion(ServerInfo(uri.port)))
          else Never;
    Startup(launch, serverInfo)
  }
}
