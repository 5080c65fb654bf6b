/** `AureliaCliMiddlewareExtensions.UseAureliaCliServer`: the public entry point. It
    rejects a null builder, then a missing source path, and hands everything else to
    `Attach` unchanged. */
module AureliaCliMiddlewareExtensions {
  import opened Wrappers
  import opened Exceptions
  import opened AureliaCliStartup
  import opened AureliaCliMiddleware

  const MissingSourcePathMessage :=
    "To use UseAureliaCliServer, you must supply a non-empty value for the SourcePath property of SpaOptions when calling UseSpa."

  /** A null builder is an `ArgumentNullException` before anything else is looked at;
      a null or empty source path is an `InvalidOperationException` before `Attach`
      runs; otherwise the result is `Attach`'s on the same builder and script name. */
  function UseAureliaCliServer(spaBuilder: Option<SpaBuilder>, npmScript: Option<string>, input: StartupInput)
    : (r: Result<Attachment, Exception>)
    ensures spaBuilder.None? ==> r == Failure(ArgumentNull("spaBuilder"))
    ensures spaBuilder.Some? && IsNullOrEmpty(spaBuilder.value.options.sourcePath) ==>
              r == Failure(InvalidOperation(MissingSourcePathMessage, None))
    ensures spaBuilder.Some? && !IsNullOrEmpty(spaBuilder.value.options.sourcePath) ==>
              r == Attach(spaBuilder.value, npmScript, input)
  {
    if spaBuilder.None? then
      Failure(ArgumentNull("spaBuilder"))
    else if IsNullOrEmpty(spaBuilder.value.options.sourcePath) then
      Failure(InvalidOperation(MissingSourcePathMessage, None))
    else
      Attach(spaBuilder.value, npmScript, input)
  }

  /** Attachment through the extension succeeds exactly when a builder is given and
      both its source path and the script name are non-empty; the script then runs in
      the source path directory under the given name. */
  lemma UseAureliaCliServerSucceedsIff(spaBuilder: Option<SpaBuilder>, npmScript: Option<string>, input: StartupInput)
    ensures var r := UseAureliaCliServer(spaBuilder, npmScript, input);
      && (r.Success? <==> spaBuilder.Some? && !IsNullOrEmpty(spaBuilder.value.options.sourcePath) && !IsNullOrEmpty(npmScript))
      && (r.Success? ==> r.value.launch.workingDirectory == spaBuilder.value.options.sourcePath.value
                         && r.value.launch.scriptName == npmScript.value)
  {
  }

  /** Because the source path is checked first here, `Attach`'s own source-path
      check never fires through this entry point: the only `ArgumentException` it
      can surface is the one about the script name. */
  lemma SourcePathArgumentErrorUnreachable(spaBuilder: Option<SpaBuilder>, npmScript: Option<string>, input: StartupInput)
    ensures var r := UseAureliaCliServer(spaBuilder, npmScript, input);
      r.Failure? && r.error.Argument? ==> r.error.paramName == "npmScriptName"
  {
  }
}
