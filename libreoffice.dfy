/**
 * The hybrid service's LibreOffice attempt (`convert_with_libreoffice`): its
 * three preconditions, the 90-second run, and the ordered rules that turn a
 * failed run's exit code and output streams into a diagnosis. The process is
 * an oracle: its outcome is an input.
 */
module LibreOfficeRun {
  import opened Text
  import opened Formats
  import opened Files
  import opened Registry

  /** What the headless LibreOffice process did: exited with a code and two streams, or ran past 90 s. */
  datatype RunResult = Exited(code: int, stderr: string, stdout: string) | TimedOut

  /** Why an attempt failed; each becomes one exception message. */
  datatype Failure =
    | NotAvailable
    | InputMissing
    | NotListed
    | RunTimedOut
    | Unreadable
    | NoFilter
    | OpenFailed(errorOutput: string)
    | SilentExit1
    | FailedWithStderr(errorOutput: string)
    | FailedWithStdout(stdoutOutput: string)
    | FailedWithCode(code: int)

  datatype Attempt = Converted | Failed(why: Failure)

  /** `input_ext or 'unknown'`. */
  function ExtOrUnknown(ext: string): (r: string)
    ensures r != []
    ensures ext != [] ==> r == ext
  {
    if ext == [] then "unknown" else ext
  }

  /**
   * The diagnosis of a finished run: none for exit code 0 whatever the streams
   * hold; otherwise the first rule that matches the stripped, lower-cased
   * stderr, then an empty-handed exit 1, then a generic failure carrying
   * stderr, else stdout, else the exit code.
   */
  function Diagnose(code: int, stderr: string, stdout: string): (r: Option<Failure>)
    ensures r.None? <==> code == 0
    ensures var err, out, low := Strip(stderr), Strip(stdout), Lower(Strip(stderr));
      && (r == Some(Unreadable) <==> code != 0 && Contains(low, "source file could not be loaded"))
      && (r == Some(NoFilter) <==>
            code != 0 && !Contains(low, "source file could not be loaded") && Contains(low, "filter"))
      && (r.Some? && r.value.OpenFailed? <==>
            code != 0 && !Contains(low, "source file could not be loaded") && !Contains(low, "filter")
            && Contains(low, "error") && (Contains(low, "opening") || Contains(low, "loading")))
      && (r.Some? && r.value.OpenFailed? ==> r.value.errorOutput == err)
      && (r == Some(SilentExit1) <==>
            code == 1 && !Contains(low, "source file could not be loaded") && !Contains(low, "filter")
            && !(Contains(low, "error") && (Contains(low, "opening") || Contains(low, "loading")))
            && err == [] && out == [])
      && (r.Some? && r.value.FailedWithStderr? ==> r.value.errorOutput == err && err != [])
      && (r.Some? && r.value.FailedWithStdout? ==> r.value.stdoutOutput == out && err == [] && out != [])
      && (r.Some? && r.value.FailedWithCode? ==> r.value.code == code && err == [] && out == [] && code != 1)
      && (r.Some? ==> !r.value.NotAvailable? && !r.value.InputMissing? && !r.value.NotListed? && !r.value.RunTimedOut?)
  {
    if code == 0 then None
    else
      var err := Strip(stderr);
      var out := Strip(stdout);
      var low := Lower(err);
      if Contains(low, "source file could not be loaded") then Some(Unreadable)
      else if Contains(low, "no export filter") || Contains(low, "filter") then
        NoExportFilterMentionsFilter(low);
        Some(NoFilter)
      else if Contains(low, "error") && (Contains(low, "opening") || Contains(low, "loading")) then Some(OpenFailed(err))
      else if code == 1 && err == [] && out == [] then Some(SilentExit1)
      else if err != [] then Some(FailedWithStderr(err))
      else if out != [] then Some(FailedWithStdout(out))
      else Some(FailedWithCode(code))
  }

  /**
   * One LibreOffice attempt. `available` is the engine's start-up probe,
   * `input` the uploaded file if it exists, `run` what the process does if it
   * is started.
   */
  function ConvertWithLibreOffice(available: bool, input: Option<FileInfo>, ext: string, fmt: string, run: RunResult): (r: Attempt)
    ensures r == Converted <==>
      available && input.Some? && input.value.size > 0 && InLibreOfficeList(ext, fmt) && run.Exited? && run.code == 0
    ensures r == Failed(NotAvailable) <==> !available
    ensures r == Failed(InputMissing) <==> available && (input.None? || input.value.size == 0)
    ensures r == Failed(NotListed) <==>
      available && input.Some? && input.value.size > 0 && !InLibreOfficeList(ext, fmt)
    ensures r == Failed(RunTimedOut) <==>
      available && input.Some? && input.value.size > 0 && InLibreOfficeList(ext, fmt) && run.TimedOut?
    ensures available && input.Some? && input.value.size > 0 && InLibreOfficeList(ext, fmt) && run.Exited? && run.code != 0 ==>
      r == Failed(Diagnose(run.code, run.stderr, run.stdout).value)
  {
    if !available then Failed(NotAvailable)
    else if input.None? || input.value.size == 0 then Failed(InputMissing)
    else if !InLibreOfficeList(ext, fmt) then Failed(NotListed)
    else match run
      case TimedOut => Failed(RunTimedOut)
      case Exited(code, stderr, stdout) =>
        match Diagnose(code, stderr, stdout)
        case None => Converted
        case Some(f) => Failed(f)
  }

  /** The process is consulted only once all three preconditions hold. */
  lemma PreconditionsBeforeRun(available: bool, input: Option<FileInfo>, ext: string, fmt: string, run1: RunResult, run2: RunResult)
    requires !available || input.None? || input.value.size == 0 || !InLibreOfficeList(ext, fmt)
    ensures ConvertWithLibreOffice(available, input, ext, fmt, run1) == ConvertWithLibreOffice(available, input, ext, fmt, run2)
    ensures ConvertWithLibreOffice(available, input, ext, fmt, run1).Failed?
  {
  }

  /** Text that says "no export filter" mentions "filter" (used by `Diagnose`). */
  lemma NoExportFilterMentionsFilter(s: string)
    ensures Contains(s, "no export filter") ==> Contains(s, "filter")
  {
    if Contains(s, "no export filter") {
      var i: nat :| i <= |s| && OccursAt(s, "no export filter", i);
      assert s[i + 10..i + 16] == s[i..i + 16][10..];
      assert OccursAt(s, "filter", i + 10);
    }
  }

  /**
   * The "no export filter" test is subsumed by the plain "filter" test: any
   * stderr that mentions a filter, in any case, is diagnosed as an unsupported
   * conversion unless it first says the source could not be loaded.
   */
  lemma AnyFilterMentionIsUnsupported(code: int, stderr: string, stdout: string, i: nat)
    requires code != 0
    requires OccursAt(Lower(Strip(stderr)), "no export filter", i)
    requires !Contains(Lower(Strip(stderr)), "source file could not be loaded")
    ensures Diagnose(code, stderr, stdout) == Some(NoFilter)
  {
    NoExportFilterMentionsFilter(Lower(Strip(stderr)));
  }

  /** The text of the exception raised for each failure. */
  function Message(f: Failure, inputPath: string, ext: string, fmt: string): string
  {
    var from := ExtOrUnknown(ext);
    var unsupported := "LibreOffice does not support conversion from ";
    match f
    case NotAvailable => "LibreOffice not available"
    case InputMissing => "Input file does not exist or is empty: " + inputPath
    case NotListed => Fill(unsupported, ext, " to ", fmt, "")
    case RunTimedOut => "LibreOffice conversion timed out (90s)"
    case Unreadable => Fill("LibreOffice cannot read the input file format (", from, "", "", ")")
    case NoFilter => Fill(unsupported, from, " to ", fmt, "")
    case OpenFailed(err) => Fill("LibreOffice failed to open the input file: ", err, "", "", "")
    case SilentExit1 => Fill(unsupported, from, " to ", fmt, " (exit code 1)")
    case FailedWithStderr(err) => Fill("LibreOffice conversion failed: ", err, "", "", "")
    case FailedWithStdout(out) => Fill("LibreOffice conversion failed: ", out, "", "", "")
    case FailedWithCode(code) => Fill("LibreOffice conversion failed with exit code ", IntToString(code), "", "", "")
  }

  /** The messages about unsupported or unreadable input name the formats involved. */
  lemma MessageNamesFormats(f: Failure, inputPath: string, ext: string, fmt: string)
    requires f in {NotListed, NoFilter, SilentExit1, Unreadable}
    ensures f == NotListed ==> Contains(Message(f, inputPath, ext, fmt), ext)
    ensures f != Unreadable ==> Contains(Message(f, inputPath, ext, fmt), fmt)
    ensures f != NotListed ==> Contains(Message(f, inputPath, ext, fmt), ExtOrUnknown(ext))
  {
  }

  /** The messages about a failed run carry what the process reported, or its exit code. */
  lemma MessageCarriesOutput(f: Failure, inputPath: string, ext: string, fmt: string)
    ensures f.OpenFailed? || f.FailedWithStderr? ==> Contains(Message(f, inputPath, ext, fmt), f.errorOutput)
    ensures f.FailedWithStdout? ==> Contains(Message(f, inputPath, ext, fmt), f.stdoutOutput)
    ensures f.FailedWithCode? ==> Contains(Message(f, inputPath, ext, fmt), IntToString(f.code))
  {
  }

  /**
   * Once the allow-list test has passed, the input extension names a format,
   * so the 'unknown' stand-in never appears in a diagnosis message.
   */
  lemma DiagnosedExtensionIsKnown(available: bool, input: Option<FileInfo>, ext: string, fmt: string, run: RunResult)
    requires ConvertWithLibreOffice(available, input, ext, fmt, run).Failed?
    requires ConvertWithLibreOffice(available, input, ext, fmt, run).why in {Unreadable, NoFilter, SilentExit1}
    ensures Parse(ext).Some? && ExtOrUnknown(ext) == ext
  {
  }
}
