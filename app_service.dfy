/**
 * The original service's `/convert` route (app.py): the upload gates, an
 * attempt with LibreOffice for office documents and some PDF conversions,
 * one Python fallback chosen by the pair of formats, validation of every
 * converted file, and the error message chosen when nothing worked. The
 * upload and output folders are the fields of `Storage`, which the route
 * updates; the LibreOffice process, the Python converters, the installation
 * probe, `secure_filename` and the UUID are inputs.
 */
module OriginalApp {
  import opened Text
  import opened Files
  import opened Uploads

  /** `ALLOWED_EXTENSIONS`. */
  const AllowedExtensions: set<string> := {"doc", "docx", "xls", "xlsx", "ppt", "pptx", "pdf", "html", "jpg", "jpeg"}

  /** `OUTPUT_FORMATS`, in the order the refusal lists them. */
  const OutputFormats: seq<string> := ["pdf", "docx", "xlsx", "pptx", "html", "jpg"]

  /** Converted files smaller than this are taken to be corrupt. */
  const MinValidSize := 100

  // ---------------------------------------------------------------------------
  // Validation of a converted file

  /** `s.lstrip('.')`. */
  function LStripDots(s: string): (r: string)
    ensures r == [] || r[0] != '.'
  {
    if s != [] && s[0] == '.' then LStripDots(s[1..]) else s
  }

  /**
   * What `LStripDots` removes is a run of dots at the front, and what it
   * keeps is the rest of `s`: with the contract above, exactly `lstrip('.')`.
   */
  lemma {:induction false} LStripDotsSuffix(s: string)
    ensures |LStripDots(s)| <= |s|
    ensures LStripDots(s) == s[|s| - |LStripDots(s)|..]
    ensures forall i :: 0 <= i < |s| - |LStripDots(s)| ==> s[i] == '.'
  {
    if s != [] && s[0] == '.' {
      LStripDotsSuffix(s[1..]);
      var r := LStripDots(s[1..]);
      assert s[1..][|s| - 1 - |r|..] == s[|s| - |r|..];
      forall i | 1 <= i < |s| - |r| ensures s[i] == '.' {
        assert s[1..][i - 1] == s[i];
      }
    }
  }

  /**
   * `validate_converted_file`: the file exists, is not empty, has at least
   * 100 bytes, and its extension (from `splitext`, lower-cased, leading dots
   * removed) is the expected format, lower-cased.
   */
  predicate ValidOutput(files: Dir, name: string, fmt: string) {
    && name in files
    && files[name].size != 0
    && files[name].size >= MinValidSize
    && LStripDots(Lower(SplitExt(name).1)) == Lower(fmt)
  }

  /** Lower-casing leaves the dot alone. */
  lemma LowerAfterDot(t: string)
    ensures Lower("." + t) == "." + Lower(t)
  {
    var low := Lower("." + t);
    assert low[0] == LowerChar('.');
    forall k | 0 <= k < |t| ensures low[k + 1] == Lower(t)[k] {
      assert ("." + t)[k + 1] == t[k];
    }
  }

  /** Removing the leading dots of `"." + t` gives `t` when `t` does not start with a dot. */
  lemma LStripOneDot(t: string)
    requires t == [] || t[0] != '.'
    ensures LStripDots("." + t) == t
  {
    assert ("." + t)[1..] == t;
  }

  /**
   * For a name `stem.fmt` (the route's own output name), the extension test
   * always passes, so the file is valid exactly when it exists and has at
   * least 100 bytes: a missing, empty or smaller file is refused.
   */
  lemma ValidOutputOfJoined(files: Dir, stem: string, fmt: string, i: nat)
    requires '.' !in fmt && i < |stem| && stem[i] != '.'
    ensures ValidOutput(files, stem + "." + fmt, fmt)
        <==> stem + "." + fmt in files && files[stem + "." + fmt].size >= MinValidSize
  {
    SplitExtOfJoined(stem, fmt, i);
    LowerAfterDot(fmt);
    if fmt != [] {
      assert Lower(fmt)[0] == LowerChar(fmt[0]);
    }
    LStripOneDot(Lower(fmt));
  }

  /** An extension that differs from the format, whatever the letter case, is refused. */
  lemma ValidOutputNeedsExtension(files: Dir, name: string, fmt: string)
    requires LStripDots(Lower(SplitExt(name).1)) != Lower(fmt)
    ensures !ValidOutput(files, name, fmt)
  {
  }

  // ---------------------------------------------------------------------------
  // Inputs the route cannot see into

  /** How the LibreOffice process ended: on its own, with its standard error, or with a non-zero exit code, or by the 300 s timeout. */
  datatype Run = Completed(stderr: string) | NonZeroExit | TimedOut

  /**
   * What the LibreOffice attempt meets: whether the installation probe found
   * LibreOffice, how its process ended, the output folder once it has ended,
   * and the order `os.listdir` gives that folder's entries in.
   */
  datatype LibreOfficeEnv = LibreOfficeEnv(found: bool, run: Run, after: Dir, listing: seq<string>)

  /** A Python converter's result: it returned False, or it returned True with whatever it left at the output path. */
  datatype Fallback = FallbackFailed | FallbackReturned(written: Option<FileInfo>)

  /** Everything outside the route for one request: the uploaded file, LibreOffice, and the fallback converter. */
  datatype Env = Env(upload: FileInfo, libreOffice: LibreOfficeEnv, fallback: Fallback)

  /** The converters the route can call. */
  datatype Converter = LibreOfficeConverter | JpgToPdf | HtmlToPdf | PdfToXlsx | DocxToPdf

  // ---------------------------------------------------------------------------
  // Routing decisions

  /** Whether the route calls LibreOffice for a pair: office inputs always, PDF for four outputs. */
  predicate LibreOfficeConvertible(ext: string, fmt: string) {
    || ext in ["doc", "docx", "xls", "xlsx", "ppt", "pptx"]
    || (ext == "pdf" && fmt in ["pdf", "docx", "pptx", "html"])
  }

  /** The one Python fallback chosen by the pair, if any. */
  function FallbackFor(ext: string, fmt: string): (r: Option<Converter>)
    ensures r.Some? ==> r.value != LibreOfficeConverter
    ensures r == Some(JpgToPdf) <==> (ext == "jpg" || ext == "jpeg") && fmt == "pdf"
    ensures r == Some(HtmlToPdf) <==> ext == "html" && fmt == "pdf"
    ensures r == Some(PdfToXlsx) <==> ext == "pdf" && fmt == "xlsx"
    ensures r == Some(DocxToPdf) <==> ext == "docx" && fmt == "pdf"
  {
    if ext in ["jpg", "jpeg"] && fmt == "pdf" then Some(JpgToPdf)
    else if ext == "html" && fmt == "pdf" then Some(HtmlToPdf)
    else if ext == "pdf" && fmt == "xlsx" then Some(PdfToXlsx)
    else if ext == "docx" && fmt == "pdf" then Some(DocxToPdf)
    else None
  }

  /**
   * `max(files, key=getmtime)` over the entries of the listing that are
   * files: the index of the first entry whose modification time is the
   * greatest.
   */
  function NewestIndex(listing: seq<string>, files: Dir): (r: Option<nat>)
    ensures r.Some? ==> r.value < |listing| && listing[r.value] in files
    ensures r.Some? ==> forall j :: 0 <= j < |listing| && listing[j] in files ==>
                          files[listing[j]].mtime <= files[listing[r.value]].mtime
    ensures r.Some? ==> forall j :: 0 <= j < r.value && listing[j] in files ==>
                          files[listing[j]].mtime < files[listing[r.value]].mtime
    ensures r.None? <==> forall j :: 0 <= j < |listing| ==> listing[j] !in files
  {
    if listing == [] then None
    else
      var rest := NewestIndex(listing[1..], files);
      assert forall j :: 1 <= j < |listing| ==> listing[1..][j - 1] == listing[j];
      match rest
      case None => if listing[0] in files then Some(0) else None
      case Some(k) =>
        if listing[0] in files && files[listing[0]].mtime >= files[listing[k + 1]].mtime then Some(0)
        else Some(k + 1)
  }

  /** How the LibreOffice step ends: by the timeout, or with the output folder and whether a valid output was adopted. */
  datatype Attempt = TimedOutAttempt(outputs: Dir) | Attempted(outputs: Dir, success: bool)

  /**
   * Adopting a file LibreOffice wrote: it is renamed to the output name and
   * validated; a file that fails validation is removed again.
   */
  function Adopt(files: Dir, src: string, outName: string, fmt: string): Attempt
    requires src in files
  {
    var moved := Moved(files, src, outName);
    if ValidOutput(moved, outName, fmt) then Attempted(moved, true) else Attempted(moved - {outName}, false)
  }

  /**
   * The LibreOffice step, from the output folder `outputs`: no LibreOffice
   * raises before anything runs; a run that fails, or whose standard error
   * mentions "Error:", falls through; otherwise the file named after the
   * original's stem is adopted if it exists, else the newest file in the
   * folder, if any.
   */
  function LibreOfficeAttempt(outputs: Dir, lo: LibreOfficeEnv, original: string, outName: string, fmt: string): (a: Attempt)
    ensures a.Attempted? && a.success ==> ValidOutput(a.outputs, outName, fmt)
    ensures !lo.found ==> a == Attempted(outputs, false)
  {
    if !lo.found then Attempted(outputs, false)
    else match lo.run
      case TimedOut => TimedOutAttempt(lo.after)
      case NonZeroExit => Attempted(lo.after, false)
      case Completed(stderr) =>
        if stderr != "" && Contains(stderr, "Error:") then Attempted(lo.after, false)
        else
          var probe := Stem(original) + "." + fmt;
          if probe in lo.after then Adopt(lo.after, probe, outName, fmt)
          else match NewestIndex(lo.listing, lo.after)
            case None => Attempted(lo.after, false)
            case Some(k) => Adopt(lo.after, lo.listing[k], outName, fmt)
  }

  /**
   * A LibreOffice output that fails validation is deleted: after an adoption
   * that did not succeed, nothing is left under the output name, and every
   * entry other than the adopted file and the output name is as LibreOffice
   * left it.
   */
  lemma FailedAdoptionDeleted(files: Dir, src: string, outName: string, fmt: string)
    requires src in files
    ensures var a := Adopt(files, src, outName, fmt);
      && a.Attempted?
      && (a.success <==> ValidOutput(Moved(files, src, outName), outName, fmt))
      && (!a.success ==> outName !in a.outputs && a.outputs.Keys == files.Keys - {src, outName})
      && SameExcept(files, a.outputs, {src, outName})
  {
  }

  /** The fallback step: the chosen converter's output, validated; nothing when no converter fits the pair. */
  function FallbackStage(outputs: Dir, ext: string, fmt: string, fb: Fallback, outName: string): (r: (Dir, bool))
    ensures r.1 ==> FallbackFor(ext, fmt).Some? && fb.FallbackReturned? && ValidOutput(r.0, outName, fmt)
    ensures FallbackFor(ext, fmt).None? ==> r == (outputs, false)
  {
    match FallbackFor(ext, fmt)
    case None => (outputs, false)
    case Some(_) =>
      match fb
      case FallbackFailed => (outputs, false)
      case FallbackReturned(w) =>
        var after := if w.Some? then outputs[outName := w.value] else outputs;
        (after, ValidOutput(after, outName, fmt))
  }

  // ---------------------------------------------------------------------------
  // Messages

  /** The four reasons a failed conversion is given. */
  datatype Failure = LibreOfficeMissing | PdfToXlsxFailed | PdfFailed | OtherFailed

  /**
   * The reason given: a missing LibreOffice comes first, then PDF to XLSX,
   * then any other PDF input, then everything else.
   */
  function FailureOf(found: bool, ext: string, fmt: string): (k: Failure)
    ensures k == LibreOfficeMissing <==> !found
    ensures k == PdfToXlsxFailed <==> found && ext == "pdf" && fmt == "xlsx"
    ensures k == PdfFailed <==> found && ext == "pdf" && fmt != "xlsx"
    ensures k == OtherFailed <==> found && ext != "pdf"
  {
    if !found then LibreOfficeMissing
    else if ext == "pdf" && fmt == "xlsx" then PdfToXlsxFailed
    else if ext == "pdf" then PdfFailed
    else OtherFailed
  }

  // ---------------------------------------------------------------------------
  // The route

  /** Why a request ends with an error. */
  datatype Cause =
    | NoFile
    | NoSelection
    | UnsupportedType(order: seq<string>)
    | UnsupportedFormat
    | TimedOutCause
    | ConversionFailed(k: Failure, ext: string, fmt: string)
    | FinalCheckFailed

  /** The text for each reason; a missing LibreOffice names both formats in upper case. */
  function FailureText(k: Failure, ext: string, fmt: string): string {
    match k
    case LibreOfficeMissing =>
      "LibreOffice is required for " + Upper(ext) + " to " + Upper(fmt)
      + " conversion but is not installed. Please download and install LibreOffice from https://www.libreoffice.org/download/download/ to enable this conversion."
    case PdfToXlsxFailed =>
      "PDF to XLSX conversion failed. This may occur with scanned PDFs, password-protected files, or PDFs with complex formatting. Please check if required libraries are installed."
    case PdfFailed =>
      "PDF conversion failed. Please ensure LibreOffice is installed and the PDF is not password-protected."
    case OtherFailed =>
      "Conversion not supported or failed for this file/output combination. Please check if required software is installed."
  }

  /** The JSON `error` text of each cause. */
  function ErrorText(c: Cause): string {
    match c
    case NoFile => "No file uploaded"
    case NoSelection => "No file selected"
    case UnsupportedType(order) => "Unsupported file type. Allowed types: " + Join(", ", order)
    case UnsupportedFormat => "Unsupported output format. Allowed formats: " + Join(", ", OutputFormats)
    case TimedOutCause => "Conversion timed out. File may be too large or complex."
    case ConversionFailed(k, ext, fmt) => FailureText(k, ext, fmt)
    case FinalCheckFailed =>
      "File conversion completed but output validation failed. The file may be corrupted or conversion software may not be properly installed."
  }

  /** The reply: the converted file as a download, or a JSON error whose text is `ErrorText(cause)`, with a status. */
  datatype Reply = Download(path: string, downloadName: string) | Error(status: nat, cause: Cause)

  /** The reply, the two folders afterwards, and the converters called. */
  datatype Served = Served(reply: Reply, uploads: Dir, outputs: Dir, tried: seq<Converter>)

  /** Whether the request passes all four gates. */
  predicate Admitted(req: Request) {
    && req.file.Some? && req.file.value != ""
    && req.secured != "" && AllowedFile(req.secured, AllowedExtensions)
    && req.outputFormat.Some? && req.outputFormat.value in OutputFormats
  }

  /** The extension the route dispatches on. */
  function RequestExt(req: Request): string {
    Lower(AfterLastDot(req.secured))
  }

  /** The names the route uses: the saved upload, the output file, and the download. */
  datatype Names = Names(input: string, output: string, download: string)

  /**
   * The upload is saved as `<uuid>_<original>`; the output is that name's
   * stem with the output format; the download is the original's stem with
   * the output format.
   */
  function NamesOf(uuid: string, original: string, fmt: string): Names {
    var input := InputName(uuid, original);
    Names(input, Stem(input) + "." + fmt, Stem(original) + "." + fmt)
  }

  /** The refusal a request meets at the four gates, in the source's order; none once it passes them. */
  function Refusal(req: Request, order: seq<string>): (r: Option<Reply>)
    ensures r.None? <==> Admitted(req)
    ensures r.Some? ==> r.value.Error? && r.value.status == 400
  {
    if req.file.None? then Some(Error(400, NoFile))
    else if req.file.value == "" then Some(Error(400, NoSelection))
    else if req.secured == "" || !AllowedFile(req.secured, AllowedExtensions) then Some(Error(400, UnsupportedType(order)))
    else if req.outputFormat.None? || req.outputFormat.value !in OutputFormats then Some(Error(400, UnsupportedFormat))
    else None
  }

  /**
   * What the route does once the gates pass and the upload is saved in
   * `saved`: the LibreOffice step for the pairs it serves (a timeout ends
   * the request with status 500 there), then the rest.
   */
  function AfterGates(req: Request, env: Env, uuid: string, saved: Dir, outputs: Dir): Served
    requires Admitted(req)
  {
    var fmt := req.outputFormat.value;
    var ext := RequestExt(req);
    var names := NamesOf(uuid, req.secured, fmt);
    if LibreOfficeConvertible(ext, fmt) then
      match LibreOfficeAttempt(outputs, env.libreOffice, req.secured, names.output, fmt)
      case TimedOutAttempt(after) => Served(Error(500, TimedOutCause), saved, after, [LibreOfficeConverter])
      case Attempted(after, ok) => Conclude(env, ext, fmt, names, saved, after, ok, [LibreOfficeConverter])
    else Conclude(env, ext, fmt, names, saved, outputs, false, [])
  }

  /**
   * The rest of the route after the LibreOffice step left `outputs` and
   * `loOk`: the pair's fallback when LibreOffice did not succeed, the upload
   * removed, then the failure message, the final re-validation, or the
   * download.
   */
  function Conclude(env: Env, ext: string, fmt: string, names: Names, saved: Dir, outputs: Dir,
                    loOk: bool, tried: seq<Converter>): Served
  {
    var fallback := FallbackFor(ext, fmt);
    var tried' := if !loOk && fallback.Some? then tried + [fallback.value] else tried;
    var (after, ok) := if loOk then (outputs, true) else FallbackStage(outputs, ext, fmt, env.fallback, names.output);
    var removed := saved - {names.input};
    if !ok then
      Served(Error(400, ConversionFailed(FailureOf(env.libreOffice.found, ext, fmt), ext, fmt)), removed, after, tried')
    else if !ValidOutput(after, names.output, fmt) then
      Served(Error(500, FinalCheckFailed), removed, after - {names.output}, tried')
    else Served(Download(names.output, names.download), removed, after, tried')
  }

  /** The route, as a function of the folders before the request. */
  function Serve(req: Request, env: Env, order: seq<string>, uuid: string, uploads: Dir, outputs: Dir): Served {
    match Refusal(req, order)
    case Some(reply) => Served(reply, uploads, outputs, [])
    case None => AfterGates(req, env, uuid, uploads[InputName(uuid, req.secured) := env.upload], outputs)
  }

  /** How the LibreOffice step ends for an admitted request; a pair it does not serve leaves the folder as it was. */
  function LibreOfficeStep(req: Request, env: Env, uuid: string, outputs: Dir): (a: Attempt)
    requires Admitted(req)
    ensures a.Attempted? && a.success ==> ValidOutput(a.outputs, NamesOf(uuid, req.secured, req.outputFormat.value).output, req.outputFormat.value)
  {
    var fmt := req.outputFormat.value;
    if LibreOfficeConvertible(RequestExt(req), fmt)
    then LibreOfficeAttempt(outputs, env.libreOffice, req.secured, NamesOf(uuid, req.secured, fmt).output, fmt)
    else Attempted(outputs, false)
  }

  /** A request refused at the gates changes nothing and calls no converter: status 400. */
  lemma RefusedChangesNothing(req: Request, env: Env, order: seq<string>, uuid: string, uploads: Dir, outputs: Dir)
    requires !Admitted(req)
    ensures var s := Serve(req, env, order, uuid, uploads, outputs);
      && s.reply.Error? && s.reply.status == 400
      && s.uploads == uploads && s.outputs == outputs && s.tried == []
  {
  }

  /** The converters named in the order `Serve` calls them: LibreOffice if the pair calls for it. */
  function LibreOfficeTried(req: Request): seq<Converter>
    requires req.outputFormat.Some?
  {
    if LibreOfficeConvertible(RequestExt(req), req.outputFormat.value) then [LibreOfficeConverter] else []
  }

  /** An admitted request is the LibreOffice step followed, unless it timed out, by `Conclude`. */
  lemma AdmittedSteps(req: Request, env: Env, order: seq<string>, uuid: string, uploads: Dir, outputs: Dir)
    requires Admitted(req)
    ensures var fmt := req.outputFormat.value;
      var names := NamesOf(uuid, req.secured, fmt);
      var saved := uploads[names.input := env.upload];
      Serve(req, env, order, uuid, uploads, outputs)
        == match LibreOfficeStep(req, env, uuid, outputs)
           case TimedOutAttempt(after) => Served(Error(500, TimedOutCause), saved, after, LibreOfficeTried(req))
           case Attempted(after, ok) => Conclude(env, RequestExt(req), fmt, names, saved, after, ok, LibreOfficeTried(req))
  {
  }

  /**
   * After the LibreOffice step the upload is removed and nothing else in
   * the upload folder changes; the fallback is called only when LibreOffice
   * did not succeed and the pair has one.
   */
  lemma ConcludeBookkeeping(env: Env, ext: string, fmt: string, names: Names, saved: Dir, outputs: Dir,
                            loOk: bool, tried: seq<Converter>)
    ensures var s := Conclude(env, ext, fmt, names, saved, outputs, loOk, tried);
      && s.uploads == saved - {names.input}
      && s.tried == (if !loOk && FallbackFor(ext, fmt).Some? then tried + [FallbackFor(ext, fmt).value] else tried)
  {
  }

  /**
   * Provided a successful LibreOffice step left a valid output, a download
   * is sent only for a valid output, under the output name and named after
   * the original, and any other reply is the 400 the precedence picks.
   */
  lemma ConcludeReply(env: Env, ext: string, fmt: string, names: Names, saved: Dir, outputs: Dir,
                      loOk: bool, tried: seq<Converter>)
    requires loOk ==> ValidOutput(outputs, names.output, fmt)
    ensures var s := Conclude(env, ext, fmt, names, saved, outputs, loOk, tried);
      && (s.reply.Download? ==> s.reply == Download(names.output, names.download) && ValidOutput(s.outputs, names.output, fmt))
      && (s.reply.Error? ==> s.reply == Error(400, ConversionFailed(FailureOf(env.libreOffice.found, ext, fmt), ext, fmt)))
  {
  }

  /**
   * Which converters an admitted request calls: LibreOffice exactly for the
   * pairs it serves, and first; after it, at most the pair's one Python
   * fallback, and that exactly when LibreOffice did not succeed and did not
   * time out.
   */
  lemma ConvertersCalled(req: Request, env: Env, order: seq<string>, uuid: string, uploads: Dir, outputs: Dir)
    requires Admitted(req)
    ensures var s := Serve(req, env, order, uuid, uploads, outputs);
      var ext, fmt := RequestExt(req), req.outputFormat.value;
      var lo := LibreOfficeStep(req, env, uuid, outputs);
      && (LibreOfficeConverter in s.tried <==> LibreOfficeConvertible(ext, fmt))
      && s.tried == (if lo == Attempted(lo.outputs, false) && FallbackFor(ext, fmt).Some?
                     then LibreOfficeTried(req) + [FallbackFor(ext, fmt).value] else LibreOfficeTried(req))
  {
    var fmt := req.outputFormat.value;
    var names := NamesOf(uuid, req.secured, fmt);
    var lo := LibreOfficeStep(req, env, uuid, outputs);
    AdmittedSteps(req, env, order, uuid, uploads, outputs);
    if lo.Attempted? {
      ConcludeBookkeeping(env, RequestExt(req), fmt, names, uploads[names.input := env.upload], lo.outputs, lo.success, LibreOfficeTried(req));
    }
  }

  /**
   * A LibreOffice timeout ends the request with status 500 before any
   * fallback, and leaves the saved upload in place.
   */
  lemma TimeoutStops(req: Request, env: Env, order: seq<string>, uuid: string, uploads: Dir, outputs: Dir)
    requires Admitted(req) && LibreOfficeStep(req, env, uuid, outputs).TimedOutAttempt?
    ensures var s := Serve(req, env, order, uuid, uploads, outputs);
      var input := InputName(uuid, req.secured);
      && s.reply == Error(500, TimedOutCause)
      && s.tried == [LibreOfficeConverter]
      && input in s.uploads && s.uploads[input] == env.upload
  {
  }

  /**
   * An admitted request that did not time out is `Conclude` on the folder
   * the LibreOffice step left, with the upload saved.
   */
  lemma AttemptedSteps(req: Request, env: Env, order: seq<string>, uuid: string, uploads: Dir, outputs: Dir)
    requires Admitted(req) && LibreOfficeStep(req, env, uuid, outputs).Attempted?
    ensures var fmt := req.outputFormat.value;
      var names := NamesOf(uuid, req.secured, fmt);
      var lo := LibreOfficeStep(req, env, uuid, outputs);
      Serve(req, env, order, uuid, uploads, outputs)
        == Conclude(env, RequestExt(req), fmt, names, uploads[names.input := env.upload], lo.outputs, lo.success, LibreOfficeTried(req))
  {
    AdmittedSteps(req, env, order, uuid, uploads, outputs);
  }

  /**
   * Unless LibreOffice timed out, the upload is removed before the reply,
   * whatever the reply is, and no other upload changes.
   */
  lemma UploadRemoved(req: Request, env: Env, order: seq<string>, uuid: string, uploads: Dir, outputs: Dir)
    requires Admitted(req) && LibreOfficeStep(req, env, uuid, outputs).Attempted?
    ensures Serve(req, env, order, uuid, uploads, outputs).uploads == uploads - {InputName(uuid, req.secured)}
  {
    var fmt := req.outputFormat.value;
    var names := NamesOf(uuid, req.secured, fmt);
    var lo := LibreOfficeStep(req, env, uuid, outputs);
    var saved := uploads[names.input := env.upload];
    AttemptedSteps(req, env, order, uuid, uploads, outputs);
    ConcludeBookkeeping(env, RequestExt(req), fmt, names, saved, lo.outputs, lo.success, LibreOfficeTried(req));
    SavedThenRemoved(uploads, names.input, env.upload);
  }

  /** Saving a file and then removing it leaves the folder as it was, less any earlier file of that name. */
  lemma {:induction false} SavedThenRemoved(uploads: Dir, name: string, f: FileInfo)
    ensures uploads[name := f] - {name} == uploads - {name}
  {
  }

  /**
   * Unless LibreOffice timed out, a download is sent only for a converted
   * file that passes validation, under the output name and named after the
   * original; and since the final re-validation never fails, every other
   * reply is the 400 the precedence picks.
   */
  lemma RepliesAfterLibreOffice(req: Request, env: Env, order: seq<string>, uuid: string, uploads: Dir, outputs: Dir)
    requires Admitted(req) && LibreOfficeStep(req, env, uuid, outputs).Attempted?
    ensures var s := Serve(req, env, order, uuid, uploads, outputs);
      var ext, fmt := RequestExt(req), req.outputFormat.value;
      var names := NamesOf(uuid, req.secured, fmt);
      && (s.reply.Download? ==> s.reply == Download(names.output, names.download) && ValidOutput(s.outputs, names.output, fmt))
      && (s.reply.Error? ==> s.reply == Error(400, ConversionFailed(FailureOf(env.libreOffice.found, ext, fmt), ext, fmt)))
  {
    var fmt := req.outputFormat.value;
    var names := NamesOf(uuid, req.secured, fmt);
    var lo := LibreOfficeStep(req, env, uuid, outputs);
    AttemptedSteps(req, env, order, uuid, uploads, outputs);
    ConcludeReply(env, RequestExt(req), fmt, names, uploads[names.input := env.upload], lo.outputs, lo.success, LibreOfficeTried(req));
  }

  /** The upload and output folders the route reads and changes. */
  class Storage {
    var uploads: Dir
    var outputs: Dir

    constructor (uploads: Dir, outputs: Dir)
      ensures this.uploads == uploads && this.outputs == outputs
    {
      this.uploads := uploads;
      this.outputs := outputs;
    }

    /**
     * `convert()`: the gates, then the upload saved and the conversion; its
     * reply, the folders it leaves and the converters it calls are those
     * `Serve` gives.
     */
    method Convert(req: Request, env: Env, order: seq<string>, uuid: string) returns (reply: Reply, tried: seq<Converter>)
      modifies this
      ensures Served(reply, uploads, outputs, tried) == Serve(req, env, order, uuid, old(uploads), old(outputs))
    {
      var refusal := Refusal(req, order);
      if refusal.Some? {
        return refusal.value, [];
      }
      uploads := uploads[InputName(uuid, req.secured) := env.upload];
      reply, tried := ConvertSaved(req, env, uuid);
    }

    /**
     * The conversion once the upload is saved: LibreOffice when the pair
     * calls for it, then the rest of the route with the flag it left.
     */
    method ConvertSaved(req: Request, env: Env, uuid: string) returns (reply: Reply, tried: seq<Converter>)
      requires Admitted(req)
      modifies this
      ensures Served(reply, uploads, outputs, tried) == AfterGates(req, env, uuid, old(uploads), old(outputs))
    {
      var fmt := req.outputFormat.value;
      var ext := RequestExt(req);
      var names := NamesOf(uuid, req.secured, fmt);
      var success := false;
      tried := [];
      if LibreOfficeConvertible(ext, fmt) {
        tried := [LibreOfficeConverter];
        var attempt := LibreOfficeAttempt(outputs, env.libreOffice, req.secured, names.output, fmt);
        match attempt
        case TimedOutAttempt(after) =>
          outputs := after;
          return Error(500, TimedOutCause), tried;
        case Attempted(after, ok) =>
          outputs := after;
          success := ok;
      }
      reply, tried := Finish(env, ext, fmt, names, success, tried);
    }

    /**
     * The rest of the route, step by step with the `conversion_success`
     * flag: the pair's fallback when LibreOffice did not succeed, the upload
     * removed, and the reply.
     */
    method Finish(env: Env, ext: string, fmt: string, names: Names, loOk: bool, loTried: seq<Converter>)
      returns (reply: Reply, tried: seq<Converter>)
      modifies this
      ensures Served(reply, uploads, outputs, tried) == Conclude(env, ext, fmt, names, old(uploads), old(outputs), loOk, loTried)
    {
      var success := loOk;
      tried := loTried;
      if !success {
        var fallback := FallbackFor(ext, fmt);
        if fallback.Some? {
          tried := tried + [fallback.value];
          var (after, ok) := FallbackStage(outputs, ext, fmt, env.fallback, names.output);
          outputs := after;
          success := ok;
        }
      }

      uploads := uploads - {names.input};

      if !success {
        var k := FailureOf(env.libreOffice.found, ext, fmt);
        return Error(400, ConversionFailed(k, ext, fmt)), tried;
      }
      if !ValidOutput(outputs, names.output, fmt) {
        outputs := outputs - {names.output};
        return Error(500, FinalCheckFailed), tried;
      }
      return Download(names.output, names.download), tried;
    }
  }
}
