/**
 * The hybrid service's `/convert` route: four gates on the request, the
 * upload saved under a UUID-prefixed name, `convert_file`, removal of the
 * upload, a check that the output exists and is not empty, and a download
 * named after the original file. Every failure after the gates comes back
 * with status 400 and the suggestions for the engines that are missing.
 * The upload folder is a value; the request's file part, `secure_filename`'s
 * result, the UUID, and what a direct transcoder leaves at the output path
 * are inputs. The output file after LibreOffice or CloudConvert follows
 * from their outcomes.
 */
module HybridRoute {
  import opened Text
  import opened Formats
  import opened Files
  import opened Registry
  import opened Dispatch
  import opened Uploads
  import opened OutputResolution

  /** `ALLOWED_EXTENSIONS`: the names of the 21 formats. */
  const HybridExtensions: set<string> := {
    "doc", "docx", "xls", "xlsx", "ppt", "pptx", "pdf", "html", "htm", "jpg", "jpeg",
    "png", "gif", "bmp", "tiff", "txt", "csv", "rtf", "odt", "ods", "odp"}

  /** The allowed extensions are exactly the strings that name a format. */
  lemma HybridExtensionsAreFormats(s: string)
    ensures s in HybridExtensions <==> Parse(s).Some?
  {
    if Parse(s).Some? {
      var f := Parse(s).value;
      assert s == Name(f);
    }
  }

  /** The reply: the converted file as a download, or a JSON error with a status. */
  datatype Response = Download(path: string, downloadName: string) | Refusal(status: nat, error: string)

  /** The reply, the upload folder afterwards, and the backends `convert_file` invoked. */
  datatype Outcome = Outcome(response: Response, uploads: Dir, tried: seq<Backend>)

  const InvalidOutput := "Conversion produced invalid output file"

  /** The engines a failed conversion's error can point at, in the order the source tests them. */
  datatype Hint = InstallLibreOffice | InstallWkhtmltopdf | ConfigureCloudConvert

  function HintText(h: Hint): string {
    match h
    case InstallLibreOffice => "Install LibreOffice for office document conversions"
    case InstallWkhtmltopdf => "Install wkhtmltopdf for HTML to PDF conversions"
    case ConfigureCloudConvert => "Configure CloudConvert API for additional format support"
  }

  function HintRank(h: Hint): nat {
    match h
    case InstallLibreOffice => 0
    case InstallWkhtmltopdf => 1
    case ConfigureCloudConvert => 2
  }

  /** One hint per engine that is missing, each once, in the source's order. */
  function Suggestions(e: Engine): (r: seq<Hint>)
    ensures InstallLibreOffice in r <==> !e.hasLibreOffice
    ensures InstallWkhtmltopdf in r <==> !e.hasWkhtmltopdf
    ensures ConfigureCloudConvert in r <==> e.apiKey == ""
    ensures forall i, j :: 0 <= i < j < |r| ==> HintRank(r[i]) < HintRank(r[j])
    ensures r == [] <==> e.hasLibreOffice && e.hasWkhtmltopdf && e.apiKey != ""
  {
    (if e.hasLibreOffice then [] else [InstallLibreOffice])
    + (if e.hasWkhtmltopdf then [] else [InstallWkhtmltopdf])
    + (if e.apiKey != "" then [] else [ConfigureCloudConvert])
  }

  function HintTexts(hs: seq<Hint>): seq<string> {
    seq(|hs|, i requires 0 <= i < |hs| => HintText(hs[i]))
  }

  /**
   * A failure message with the suggestions appended after ". Suggestions: ",
   * joined by "; ", when there are any: the message itself is left intact
   * as the reply's prefix, and it is the whole reply exactly when every
   * engine is configured.
   */
  function WithSuggestions(msg: string, e: Engine): (r: string)
    ensures |msg| <= |r| && r[..|msg|] == msg
    ensures r == msg <==> e.hasLibreOffice && e.hasWkhtmltopdf && e.apiKey != ""
  {
    var s := Suggestions(e);
    if s != [] then
      var tail := ". Suggestions: " + Join("; ", HintTexts(s));
      AppendPrefix(msg, tail);
      msg + tail
    else msg
  }

  /** The refusal for a name that is not allowed, listing the extensions in the set's iteration order. */
  function UnsupportedMessage(order: seq<string>): string {
    "Unsupported file type. Allowed types: " + Join(", ", order)
  }

  /** Whether the request passes all four gates. */
  predicate Admitted(req: Request) {
    && req.file.Some? && req.file.value != ""
    && req.secured != "" && AllowedFile(req.secured, HybridExtensions)
    && req.outputFormat.Some? && req.outputFormat.value != ""
  }

  /**
   * The size of the file at the output path `<base>.<fmt>` once
   * `convert_file` has ended with `d` (None: no file there). After
   * LibreOffice it is the file the resolution moved there; after CloudConvert
   * the content it delivered, which is written there; after a direct
   * transcoder it is `direct`, what that transcoder left there.
   */
  function OutputSize(d: Dispatch, o: Backends, base: string, original: string, fmt: string,
                      direct: Option<nat>): Option<nat>
  {
    match d.result
    case Succeeded(LibreOffice) =>
      var w := o.libreOffice;
      (match ChooseOutput(w.outputs, w.listing, base, original, fmt, w.now)
       case Some(src) => Some(Moved(w.outputs, src, base + "." + fmt)[base + "." + fmt].size)
       case None => None)
    case Succeeded(CloudConvert) => if o.cloud.Delivered? then Some(o.cloud.size) else None
    case _ => direct
  }

  /**
   * What the route does once `convert_file` has ended with `d`: the upload
   * `input` was saved into `saved`; it is removed when `convert_file`
   * returned and left in place when it raised. The output path is
   * `<stem of input>.<fmt>`, holding a file of `size` bytes if any, and the
   * download is named after `original`.
   */
  function Finish(e: Engine, d: Dispatch, input: string, original: string, fmt: string,
                  saved: Dir, size: Option<nat>): (out: Outcome)
  {
    match d.result
    case Raised(msg) => Outcome(Refusal(400, WithSuggestions(msg, e)), saved, d.tried)
    case Succeeded(_) =>
      var removed := saved - {input};
      if size.Some? && size.value > 0 then
        Outcome(Download(Stem(input) + "." + fmt, Stem(original) + "." + fmt), removed, d.tried)
      else Outcome(Refusal(400, WithSuggestions(InvalidOutput, e)), removed, d.tried)
  }

  /**
   * The route. `order` is the iteration order of the allowed-extension set,
   * `uuid` the text of the fresh UUID, `uploads` the upload folder before
   * the request, `o` the backends' outcomes (whose `upload` is the saved
   * file), and `direct` the size of what a direct transcoder leaves at the
   * output path.
   */
  function Convert(e: Engine, req: Request, order: seq<string>, uuid: string, uploads: Dir,
                   o: Backends, direct: Option<nat>): (out: Outcome)
    ensures !Admitted(req) ==> out.response.Refusal? && out.response.status == 400 && out.uploads == uploads && out.tried == []
  {
    match req.file
    case None => Outcome(Refusal(400, "No file uploaded"), uploads, [])
    case Some(filename) =>
      if filename == "" then Outcome(Refusal(400, "No file selected"), uploads, [])
      else if req.secured == "" || !AllowedFile(req.secured, HybridExtensions) then Outcome(Refusal(400, UnsupportedMessage(order)), uploads, [])
      else if req.outputFormat.None? || req.outputFormat.value == "" then Outcome(Refusal(400, "Output format not specified"), uploads, [])
      else
        var input := InputName(uuid, req.secured);
        var fmt := req.outputFormat.value;
        var d := ConvertFile(e, RequestExt(req), fmt, Stem(input), req.secured, o);
        Finish(e, d, input, req.secured, fmt, uploads[input := o.upload], OutputSize(d, o, Stem(input), req.secured, fmt, direct))
  }

  /** The extension the route hands to `convert_file`. */
  function RequestExt(req: Request): string {
    Lower(AfterLastDot(req.secured))
  }

  /**
   * After `convert_file`: the backends are those it invoked; the upload is
   * gone exactly when it returned, and nothing else in the folder changes;
   * the reply is a download exactly when it returned and the output file is
   * not empty; every other reply is a 400 whose error is the cause with the
   * suggestions appended.
   */
  lemma FinishFacts(e: Engine, d: Dispatch, input: string, original: string, fmt: string,
                    uploads: Dir, upload: FileInfo, size: Option<nat>)
    ensures var out := Finish(e, d, input, original, fmt, uploads[input := upload], size);
      && out.tried == d.tried
      && (input in out.uploads <==> d.result.Raised?)
      && (input in out.uploads ==> out.uploads[input] == upload)
      && (forall n :: n != input ==> (n in out.uploads <==> n in uploads))
      && (forall n :: n != input && n in uploads ==> out.uploads[n] == uploads[n])
      && (out.response.Download? <==> d.result.Succeeded? && size.Some? && size.value > 0)
      && (out.response.Download? ==> out.response == Download(Stem(input) + "." + fmt, Stem(original) + "." + fmt))
      && (out.response.Refusal? ==>
            out.response == Refusal(400, WithSuggestions(if d.result.Raised? then d.result.message else InvalidOutput, e)))
  {
  }

  /**
   * Once the gates pass, the route hands `convert_file` a lower-case
   * extension that names a format, and what follows is `Finish` on its
   * outcome with the upload saved under the UUID-prefixed name.
   */
  lemma AdmittedRequest(e: Engine, req: Request, order: seq<string>, uuid: string, uploads: Dir,
                        o: Backends, direct: Option<nat>)
    requires Admitted(req)
    ensures Parse(RequestExt(req)).Some?
    ensures var input := InputName(uuid, req.secured);
      var fmt := req.outputFormat.value;
      var d := ConvertFile(e, RequestExt(req), fmt, Stem(input), req.secured, o);
      Convert(e, req, order, uuid, uploads, o, direct)
        == Finish(e, d, input, req.secured, fmt, uploads[input := o.upload], OutputSize(d, o, Stem(input), req.secured, fmt, direct))
  {
    HybridExtensionsAreFormats(RequestExt(req));
  }

  /**
   * The output format is not lower-cased: a field that names no format in
   * exactly the formats' spelling ("PDF", say) matches no direct branch and
   * no LibreOffice entry, so only CloudConvert can serve it, and only when a
   * key is set.
   */
  lemma UnknownOutputFormatOnlyCloud(e: Engine, req: Request, order: seq<string>, uuid: string, uploads: Dir,
                                     o: Backends, direct: Option<nat>)
    requires Admitted(req) && Parse(req.outputFormat.value).None?
    ensures var out := Convert(e, req, order, uuid, uploads, o, direct);
      && out.tried == (if e.apiKey != "" then [CloudConvert] else [])
      && (out.response.Download? <==> e.apiKey != "" && o.cloud.Delivered? && o.cloud.size > 0)
  {
    var fmt := req.outputFormat.value;
    var input := InputName(uuid, req.secured);
    var base := Stem(input);
    var ext := RequestExt(req);
    assert BranchForRequest(ext, fmt, e.hasWkhtmltopdf) == None;
    assert !InLibreOfficeList(ext, fmt);
    CloudOnly(e, ext, fmt, o, LibreOfficeWorks(e, ext, fmt, base, req.secured, o));
    AdmittedRequest(e, req, order, uuid, uploads, o, direct);
    var d := ConvertFile(e, ext, fmt, base, req.secured, o);
    var size := OutputSize(d, o, base, req.secured, fmt, direct);
    if d.result.Succeeded? {
      assert d.result == Succeeded(CloudConvert) && size == Some(o.cloud.size);
    }
    FinishFacts(e, d, input, req.secured, fmt, uploads, o.upload, size);
  }

  /**
   * The output check after a backend that served: a LibreOffice conversion
   * always passes it, since the resolution moved a file that is not empty
   * to the output path; a CloudConvert one passes it exactly when the
   * delivered content is not empty.
   */
  lemma ServedOutputCheck(e: Engine, req: Request, order: seq<string>, uuid: string, uploads: Dir,
                          o: Backends, direct: Option<nat>)
    requires Admitted(req)
    ensures var input := InputName(uuid, req.secured);
      var d := ConvertFile(e, RequestExt(req), req.outputFormat.value, Stem(input), req.secured, o);
      var out := Convert(e, req, order, uuid, uploads, o, direct);
      && (d.result == Succeeded(LibreOffice) ==> out.response.Download?)
      && (d.result == Succeeded(CloudConvert) ==> (out.response.Download? <==> o.cloud.Delivered? && o.cloud.size > 0))
  {
    var input := InputName(uuid, req.secured);
    var fmt := req.outputFormat.value;
    var ext := RequestExt(req);
    var base := Stem(input);
    var lw := LibreOfficeWorks(e, ext, fmt, base, req.secured, o);
    var d := ConvertFile(e, ext, fmt, base, req.secured, o);
    FirstSuccessWins(e, ext, fmt, o, lw);
    AdmittedRequest(e, req, order, uuid, uploads, o, direct);
    FinishFacts(e, d, input, req.secured, fmt, uploads, o.upload, OutputSize(d, o, base, req.secured, fmt, direct));
    if d.result == Succeeded(LibreOffice) {
      var w := o.libreOffice;
      ResolutionMovesOneFile(w.outputs, w.listing, base, req.secured, fmt, w.now);
    }
  }
}
