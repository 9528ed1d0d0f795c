/**
 * The hybrid service's dispatch cascade (`ConversionEngine.convert_file`):
 * an ordered chain of guarded direct transcoders, then LibreOffice when it
 * was found and lists the pair, then CloudConvert when an API key is set,
 * then an error naming the engines that are available. Each backend's
 * outcome is an input; dispatch is a function of those outcomes. The
 * `/convert` route around it adds the upload gates, the output check and
 * the suggestions appended to errors.
 */
module Dispatch {
  import opened Text
  import opened Formats
  import opened Files
  import opened Registry
  import opened LibreOfficeRun
  import opened OutputResolution

  /** The direct transcoder branches of `convert_file`, one per guarded `if`. */
  datatype Rule =
    | ImageToPdf | HtmlToPdf | DocxToPptx | TxtToHtml | TxtToPptx | HtmlToTxt | HtmlToPptx
    | PngToJpeg | JpegToPng
    | ImageToDocx | ImageToPptx | ImageToHtml | ImageToTxt | ImageToCsv | ImageToXlsx
    | TxtToImage | HtmlToImage | DocxToImage | PptxToImage | CsvToImage | XlsxToImage
    | PdfToText | PdfToImages | PdfToWord | PdfToPptx
    | CsvToOffice | PptxToWord | ExcelToWord | PptxToPdf

  /**
   * The order in which `convert_file` tests the branches, in the groups the
   * source writes them: the first special cases, the two image-to-image
   * swaps, images to office formats, formats to images, PDF sources, and the
   * remaining office conversions.
   */
  const FirstBranches: seq<Rule> := [ImageToPdf, HtmlToPdf, DocxToPptx, TxtToHtml, TxtToPptx, HtmlToTxt, HtmlToPptx]
  const SwapBranches: seq<Rule> := [PngToJpeg, JpegToPng]
  const ImageToOfficeBranches: seq<Rule> := [ImageToDocx, ImageToPptx, ImageToHtml, ImageToTxt, ImageToCsv, ImageToXlsx]
  const ToImageBranches: seq<Rule> := [TxtToImage, HtmlToImage, DocxToImage, PptxToImage, CsvToImage, XlsxToImage]
  const PdfBranches: seq<Rule> := [PdfToText, PdfToImages, PdfToWord, PdfToPptx]
  const OfficeBranches: seq<Rule> := [CsvToOffice, PptxToWord, ExcelToWord, PptxToPdf]

  const RuleOrder: seq<Rule> :=
    FirstBranches + SwapBranches + ImageToOfficeBranches + ToImageBranches + PdfBranches + OfficeBranches

  const Images3: set<Format> := {Png, Jpg, Jpeg}

  /** The guard of a branch over two known formats (html_to_pdf also needs wkhtmltopdf). */
  predicate GuardOn(r: Rule, a: Format, b: Format, hasWkhtmltopdf: bool) {
    match r
    case ImageToPdf => a in {Jpg, Jpeg, Png, Gif, Bmp, Tiff} && b == Pdf
    case HtmlToPdf => a == Html && b == Pdf && hasWkhtmltopdf
    case DocxToPptx => a == Docx && b == Pptx
    case TxtToHtml => a == Txt && b == Html
    case TxtToPptx => a == Txt && b == Pptx
    case HtmlToTxt => a == Html && b == Txt
    case HtmlToPptx => a == Html && b == Pptx
    case PngToJpeg => a == Png && b in {Jpg, Jpeg}
    case JpegToPng => a in {Jpg, Jpeg} && b == Png
    case ImageToDocx => a in Images3 && b == Docx
    case ImageToPptx => a in Images3 && b == Pptx
    case ImageToHtml => a in Images3 && b == Html
    case ImageToTxt => a in Images3 && b == Txt
    case ImageToCsv => a in Images3 && b == Csv
    case ImageToXlsx => a in Images3 && b == Xlsx
    case TxtToImage => a == Txt && b in Images3
    case HtmlToImage => a == Html && b in Images3
    case DocxToImage => a == Docx && b in Images3
    case PptxToImage => a == Pptx && b in Images3
    case CsvToImage => a == Csv && b in Images3
    case XlsxToImage => a == Xlsx && b in Images3
    case PdfToText => a == Pdf && b in {Txt, Html, Csv, Xlsx, Xls}
    case PdfToImages => a == Pdf && b in {Jpg, Jpeg, Png}
    case PdfToWord => a == Pdf && b in {Docx, Doc}
    case PdfToPptx => a == Pdf && b in {Pptx, Ppt}
    case CsvToOffice => a == Csv && b in {Xlsx, Xls, Html, Pptx, Ppt, Docx, Doc}
    case PptxToWord => a in {Pptx, Ppt} && b in {Docx, Doc}
    case ExcelToWord => a in {Xlsx, Xls} && b in {Docx, Doc}
    case PptxToPdf => a in {Pptx, Ppt} && b == Pdf
  }

  /** The guard on the strings the service holds: both must name formats, as every guard compares with names. */
  predicate Guard(r: Rule, ext: string, fmt: string, hasWkhtmltopdf: bool) {
    match (Parse(ext), Parse(fmt))
    case (Some(a), Some(b)) => GuardOn(r, a, b, hasWkhtmltopdf)
    case _ => false
  }

  /**
   * The same table read by input format: the one branch, if any, whose guard
   * holds for a pair.
   */
  function BranchFor(a: Format, b: Format, hasWkhtmltopdf: bool): Option<Rule> {
    match a
    case Jpg | Jpeg =>
      if b == Pdf then Some(ImageToPdf)
      else if b == Png then Some(JpegToPng)
      else ImageToOffice(b)
    case Png =>
      if b == Pdf then Some(ImageToPdf)
      else if b in {Jpg, Jpeg} then Some(PngToJpeg)
      else ImageToOffice(b)
    case Gif | Bmp | Tiff => if b == Pdf then Some(ImageToPdf) else None
    case Html =>
      if b == Pdf then (if hasWkhtmltopdf then Some(HtmlToPdf) else None)
      else if b == Txt then Some(HtmlToTxt)
      else if b == Pptx then Some(HtmlToPptx)
      else if b in Images3 then Some(HtmlToImage)
      else None
    case Docx =>
      if b == Pptx then Some(DocxToPptx)
      else if b in Images3 then Some(DocxToImage)
      else None
    case Txt =>
      if b == Html then Some(TxtToHtml)
      else if b == Pptx then Some(TxtToPptx)
      else if b in Images3 then Some(TxtToImage)
      else None
    case Pptx =>
      if b in Images3 then Some(PptxToImage)
      else if b in {Docx, Doc} then Some(PptxToWord)
      else if b == Pdf then Some(PptxToPdf)
      else None
    case Ppt =>
      if b in {Docx, Doc} then Some(PptxToWord)
      else if b == Pdf then Some(PptxToPdf)
      else None
    case Csv =>
      if b in Images3 then Some(CsvToImage)
      else if b in {Xlsx, Xls, Html, Pptx, Ppt, Docx, Doc} then Some(CsvToOffice)
      else None
    case Xlsx =>
      if b in Images3 then Some(XlsxToImage)
      else if b in {Docx, Doc} then Some(ExcelToWord)
      else None
    case Xls => if b in {Docx, Doc} then Some(ExcelToWord) else None
    case Pdf =>
      if b in {Txt, Html, Csv, Xlsx, Xls} then Some(PdfToText)
      else if b in {Jpg, Jpeg, Png} then Some(PdfToImages)
      else if b in {Docx, Doc} then Some(PdfToWord)
      else if b in {Pptx, Ppt} then Some(PdfToPptx)
      else None
    case Doc | Htm | Rtf | Odt | Ods | Odp => None
  }

  function ImageToOffice(b: Format): Option<Rule> {
    match b
    case Docx => Some(ImageToDocx)
    case Pptx => Some(ImageToPptx)
    case Html => Some(ImageToHtml)
    case Txt => Some(ImageToTxt)
    case Csv => Some(ImageToCsv)
    case Xlsx => Some(ImageToXlsx)
    case _ => None
  }

  /** A branch's guard holds exactly when it is the branch the by-input table names. */
  lemma GuardIsBranchFor(r: Rule, a: Format, b: Format, w: bool)
    ensures GuardOn(r, a, b, w) <==> BranchFor(a, b, w) == Some(r)
  {
    GuardIsBranchForJpeg(r, a, b, w);
    GuardIsBranchForPng(r, a, b, w);
    GuardIsBranchForMarkup(r, a, b, w);
    GuardIsBranchForSlides(r, a, b, w);
    GuardIsBranchForSheets(r, a, b, w);
    GuardIsBranchForOther(r, a, b, w);
  }

  // The equivalence, one group of input formats at a time.

  lemma GuardIsBranchForJpeg(r: Rule, a: Format, b: Format, w: bool)
    ensures a in {Jpg, Jpeg} ==> (GuardOn(r, a, b, w) <==> BranchFor(a, b, w) == Some(r))
  {
  }

  lemma GuardIsBranchForPng(r: Rule, a: Format, b: Format, w: bool)
    ensures a in {Png, Gif, Bmp, Tiff} ==> (GuardOn(r, a, b, w) <==> BranchFor(a, b, w) == Some(r))
  {
  }

  lemma GuardIsBranchForMarkup(r: Rule, a: Format, b: Format, w: bool)
    ensures a in {Html, Docx, Txt} ==> (GuardOn(r, a, b, w) <==> BranchFor(a, b, w) == Some(r))
  {
  }

  lemma GuardIsBranchForSlides(r: Rule, a: Format, b: Format, w: bool)
    ensures a in {Pptx, Ppt, Csv} ==> (GuardOn(r, a, b, w) <==> BranchFor(a, b, w) == Some(r))
  {
  }

  lemma GuardIsBranchForSheets(r: Rule, a: Format, b: Format, w: bool)
    ensures a in {Xlsx, Xls, Pdf} ==> (GuardOn(r, a, b, w) <==> BranchFor(a, b, w) == Some(r))
  {
  }

  lemma GuardIsBranchForOther(r: Rule, a: Format, b: Format, w: bool)
    ensures a in {Doc, Htm, Rtf, Odt, Ods, Odp} ==> (GuardOn(r, a, b, w) <==> BranchFor(a, b, w) == Some(r))
  {
  }

  /** The position of each branch in `RuleOrder`. */
  function RuleIndex(r: Rule): (i: nat)
    ensures i < |RuleOrder| && RuleOrder[i] == r
  {
    match r
    case ImageToPdf => 0 case HtmlToPdf => 1 case DocxToPptx => 2 case TxtToHtml => 3
    case TxtToPptx => 4 case HtmlToTxt => 5 case HtmlToPptx => 6 case PngToJpeg => 7
    case JpegToPng => 8 case ImageToDocx => 9 case ImageToPptx => 10 case ImageToHtml => 11
    case ImageToTxt => 12 case ImageToCsv => 13 case ImageToXlsx => 14 case TxtToImage => 15
    case HtmlToImage => 16 case DocxToImage => 17 case PptxToImage => 18 case CsvToImage => 19
    case XlsxToImage => 20 case PdfToText => 21 case PdfToImages => 22 case PdfToWord => 23
    case PdfToPptx => 24 case CsvToOffice => 25 case PptxToWord => 26 case ExcelToWord => 27
    case PptxToPdf => 28
  }

  /** Each branch occurs once in `RuleOrder`: the position of its `i`-th entry is `i`. */
  lemma RuleOrderDistinct(i: nat)
    requires i < |RuleOrder|
    ensures RuleIndex(RuleOrder[i]) == i
  {
    if i < 7 { FirstBranchesAt(i); }
    else if i < 9 { SwapBranchesAt(i - 7); }
    else if i < 15 { ImageToOfficeBranchesAt(i - 9); }
    else if i < 21 { ToImageBranchesAt(i - 15); }
    else if i < 25 { PdfBranchesAt(i - 21); }
    else { OfficeBranchesAt(i - 25); }
  }

  lemma FirstBranchesAt(i: nat)
    requires i < |FirstBranches|
    ensures RuleIndex(FirstBranches[i]) == i
  {
  }

  lemma SwapBranchesAt(i: nat)
    requires i < |SwapBranches|
    ensures RuleIndex(SwapBranches[i]) == 7 + i
  {
  }

  lemma ImageToOfficeBranchesAt(i: nat)
    requires i < |ImageToOfficeBranches|
    ensures RuleIndex(ImageToOfficeBranches[i]) == 9 + i
  {
  }

  lemma ToImageBranchesAt(i: nat)
    requires i < |ToImageBranches|
    ensures RuleIndex(ToImageBranches[i]) == 15 + i
  {
  }

  lemma PdfBranchesAt(i: nat)
    requires i < |PdfBranches|
    ensures RuleIndex(PdfBranches[i]) == 21 + i
  {
  }

  lemma OfficeBranchesAt(i: nat)
    requires i < |OfficeBranches|
    ensures RuleIndex(OfficeBranches[i]) == 25 + i
  {
  }

  /** A backend `convert_file` invokes. */
  datatype Backend = Direct(rule: Rule) | LibreOffice | CloudConvert

  /** How `convert_file` ends: returning the output path having used a backend, or raising. */
  datatype Result = Succeeded(via: Backend) | Raised(message: string)

  /** The backends invoked, in order, and how the call ended. */
  datatype Dispatch = Dispatch(tried: seq<Backend>, result: Result)

  /** A stage of the cascade either ends the call or hands on, having invoked some backends. */
  datatype Stage = Done(tried: seq<Backend>, result: Result) | Next(tried: seq<Backend>)

  const DocxFailureMessage: string :=
    "Cannot convert DOCX file - it may be corrupted, empty, or not a valid Word document"

  /**
   * The chain of direct branches: the first branch whose guard holds runs its
   * transcoder (`direct` says whether it returns True). True ends the call
   * successfully; False moves on, except for docx to pptx, which raises.
   * Transcoders catch their own errors and return False.
   */
  function DirectStage(rules: seq<Rule>, guarded: Rule -> bool, direct: Rule -> bool): (s: Stage)
    decreases |rules|
  {
    if rules == [] then Next([])
    else
      var r := rules[0];
      if guarded(r) then
        if direct(r) then Done([Direct(r)], Succeeded(Direct(r)))
        else if r == DocxToPptx then Done([Direct(r)], Raised(DocxFailureMessage))
        else
          match DirectStage(rules[1..], guarded, direct)
          case Done(t, res) => Done([Direct(r)] + t, res)
          case Next(t) => Next([Direct(r)] + t)
      else DirectStage(rules[1..], guarded, direct)
  }

  /**
   * What a direct stage can have done: invoked only guarded branches; every
   * one before the last (every one, if it passed on) failed and was not
   * docx to pptx; a success is the last one's, and an error comes from a
   * failed docx to pptx.
   */
  ghost predicate DirectTrace(d: Stage, guarded: Rule -> bool, direct: Rule -> bool) {
    && (forall k :: 0 <= k < |d.tried| ==> d.tried[k].Direct? && guarded(d.tried[k].rule))
    && (d.Done? ==> d.tried != [])
    && (d.Done? && d.result.Succeeded? ==>
          d.result.via == d.tried[|d.tried| - 1] && d.result.via.Direct? && direct(d.result.via.rule))
    && (d.Done? && d.result.Raised? ==>
          d.result.message == DocxFailureMessage && d.tried[|d.tried| - 1] == Direct(DocxToPptx) && !direct(DocxToPptx))
    && (forall k :: 0 <= k < |d.tried| && (d.Next? || k < |d.tried| - 1) ==>
          d.tried[k].Direct? && !direct(d.tried[k].rule) && d.tried[k].rule != DocxToPptx)
  }

  /** Every direct stage leaves such a trace. */
  lemma {:induction false} DirectStageTrace(rules: seq<Rule>, guarded: Rule -> bool, direct: Rule -> bool)
    ensures DirectTrace(DirectStage(rules, guarded, direct), guarded, direct)
    decreases |rules|
  {
    if rules != [] {
      var r := rules[0];
      DirectStageTrace(rules[1..], guarded, direct);
      if guarded(r) && !direct(r) && r != DocxToPptx {
        var t := DirectStage(rules[1..], guarded, direct).tried;
        var t2 := [Direct(r)] + t;
        assert forall k :: 1 <= k < |t2| ==> t2[k] == t[k - 1];
      }
    }
  }

  /** How the single branch `r` ends the direct stage when it is the only guarded one. */
  function BranchOutcome(r: Rule, direct: Rule -> bool): Stage {
    if direct(r) then Done([Direct(r)], Succeeded(Direct(r)))
    else if r == DocxToPptx then Done([Direct(r)], Raised(DocxFailureMessage))
    else Next([Direct(r)])
  }

  /** When at most `r` is guarded and no branch repeats, the stage is decided by `r` alone. */
  lemma {:induction false} StageOfSingleBranch(rules: seq<Rule>, guarded: Rule -> bool, direct: Rule -> bool, r: Rule)
    requires forall x :: guarded(x) ==> x == r
    requires forall i, j :: 0 <= i < j < |rules| ==> rules[i] != rules[j]
    ensures DirectStage(rules, guarded, direct) == if r in rules && guarded(r) then BranchOutcome(r, direct) else Next([])
    decreases |rules|
  {
    if rules != [] {
      var rest := rules[1..];
      TailHasNoRepeats(rules);
      StageOfSingleBranch(rest, guarded, direct, r);
      if guarded(rules[0]) {
        assert rules[0] == r && DirectStage(rest, guarded, direct) == Next([]);
        assert [Direct(r)] + [] == [Direct(r)];
      } else {
        assert rules == [rules[0]] + rest;
        assert DirectStage(rules, guarded, direct) == DirectStage(rest, guarded, direct);
      }
    }
  }

  /** The tail of a list without repeats has none, and does not hold the head. */
  lemma TailHasNoRepeats(rules: seq<Rule>)
    requires rules != []
    requires forall i, j :: 0 <= i < j < |rules| ==> rules[i] != rules[j]
    ensures forall i, j :: 0 <= i < j < |rules[1..]| ==> rules[1..][i] != rules[1..][j]
    ensures rules[0] !in rules[1..]
  {
    var rest := rules[1..];
    forall i, j | 0 <= i < j < |rest| ensures rest[i] != rest[j] {
      assert rest[i] == rules[i + 1] && rest[j] == rules[j + 1];
    }
    forall j | 0 <= j < |rest| ensures rest[j] != rules[0] {
      assert rest[j] == rules[j + 1];
    }
  }

  /** No branch is listed twice in `RuleOrder`. */
  lemma RuleOrderHasNoRepeats()
    ensures forall i, j :: 0 <= i < j < |RuleOrder| ==> RuleOrder[i] != RuleOrder[j]
  {
    forall i, j | 0 <= i < j < |RuleOrder| ensures RuleOrder[i] != RuleOrder[j] {
      RuleOrderDistinct(i);
      RuleOrderDistinct(j);
    }
  }

  /** The guard test on strings: a request names the branch the by-input table gives for its formats. */
  function BranchForRequest(ext: string, fmt: string, hasWkhtmltopdf: bool): Option<Rule> {
    match (Parse(ext), Parse(fmt))
    case (Some(a), Some(b)) => BranchFor(a, b, hasWkhtmltopdf)
    case _ => None
  }

  /**
   * The chain of branches behaves as the by-input table: only the one branch
   * the table names for the request, if any, is tried, and its transcoder's
   * answer decides the stage.
   */
  lemma DirectStageFollowsTable(ext: string, fmt: string, w: bool, direct: Rule -> bool)
    ensures DirectStage(RuleOrder, r => Guard(r, ext, fmt, w), direct) ==
      match BranchForRequest(ext, fmt, w)
      case None => Next([])
      case Some(r) => BranchOutcome(r, direct)
  {
    RuleOrderHasNoRepeats();
    var guarded := (r: Rule) => Guard(r, ext, fmt, w);
    match BranchForRequest(ext, fmt, w)
    case None =>
      forall x ensures !guarded(x) {
        if Parse(ext).Some? && Parse(fmt).Some? {
          GuardIsBranchFor(x, Parse(ext).value, Parse(fmt).value, w);
        }
      }
      StageOfSingleBranch(RuleOrder, guarded, direct, ImageToPdf);
    case Some(r) =>
      forall x | guarded(x) ensures x == r {
        GuardIsBranchFor(x, Parse(ext).value, Parse(fmt).value, w);
      }
      GuardIsBranchFor(r, Parse(ext).value, Parse(fmt).value, w);
      assert RuleOrder[RuleIndex(r)] == r;
      StageOfSingleBranch(RuleOrder, guarded, direct, r);
  }

  /** What LibreOffice's surroundings do once it is started: the process outcome and the output folder it leaves. */
  datatype LibreOfficeWorld = LibreOfficeWorld(run: RunResult, outputs: Dir, listing: seq<string>, now: int)

  /** What CloudConvert returns: content of some length, or an error. */
  datatype CloudResult = Delivered(size: nat) | CloudFailed

  /** The outcomes of every backend for one request. */
  datatype Backends = Backends(
    direct: Rule -> bool,
    upload: FileInfo,
    libreOffice: LibreOfficeWorld,
    cloud: CloudResult)

  /**
   * The LibreOffice stage succeeds when the attempt converts and the
   * resolution then finds an output file; every failure on the way is
   * caught and the cascade moves on.
   */
  predicate LibreOfficeWorks(e: Engine, ext: string, fmt: string, base: string, original: string, o: Backends) {
    && ConvertWithLibreOffice(e.hasLibreOffice, Some(o.upload), ext, fmt, o.libreOffice.run) == Converted
    && ChooseOutput(o.libreOffice.outputs, o.libreOffice.listing, base, original, fmt, o.libreOffice.now).Some?
  }

  /** Whether invoking a backend ends the call with the output path, given whether the LibreOffice stage works. */
  predicate Works(b: Backend, o: Backends, libreOfficeWorks: bool) {
    match b
    case Direct(r) => o.direct(r)
    case LibreOffice => libreOfficeWorks
    case CloudConvert => o.cloud.Delivered?
  }

  /** The engines named in the final error, in the source's order. */
  function AvailableEngines(e: Engine): (r: seq<string>)
    ensures r == [] <==> !e.hasLibreOffice && !e.hasWkhtmltopdf && e.apiKey == ""
    ensures |r| == (if e.hasLibreOffice then 1 else 0) + (if e.hasWkhtmltopdf then 1 else 0) + (if e.apiKey != "" then 1 else 0)
  {
    (if e.hasLibreOffice then ["LibreOffice"] else [])
    + (if e.hasWkhtmltopdf then ["wkhtmltopdf"] else [])
    + (if e.apiKey != "" then ["CloudConvert API"] else [])
  }

  /** The error raised when every backend has been passed over or has failed. */
  function ExhaustedMessage(e: Engine, ext: string, fmt: string): (r: string)
    ensures var head := "No conversion method available for " + ext + " to " + fmt + ".";
      && |head| <= |r| && r[..|head|] == head
      && (AvailableEngines(e) == [] ==> r[|head|..] == " No conversion engines are properly configured.")
      && (AvailableEngines(e) != [] ==>
            r[|head|..] == " Available conversion engines: " + Join(", ", AvailableEngines(e)) + ".")
  {
    var head := "No conversion method available for " + ext + " to " + fmt + ".";
    var engines := AvailableEngines(e);
    var tail := if engines != [] then " Available conversion engines: " + Join(", ", engines) + "."
                else " No conversion engines are properly configured.";
    assert (head + tail)[..|head|] == head && (head + tail)[|head|..] == tail;
    head + tail
  }

  /**
   * The part of `convert_file` after the direct branches: LibreOffice if it
   * was found and lists the pair, then CloudConvert if a key is set, then
   * the exhaustion error. `lw` is whether the LibreOffice stage works.
   */
  function LaterStages(e: Engine, ext: string, fmt: string, o: Backends, lw: bool): (d: Dispatch)
    ensures LibreOffice in d.tried <==> e.hasLibreOffice && InLibreOfficeList(ext, fmt)
    ensures CloudConvert in d.tried <==> e.apiKey != "" && !(LibreOffice in d.tried && lw)
    ensures forall k :: 0 <= k < |d.tried| ==> !d.tried[k].Direct?
    ensures forall k :: 0 <= k < |d.tried| - 1 ==> !Works(d.tried[k], o, lw)
    ensures d.result.Succeeded? <==> d.tried != [] && Works(d.tried[|d.tried| - 1], o, lw)
    ensures d.result.Succeeded? ==> d.result.via == d.tried[|d.tried| - 1]
    ensures d.result.Raised? ==> d.result.message == ExhaustedMessage(e, ext, fmt)
    ensures forall i, j :: 0 <= i < j < |d.tried| ==> d.tried[i] == LibreOffice && d.tried[j] == CloudConvert
  {
    var loTried := e.hasLibreOffice && InLibreOfficeList(ext, fmt);
    if loTried && lw then
      Dispatch([LibreOffice], Succeeded(LibreOffice))
    else if e.apiKey != "" then
      var t := if loTried then [LibreOffice, CloudConvert] else [CloudConvert];
      if o.cloud.Delivered? then Dispatch(t, Succeeded(CloudConvert))
      else Dispatch(t, Raised(ExhaustedMessage(e, ext, fmt)))
    else Dispatch(if loTried then [LibreOffice] else [], Raised(ExhaustedMessage(e, ext, fmt)))
  }

  /** A pair LibreOffice does not list can only go to CloudConvert, and only with a key. */
  lemma LaterStagesWithoutLibreOffice(e: Engine, ext: string, fmt: string, o: Backends, lw: bool)
    requires !InLibreOfficeList(ext, fmt)
    ensures var d := LaterStages(e, ext, fmt, o, lw);
      && d.tried == (if e.apiKey != "" then [CloudConvert] else [])
      && (d.result.Succeeded? <==> e.apiKey != "" && o.cloud.Delivered?)
  {
  }

  /** The place of a backend in the cascade: the direct transcoders, then LibreOffice, then CloudConvert. */
  function Rank(b: Backend): nat {
    match b
    case Direct(_) => 0
    case LibreOffice => 1
    case CloudConvert => 2
  }

  /** A direct stage followed, if it passed on, by the later stages. */
  function Chain(s: Stage, later: Dispatch): Dispatch {
    match s
    case Done(t, res) => Dispatch(t, res)
    case Next(t) => Dispatch(t + later.tried, later.result)
  }

  /** The whole cascade, given whether the LibreOffice stage works. */
  function Cascade(e: Engine, ext: string, fmt: string, o: Backends, lw: bool): Dispatch {
    Chain(DirectStage(RuleOrder, r => Guard(r, ext, fmt, e.hasWkhtmltopdf), o.direct), LaterStages(e, ext, fmt, o, lw))
  }

  /** `convert_file`: the cascade, with the LibreOffice stage run against the backends' outcomes. */
  function ConvertFile(e: Engine, ext: string, fmt: string, base: string, original: string, o: Backends): Dispatch {
    Cascade(e, ext, fmt, o, LibreOfficeWorks(e, ext, fmt, base, original, o))
  }

  /**
   * `convert_file` read through the by-input table: the one branch the table
   * names, if any, is invoked first; its transcoder's answer, or the
   * DOCX-to-PPTX error, ends the call; otherwise the later stages follow.
   */
  function TableDispatch(branch: Option<Rule>, direct: Rule -> bool, later: Dispatch): Dispatch {
    match branch
    case None => later
    case Some(r) =>
      if direct(r) then Dispatch([Direct(r)], Succeeded(Direct(r)))
      else if r == DocxToPptx then Dispatch([Direct(r)], Raised(DocxFailureMessage))
      else Dispatch([Direct(r)] + later.tried, later.result)
  }

  /** The chain of guarded branches in `convert_file` is the table lookup. */
  lemma CascadeFollowsTable(e: Engine, ext: string, fmt: string, o: Backends, lw: bool)
    ensures Cascade(e, ext, fmt, o, lw) ==
      TableDispatch(BranchForRequest(ext, fmt, e.hasWkhtmltopdf), o.direct, LaterStages(e, ext, fmt, o, lw))
  {
    ChainFollowsTable(ext, fmt, e.hasWkhtmltopdf, o.direct, LaterStages(e, ext, fmt, o, lw));
  }

  lemma ChainFollowsTable(ext: string, fmt: string, w: bool, direct: Rule -> bool, later: Dispatch)
    ensures Chain(DirectStage(RuleOrder, r => Guard(r, ext, fmt, w), direct), later) ==
      TableDispatch(BranchForRequest(ext, fmt, w), direct, later)
  {
    DirectStageFollowsTable(ext, fmt, w, direct);
    match BranchForRequest(ext, fmt, w)
    case None =>
    case Some(r) =>
  }

  /**
   * What `convert_file` promises, whatever the LibreOffice stage does
   * (`lw`): it invokes LibreOffice only when it was found and lists the
   * pair, CloudConvert only when a key is set, a direct branch only when the
   * table names it; the backends come in cascade order, each at most once;
   * every backend invoked before the last one failed, and the call returns
   * the last one's output exactly when that one worked.
   */
  lemma FirstSuccessWins(e: Engine, ext: string, fmt: string, o: Backends, lw: bool)
    ensures FirstSuccess(Cascade(e, ext, fmt, o, lw), e, ext, fmt, o, lw)
  {
    CascadeFollowsTable(e, ext, fmt, o, lw);
    TableDispatchWins(e, ext, fmt, o, lw);
  }

  /** The promises of `FirstSuccessWins`, about a dispatch `d`. */
  ghost predicate FirstSuccess(d: Dispatch, e: Engine, ext: string, fmt: string, o: Backends, lw: bool) {
    && (LibreOffice in d.tried ==> e.hasLibreOffice && InLibreOfficeList(ext, fmt))
    && (CloudConvert in d.tried ==> e.apiKey != "")
    && (forall k :: 0 <= k < |d.tried| && d.tried[k].Direct? ==> k == 0 && BranchForRequest(ext, fmt, e.hasWkhtmltopdf) == Some(d.tried[k].rule))
    && (forall k :: 0 <= k < |d.tried| - 1 ==> !Works(d.tried[k], o, lw))
    && (d.result.Succeeded? <==> d.tried != [] && Works(d.tried[|d.tried| - 1], o, lw))
    && (d.result.Succeeded? ==> d.result.via == d.tried[|d.tried| - 1])
    && (forall i, j :: 0 <= i < j < |d.tried| ==> Rank(d.tried[i]) < Rank(d.tried[j]))
  }

  /** `FirstSuccessWins` for the table reading of the cascade. */
  lemma {:induction false} TableDispatchWins(e: Engine, ext: string, fmt: string, o: Backends, lw: bool)
    ensures FirstSuccess(TableDispatch(BranchForRequest(ext, fmt, e.hasWkhtmltopdf), o.direct, LaterStages(e, ext, fmt, o, lw)), e, ext, fmt, o, lw)
  {
    LaterStagesRanked(e, ext, fmt, o, lw);
    TableKeepsFirstSuccess(e, ext, fmt, o, lw, LaterStages(e, ext, fmt, o, lw));
  }

  /** The table reading keeps `FirstSuccess` for any later stages that keep to it themselves. */
  lemma TableKeepsFirstSuccess(e: Engine, ext: string, fmt: string, o: Backends, lw: bool, later: Dispatch)
    requires LibreOffice in later.tried ==> e.hasLibreOffice && InLibreOfficeList(ext, fmt)
    requires CloudConvert in later.tried ==> e.apiKey != ""
    requires forall k :: 0 <= k < |later.tried| ==> !later.tried[k].Direct?
    requires forall k :: 0 <= k < |later.tried| - 1 ==> !Works(later.tried[k], o, lw)
    requires later.result.Succeeded? <==> later.tried != [] && Works(later.tried[|later.tried| - 1], o, lw)
    requires later.result.Succeeded? ==> later.result.via == later.tried[|later.tried| - 1]
    requires forall i, j :: 0 <= i < j < |later.tried| ==> Rank(later.tried[i]) < Rank(later.tried[j])
    ensures FirstSuccess(TableDispatch(BranchForRequest(ext, fmt, e.hasWkhtmltopdf), o.direct, later), e, ext, fmt, o, lw)
  {
    var d := TableDispatch(BranchForRequest(ext, fmt, e.hasWkhtmltopdf), o.direct, later);
    TableFirstSuccessWins(BranchForRequest(ext, fmt, e.hasWkhtmltopdf), o, lw, later);
    assert LibreOffice in d.tried ==> LibreOffice in later.tried;
    assert CloudConvert in d.tried ==> CloudConvert in later.tried;
  }

  /** The later stages come in cascade order: LibreOffice before CloudConvert. */
  lemma {:induction false} LaterStagesRanked(e: Engine, ext: string, fmt: string, o: Backends, lw: bool)
    ensures var d := LaterStages(e, ext, fmt, o, lw);
      forall i, j :: 0 <= i < j < |d.tried| ==> Rank(d.tried[i]) < Rank(d.tried[j])
  {
  }

  /** The first success wins in the table reading, for any later stages that keep to it themselves. */
  lemma TableFirstSuccessWins(branch: Option<Rule>, o: Backends, lw: bool, later: Dispatch)
    requires forall k :: 0 <= k < |later.tried| ==> !later.tried[k].Direct?
    requires forall k :: 0 <= k < |later.tried| - 1 ==> !Works(later.tried[k], o, lw)
    requires later.result.Succeeded? <==> later.tried != [] && Works(later.tried[|later.tried| - 1], o, lw)
    requires later.result.Succeeded? ==> later.result.via == later.tried[|later.tried| - 1]
    requires forall i, j :: 0 <= i < j < |later.tried| ==> Rank(later.tried[i]) < Rank(later.tried[j])
    ensures var d := TableDispatch(branch, o.direct, later);
      && (forall b :: b in d.tried && !b.Direct? ==> b in later.tried)
      && (forall k :: 0 <= k < |d.tried| && d.tried[k].Direct? ==> k == 0 && branch == Some(d.tried[k].rule))
      && (forall k :: 0 <= k < |d.tried| - 1 ==> !Works(d.tried[k], o, lw))
      && (d.result.Succeeded? <==> d.tried != [] && Works(d.tried[|d.tried| - 1], o, lw))
      && (d.result.Succeeded? ==> d.result.via == d.tried[|d.tried| - 1])
      && (forall i, j :: 0 <= i < j < |d.tried| ==> Rank(d.tried[i]) < Rank(d.tried[j]))
  {
    var d := TableDispatch(branch, o.direct, later);
    if branch.Some? && d.tried == [Direct(branch.value)] + later.tried {
      assert forall k :: 1 <= k < |d.tried| ==> d.tried[k] == later.tried[k - 1];
    }
  }

  /** A request the table names no branch for goes straight to the later stages. */
  lemma CascadeWithoutBranch(e: Engine, ext: string, fmt: string, o: Backends, lw: bool)
    requires BranchForRequest(ext, fmt, e.hasWkhtmltopdf) == None
    ensures Cascade(e, ext, fmt, o, lw) == LaterStages(e, ext, fmt, o, lw)
  {
    CascadeFollowsTable(e, ext, fmt, o, lw);
  }

  /**
   * A request the table names branch `r` for invokes `r` first; a success
   * or the DOCX-to-PPTX error ends the call there.
   */
  lemma CascadeWithBranch(e: Engine, ext: string, fmt: string, o: Backends, lw: bool, r: Rule)
    requires BranchForRequest(ext, fmt, e.hasWkhtmltopdf) == Some(r)
    ensures var d := Cascade(e, ext, fmt, o, lw);
      && d.tried != [] && d.tried[0] == Direct(r)
      && (o.direct(r) ==> d == Dispatch([Direct(r)], Succeeded(Direct(r))))
      && (!o.direct(r) && r == DocxToPptx ==> d == Dispatch([Direct(r)], Raised(DocxFailureMessage)))
  {
    CascadeFollowsTable(e, ext, fmt, o, lw);
  }

  /**
   * DOCX to PPTX never reaches LibreOffice or CloudConvert, although the
   * LibreOffice list names the pair: the direct branch either converts or
   * raises its own error.
   */
  lemma DocxToPptxShortCircuit(e: Engine, ext: string, fmt: string, o: Backends, lw: bool)
    requires Parse(ext) == Some(Docx) && Parse(fmt) == Some(Pptx)
    ensures InLibreOfficeList(ext, fmt)
    ensures var d := Cascade(e, ext, fmt, o, lw);
      && d.tried == [Direct(DocxToPptx)]
      && (d.result.Succeeded? <==> o.direct(DocxToPptx))
      && (d.result.Raised? ==> d.result.message == DocxFailureMessage)
  {
    LibreOfficeListing();
    CascadeWithBranch(e, ext, fmt, o, lw, DocxToPptx);
  }

  /**
   * txt_to_csv has no branch and is not on the LibreOffice list (though the
   * registry claims it for the direct transcoders): only CloudConvert can
   * serve it.
   */
  lemma TxtToCsvHasNoRoute(e: Engine, ext: string, fmt: string, o: Backends, lw: bool)
    requires Parse(ext) == Some(Txt) && Parse(fmt) == Some(Csv)
    ensures !InLibreOfficeList(ext, fmt)
    ensures var d := Cascade(e, ext, fmt, o, lw);
      && d.tried == (if e.apiKey != "" then [CloudConvert] else [])
      && (d.result.Succeeded? <==> e.apiKey != "" && o.cloud.Delivered?)
  {
    TxtToCsvListing();
    InLibreOfficeListOf(ext, fmt, Txt, Csv);
    NoTxtToCsvBranch(e.hasWkhtmltopdf);
    CloudOnly(e, ext, fmt, o, lw);
  }

  lemma NoTxtToCsvBranch(w: bool)
    ensures BranchFor(Txt, Csv, w) == None
  {
  }

  /** A request with no branch and not on the LibreOffice list goes to CloudConvert alone, if anywhere. */
  lemma CloudOnly(e: Engine, ext: string, fmt: string, o: Backends, lw: bool)
    requires BranchForRequest(ext, fmt, e.hasWkhtmltopdf) == None && !InLibreOfficeList(ext, fmt)
    ensures var d := Cascade(e, ext, fmt, o, lw);
      && d.tried == (if e.apiKey != "" then [CloudConvert] else [])
      && (d.result.Succeeded? <==> e.apiKey != "" && o.cloud.Delivered?)
      && (d.result.Succeeded? ==> d.result.via == CloudConvert)
  {
    CascadeWithoutBranch(e, ext, fmt, o, lw);
    LaterStagesWithoutLibreOffice(e, ext, fmt, o, lw);
  }

  /**
   * HTML to PDF: with wkhtmltopdf its direct branch goes first; without it no
   * direct branch is invoked and LibreOffice is tried whenever it was found.
   */
  lemma HtmlToPdfRoute(e: Engine, ext: string, fmt: string, o: Backends, lw: bool)
    requires Parse(ext) == Some(Html) && Parse(fmt) == Some(Pdf)
    ensures var d := Cascade(e, ext, fmt, o, lw);
      && (e.hasWkhtmltopdf ==> d.tried != [] && d.tried[0] == Direct(HtmlToPdf))
      && (!e.hasWkhtmltopdf ==> forall k :: 0 <= k < |d.tried| ==> !d.tried[k].Direct?)
      && (!e.hasWkhtmltopdf ==> (LibreOffice in d.tried <==> e.hasLibreOffice))
  {
    HtmlToPdfListing();
    if e.hasWkhtmltopdf {
      CascadeWithBranch(e, ext, fmt, o, lw, HtmlToPdf);
    } else {
      CascadeWithoutBranch(e, ext, fmt, o, lw);
    }
  }

  /** DOCX to PDF has no direct branch: LibreOffice, when found, is the first backend invoked. */
  lemma DocxToPdfGoesToLibreOffice(e: Engine, ext: string, fmt: string, o: Backends, lw: bool)
    requires Parse(ext) == Some(Docx) && Parse(fmt) == Some(Pdf)
    ensures var d := Cascade(e, ext, fmt, o, lw);
      && (e.hasLibreOffice ==> d.tried != [] && d.tried[0] == LibreOffice)
      && (!e.hasLibreOffice ==> LibreOffice !in d.tried)
  {
    LibreOfficeListing();
    CascadeWithoutBranch(e, ext, fmt, o, lw);
  }
}
