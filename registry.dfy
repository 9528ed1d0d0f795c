/**
 * The capability registry of the hybrid service (`get_capabilities`): which
 * conversions the direct Python transcoders and LibreOffice claim, given what
 * was found installed when the engine was built. The source lists keys
 * "<input>_to_<output>"; here the lists hold pairs of formats and `Key`
 * spells them, which loses nothing because distinct pairs have distinct keys.
 */
module Registry {
  import opened Text
  import opened Formats

  /**
   * The engine as probed once at start-up: whether LibreOffice and wkhtmltopdf
   * were found, and the CloudConvert API key ("" when none is configured).
   */
  datatype Engine = Engine(hasLibreOffice: bool, hasWkhtmltopdf: bool, apiKey: string)

  /** The conversions the direct transcoders always claim, in the source's order. */
  const DirectPairs: seq<Pair> := DirectFromImages + DirectToImages + DirectFromPdf + DirectFromText

  const DirectFromImages: seq<Pair> :=
    [Pair(Jpg, Pdf), Pair(Jpeg, Pdf), Pair(Png, Pdf), Pair(Gif, Pdf), Pair(Bmp, Pdf), Pair(Tiff, Pdf)]
    + [Pair(Png, Jpg), Pair(Png, Jpeg), Pair(Jpg, Png), Pair(Jpeg, Png)]
    + [Pair(Png, Docx), Pair(Jpg, Docx), Pair(Jpeg, Docx)]
    + [Pair(Png, Pptx), Pair(Jpg, Pptx), Pair(Jpeg, Pptx)]
    + [Pair(Png, Html), Pair(Jpg, Html), Pair(Jpeg, Html)]
    + [Pair(Png, Txt), Pair(Jpg, Txt), Pair(Jpeg, Txt)]
    + [Pair(Png, Csv), Pair(Jpg, Csv), Pair(Jpeg, Csv)]
    + [Pair(Png, Xlsx), Pair(Jpg, Xlsx), Pair(Jpeg, Xlsx)]

  const DirectToImages: seq<Pair> :=
    [Pair(Docx, Png), Pair(Docx, Jpg), Pair(Docx, Jpeg)]
    + [Pair(Pptx, Png), Pair(Pptx, Jpg), Pair(Pptx, Jpeg)]
    + [Pair(Html, Png), Pair(Html, Jpg), Pair(Html, Jpeg)]
    + [Pair(Csv, Png), Pair(Csv, Jpg), Pair(Csv, Jpeg)]
    + [Pair(Xlsx, Png), Pair(Xlsx, Jpg), Pair(Xlsx, Jpeg)]

  const DirectFromPdf: seq<Pair> :=
    [Pair(Pdf, Txt), Pair(Pdf, Html), Pair(Pdf, Csv), Pair(Pdf, Xlsx), Pair(Pdf, Xls)]
    + [Pair(Pdf, Jpg), Pair(Pdf, Jpeg), Pair(Pdf, Png)]
    + [Pair(Pdf, Docx), Pair(Pdf, Doc), Pair(Pdf, Pptx), Pair(Pdf, Ppt)]

  const DirectFromText: seq<Pair> :=
    [Pair(Csv, Xlsx), Pair(Csv, Xls), Pair(Csv, Html), Pair(Csv, Pptx), Pair(Csv, Ppt)]
    + [Pair(Txt, Html), Pair(Txt, Pptx), Pair(Txt, Csv), Pair(Txt, Xlsx), Pair(Txt, Png), Pair(Txt, Jpg)]
    + [Pair(Html, Txt), Pair(Html, Csv), Pair(Html, Xlsx), Pair(Html, Pptx), Pair(Html, Png), Pair(Html, Jpg)]

  /** The curated allow-list of LibreOffice conversions, in the source's order. */
  const LibreOfficePairs: seq<Pair> := OfficeToPdf + OfficeToHtml + OfficeToOffice + OfficeTextual

  const OfficeToPdf: seq<Pair> :=
    [Pair(Doc, Pdf), Pair(Docx, Pdf), Pair(Xls, Pdf), Pair(Xlsx, Pdf)]
    + [Pair(Ppt, Pdf), Pair(Pptx, Pdf), Pair(Odt, Pdf), Pair(Ods, Pdf), Pair(Odp, Pdf)]
    + [Pair(Rtf, Pdf), Pair(Txt, Pdf)]

  const OfficeToHtml: seq<Pair> :=
    [Pair(Doc, Html), Pair(Docx, Html), Pair(Xls, Html), Pair(Xlsx, Html)]
    + [Pair(Ppt, Html), Pair(Pptx, Html), Pair(Odt, Html), Pair(Ods, Html), Pair(Odp, Html)]

  const OfficeToOffice: seq<Pair> :=
    [Pair(Doc, Docx), Pair(Docx, Doc), Pair(Docx, Odt), Pair(Odt, Docx)]
    + [Pair(Xls, Xlsx), Pair(Xlsx, Xls), Pair(Xlsx, Ods), Pair(Ods, Xlsx)]
    + [Pair(Ppt, Pptx), Pair(Pptx, Ppt), Pair(Pptx, Odp), Pair(Odp, Pptx)]
    + [Pair(Docx, Pptx)]

  const OfficeTextual: seq<Pair> :=
    [Pair(Txt, Doc), Pair(Txt, Docx), Pair(Txt, Odt), Pair(Rtf, Doc), Pair(Rtf, Docx)]
    + [Pair(Doc, Rtf), Pair(Docx, Rtf), Pair(Odt, Rtf)]
    + [Pair(Pdf, Odt), Pair(Pdf, Rtf)]
    + [Pair(Html, Pdf), Pair(Html, Doc), Pair(Html, Docx), Pair(Html, Odt)]

  const CloudFallbackEntry: string := "fallback_for_unsupported_formats"

  /** The dictionary `get_capabilities` returns. */
  datatype Capabilities = Capabilities(
    pythonOptimized: seq<Pair>,
    libreoffice: seq<Pair>,
    cloudconvert: seq<string>,
    supported: seq<string>)

  /** The keys of a list of conversions. */
  function Keys(ps: seq<Pair>): set<string> {
    set p | p in ps :: Key(p)
  }

  /**
   * Inserting one more element into a strictly sorted list, as `sorted` of a
   * set places it: the list stays strictly sorted and gains exactly that element.
   */
  function Insert(s: seq<string>, x: string): (r: seq<string>)
    requires StrictlySorted(s)
    ensures StrictlySorted(r)
    ensures Elems(r) == Elems(s) + {x}
  {
    if s == [] then [x]
    else if x == s[0] then s
    else if Less(x, s[0]) then
      assert forall k :: 0 <= k < |s| ==> Less(x, s[k]) by {
        forall k | 0 < k < |s| ensures Less(x, s[k]) { LessTransitive(x, s[0], s[k]); }
      }
      [x] + s
    else
      LessTotal(x, s[0]);
      assert Elems(s) == {s[0]} + Elems(s[1..]) by {
        assert s == [s[0]] + s[1..];
      }
      var rest := Insert(s[1..], x);
      assert forall k :: 0 <= k < |rest| ==> Less(s[0], rest[k]) by {
        forall k | 0 <= k < |rest| ensures Less(s[0], rest[k]) {
          assert rest[k] in Elems(rest);
        }
      }
      var r := [s[0]] + rest;
      assert Elems(r) == {s[0]} + Elems(rest) by {
        assert r[1..] == rest;
      }
      r
  }

  /**
   * `get_capabilities`: the direct list (with html_to_pdf appended when
   * wkhtmltopdf was found), the LibreOffice list (empty unless LibreOffice was
   * found), the CloudConvert marker (only with an API key), and the sorted,
   * duplicate-free union of the keys of the first two.
   */
  method GetCapabilities(e: Engine) returns (caps: Capabilities)
    ensures caps.pythonOptimized == DirectPairs + (if e.hasWkhtmltopdf then [Pair(Html, Pdf)] else [])
    ensures caps.libreoffice == (if e.hasLibreOffice then LibreOfficePairs else [])
    ensures caps.cloudconvert == (if e.apiKey != "" then [CloudFallbackEntry] else [])
    ensures StrictlySorted(caps.supported)
    ensures Elems(caps.supported) == Keys(caps.pythonOptimized) + Keys(caps.libreoffice)
  {
    var python := DirectPairs;
    if e.hasWkhtmltopdf {
      python := python + [Pair(Html, Pdf)];
    }
    var libreoffice: seq<Pair> := [];
    if e.hasLibreOffice {
      libreoffice := LibreOfficePairs;
    }
    var cloud: seq<string> := [];
    if e.apiKey != "" {
      cloud := [CloudFallbackEntry];
    }
    var supported := SortedKeys(python + libreoffice);
    KeysOfConcat(python, libreoffice);
    caps := Capabilities(python, libreoffice, cloud, supported);
  }

  /** `sorted(set(keys))`: the keys of a list of conversions, sorted and without repeats. */
  method SortedKeys(all: seq<Pair>) returns (supported: seq<string>)
    ensures StrictlySorted(supported)
    ensures Elems(supported) == Keys(all)
  {
    supported := [];
    for i := 0 to |all|
      invariant StrictlySorted(supported)
      invariant Elems(supported) == Keys(all[..i])
    {
      assert all[..i + 1] == all[..i] + [all[i]];
      supported := Insert(supported, Key(all[i]));
    }
    assert all[..|all|] == all;
  }

  lemma KeysOfConcat(a: seq<Pair>, b: seq<Pair>)
    ensures Keys(a + b) == Keys(a) + Keys(b)
  {
  }

  /** What `GetCapabilities` promises, as one predicate for the lemmas below. */
  ghost predicate Describes(e: Engine, caps: Capabilities) {
    && caps.pythonOptimized == DirectPairs + (if e.hasWkhtmltopdf then [Pair(Html, Pdf)] else [])
    && caps.libreoffice == (if e.hasLibreOffice then LibreOfficePairs else [])
    && caps.cloudconvert == (if e.apiKey != "" then [CloudFallbackEntry] else [])
    && StrictlySorted(caps.supported)
    && Elems(caps.supported) == Keys(caps.pythonOptimized) + Keys(caps.libreoffice)
  }

  /** A key is in a list's keys exactly when its pair is in the list. */
  lemma KeysMember(ps: seq<Pair>, p: Pair)
    ensures Key(p) in Keys(ps) <==> p in ps
  {
    if Key(p) in Keys(ps) {
      var q :| q in ps && Key(q) == Key(p);
      KeyInjective(q, p);
    }
  }

  /** The direct list names html_to_png and html_to_jpg twice each. */
  lemma DirectListRepeats()
    ensures DirectPairs[34] == DirectPairs[70] == Pair(Html, Png)
    ensures DirectPairs[35] == DirectPairs[71] == Pair(Html, Jpg)
  {
  }

  /** html_to_pdf is a LibreOffice conversion and not one of the direct list's own. */
  lemma HtmlToPdfListing()
    ensures Pair(Html, Pdf) !in DirectPairs && Pair(Html, Pdf) in LibreOfficePairs
  {
    HtmlToPdfNotDirect();
  }

  lemma HtmlToPdfNotDirect()
    ensures Pair(Html, Pdf) !in DirectPairs
  {
    assert Pair(Html, Pdf) !in DirectFromImages && Pair(Html, Pdf) !in DirectToImages;
    assert Pair(Html, Pdf) !in DirectFromPdf && Pair(Html, Pdf) !in DirectFromText;
  }

  /** Entries of the LibreOffice list the dispatch lemmas rely on. */
  lemma LibreOfficeListing()
    ensures Pair(Docx, Pdf) in LibreOfficePairs && Pair(Docx, Pptx) in LibreOfficePairs
  {
  }

  /** txt_to_csv is claimed by the direct list and not by LibreOffice's. */
  lemma TxtToCsvListing()
    ensures Pair(Txt, Csv) in DirectPairs && Pair(Txt, Csv) !in LibreOfficePairs
  {
    assert Pair(Txt, Csv) in DirectFromText;
    assert Pair(Txt, Csv) !in OfficeToPdf && Pair(Txt, Csv) !in OfficeToHtml;
    assert Pair(Txt, Csv) !in OfficeToOffice && Pair(Txt, Csv) !in OfficeTextual;
  }

  /** docx_to_pdf is not one of the direct list's conversions. */
  lemma DocxToPdfListing()
    ensures Pair(Docx, Pdf) !in DirectPairs
  {
    assert Pair(Docx, Pdf) !in DirectFromImages && Pair(Docx, Pdf) !in DirectToImages;
    assert Pair(Docx, Pdf) !in DirectFromPdf && Pair(Docx, Pdf) !in DirectFromText;
  }

  /** html_to_pdf is claimed by the direct transcoders exactly when wkhtmltopdf was found. */
  lemma HtmlToPdfNeedsWkhtmltopdf(e: Engine, caps: Capabilities)
    requires Describes(e, caps)
    ensures Pair(Html, Pdf) in caps.pythonOptimized <==> e.hasWkhtmltopdf
    ensures Key(Pair(Html, Pdf)) in caps.supported <==> e.hasWkhtmltopdf || e.hasLibreOffice
  {
    HtmlToPdfListing();
    KeysMember(caps.pythonOptimized, Pair(Html, Pdf));
    KeysMember(caps.libreoffice, Pair(Html, Pdf));
    assert Key(Pair(Html, Pdf)) in caps.supported <==> Key(Pair(Html, Pdf)) in Elems(caps.supported);
  }

  /**
   * The supported list names every conversion once, although the direct list
   * names html_to_png and html_to_jpg twice.
   */
  lemma SupportedIsDuplicateFree(e: Engine, caps: Capabilities)
    requires Describes(e, caps)
    ensures forall i, j :: 0 <= i < j < |caps.supported| ==> caps.supported[i] != caps.supported[j]
    ensures caps.pythonOptimized[34] == caps.pythonOptimized[70] == Pair(Html, Png)
    ensures caps.pythonOptimized[35] == caps.pythonOptimized[71] == Pair(Html, Jpg)
    ensures Key(Pair(Html, Png)) in caps.supported && Key(Pair(Html, Jpg)) in caps.supported
  {
    DirectListRepeats();
    forall i, j | 0 <= i < j < |caps.supported| ensures caps.supported[i] != caps.supported[j] {
      SortedNoDuplicates(caps.supported, i, j);
    }
    assert Key(Pair(Html, Png)) in Elems(caps.supported);
    assert Key(Pair(Html, Jpg)) in Elems(caps.supported);
  }

  /** The CloudConvert marker is not the key of any conversion. */
  lemma FallbackEntryIsNoKey(p: Pair)
    ensures Key(p) != CloudFallbackEntry
  {
    var i := |Name(p.from)|;
    assert Key(p)[i] == '_';
    assert CloudFallbackEntry[3] == 'l' && CloudFallbackEntry[4] == 'b';
  }

  /** CloudConvert never contributes an entry to the supported list, and the list ignores the API key. */
  lemma CloudContributesNothing(e1: Engine, c1: Capabilities, e2: Engine, c2: Capabilities)
    requires Describes(e1, c1) && Describes(e2, c2)
    requires e1.hasLibreOffice == e2.hasLibreOffice && e1.hasWkhtmltopdf == e2.hasWkhtmltopdf
    ensures CloudFallbackEntry !in c1.supported
    ensures c1.supported == c2.supported
  {
    forall p | p in c1.pythonOptimized + c1.libreoffice ensures Key(p) != CloudFallbackEntry {
      FallbackEntryIsNoKey(p);
    }
    assert CloudFallbackEntry !in Elems(c1.supported);
    SortedUnique(c1.supported, c2.supported);
  }

  /** Without LibreOffice, the supported list holds exactly the direct transcoders' keys. */
  lemma WithoutLibreOffice(e: Engine, caps: Capabilities)
    requires Describes(e, caps) && !e.hasLibreOffice
    ensures caps.libreoffice == []
    ensures Elems(caps.supported) == Keys(caps.pythonOptimized)
    ensures Key(Pair(Docx, Pdf)) !in caps.supported
  {
    assert Keys(caps.libreoffice) == {};
    DocxToPdfListing();
    KeysMember(caps.pythonOptimized, Pair(Docx, Pdf));
    assert Key(Pair(Docx, Pdf)) !in Elems(caps.supported);
  }

  /**
   * The test `f"{ext}_to_{fmt}" in libreoffice_conversions`, on the strings
   * the service holds: true exactly when both name formats and the pair is listed.
   */
  predicate InLibreOfficeList(ext: string, fmt: string) {
    match (Parse(ext), Parse(fmt))
    case (Some(a), Some(b)) => Pair(a, b) in LibreOfficePairs
    case _ => false
  }

  /** For strings naming two formats, the test is membership of their pair. */
  lemma InLibreOfficeListOf(ext: string, fmt: string, a: Format, b: Format)
    requires Parse(ext) == Some(a) && Parse(fmt) == Some(b)
    ensures InLibreOfficeList(ext, fmt) <==> Pair(a, b) in LibreOfficePairs
  {
  }

  lemma InLibreOfficeListIsKeyTest(ext: string, fmt: string)
    ensures InLibreOfficeList(ext, fmt) <==> KeyOf(ext, fmt) in Keys(LibreOfficePairs)
  {
    if KeyOf(ext, fmt) in Keys(LibreOfficePairs) {
      var p :| p in LibreOfficePairs && Key(p) == KeyOf(ext, fmt);
      KeyOfPair(ext, fmt, p);
    }
    if InLibreOfficeList(ext, fmt) {
      var p := Pair(Parse(ext).value, Parse(fmt).value);
      KeyOfPair(ext, fmt, p);
    }
  }
}
