/**
 * The file formats the hybrid service knows by name (its allowed extensions),
 * and the "<input>_to_<output>" keys under which conversions are listed.
 * The services compare extension strings with literals; a string equals the
 * name of a format exactly when `Parse` maps it to that format.
 */
module Formats {
  import opened Text

  datatype Format =
    | Doc | Docx | Xls | Xlsx | Ppt | Pptx | Pdf | Html | Htm
    | Jpg | Jpeg | Png | Gif | Bmp | Tiff | Txt | Csv | Rtf | Odt | Ods | Odp

  /** The lower-case extension naming a format. */
  function Name(f: Format): (r: string)
    ensures 3 <= |r| <= 4
    ensures '_' !in r && '.' !in r
  {
    match f
    case Doc => "doc"   case Docx => "docx" case Xls => "xls"   case Xlsx => "xlsx"
    case Ppt => "ppt"   case Pptx => "pptx" case Pdf => "pdf"   case Html => "html"
    case Htm => "htm"   case Jpg => "jpg"   case Jpeg => "jpeg" case Png => "png"
    case Gif => "gif"   case Bmp => "bmp"   case Tiff => "tiff" case Txt => "txt"
    case Csv => "csv"   case Rtf => "rtf"   case Odt => "odt"   case Ods => "ods"
    case Odp => "odp"
  }

  /** The format a string names, if any; case matters, as in the services' comparisons. */
  function Parse(s: string): (r: Option<Format>)
    ensures r.Some? ==> Name(r.value) == s
  {
    match s
    case "doc" => Some(Doc)   case "docx" => Some(Docx) case "xls" => Some(Xls)   case "xlsx" => Some(Xlsx)
    case "ppt" => Some(Ppt)   case "pptx" => Some(Pptx) case "pdf" => Some(Pdf)   case "html" => Some(Html)
    case "htm" => Some(Htm)   case "jpg" => Some(Jpg)   case "jpeg" => Some(Jpeg) case "png" => Some(Png)
    case "gif" => Some(Gif)   case "bmp" => Some(Bmp)   case "tiff" => Some(Tiff) case "txt" => Some(Txt)
    case "csv" => Some(Csv)   case "rtf" => Some(Rtf)   case "odt" => Some(Odt)   case "ods" => Some(Ods)
    case "odp" => Some(Odp)
    case _ => None
  }

  /** Parsing a format's name gives the format back. */
  lemma ParseName(f: Format)
    ensures Parse(Name(f)) == Some(f)
  {
  }

  /** So a string equals a format's name exactly when it parses to that format. */
  lemma ParseIff(s: string, f: Format)
    ensures Parse(s) == Some(f) <==> s == Name(f)
  {
    ParseName(f);
  }

  /** A conversion between two known formats. */
  datatype Pair = Pair(from: Format, to: Format)

  /** The key "<input>_to_<output>" of a conversion between two strings. */
  function KeyOf(ext: string, fmt: string): (r: string)
    ensures |r| == |ext| + 4 + |fmt|
  {
    ext + "_to_" + fmt
  }

  function Key(p: Pair): string {
    KeyOf(Name(p.from), Name(p.to))
  }

  /** Within a key of known formats, '_' occurs only in the "_to_" separator. */
  lemma UnderscoresOfKey(p: Pair, t: int)
    requires 0 <= t < |Key(p)| && Key(p)[t] == '_'
    ensures t == |Name(p.from)| || t == |Name(p.from)| + 3
  {
  }

  /**
   * A key built from two strings is the key of a known pair exactly when the
   * two strings name that pair's formats: the key determines its parts.
   */
  lemma KeyOfPair(ext: string, fmt: string, p: Pair)
    ensures KeyOf(ext, fmt) == Key(p) <==> Parse(ext) == Some(p.from) && Parse(fmt) == Some(p.to)
  {
    ParseIff(ext, p.from);
    ParseIff(fmt, p.to);
    if KeyOf(ext, fmt) == Key(p) {
      var k, i, m := Key(p), |Name(p.from)|, |ext|;
      assert k[m] == '_' && k[m + 3] == '_';
      UnderscoresOfKey(p, m);
      UnderscoresOfKey(p, m + 3);
      assert ext == k[..m] && Name(p.from) == k[..i];
      assert fmt == k[m + 4..] && Name(p.to) == k[i + 4..];
    }
  }

  /** Distinct pairs have distinct keys. */
  lemma KeyInjective(p: Pair, q: Pair)
    requires Key(p) == Key(q)
    ensures p == q
  {
    KeyOfPair(Name(p.from), Name(p.to), q);
    ParseName(p.from);
    ParseName(p.to);
  }
}
