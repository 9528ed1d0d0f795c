/**
 * The modern service's `/convert` route (modern_app.py): the upload gates,
 * the two conversions done locally (plain text and CSV to HTML), the
 * CloudConvert call when the local converter has no route for the pair,
 * and the failure message. The upload and output folders are the fields of
 * `Storage`; the output folder maps each name to the text written there.
 * The uploaded file's decoded text, the rows the `csv` module parses from
 * it, CloudConvert's outcome, `secure_filename` and the UUID are inputs.
 */
module ModernApp {
  import opened Text
  import opened Files
  import opened Uploads

  /** `ALLOWED_EXTENSIONS`. */
  const ModernExtensions: set<string> := {
    "doc", "docx", "xls", "xlsx", "ppt", "pptx", "pdf", "html", "jpg", "jpeg", "png", "txt", "csv"}

  /** `OUTPUT_FORMATS`, in the order the refusal lists them. */
  const OutputFormats: seq<string> := ["pdf", "docx", "xlsx", "pptx", "html", "jpg", "png", "txt", "csv"]

  // ---------------------------------------------------------------------------
  // Plain text to HTML

  /**
   * The page around the text, up to and including the opening `<pre>`. The
   * templates are written in pieces of at most eight characters, one source
   * line per line; a long literal costs the verifier far more.
   */
  function TxtHead(): string {
    "<!DOCTYP" + "E html>\n"
    + "<html>\n"
    + "<head>\n"
    + "    <met" + "a charse" + "t=\"utf-8" + "\">\n"
    + "    <tit" + "le>Conve" + "rted Doc" + "ument</t" + "itle>\n"
    + "    <sty" + "le>\n"
    + "        " + "body { f" + "ont-fami" + "ly: Aria" + "l, sans-" + "serif; m" + "argin: 4" + "0px; }\n"
    + "        " + "pre { wh" + "ite-spac" + "e: pre-w" + "rap; wor" + "d-wrap: " + "break-wo" + "rd; }\n"
    + "    </st" + "yle>\n"
    + "</head>\n"
    + "<body>\n"
    + "    <pre" + ">"
  }

  /** The page after the text, from the closing `</pre>`. */
  function TxtTail(): string {
    "</pre>\n"
    + "</body>\n"
    + "</html>"
  }

  /** The text file as a page: the text goes inside `<pre>` exactly as read, with no escaping. */
  function TxtPage(content: string): string {
    TxtHead() + content + TxtTail()
  }

  /** What lies between `head` and `tail` in a page that starts with one and ends with the other. */
  function Unwrap(page: string, head: string, tail: string): Option<string> {
    if |head| + |tail| <= |page| && page[..|head|] == head && page[|page| - |tail|..] == tail
    then Some(page[|head|..|page| - |tail|])
    else None
  }

  lemma UnwrapWrap(head: string, body: string, tail: string)
    ensures Unwrap(head + body + tail, head, tail) == Some(body)
  {
    var page := head + body + tail;
    assert page[..|head|] == head;
    assert page[|page| - |tail|..] == tail;
    assert page[|head|..|page| - |tail|] == body;
  }

  lemma WrapUnwrap(page: string, head: string, tail: string)
    requires Unwrap(page, head, tail).Some?
    ensures head + Unwrap(page, head, tail).value + tail == page
  {
    assert page == page[..|head|] + page[|head|..|page| - |tail|] + page[|page| - |tail|..];
  }

  /** The text inside a text page; none for a string of any other shape. */
  function PreContent(page: string): Option<string> {
    Unwrap(page, TxtHead(), TxtTail())
  }

  /** The page holds the text verbatim: whatever the text, even one containing `</pre>`, reading it back gives it unchanged. */
  lemma TxtPageRoundTrip(content: string)
    ensures PreContent(TxtPage(content)) == Some(content)
  {
    UnwrapWrap(TxtHead(), content, TxtTail());
  }

  /** And every string that reads as a text page is the page of the text it holds. */
  lemma PreContentIsPage(page: string)
    requires PreContent(page).Some?
    ensures TxtPage(PreContent(page).value) == page
  {
    WrapUnwrap(page, TxtHead(), TxtTail());
  }

  // ---------------------------------------------------------------------------
  // CSV to an HTML table

  /** The page before the rows, up to and including the opening `<table>`. */
  function CsvHead(): string {
    "<!DOCTYP" + "E html>\n"
    + "<html>\n"
    + "<head>\n"
    + "    <met" + "a charse" + "t=\"utf-8" + "\">\n"
    + "    <tit" + "le>CSV D" + "ata</tit" + "le>\n"
    + "    <sty" + "le>\n"
    + "        " + "body { f" + "ont-fami" + "ly: Aria" + "l, sans-" + "serif; m" + "argin: 2" + "0px; }\n"
    + "        " + "table { " + "border-c" + "ollapse:" + " collaps" + "e; width" + ": 100%; " + "}\n"
    + "        " + "th, td {" + " border:" + " 1px sol" + "id #ddd;" + " padding" + ": 8px; t" + "ext-alig" + "n: left;" + " }\n"
    + "        " + "th { bac" + "kground-" + "color: #" + "f2f2f2; " + "}\n"
    + "    </st" + "yle>\n"
    + "</head>\n"
    + "<body>\n"
    + "    <tab" + "le>"
  }

  function CsvTail(): string {
    "</table>" + "</body><" + "/html>"
  }

  /** The header row's cells are `th`, every later row's `td`. */
  function TagFor(i: nat): (tag: string)
    ensures tag == "th" <==> i == 0
    ensures tag == "th" || tag == "td"
  {
    if i == 0 then "th" else "td"
  }

  /** One field as a cell, unescaped. */
  function CellHtml(tag: string, cell: string): string {
    "<" + tag + ">" + cell + "</" + tag + ">"
  }

  /** The row's fields as cells, in order. */
  function CellsHtml(tag: string, row: seq<string>): string {
    if row == [] then "" else CellHtml(tag, row[0]) + CellsHtml(tag, row[1..])
  }

  function RowHtml(tag: string, row: seq<string>): string {
    "<tr>" + CellsHtml(tag, row) + "</tr>"
  }

  /** The rows as `<tr>` elements, in order, the first of them being row number `i`. */
  function RowsHtml(rows: seq<seq<string>>, i: nat): string {
    if rows == [] then "" else RowHtml(TagFor(i), rows[0]) + RowsHtml(rows[1..], i + 1)
  }

  /** The whole table page for the parsed rows. */
  function CsvPage(rows: seq<seq<string>>): string {
    CsvHead() + RowsHtml(rows, 0) + CsvTail()
  }

  /** Adding a row at the end adds its `<tr>` at the end, with the tag its position calls for. */
  lemma {:induction false} RowsHtmlAppend(rows: seq<seq<string>>, row: seq<string>, i: nat)
    ensures RowsHtml(rows + [row], i) == RowsHtml(rows, i) + RowHtml(TagFor(i + |rows|), row)
  {
    if rows != [] {
      assert (rows + [row])[1..] == rows[1..] + [row];
      RowsHtmlAppend(rows[1..], row, i + 1);
    }
  }

  /** `''.join(parts)` grows by the part appended. */
  lemma {:induction false} JoinEmptyAppend(parts: seq<string>, x: string)
    ensures Join("", parts + [x]) == Join("", parts) + x
  {
    if |parts| > 1 {
      assert (parts + [x])[1..] == parts[1..] + [x];
      JoinEmptyAppend(parts[1..], x);
    }
  }

  /** `''.join(parts)` is the first part followed by the rest joined. */
  lemma JoinEmptyFirst(parts: seq<string>)
    requires parts != []
    ensures Join("", parts) == parts[0] + Join("", parts[1..])
  {
    if |parts| == 1 {
      assert parts[0] + "" == parts[0];
    }
  }

  /**
   * The loop of `convert_locally` for a CSV file, for any head and tail:
   * the head, one `<tr>` appended per parsed row (its cells `th` for the
   * first row and `td` after), the tail, all joined.
   */
  method JoinRows(head: string, rows: seq<seq<string>>, tail: string) returns (page: string)
    ensures page == head + RowsHtml(rows, 0) + tail
  {
    var parts := [head];
    var i := 0;
    while i < |rows|
      invariant 0 <= i <= |rows|
      invariant parts != [] && parts[0] == head
      invariant Join("", parts[1..]) == RowsHtml(rows[..i], 0)
    {
      var row := RowHtml(TagFor(i), rows[i]);
      assert (parts + [row])[1..] == parts[1..] + [row];
      JoinEmptyAppend(parts[1..], row);
      RowsHtmlAppend(rows[..i], rows[i], 0);
      assert rows[..i + 1] == rows[..i] + [rows[i]];
      parts := parts + [row];
      i := i + 1;
    }
    assert rows[..i] == rows;
    assert (parts + [tail])[1..] == parts[1..] + [tail];
    JoinEmptyAppend(parts[1..], tail);
    parts := parts + [tail];
    JoinEmptyFirst(parts);
    page := Join("", parts);
    assert page == head + (RowsHtml(rows, 0) + tail);
  }

  /** `convert_locally` for a CSV file: the table page of the parsed rows. */
  method CsvToHtml(rows: seq<seq<string>>) returns (page: string)
    ensures page == CsvPage(rows)
  {
    page := JoinRows(CsvHead(), rows, CsvTail());
  }

  /** No field holds a `<`, so none can be read as markup. */
  predicate Plain(rows: seq<seq<string>>) {
    forall i, j :: 0 <= i < |rows| && 0 <= j < |rows[i]| ==> '<' !in rows[i][j]
  }

  /** The text up to the first `<`. */
  function TakeText(s: string): (r: string)
    ensures |r| <= |s| && r == s[..|r|] && '<' !in r
    ensures |r| < |s| ==> s[|r|] == '<'
  {
    if s == [] || s[0] == '<' then "" else [s[0]] + TakeText(s[1..])
  }

  /** Reads cells tagged `tag` up to the row's `</tr>`: the fields and what follows the row; none if malformed. */
  function DecodeCells(s: string, tag: string): (r: Option<(seq<string>, string)>)
    requires |tag| == 2
    ensures r.Some? ==> |r.value.1| < |s|
    decreases |s|
  {
    if 5 <= |s| && s[..5] == "</tr>" then Some(([], s[5..]))
    else if 4 <= |s| && s[..4] == "<" + tag + ">" then
      var text := TakeText(s[4..]);
      var rest := s[4 + |text|..];
      if 5 <= |rest| && rest[..5] == "</" + tag + ">" then
        match DecodeCells(rest[5..], tag)
        case None => None
        case Some(more) => Some(([text] + more.0, more.1))
      else None
    else None
  }

  /** Reads `<tr>` rows, the first being row number `i`; none if malformed. */
  function DecodeRows(s: string, i: nat): Option<seq<seq<string>>>
    decreases |s|
  {
    if s == [] then Some([])
    else if 4 <= |s| && s[..4] == "<tr>" then
      match DecodeCells(s[4..], TagFor(i))
      case None => None
      case Some(cells) =>
        match DecodeRows(cells.1, i + 1)
        case None => None
        case Some(more) => Some([cells.0] + more)
    else None
  }

  /** The rows of a table page; none for a string of another shape. */
  function TableRows(page: string): Option<seq<seq<string>>> {
    match Unwrap(page, CsvHead(), CsvTail())
    case None => None
    case Some(body) => DecodeRows(body, 0)
  }

  /** The text before a `<` that ends a plain field is that field. */
  lemma {:induction false} TakeTextPlain(cell: string, rest: string)
    requires '<' !in cell && rest != [] && rest[0] == '<'
    ensures TakeText(cell + rest) == cell
  {
    if cell != [] {
      assert (cell + rest)[1..] == cell[1..] + rest;
      TakeTextPlain(cell[1..], rest);
      assert [cell[0]] + cell[1..] == cell;
    }
  }

  /** One cell read back: its field, then what follows. */
  lemma CellRoundTrip(tag: string, cell: string, t: string)
    requires tag == "th" || tag == "td"
    requires '<' !in cell
    ensures var s := CellHtml(tag, cell) + t;
      && s[..4] == "<" + tag + ">"
      && TakeText(s[4..]) == cell
      && s[4 + |cell|..][..5] == "</" + tag + ">"
      && s[4 + |cell|..][5..] == t
  {
    var s := CellHtml(tag, cell) + t;
    var close := "</" + tag + ">";
    assert s == ("<" + tag + ">") + (cell + (close + t));
    assert s[4..] == cell + (close + t);
    TakeTextPlain(cell, close + t);
    assert s[4 + |cell|..] == close + t;
  }

  /** Reading at `</tr>` ends the row. */
  lemma DecodeRowEnd(tag: string, t: string)
    requires tag == "th" || tag == "td"
    ensures DecodeCells("</tr>" + t, tag) == Some(([], t))
  {
    var s := "</tr>" + t;
    assert s[..5] == "</tr>";
    assert s[5..] == t;
  }

  /** Reading a plain cell gives its field, followed by whatever the rest reads as. */
  lemma DecodeCellStep(tag: string, cell: string, after: string)
    requires tag == "th" || tag == "td"
    requires '<' !in cell
    ensures DecodeCells(CellHtml(tag, cell) + after, tag)
         == match DecodeCells(after, tag)
            case None => None
            case Some(more) => Some(([cell] + more.0, more.1))
  {
    var s := CellHtml(tag, cell) + after;
    CellRoundTrip(tag, cell, after);
    assert s[..5] != "</tr>" by { assert s[1] == tag[0] != '/'; }
  }

  /** The fields after the first of a row of plain fields are plain too. */
  lemma PlainFieldsTail(row: seq<string>)
    requires row != [] && forall j :: 0 <= j < |row| ==> '<' !in row[j]
    ensures forall j :: 0 <= j < |row[1..]| ==> '<' !in row[1..][j]
  {
    forall j | 0 <= j < |row[1..]| ensures '<' !in row[1..][j] {
      assert row[1..][j] == row[j + 1];
    }
  }

  /** The cells of a non-empty row are its first cell followed by the cells of the others. */
  lemma CellsHtmlFirst(tag: string, row: seq<string>, end: string)
    requires row != []
    ensures CellsHtml(tag, row) + end == CellHtml(tag, row[0]) + (CellsHtml(tag, row[1..]) + end)
  {
  }

  /**
   * A row's cells read back, whatever follows them, as long as what follows
   * reads as the end of the row.
   */
  lemma {:induction false} CellsRoundTrip(tag: string, row: seq<string>, end: string, t: string)
    requires tag == "th" || tag == "td"
    requires forall j :: 0 <= j < |row| ==> '<' !in row[j]
    requires DecodeCells(end, tag) == Some(([], t))
    ensures DecodeCells(CellsHtml(tag, row) + end, tag) == Some((row, t))
  {
    if row == [] {
      assert CellsHtml(tag, row) + end == end;
    } else {
      var after := CellsHtml(tag, row[1..]) + end;
      assert DecodeCells(after, tag) == Some((row[1..], t)) by {
        PlainFieldsTail(row);
        CellsRoundTrip(tag, row[1..], end, t);
      }
      CellsHtmlFirst(tag, row, end);
      DecodeCellStep(tag, row[0], after);
      assert [row[0]] + row[1..] == row;
    }
  }

  /** One row read back: `<tr>`, then its fields, then what follows the row. */
  lemma RowRoundTrip(tag: string, row: seq<string>, rest: string)
    requires tag == "th" || tag == "td"
    requires forall j :: 0 <= j < |row| ==> '<' !in row[j]
    ensures var s := RowHtml(tag, row) + rest;
      4 <= |s| && s[..4] == "<tr>" && DecodeCells(s[4..], tag) == Some((row, rest))
  {
    var s := RowHtml(tag, row) + rest;
    assert s == "<tr>" + (CellsHtml(tag, row) + ("</tr>" + rest));
    assert s[4..] == CellsHtml(tag, row) + ("</tr>" + rest);
    DecodeRowEnd(tag, rest);
    CellsRoundTrip(tag, row, "</tr>" + rest, rest);
  }

  /** The rows after the first are plain too. */
  lemma PlainTail(rows: seq<seq<string>>)
    requires rows != [] && Plain(rows)
    ensures Plain(rows[1..])
    ensures forall j :: 0 <= j < |rows[0]| ==> '<' !in rows[0][j]
  {
    forall k, j | 0 <= k < |rows[1..]| && 0 <= j < |rows[1..][k]| ensures '<' !in rows[1..][k][j] {
      assert rows[1..][k] == rows[k + 1];
    }
  }

  /** Reading a row of plain fields gives it, followed by whatever the rows after it read as. */
  lemma DecodeRowStep(row: seq<string>, rest: string, i: nat)
    requires forall j :: 0 <= j < |row| ==> '<' !in row[j]
    ensures DecodeRows(RowHtml(TagFor(i), row) + rest, i)
         == match DecodeRows(rest, i + 1)
            case None => None
            case Some(more) => Some([row] + more)
  {
    var s := RowHtml(TagFor(i), row) + rest;
    RowRoundTrip(TagFor(i), row, rest);
    assert s != [];
  }

  /** Every table of plain fields reads back as its rows: the page loses and adds nothing. */
  lemma {:induction false} RowsRoundTrip(rows: seq<seq<string>>, i: nat)
    requires Plain(rows)
    ensures DecodeRows(RowsHtml(rows, i), i) == Some(rows)
  {
    if rows != [] {
      var rest := RowsHtml(rows[1..], i + 1);
      assert RowsHtml(rows, i) == RowHtml(TagFor(i), rows[0]) + rest;
      PlainTail(rows);
      RowsRoundTrip(rows[1..], i + 1);
      DecodeRowStep(rows[0], rest, i);
      assert [rows[0]] + rows[1..] == rows;
    }
  }

  /** The CSV page of plain fields gives back exactly the parsed rows. */
  lemma CsvPageRoundTrip(rows: seq<seq<string>>)
    requires Plain(rows)
    ensures TableRows(CsvPage(rows)) == Some(rows)
  {
    UnwrapWrap(CsvHead(), RowsHtml(rows, 0), CsvTail());
    RowsRoundTrip(rows, 0);
  }

  /** After the first cell of the one field `</th>` comes a second `</th>`, which opens no cell and ends no row. */
  lemma StrayCloseMalformed()
    ensures DecodeCells("</th></tr>", "th") == None
  {
    var rest := "</th></tr>";
    assert rest[..5] != "</tr>" by { assert rest[3] == 'h'; }
    assert rest[..4] != "<th>" by { assert rest[1] == '/'; }
  }

  /** So the one field `</th>` reads as an empty cell followed by that stray closing tag. */
  lemma MarkupCellsMalformed()
    ensures DecodeCells(CellHtml("th", "") + "</th></tr>", "th") == None
  {
    DecodeCellStep("th", "", "</th></tr>");
    StrayCloseMalformed();
  }

  /** The row for the one field `</th>` does not read as a row: the field closes its own cell. */
  lemma MarkupRowMalformed()
    ensures DecodeRows(RowHtml("th", ["</th>"]), 0) == None
  {
    var s := RowHtml("th", ["</th>"]);
    assert CellsHtml("th", ["</th>"]) == CellHtml("th", "</th>") + CellsHtml("th", []);
    assert s == "<tr>" + (CellHtml("th", "") + "</th></tr>");
    assert s[..4] == "<tr>";
    assert s[4..] == CellHtml("th", "") + "</th></tr>";
    MarkupCellsMalformed();
  }

  /** A field holding markup is not escaped: the one-field table `</th>` does not read back. */
  lemma MarkupNotEscaped()
    ensures TableRows(CsvPage([["</th>"]])) != Some([["</th>"]])
  {
    var body := RowsHtml([["</th>"]], 0);
    assert body == RowHtml("th", ["</th>"]) + "";
    assert body == RowHtml("th", ["</th>"]);
    UnwrapWrap(CsvHead(), body, CsvTail());
    MarkupRowMalformed();
  }

  // ---------------------------------------------------------------------------
  // The local converter

  /** What the uploaded file reads as: its text when it decodes as UTF-8, and the rows the `csv` module parses from it. */
  datatype Upload = Upload(text: Option<string>, rows: seq<seq<string>>)

  /** A page the local converter renders: the text page or the table page. */
  datatype Page = TextPage(text: string) | TablePage(rows: seq<seq<string>>)

  function Render(p: Page): string {
    match p
    case TextPage(text) => TxtPage(text)
    case TablePage(rows) => CsvPage(rows)
  }

  /** A text page is never empty: its template starts with the doctype line. */
  lemma TxtPageNonEmpty(text: string)
    ensures TxtPage(text) != ""
  {
  }

  /** Nor is a table page. */
  lemma CsvPageNonEmpty(rows: seq<seq<string>>)
    ensures CsvPage(rows) != ""
  {
  }

  /** No page is empty. */
  lemma RenderNonEmpty(p: Page)
    ensures Render(p) != ""
  {
    match p
    case TextPage(text) => TxtPageNonEmpty(text);
    case TablePage(rows) => CsvPageNonEmpty(rows);
  }

  /** `convert_locally` returns the page, or raises `ValueError` (a file that does not decode raises one too). */
  datatype Local = Converted(page: Page) | ValueErrorRaised

  /**
   * The local converter handles exactly text to HTML and CSV to HTML, for a
   * file that decodes: the text page holds the text, the table page the
   * parsed rows.
   */
  function LocalResult(ext: string, fmt: string, up: Upload): (r: Local)
    ensures r.Converted? <==> (ext == "txt" || ext == "csv") && fmt == "html" && up.text.Some?
    ensures r.Converted? && ext == "txt" ==> r.page == TextPage(up.text.value)
    ensures r.Converted? && ext == "csv" ==> r.page == TablePage(up.rows)
  {
    if ext == "txt" && fmt == "html" then
      if up.text.None? then ValueErrorRaised else Converted(TextPage(up.text.value))
    else if ext == "csv" && fmt == "html" then
      if up.text.None? then ValueErrorRaised else Converted(TablePage(up.rows))
    else ValueErrorRaised
  }

  /**
   * `ConversionService.convert_locally`: the text of the page `LocalResult`
   * names (see `Render`), or nothing for a `ValueError`. By
   * `TxtPageRoundTrip` the text page reads back as the file's text, and by
   * `CsvPageRoundTrip` a table page of plain fields as the parsed rows.
   */
  method ConvertLocally(ext: string, fmt: string, up: Upload) returns (r: Option<string>)
    ensures r.Some? <==> LocalResult(ext, fmt, up).Converted?
    ensures r.Some? && ext == "txt" ==> r.value == TxtPage(up.text.value)
    ensures r.Some? && ext == "csv" ==> r.value == CsvPage(up.rows)
  {
    if ext == "txt" && fmt == "html" {
      if up.text.None? {
        return None;
      }
      return Some(TxtPage(up.text.value));
    } else if ext == "csv" && fmt == "html" {
      if up.text.None? {
        return None;
      }
      var page := CsvToHtml(up.rows);
      return Some(page);
    }
    return None;
  }

  // ---------------------------------------------------------------------------
  // The route

  /** CloudConvert's outcome: the converted content, or an exception. */
  datatype Cloud = CloudContent(content: string) | CloudRaised

  /** The inputs of one request: the saved upload, what it reads as, the API key and CloudConvert's outcome. */
  datatype Env = Env(upload: FileInfo, content: Upload, apiKey: string, cloud: Cloud)

  /** The converters in the order the route calls them. */
  datatype Converter = LocalConverter | CloudConvert

  /** Why a request ends with an error; a failed conversion says whether the API-key hint is included. */
  datatype Cause =
    | NoFile
    | NoSelection
    | UnsupportedType(order: seq<string>)
    | UnsupportedFormat
    | ConversionFailed(keyHint: bool)

  /** The JSON `error` text of each cause. */
  function ErrorText(c: Cause): string {
    match c
    case NoFile => "No file uploaded"
    case NoSelection => "No file selected"
    case UnsupportedType(order) => "Unsupported file type. Allowed types: " + Join(", ", order)
    case UnsupportedFormat => "Unsupported output format. Allowed formats: " + Join(", ", OutputFormats)
    case ConversionFailed(keyHint) =>
      "Conversion failed. "
      + (if keyHint then "For advanced conversions, configure CloudConvert API key. " else "")
      + "Currently supported: TXT\U{2192}HTML, CSV\U{2192}HTML. For other formats, use the client-side converter below."
  }

  /** The reply: the written file as a download, or a JSON error whose text is `ErrorText(cause)`, with a status. */
  datatype Reply = Download(path: string, downloadName: string) | Error(status: nat, cause: Cause)

  /** What the conversion produced: a page the local converter rendered, or CloudConvert's content. */
  datatype Content = Rendered(page: Page) | Received(bytes: string)

  /** The text of the content, which is what the output file holds. */
  function ContentText(c: Content): string {
    match c
    case Rendered(p) => Render(p)
    case Received(bytes) => bytes
  }

  /** Only CloudConvert can hand back empty content. */
  function IsEmpty(c: Content): bool {
    c.Received? && c.bytes == ""
  }

  lemma IsEmptyText(c: Content)
    ensures IsEmpty(c) <==> ContentText(c) == ""
  {
    if c.Rendered? {
      RenderNonEmpty(c.page);
    }
  }

  /** The output folder: each name with the content written to it. */
  type Outputs = map<string, Content>

  /** The reply, the two folders afterwards, and the converters called. */
  datatype Served = Served(reply: Reply, uploads: Dir, outputs: Outputs, tried: seq<Converter>)

  /** Whether the request passes all four gates. */
  predicate Admitted(req: Request) {
    && req.file.Some? && req.file.value != ""
    && req.secured != "" && AllowedFile(req.secured, ModernExtensions)
    && req.outputFormat.Some? && req.outputFormat.value in OutputFormats
  }

  /** The refusal a request meets at the four gates, in the source's order; none once it passes them. */
  function Refusal(req: Request, order: seq<string>): (r: Option<Reply>)
    ensures r.None? <==> Admitted(req)
    ensures r.Some? ==> r.value.Error? && r.value.status == 400
  {
    if req.file.None? then Some(Error(400, NoFile))
    else if req.file.value == "" then Some(Error(400, NoSelection))
    else if req.secured == "" || !AllowedFile(req.secured, ModernExtensions) then Some(Error(400, UnsupportedType(order)))
    else if req.outputFormat.None? || req.outputFormat.value !in OutputFormats then Some(Error(400, UnsupportedFormat))
    else None
  }

  /** The extension the route dispatches on. */
  function RequestExt(req: Request): string {
    Lower(AfterLastDot(req.secured))
  }

  /** The names the route uses: the saved upload, the output file, and the download. */
  datatype Names = Names(input: string, output: string, download: string)

  function NamesOf(uuid: string, original: string, fmt: string): Names {
    var input := InputName(uuid, original);
    Names(input, Stem(input) + "." + fmt, Stem(original) + "." + fmt)
  }

  /**
   * The content the conversion ends with: the local page; after a
   * `ValueError`, CloudConvert's content when a key is set and it did not
   * raise; nothing otherwise.
   */
  function Produced(local: Local, env: Env): Option<Content> {
    match local
    case Converted(page) => Some(Rendered(page))
    case ValueErrorRaised =>
      if env.apiKey != "" && env.cloud.CloudContent? then Some(Received(env.cloud.content)) else None
  }

  /** The converters called: the local one, then CloudConvert only after a `ValueError` and with a key. */
  function Tried(local: Local, env: Env): seq<Converter> {
    if local.ValueErrorRaised? && env.apiKey != "" then [LocalConverter, CloudConvert] else [LocalConverter]
  }

  /**
   * Once the conversion has ended: the upload is removed; no content, or
   * empty content, is a 400 whose message carries the API-key hint when no
   * key is set; otherwise the content is written under the output name and
   * sent named after the original.
   */
  function Conclude(env: Env, names: Names, saved: Dir, outputs: Outputs, content: Option<Content>,
                    tried: seq<Converter>): Served
  {
    var removed := saved - {names.input};
    if content.None? || IsEmpty(content.value) then
      Served(Error(400, ConversionFailed(env.apiKey == "")), removed, outputs, tried)
    else Served(Download(names.output, names.download), removed, outputs[names.output := content.value], tried)
  }

  /** The route, as a function of the folders before the request. */
  function Serve(req: Request, env: Env, order: seq<string>, uuid: string, uploads: Dir, outputs: Outputs): Served {
    match Refusal(req, order)
    case Some(reply) => Served(reply, uploads, outputs, [])
    case None =>
      var names := NamesOf(uuid, req.secured, req.outputFormat.value);
      var local := LocalResult(RequestExt(req), req.outputFormat.value, env.content);
      Conclude(env, names, uploads[names.input := env.upload], outputs, Produced(local, env), Tried(local, env))
  }

  /** A request refused at the gates changes nothing and calls no converter: status 400. */
  lemma RefusedChangesNothing(req: Request, env: Env, order: seq<string>, uuid: string, uploads: Dir, outputs: Outputs)
    requires !Admitted(req)
    ensures var s := Serve(req, env, order, uuid, uploads, outputs);
      && s.reply.Error? && s.reply.status == 400
      && s.uploads == uploads && s.outputs == outputs && s.tried == []
  {
  }

  /**
   * CloudConvert is called exactly when the local converter raised
   * `ValueError` and a key is set; the local converter is always called
   * first.
   */
  lemma CloudGating(req: Request, env: Env, order: seq<string>, uuid: string, uploads: Dir, outputs: Outputs)
    requires Admitted(req)
    ensures var s := Serve(req, env, order, uuid, uploads, outputs);
      var local := LocalResult(RequestExt(req), req.outputFormat.value, env.content);
      && s.tried != [] && s.tried[0] == LocalConverter
      && (CloudConvert in s.tried <==> local.ValueErrorRaised? && env.apiKey != "")
  {
  }

  /**
   * For an admitted request the upload is removed whatever happens; the
   * reply is a download exactly when the conversion produced content that
   * is not empty (see `IsEmptyText`), which is then what the output file holds; every
   * other reply is the 400 failure, with the API-key hint exactly when no
   * key is set.
   */
  lemma AdmittedReplies(req: Request, env: Env, order: seq<string>, uuid: string, uploads: Dir, outputs: Outputs)
    requires Admitted(req)
    ensures var s := Serve(req, env, order, uuid, uploads, outputs);
      var fmt := req.outputFormat.value;
      var names := NamesOf(uuid, req.secured, fmt);
      var c := Produced(LocalResult(RequestExt(req), fmt, env.content), env);
      && s.uploads == uploads - {names.input}
      && (s.reply.Download? <==> c.Some? && !IsEmpty(c.value))
      && (s.reply.Download? ==> s.reply == Download(names.output, names.download)
                                && s.outputs == outputs[names.output := c.value])
      && (s.reply.Error? ==> s.reply == Error(400, ConversionFailed(env.apiKey == "")) && s.outputs == outputs)
  {
    var fmt := req.outputFormat.value;
    var names := NamesOf(uuid, req.secured, fmt);
    var local := LocalResult(RequestExt(req), fmt, env.content);
    AdmittedSteps(req, env, order, uuid, uploads, outputs);
    ConcludeFacts(env, names, uploads[names.input := env.upload], outputs, Produced(local, env), Tried(local, env));
    assert uploads[names.input := env.upload] - {names.input} == uploads - {names.input};
  }

  /** Past the gates, the route saves the upload and concludes on what the conversion produced. */
  lemma AdmittedSteps(req: Request, env: Env, order: seq<string>, uuid: string, uploads: Dir, outputs: Outputs)
    requires Admitted(req)
    ensures var names := NamesOf(uuid, req.secured, req.outputFormat.value);
      var local := LocalResult(RequestExt(req), req.outputFormat.value, env.content);
      Serve(req, env, order, uuid, uploads, outputs)
        == Conclude(env, names, uploads[names.input := env.upload], outputs, Produced(local, env), Tried(local, env))
  {
  }

  /** What `Conclude` leaves, case by case. */
  lemma ConcludeFacts(env: Env, names: Names, saved: Dir, outputs: Outputs, content: Option<Content>, tried: seq<Converter>)
    ensures var s := Conclude(env, names, saved, outputs, content, tried);
      && s.uploads == saved - {names.input}
      && (s.reply.Download? <==> content.Some? && !IsEmpty(content.value))
      && (s.reply.Download? ==> s.reply == Download(names.output, names.download)
                                && s.outputs == outputs[names.output := content.value])
      && (s.reply.Error? ==> s.reply == Error(400, ConversionFailed(env.apiKey == "")) && s.outputs == outputs)
  {
  }

  /**
   * A text or CSV file converted to HTML locally never reaches CloudConvert
   * and is always sent: its page is written under the output name.
   */
  lemma LocalPairsServedLocally(req: Request, env: Env, order: seq<string>, uuid: string, uploads: Dir, outputs: Outputs)
    requires Admitted(req)
    requires RequestExt(req) in {"txt", "csv"} && req.outputFormat.value == "html" && env.content.text.Some?
    ensures var s := Serve(req, env, order, uuid, uploads, outputs);
      var names := NamesOf(uuid, req.secured, "html");
      && s.tried == [LocalConverter]
      && s.reply == Download(names.output, names.download)
      && s.outputs[names.output] == Rendered(LocalResult(RequestExt(req), "html", env.content).page)
  {
  }

  /** The upload and output folders the route reads and changes. */
  class Storage {
    var uploads: Dir
    var outputs: Outputs

    constructor (uploads: Dir, outputs: Outputs)
      ensures this.uploads == uploads && this.outputs == outputs
    {
      this.uploads := uploads;
      this.outputs := outputs;
    }

    /**
     * `convert()`: the four gates, then the upload saved under its
     * UUID-prefixed name and the rest left to `ConvertSaved`; its reply, the
     * folders it leaves and the converters it calls are those `Serve` gives.
     */
    method Convert(req: Request, env: Env, order: seq<string>, uuid: string) returns (reply: Reply, tried: seq<Converter>)
      modifies this
      ensures Served(reply, uploads, outputs, tried) == Serve(req, env, order, uuid, old(uploads), old(outputs))
    {
      var refusal := Refusal(req, order);
      if refusal.Some? {
        return refusal.value, [];
      }
      var fmt := req.outputFormat.value;
      var names := NamesOf(uuid, req.secured, fmt);
      uploads := uploads[names.input := env.upload];
      reply, tried := ConvertSaved(env, names, LocalResult(RequestExt(req), fmt, env.content));
    }

    /**
     * The part of `convert()` after the upload is saved, step by step with
     * `conversion_success` and `converted_content`, given how the local
     * converter ended: the outcome `Conclude` gives for the content
     * `Produced` names and the converters `Tried` lists.
     */
    method ConvertSaved(env: Env, names: Names, local: Local) returns (reply: Reply, tried: seq<Converter>)
      modifies this
      ensures Served(reply, uploads, outputs, tried)
        == Conclude(env, names, old(uploads), old(outputs), Produced(local, env), Tried(local, env))
    {
      var success := false;
      var content: Option<Content> := None;
      tried := [LocalConverter];
      match local {
        case Converted(page) =>
          content := Some(Rendered(page));
          success := true;
        case ValueErrorRaised =>
          if env.apiKey != "" {
            tried := tried + [CloudConvert];
            if env.cloud.CloudContent? {
              content := Some(Received(env.cloud.content));
              success := true;
            }
          }
      }
      assert success <==> content.Some?;
      assert content == Produced(local, env);

      uploads := uploads - {names.input};

      if !success || IsEmpty(content.value) {
        return Error(400, ConversionFailed(env.apiKey == "")), tried;
      }
      outputs := outputs[names.output := content.value];
      return Download(names.output, names.download), tried;
    }
  }
}
