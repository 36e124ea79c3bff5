/** The document-reading service: plain text passes through unchanged, anything else is
    sent to the OCR API as a base64 data URI (RFC 2397, section 3), and the pages it
    returns are joined into one text from which Markdown tables are read. A formatter
    lays the result out as text for the classifier.

    The OCR API, base64 encoding (RFC 4648, section 4), UTF-8 decoding and the
    regular-expression field extraction are parameters: the model fixes only what the
    service does with their results. */
module Ocr {
  import opened Common
  import opened Text

  /** The OCR model name the service sends. */
  const OcrModel: string := "mistral-ocr-latest"

  /** Every failure inside `process_document` is re-raised with this prefix. */
  const ErrorPrefix: string := "Mistral OCR API error: "

  // ---------------------------------------------------------------------------------
  // MIME types and the data URI
  // ---------------------------------------------------------------------------------

  /** The MIME table of `_get_mime_type`, keyed by lower-case document type. */
  const MimeTypes: map<string, string> := map[
    "pdf" := "application/pdf",
    "png" := "image/png",
    "jpg" := "image/jpeg",
    "jpeg" := "image/jpeg",
    "avif" := "image/avif"
  ]

  const DefaultMimeType: string := "application/pdf"

  /** `_get_mime_type(document_type)`: looks up the lower-cased type, PDF otherwise. */
  function GetMimeType(documentType: string): (mime: string)
    ensures mime in MimeTypes.Values
  {
    var key := Lower(documentType);
    assert MimeTypes["pdf"] == DefaultMimeType;
    if key in MimeTypes then MimeTypes[key] else DefaultMimeType
  }

  /** The lookup ignores ASCII case. */
  lemma {:induction false} MimeTypeIgnoresCase(documentType: string)
    ensures GetMimeType(documentType) == GetMimeType(Lower(documentType))
  {
    LowerIdempotent(documentType);
  }

  /** The whole table: each image type maps to its own MIME type, and every type that is
      not an image type, PDF included, maps to "application/pdf". */
  lemma {:induction false} MimeTypeTable(documentType: string)
    ensures GetMimeType(documentType) == "image/png" <==> Lower(documentType) == "png"
    ensures GetMimeType(documentType) == "image/jpeg" <==> Lower(documentType) in {"jpg", "jpeg"}
    ensures GetMimeType(documentType) == "image/avif" <==> Lower(documentType) == "avif"
    ensures GetMimeType(documentType) == "application/pdf" <==>
              Lower(documentType) !in {"png", "jpg", "jpeg", "avif"}
  {
  }

  /** `f"data:{mime_type};base64,{document_b64}"`. */
  function DataUri(mime: string, data: string): (u: string)
    ensures |u| == |"data:;base64,"| + |mime| + |data|
    ensures u[..5] == "data:" && u[|u| - |data|..] == data
  {
    "data:" + mime + ";base64," + data
  }

  /** Reading the URI back as RFC 2397 does: for a MIME type without a comma, the header
      runs to the first comma, and everything after it is the data. */
  lemma {:induction false} DataUriRoundTrip(mime: string, data: string)
    requires ',' !in mime
    ensures var uri := DataUri(mime, data);
            var c := IndexOf(uri, ',');
            uri[..c] == "data:" + mime + ";base64" && uri[c + 1..] == data
  {
    var uri := DataUri(mime, data);
    var c := |"data:" + mime + ";base64"|;
    assert uri == "data:" + mime + ";base64" + "," + data;
    assert uri[..c] == "data:" + mime + ";base64";
    assert ',' !in ";base64";
    assert ',' !in "data:";
    assert ',' !in uri[..c];
    IndexOfFirst(uri, ',', c);
  }

  // ---------------------------------------------------------------------------------
  // The records
  // ---------------------------------------------------------------------------------

  /** One image of an OCR page: its id, its bounding box and, when requested, its data. */
  datatype OcrImage = OcrImage(
    id: string, topLeftX: int, topLeftY: int, bottomRightX: int, bottomRightY: int,
    imageBase64: Option<string>)

  datatype OcrDimensions = OcrDimensions(dpi: int, height: int, width: int)

  /** One page of the OCR response; `images` and `dimensions` may be absent. */
  datatype OcrPage = OcrPage(
    index: int, markdown: string, images: Option<seq<OcrImage>>, dimensions: Option<OcrDimensions>)

  datatype UsageInfo = UsageInfo(pagesProcessed: int, docSizeBytes: int)

  /** The OCR API's response. */
  datatype OcrResponse = OcrResponse(pages: seq<OcrPage>, model: string, usageInfo: UsageInfo)

  /** An image entry of a page dictionary, with its box as two corners. */
  datatype ImageEntry = ImageEntry(id: string, topLeft: (int, int), bottomRight: (int, int), imageBase64: Option<string>)

  /** A page dictionary; `None` dimensions stand for the empty dictionary. */
  datatype Page = Page(index: int, markdown: string, images: seq<ImageEntry>, dimensions: Option<OcrDimensions>)

  /** A table read from Markdown: header cells and data rows. */
  datatype Table = Table(headers: seq<string>, rows: seq<seq<string>>)

  /** The metadata dictionary of a passthrough or of an OCR result. */
  datatype Metadata =
    | TextMetadata(documentType: string, language: string)
    | OcrMetadata(model: string, pagesProcessed: int, docSizeBytes: int)

  /** `DocumentStructure`; the `forms` dictionary is a list of pairs in insertion order. */
  datatype DocumentStructure = DocumentStructure(
    rawText: string,
    pages: seq<Page>,
    tables: seq<Table>,
    forms: seq<(string, string)>,
    metadata: Metadata,
    model: string,
    usageInfo: UsageInfo)

  // ---------------------------------------------------------------------------------
  // Text passthrough
  // ---------------------------------------------------------------------------------

  /** The model name a text passthrough reports. */
  const PassthroughModel: string := "text-passthrough"

  /** The structure `process_document` builds for a text document without calling the API. */
  function TextPassthrough(text: string): (s: DocumentStructure)
    ensures s.rawText == text
    ensures |s.pages| == 1 && s.pages[0].index == 0 && s.pages[0].markdown == text
    ensures s.pages[0].images == [] && s.pages[0].dimensions.None?
    ensures s.tables == [] && s.forms == []
    ensures s.model == PassthroughModel
    ensures s.usageInfo == UsageInfo(1, |text|)
    ensures s.metadata == TextMetadata("text", "de")
  {
    DocumentStructure(text, [Page(0, text, [], None)], [], [], TextMetadata("text", "de"),
                      PassthroughModel, UsageInfo(1, |text|))
  }

  // ---------------------------------------------------------------------------------
  // The OCR response
  // ---------------------------------------------------------------------------------

  /** The image entry of one OCR image. */
  function ConvertImage(img: OcrImage): ImageEntry
  {
    ImageEntry(img.id, (img.topLeftX, img.topLeftY), (img.bottomRightX, img.bottomRightY), img.imageBase64)
  }

  /** The page dictionary of one OCR page: an absent image list becomes empty. */
  function ConvertPage(p: OcrPage): (q: Page)
    ensures q.index == p.index && q.markdown == p.markdown && q.dimensions == p.dimensions
    ensures p.images.None? ==> q.images == []
    ensures p.images.Some? ==>
              && |q.images| == |p.images.value|
              && forall k | 0 <= k < |q.images| :: q.images[k].id == p.images.value[k].id
  {
    var images := if p.images.Some? then p.images.value else [];
    Page(p.index, p.markdown, seq(|images|, k requires 0 <= k < |images| => ConvertImage(images[k])),
         p.dimensions)
  }

  /** The page dictionaries, one per page, in order. */
  function ConvertPages(pages: seq<OcrPage>): (r: seq<Page>)
    ensures |r| == |pages| && forall k | 0 <= k < |pages| :: r[k] == ConvertPage(pages[k])
  {
    seq(|pages|, k requires 0 <= k < |pages| => ConvertPage(pages[k]))
  }

  /** Every page's markdown followed by a blank line, in page order. */
  function ConcatMarkdown(pages: seq<OcrPage>): (r: string)
    ensures |r| >= 2 * |pages|
  {
    if pages == [] then ""
    else ConcatMarkdown(pages[..|pages| - 1]) + pages[|pages| - 1].markdown + "\n\n"
  }

  /** The text of a run of pages is the text of its first part then of its second. */
  lemma {:induction false} ConcatMarkdownAppend(a: seq<OcrPage>, b: seq<OcrPage>)
    ensures ConcatMarkdown(a + b) == ConcatMarkdown(a) + ConcatMarkdown(b)
    decreases |b|
  {
    if b == [] {
      assert a + b == a;
    } else {
      var n := |b| - 1;
      assert (a + b)[..|a + b| - 1] == a + b[..n];
      ConcatMarkdownAppend(a, b[..n]);
    }
  }

  /** Page `k`'s markdown sits in the joined text after the pages before it and before
      the pages after it. */
  lemma {:induction false} PageTextInOrder(pages: seq<OcrPage>, k: nat)
    requires k < |pages|
    ensures ConcatMarkdown(pages) ==
              ConcatMarkdown(pages[..k]) + pages[k].markdown + "\n\n" + ConcatMarkdown(pages[k + 1..])
  {
    var pre := pages[..k + 1];
    assert pre[..|pre| - 1] == pages[..k];
    assert ConcatMarkdown(pre) == ConcatMarkdown(pages[..k]) + pages[k].markdown + "\n\n";
    ConcatMarkdownAppend(pre, pages[k + 1..]);
    assert pre + pages[k + 1..] == pages;
  }

  /** What `_parse_ocr_response` returns: tables are read from the joined text before it
      is stripped; forms start empty. */
  function ParsedResponse(response: OcrResponse): (s: DocumentStructure)
    ensures |s.pages| == |response.pages| && s.forms == []
    ensures forall t | t in s.tables :: WellFormedTable(t)
  {
    var raw := ConcatMarkdown(response.pages);
    DocumentStructure(
      Strip(raw),
      ConvertPages(response.pages),
      TablesOf(raw),
      [],
      OcrMetadata(response.model, response.usageInfo.pagesProcessed, response.usageInfo.docSizeBytes),
      response.model,
      response.usageInfo)
  }

  /** `_parse_ocr_response(response)`: accumulates the text and the page dictionaries
      page by page, then reads the tables. */
  method ParseOcrResponse(response: OcrResponse) returns (s: DocumentStructure)
    ensures s == ParsedResponse(response)
    ensures |s.pages| == |response.pages|
    ensures forall k | 0 <= k < |s.pages| :: s.pages[k] == ConvertPage(response.pages[k])
    ensures s.rawText == Strip(ConcatMarkdown(response.pages))
  {
    var raw := "";
    var pages: seq<Page> := [];
    for i := 0 to |response.pages|
      invariant raw == ConcatMarkdown(response.pages[..i])
      invariant |pages| == i && forall k | 0 <= k < i :: pages[k] == ConvertPage(response.pages[k])
    {
      var page := response.pages[i];
      raw := raw + page.markdown + "\n\n";
      pages := pages + [ConvertPage(page)];
      assert response.pages[..i + 1][..i] == response.pages[..i];
      assert raw == ConcatMarkdown(response.pages[..i + 1]);
    }
    assert response.pages[..|response.pages|] == response.pages;
    assert pages == ConvertPages(response.pages);
    var tables := ExtractTablesFromMarkdown(raw);
    var usage := response.usageInfo;
    s := DocumentStructure(Strip(raw), pages, tables, [],
                           OcrMetadata(response.model, usage.pagesProcessed, usage.docSizeBytes),
                           response.model, usage);
  }

  // ---------------------------------------------------------------------------------
  // Markdown tables
  // ---------------------------------------------------------------------------------

  /** A table block starts at a line whose stripped form starts with '|'. */
  predicate StartsTable(line: string)
  {
    var l := Strip(line);
    '|' in l && |l| > 0 && l[0] == '|'
  }

  /** The end of the block that continues at `j`: the first line from `j` on without a
      '|' anywhere in it, or the end of the text. */
  function BlockEnd(lines: seq<string>, j: nat): (r: nat)
    requires j <= |lines|
    ensures j <= r <= |lines|
    ensures forall k | j <= k < r :: '|' in lines[k]
    ensures r < |lines| ==> '|' !in lines[r]
    decreases |lines| - j
  {
    if j < |lines| && '|' in lines[j] then BlockEnd(lines, j + 1) else j
  }

  /** Every line stripped. */
  function StripAll(ls: seq<string>): (r: seq<string>)
    ensures |r| == |ls| && forall k | 0 <= k < |ls| :: r[k] == Strip(ls[k])
  {
    seq(|ls|, k requires 0 <= k < |ls| => Strip(ls[k]))
  }

  /** `[cell.strip() for cell in line.split('|')[1:-1]]`: the stripped cells between the
      first and the last '|'. */
  function Cells(line: string): (cells: seq<string>)
    ensures '|' !in line ==> cells == []
  {
    var parts := Split(line, '|');
    if |parts| < 2 then [] else StripAll(parts[1..|parts| - 1])
  }

  /** The non-empty cell lists of the data lines, in order. */
  function RowsOf(ls: seq<string>): (rows: seq<seq<string>>)
    ensures |rows| <= |ls|
    ensures forall r | r in rows :: r != []
  {
    if ls == [] then []
    else
      var cells := Cells(ls[|ls| - 1]);
      RowsOf(ls[..|ls| - 1]) + (if cells != [] then [cells] else [])
  }

  /** A table as the parser emits it: header cells, and rows that each have a cell. */
  predicate WellFormedTable(t: Table)
  {
    t.headers != [] && t.rows != [] && forall r | r in t.rows :: r != []
  }

  /** The table a block yields, if any: it needs a header line and a separator line,
      header cells, and at least one data row with cells. */
  function TableOf(block: seq<string>): (t: seq<Table>)
    ensures |t| <= 1
    ensures forall x | x in t :: WellFormedTable(x)
  {
    if |block| >= 2 then
      var headers := Cells(block[0]);
      var rows := RowsOf(block[2..]);
      if headers != [] && rows != [] then [Table(headers, rows)] else []
    else []
  }

  /** The tables of the lines from `i` on, in order. */
  function TablesFrom(lines: seq<string>, i: nat): (tables: seq<Table>)
    requires i <= |lines|
    ensures |tables| <= |lines| - i
    ensures forall t | t in tables :: WellFormedTable(t)
    decreases |lines| - i
  {
    if i == |lines| then []
    else if StartsTable(lines[i]) then
      var j := BlockEnd(lines, i + 1);
      TableOf([Strip(lines[i])] + StripAll(lines[i + 1..j])) + TablesFrom(lines, j)
    else TablesFrom(lines, i + 1)
  }

  /** The tables of a Markdown text. */
  function TablesOf(markdown: string): (tables: seq<Table>)
    ensures forall t | t in tables :: WellFormedTable(t)
  {
    TablesFrom(Split(markdown, '\n'), 0)
  }

  /** The cell-and-row step of `_extract_tables_from_markdown` for one collected block. */
  method ParseTable(tableLines: seq<string>) returns (t: seq<Table>)
    ensures t == TableOf(tableLines)
  {
    t := [];
    if |tableLines| >= 2 {
      var headers := Cells(tableLines[0]);
      var rows: seq<seq<string>> := [];
      for k := 2 to |tableLines|
        invariant rows == RowsOf(tableLines[2..k])
      {
        var cells := Cells(tableLines[k]);
        if cells != [] {
          rows := rows + [cells];
        }
        assert tableLines[2..k + 1][..k - 2] == tableLines[2..k];
      }
      assert tableLines[2..|tableLines|] == tableLines[2..];
      if headers != [] && rows != [] {
        t := [Table(headers, rows)];
      }
    }
  }

  /** Stripping one more line of a block appends its stripped form. */
  lemma {:induction false} StripAllExtend(lines: seq<string>, a: nat, i: nat)
    requires a <= i < |lines|
    ensures StripAll(lines[a..i + 1]) == StripAll(lines[a..i]) + [Strip(lines[i])]
  {
  }

  /** The inner loop of `_extract_tables_from_markdown`: from the opening line at
      `start`, collects every following line that holds a '|', stripped, and stops at
      the first that does not. */
  method CollectBlock(lines: seq<string>, start: nat) returns (tableLines: seq<string>, next: nat)
    requires start < |lines|
    ensures next == BlockEnd(lines, start + 1)
    ensures tableLines == [Strip(lines[start])] + StripAll(lines[start + 1..next])
  {
    tableLines := [Strip(lines[start])];
    next := start + 1;
    while next < |lines| && '|' in lines[next]
      invariant start + 1 <= next <= |lines|
      invariant BlockEnd(lines, next) == BlockEnd(lines, start + 1)
      invariant tableLines == [Strip(lines[start])] + StripAll(lines[start + 1..next])
      decreases |lines| - next
    {
      StripAllExtend(lines, start + 1, next);
      tableLines := tableLines + [Strip(lines[next])];
      next := next + 1;
    }
  }

  /** The tables from an opening line: the block's table, then those after the block. */
  lemma {:induction false} TablesFromOpening(lines: seq<string>, i: nat)
    requires i < |lines| && StartsTable(lines[i])
    ensures TablesFrom(lines, i)
      == TableOf([Strip(lines[i])] + StripAll(lines[i + 1..BlockEnd(lines, i + 1)]))
         + TablesFrom(lines, BlockEnd(lines, i + 1))
  {
  }

  /** The tables from any other line are those from the next line. */
  lemma {:induction false} TablesFromOther(lines: seq<string>, i: nat)
    requires i < |lines| && !StartsTable(lines[i])
    ensures TablesFrom(lines, i) == TablesFrom(lines, i + 1)
  {
  }

  /** `_extract_tables_from_markdown(markdown)`: walks the lines; a line whose stripped
      form starts with '|' opens a block that takes every following line holding a '|';
      each block yields at most one table. */
  method ExtractTablesFromMarkdown(markdown: string) returns (tables: seq<Table>)
    ensures tables == TablesOf(markdown)
  {
    tables := [];
    var lines := Split(markdown, '\n');
    var i := 0;
    while i < |lines|
      invariant 0 <= i <= |lines|
      invariant tables + TablesFrom(lines, i) == TablesOf(markdown)
      decreases |lines| - i
    {
      var line := Strip(lines[i]);
      if '|' in line && |line| > 0 && line[0] == '|' {
        var tableLines, next := CollectBlock(lines, i);
        var parsed := ParseTable(tableLines);
        TablesFromOpening(lines, i);
        ConcatAssoc(tables, parsed, TablesFrom(lines, next));
        tables := tables + parsed;
        i := next;
      } else {
        TablesFromOther(lines, i);
        i := i + 1;
      }
    }
  }

  /** Every table read has header cells and at least one row, and every row has cells. */
  lemma {:induction false} TablesWellFormed(markdown: string)
    ensures forall t | t in TablesOf(markdown) :: WellFormedTable(t)
  {
  }

  /** A text in which no line, once stripped, starts with '|' holds no table. */
  lemma {:induction false} NoTableWithoutLeadingPipe(lines: seq<string>, i: nat)
    requires i <= |lines|
    requires forall k | i <= k < |lines| :: !StartsTable(lines[k])
    ensures TablesFrom(lines, i) == []
    decreases |lines| - i
  {
    if i < |lines| {
      NoTableWithoutLeadingPipe(lines, i + 1);
    }
  }

  /** A text without any '|' holds no table. */
  lemma {:induction false} NoPipeNoTables(markdown: string)
    requires '|' !in markdown
    ensures TablesOf(markdown) == []
  {
    var lines := Split(markdown, '\n');
    forall k | 0 <= k < |lines|
      ensures !StartsTable(lines[k])
    {
      if '|' in Strip(lines[k]) {
        StripChars(lines[k], '|');
        SplitPartChars(markdown, '\n', k, '|');
      }
    }
    NoTableWithoutLeadingPipe(lines, 0);
  }

  /** A cell that survives a Markdown round trip: no '|', no line break, no whitespace
      at either end. */
  predicate PlainCell(c: string)
  {
    '|' !in c && '\n' !in c && Strip(c) == c
  }

  /** A table whose every cell is plain, with the shape the parser emits. */
  predicate Renderable(t: Table)
  {
    && WellFormedTable(t)
    && (forall c | c in t.headers :: PlainCell(c))
    && (forall r | r in t.rows :: forall c | c in r :: PlainCell(c))
  }

  /** A Markdown table row: `|a|b|c|`. */
  function RenderRow(cells: seq<string>): string
  {
    "|" + Join(cells, "|") + "|"
  }

  const SeparatorRow: string := "|---|"

  /** One Markdown line per row. */
  function RenderRows(rows: seq<seq<string>>): (lines: seq<string>)
    ensures |lines| == |rows|
    ensures forall k | 0 <= k < |rows| :: lines[k] == RenderRow(rows[k])
  {
    if rows == [] then [] else RenderRows(rows[..|rows| - 1]) + [RenderRow(rows[|rows| - 1])]
  }

  /** The Markdown lines of a table: header row, separator row, data rows. */
  function MarkdownLines(t: Table): (lines: seq<string>)
    ensures |lines| == |t.rows| + 2
  {
    [RenderRow(t.headers), SeparatorRow] + RenderRows(t.rows)
  }

  /** A table as Markdown text. */
  function RenderTable(t: Table): string
  {
    Join(MarkdownLines(t), "\n")
  }

  /** A row is the join of its cells between two empty pieces. */
  lemma {:induction false} BracketedJoin(cells: seq<string>)
    requires cells != []
    ensures Join([""] + cells + [""], "|") == RenderRow(cells)
  {
    var parts := [""] + cells + [""];
    assert parts[1..] == cells + [""];
    JoinAppend(cells, "", "|");
  }

  /** Stripping cells that are already stripped changes nothing. */
  lemma {:induction false} StripAllUnchanged(cells: seq<string>)
    requires forall c | c in cells :: Strip(c) == c
    ensures StripAll(cells) == cells
  {
  }

  /** The cells read back from a rendered row are the row's cells. */
  lemma {:induction false} RowCells(cells: seq<string>)
    requires cells != []
    requires forall c | c in cells :: '|' !in c && Strip(c) == c
    ensures Cells(RenderRow(cells)) == cells
  {
    var parts := [""] + cells + [""];
    BracketedJoin(cells);
    assert forall p | p in parts :: '|' !in p;
    SplitOfJoin(parts, '|');
    assert parts[1..|parts| - 1] == cells;
    StripAllUnchanged(cells);
  }

  /** A rendered row of plain cells is one stripped line that opens a table and whose
      cells are the row's cells. */
  lemma {:induction false} RenderedRow(cells: seq<string>)
    requires cells != []
    requires forall c | c in cells :: PlainCell(c)
    ensures '\n' !in RenderRow(cells) && '|' in RenderRow(cells)
    ensures Strip(RenderRow(cells)) == RenderRow(cells)
    ensures StartsTable(RenderRow(cells))
    ensures Cells(RenderRow(cells)) == cells
  {
    var row := RenderRow(cells);
    JoinExcludes(cells, "|", '\n');
    assert row[0] == '|' && row[|row| - 1] == '|';
    StripUnchanged(row);
    RowCells(cells);
  }

  /** Rendering a prefix of the rows renders a prefix of the lines. */
  lemma {:induction false} RenderRowsPrefix(rows: seq<seq<string>>, n: nat)
    requires n <= |rows|
    ensures RenderRows(rows)[..n] == RenderRows(rows[..n])
  {
  }

  /** The rows read from one more data line: those before it, then its cells if any. */
  lemma {:induction false} RowsOfLast(ls: seq<string>)
    requires ls != []
    ensures RowsOf(ls) == RowsOf(ls[..|ls| - 1])
      + (if Cells(ls[|ls| - 1]) != [] then [Cells(ls[|ls| - 1])] else [])
  {
  }

  /** Reading the cells of rendered rows gives the rows back, when each row alone reads
      back (as `RenderedRow` shows for plain cells). */
  lemma {:induction false} RenderedRows(rows: seq<seq<string>>)
    requires forall k | 0 <= k < |rows| :: rows[k] != [] && Cells(RenderRow(rows[k])) == rows[k]
    ensures RowsOf(RenderRows(rows)) == rows
    decreases |rows|
  {
    if rows != [] {
      var n := |rows| - 1;
      var ls := RenderRows(rows);
      RenderRowsPrefix(rows, n);
      RenderedRows(rows[..n]);
      assert |ls| - 1 == n && ls[n] == RenderRow(rows[n]);
      RowsOfLast(ls);
      SplitLast(rows);
    }
  }

  /** A line that survives the reader unchanged: one line, holding a '|', stripped. */
  predicate CleanLine(l: string)
  {
    '\n' !in l && '|' in l && Strip(l) == l
  }

  /** Lines without line breaks, joined by line breaks, split back into those lines. */
  lemma {:induction false} LinesRoundTrip(lines: seq<string>)
    requires lines != []
    requires forall k | 0 <= k < |lines| :: '\n' !in lines[k]
    ensures Split(Join(lines, "\n"), '\n') == lines
  {
    assert forall l | l in lines :: '\n' !in l;
    SplitOfJoin(lines, '\n');
  }

  /** A block continues to the end when every later line holds a '|'. */
  lemma {:induction false} BlockToEnd(lines: seq<string>, j: nat)
    requires j <= |lines|
    requires forall k | j <= k < |lines| :: '|' in lines[k]
    ensures BlockEnd(lines, j) == |lines|
    decreases |lines| - j
  {
    if j < |lines| {
      BlockToEnd(lines, j + 1);
    }
  }

  /** Lines after an opening line that all hold a '|' form one block, read to the end. */
  lemma {:induction false} OneBlock(lines: seq<string>)
    requires lines != [] && StartsTable(lines[0])
    requires forall k | 1 <= k < |lines| :: '|' in lines[k]
    ensures TablesFrom(lines, 0) == TableOf([Strip(lines[0])] + StripAll(lines[1..]))
  {
    var j := BlockEnd(lines, 1);
    assert j == |lines| by {
      BlockToEnd(lines, 1);
    }
    assert TablesFrom(lines, j) == [];
    assert lines[1..j] == lines[1..];
    TablesFromOpening(lines, 0);
  }

  /** Stripping lines that are already stripped gives them back. */
  lemma {:induction false} StrippedBlock(lines: seq<string>)
    requires lines != []
    requires forall k | 0 <= k < |lines| :: Strip(lines[k]) == lines[k]
    ensures [Strip(lines[0])] + StripAll(lines[1..]) == lines
  {
    assert forall c | c in lines[1..] :: Strip(c) == c;
    StripAllUnchanged(lines[1..]);
    SplitFirst(lines);
  }

  /** Lines joined into a text come back as one block read from the first line, when
      every line is clean and the first opens a table. */
  lemma {:induction false} RenderedBlock(lines: seq<string>)
    requires |lines| >= 2 && StartsTable(lines[0])
    requires forall k | 0 <= k < |lines| :: CleanLine(lines[k])
    ensures TablesOf(Join(lines, "\n")) == TableOf(lines)
  {
    LinesRoundTrip(lines);
    OneBlock(lines);
    StrippedBlock(lines);
  }

  /** The separator row is a clean line. */
  lemma {:induction false} SeparatorRowClean()
    ensures CleanLine(SeparatorRow)
  {
    assert SeparatorRow[0] == '|' && SeparatorRow[|SeparatorRow| - 1] == '|';
    StripUnchanged(SeparatorRow);
  }

  /** Every Markdown line of a renderable table is clean, and the first opens a table. */
  lemma {:induction false} MarkdownLinesClean(t: Table)
    requires Renderable(t)
    ensures StartsTable(MarkdownLines(t)[0])
    ensures forall k | 0 <= k < |MarkdownLines(t)| :: CleanLine(MarkdownLines(t)[k])
  {
    var lines := MarkdownLines(t);
    assert forall k | 2 <= k < |lines| :: lines[k] == RenderRow(t.rows[k - 2]);
    forall k | 0 <= k < |t.rows|
      ensures CleanLine(RenderRow(t.rows[k]))
    {
      assert t.rows[k] in t.rows;
      RenderedRow(t.rows[k]);
    }
    RenderedRow(t.headers);
    SeparatorRowClean();
  }

  /** The block of a renderable table's Markdown lines yields that table. */
  lemma {:induction false} MarkdownLinesTable(t: Table)
    requires Renderable(t)
    ensures TableOf(MarkdownLines(t)) == [t]
  {
    var lines := MarkdownLines(t);
    forall k | 0 <= k < |t.rows|
      ensures t.rows[k] != [] && Cells(RenderRow(t.rows[k])) == t.rows[k]
    {
      assert t.rows[k] in t.rows;
      RenderedRow(t.rows[k]);
    }
    RenderedRows(t.rows);
    assert lines[2..] == RenderRows(t.rows);
    RenderedRow(t.headers);
  }

  /** Parsing a rendered table gives back exactly that table. */
  lemma {:induction false} TableRoundTrip(t: Table)
    requires Renderable(t)
    ensures TablesOf(RenderTable(t)) == [t]
  {
    MarkdownLinesClean(t);
    RenderedBlock(MarkdownLines(t));
    MarkdownLinesTable(t);
  }

  // ---------------------------------------------------------------------------------
  // Processing a document
  // ---------------------------------------------------------------------------------

  /** The document argument: bytes, or a string (text or already base64). */
  datatype DocumentInput = TextDocument(text: string) | BinaryDocument(bytes: seq<bv8>)

  /** The arguments of the OCR call. */
  datatype OcrRequest = OcrRequest(model: string, documentUrl: string, includeImageBase64: bool, pages: Option<seq<int>>)

  /** The document types that bypass the API; the comparison is case-sensitive. */
  predicate IsTextType(documentType: string)
  {
    documentType in ["txt", "text"]
  }

  /** The base64 payload: bytes are encoded, a string is taken to be base64 already. */
  function Payload(document: DocumentInput, encodeBase64: seq<bv8> -> string): string
  {
    match document
    case TextDocument(t) => t
    case BinaryDocument(b) => encodeBase64(b)
  }

  /** The request sent for a non-text document. */
  function OcrRequestFor(document: DocumentInput, documentType: string, includeImages: bool,
                         pages: Option<seq<int>>, encodeBase64: seq<bv8> -> string): OcrRequest
  {
    OcrRequest(OcrModel, DataUri(GetMimeType(documentType), Payload(document, encodeBase64)), includeImages, pages)
  }

  /** What `process_document` returns, or the text of the exception it raises: the
      specification of the method `ProcessDocument`. */
  function Processed(document: DocumentInput, documentType: string, includeImages: bool,
                     pages: Option<seq<int>>, decodeUtf8: seq<bv8> -> Result<string>,
                     encodeBase64: seq<bv8> -> string, ocrApi: OcrRequest -> Result<OcrResponse>,
                     bankingFields: string -> seq<(string, string)>): Result<DocumentStructure>
  {
    if IsTextType(documentType) then
      match document
      case TextDocument(t) => Success(TextPassthrough(t))
      case BinaryDocument(b) =>
        match decodeUtf8(b)
        case Failure(e) => Failure(ErrorPrefix + e)
        case Success(t) => Success(TextPassthrough(t))
    else
      match ocrApi(OcrRequestFor(document, documentType, includeImages, pages, encodeBase64))
      case Failure(e) => Failure(ErrorPrefix + e)
      case Success(response) =>
        var s := ParsedResponse(response);
        Success(s.(forms := bankingFields(s.rawText)))
  }

  /** `process_document(document, document_type, include_images, pages)`, statement by
      statement; it is proved to return what `Processed` specifies, and the lemmas below
      are stated on that function. */
  method ProcessDocument(document: DocumentInput, documentType: string, includeImages: bool,
                         pages: Option<seq<int>>, decodeUtf8: seq<bv8> -> Result<string>,
                         encodeBase64: seq<bv8> -> string, ocrApi: OcrRequest -> Result<OcrResponse>,
                         bankingFields: string -> seq<(string, string)>)
    returns (r: Result<DocumentStructure>)
    ensures r == Processed(document, documentType, includeImages, pages, decodeUtf8, encodeBase64, ocrApi, bankingFields)
  {
    if documentType in ["txt", "text"] {
      var textContent: string;
      match document {
        case TextDocument(t) =>
          textContent := t;
        case BinaryDocument(b) =>
          var decoded := decodeUtf8(b);
          if decoded.Failure? {
            return Failure(ErrorPrefix + decoded.error);
          }
          textContent := decoded.value;
      }
      return Success(TextPassthrough(textContent));
    }
    var documentB64 := match document
      case TextDocument(t) => t
      case BinaryDocument(b) => encodeBase64(b);
    var mimeType := GetMimeType(documentType);
    var documentUrl := DataUri(mimeType, documentB64);
    var response := ocrApi(OcrRequest(OcrModel, documentUrl, includeImages, pages));
    if response.Failure? {
      return Failure(ErrorPrefix + response.error);
    }
    var structure := ParseOcrResponse(response.value);
    structure := structure.(forms := bankingFields(structure.rawText));
    r := Success(structure);
  }

  /** A text document of type "txt" or "text" never reaches the API: its structure is
      the passthrough of its text, and the result does not depend on the API at all. */
  lemma {:induction false} TextDocumentsBypassOcr(text: string, documentType: string, includeImages: bool,
                               pages: Option<seq<int>>, decodeUtf8: seq<bv8> -> Result<string>,
                               encodeBase64: seq<bv8> -> string, ocrApi1: OcrRequest -> Result<OcrResponse>,
                               ocrApi2: OcrRequest -> Result<OcrResponse>,
                               bankingFields: string -> seq<(string, string)>)
    requires documentType == "txt" || documentType == "text"
    ensures var r := Processed(TextDocument(text), documentType, includeImages, pages, decodeUtf8,
                               encodeBase64, ocrApi1, bankingFields);
            && r == Success(TextPassthrough(text))
            && r == Processed(TextDocument(text), documentType, includeImages, pages, decodeUtf8,
                              encodeBase64, ocrApi2, bankingFields)
            && |r.value.pages| == 1 && r.value.rawText == text && r.value.tables == []
  {
  }

  /** The text-type test is case-sensitive: "TXT" goes to the API, and since "txt" is not
      in the MIME table either, it is sent as a PDF data URI. */
  lemma {:induction false} UpperCaseTextTypeGoesToOcr(document: DocumentInput, includeImages: bool, pages: Option<seq<int>>,
                                   encodeBase64: seq<bv8> -> string)
    ensures !IsTextType("TXT")
    ensures OcrRequestFor(document, "TXT", includeImages, pages, encodeBase64)
            == OcrRequest(OcrModel, DataUri(DefaultMimeType, Payload(document, encodeBase64)), includeImages, pages)
  {
    assert "TXT"[0] != "txt"[0];
    assert GetMimeType("TXT") == DefaultMimeType by {
      var lowered := Lower("TXT");
      assert lowered == "txt" by {
        assert |lowered| == 3;
        assert lowered[0] == 't' && lowered[1] == 'x' && lowered[2] == 't';
      }
      assert "txt" !in MimeTypes;
    }
  }

  /** Every failure of the decoder or the API surfaces as one error whose text starts
      with "Mistral OCR API error: " and ends with the original message. */
  lemma {:induction false} ErrorsAreWrapped(document: DocumentInput, documentType: string, includeImages: bool,
                         pages: Option<seq<int>>, decodeUtf8: seq<bv8> -> Result<string>,
                         encodeBase64: seq<bv8> -> string, ocrApi: OcrRequest -> Result<OcrResponse>,
                         bankingFields: string -> seq<(string, string)>)
    ensures var r := Processed(document, documentType, includeImages, pages, decodeUtf8, encodeBase64, ocrApi, bankingFields);
            r.Failure? ==> ErrorPrefix <= r.error
    ensures !IsTextType(documentType) ==>
              var req := OcrRequestFor(document, documentType, includeImages, pages, encodeBase64);
              var r := Processed(document, documentType, includeImages, pages, decodeUtf8, encodeBase64, ocrApi, bankingFields);
              ocrApi(req).Failure? ==> r == Failure(ErrorPrefix + ocrApi(req).error)
  {
  }

  /** An OCR result: the text is the stripped join of the pages, the pages are copied one
      for one, the tables come from the joined text, and the fields are those the banking
      extractor finds in the text. */
  lemma {:induction false} OcrResultShape(document: DocumentInput, documentType: string, includeImages: bool,
                       pages: Option<seq<int>>, decodeUtf8: seq<bv8> -> Result<string>,
                       encodeBase64: seq<bv8> -> string, ocrApi: OcrRequest -> Result<OcrResponse>,
                       bankingFields: string -> seq<(string, string)>)
    requires !IsTextType(documentType)
    requires ocrApi(OcrRequestFor(document, documentType, includeImages, pages, encodeBase64)).Success?
    ensures var response := ocrApi(OcrRequestFor(document, documentType, includeImages, pages, encodeBase64)).value;
            var r := Processed(document, documentType, includeImages, pages, decodeUtf8, encodeBase64, ocrApi, bankingFields);
            && r.Success?
            && r.value.rawText == Strip(ConcatMarkdown(response.pages))
            && |r.value.pages| == |response.pages|
            && (forall k | 0 <= k < |response.pages| :: r.value.pages[k].markdown == response.pages[k].markdown)
            && r.value.tables == TablesOf(ConcatMarkdown(response.pages))
            && r.value.forms == bankingFields(r.value.rawText)
            && r.value.model == response.model
  {
  }

  // ---------------------------------------------------------------------------------
  // Formatting for the classifier
  // ---------------------------------------------------------------------------------

  /** The section headings of the downstream text. */
  const TextHeader: string := "=== DOCUMENT TEXT ==="
  const FieldsHeader: string := "=== EXTRACTED FIELDS ==="
  const TablesHeader: string := "=== TABLES ==="
  const MetadataHeader: string := "=== METADATA ==="

  const HeadersLabel: string := "Headers: "

  /** `f"{field}: {value}"`. */
  function FieldLine(field: string, value: string): string
  {
    field + ": " + value
  }

  /** `f"Table {i}:"`. */
  function TableTitle(n: nat): string
  {
    "Table " + NatToString(n) + ":"
  }

  /** `" | ".join(cells)`. */
  function CellsLine(cells: seq<string>): string
  {
    Join(cells, " | ")
  }

  /** One `field: value` line per extracted field. */
  function FieldLines(forms: seq<(string, string)>): (lines: seq<string>)
    ensures |lines| == |forms|
    ensures forall k | 0 <= k < |forms| :: lines[k] == FieldLine(forms[k].0, forms[k].1)
  {
    if forms == [] then []
    else
      var (field, value) := forms[|forms| - 1];
      FieldLines(forms[..|forms| - 1]) + [FieldLine(field, value)]
  }

  /** One line per row, its cells joined by " | ". */
  function RowLines(rows: seq<seq<string>>): (lines: seq<string>)
    ensures |lines| == |rows|
    ensures forall k | 0 <= k < |rows| :: lines[k] == CellsLine(rows[k])
  {
    if rows == [] then [] else RowLines(rows[..|rows| - 1]) + [CellsLine(rows[|rows| - 1])]
  }

  /** The "Headers:" line, present only when the table has headers. */
  function HeaderLines(t: Table): seq<string>
  {
    if t.headers != [] then [HeadersLabel + CellsLine(t.headers)] else []
  }

  /** The lines of the table numbered `n`: title, headers, rows and a blank line. */
  function TableLines(t: Table, n: nat): seq<string>
  {
    [TableTitle(n)] + HeaderLines(t) + RowLines(t.rows) + [""]
  }

  /** The lines of all tables, numbered from 1 in order. */
  function TablesBody(tables: seq<Table>): seq<string>
  {
    if tables == [] then []
    else TablesBody(tables[..|tables| - 1]) + TableLines(tables[|tables| - 1], |tables|)
  }

  function FieldsSection(forms: seq<(string, string)>): seq<string>
  {
    if forms == [] then [] else [FieldsHeader] + FieldLines(forms) + [""]
  }

  function TablesSection(tables: seq<Table>): seq<string>
  {
    if tables == [] then [] else [TablesHeader] + TablesBody(tables)
  }

  function MetadataLines(s: DocumentStructure): seq<string>
  {
    [ MetadataHeader,
      "Model: " + s.model,
      "Pages Processed: " + IntToString(s.usageInfo.pagesProcessed),
      "Document Size: " + IntToString(s.usageInfo.docSizeBytes) + " bytes" ]
  }

  /** The lines `format_for_downstream` collects before joining them. */
  function FormatLines(s: DocumentStructure): seq<string>
  {
    [TextHeader, s.rawText, ""] + FieldsSection(s.forms) + TablesSection(s.tables) + MetadataLines(s)
  }

  /** The fields loop of `format_for_downstream`: the heading, one line per field and a
      blank line, appended to the lines so far. */
  method AppendFields(formatted: seq<string>, forms: seq<(string, string)>) returns (out: seq<string>)
    requires forms != []
    ensures out == formatted + FieldsSection(forms)
  {
    out := formatted + [FieldsHeader];
    for k := 0 to |forms|
      invariant out == formatted + [FieldsHeader] + FieldLines(forms[..k])
    {
      var (field, value) := forms[k];
      assert forms[..k + 1][..k] == forms[..k];
      ConcatAssoc(formatted + [FieldsHeader], FieldLines(forms[..k]), [FieldLine(field, value)]);
      out := out + [FieldLine(field, value)];
    }
    assert forms[..|forms|] == forms;
    ConcatAssoc(formatted, [FieldsHeader], FieldLines(forms));
    ConcatAssoc(formatted, [FieldsHeader] + FieldLines(forms), [""]);
    out := out + [""];
  }

  /** The body of the tables loop for one table: its title, its headers line if it has
      headers, one line per row and a blank line. */
  method AppendTable(formatted: seq<string>, table: Table, n: nat) returns (out: seq<string>)
    ensures out == formatted + TableLines(table, n)
  {
    out := formatted + [TableTitle(n)];
    if table.headers != [] {
      out := out + [HeadersLabel + CellsLine(table.headers)];
    }
    ghost var head := [TableTitle(n)] + HeaderLines(table);
    ConcatAssoc(formatted, [TableTitle(n)], HeaderLines(table));
    for j := 0 to |table.rows|
      invariant out == formatted + head + RowLines(table.rows[..j])
    {
      assert table.rows[..j + 1][..j] == table.rows[..j];
      ConcatAssoc(formatted + head, RowLines(table.rows[..j]), [CellsLine(table.rows[j])]);
      out := out + [CellsLine(table.rows[j])];
    }
    assert table.rows[..|table.rows|] == table.rows;
    ConcatAssoc(formatted, head, RowLines(table.rows));
    ConcatAssoc(formatted, head + RowLines(table.rows), [""]);
    out := out + [""];
  }

  /** The tables loop of `format_for_downstream`: the heading, then every table numbered
      from 1. */
  method AppendTables(formatted: seq<string>, tables: seq<Table>) returns (out: seq<string>)
    requires tables != []
    ensures out == formatted + TablesSection(tables)
  {
    out := formatted + [TablesHeader];
    for i := 0 to |tables|
      invariant out == formatted + [TablesHeader] + TablesBody(tables[..i])
    {
      assert tables[..i + 1][..i] == tables[..i];
      ConcatAssoc(formatted + [TablesHeader], TablesBody(tables[..i]), TableLines(tables[i], i + 1));
      out := AppendTable(out, tables[i], i + 1);
    }
    assert tables[..|tables|] == tables;
    ConcatAssoc(formatted, [TablesHeader], TablesBody(tables));
  }

  /** `format_for_downstream(structure)`: the sections as lines, joined by "\n". */
  method FormatForDownstream(s: DocumentStructure) returns (out: string)
    ensures out == Join(FormatLines(s), "\n")
  {
    var formatted := [TextHeader, s.rawText, ""];
    if s.forms != [] {
      formatted := AppendFields(formatted, s.forms);
    }
    assert formatted == [TextHeader, s.rawText, ""] + FieldsSection(s.forms);
    if s.tables != [] {
      formatted := AppendTables(formatted, s.tables);
    }
    assert formatted == [TextHeader, s.rawText, ""] + FieldsSection(s.forms) + TablesSection(s.tables);
    formatted := formatted + MetadataLines(s);
    out := Join(formatted, "\n");
  }

  /** The section order: the document text first; then the fields, one line each, if
      there are any; then the tables if there are any; the metadata lines last. */
  lemma {:induction false} FormatLayout(s: DocumentStructure)
    ensures var lines := FormatLines(s);
            && |lines| >= 7
            && lines[0] == TextHeader && lines[1] == s.rawText && lines[2] == ""
            && lines[3] == (if s.forms != [] then FieldsHeader
                            else if s.tables != [] then TablesHeader
                            else MetadataHeader)
            && (forall k | 0 <= k < |s.forms| :: lines[4 + k] == FieldLine(s.forms[k].0, s.forms[k].1))
            && lines[3 + |FieldsSection(s.forms)|] == (if s.tables != [] then TablesHeader else MetadataHeader)
            && lines[|lines| - 4] == MetadataHeader
            && lines[|lines| - 3] == "Model: " + s.model
            && lines[|lines| - 2] == "Pages Processed: " + IntToString(s.usageInfo.pagesProcessed)
            && lines[|lines| - 1] == "Document Size: " + IntToString(s.usageInfo.docSizeBytes) + " bytes"
  {
    var lines := FormatLines(s);
    var head := [TextHeader, s.rawText, ""] + FieldsSection(s.forms);
    assert lines == head + TablesSection(s.tables) + MetadataLines(s);
    if s.forms != [] {
      assert |FieldsSection(s.forms)| == |s.forms| + 2;
      forall k | 0 <= k < |s.forms|
        ensures lines[4 + k] == FieldLine(s.forms[k].0, s.forms[k].1)
      {
        assert lines[4 + k] == FieldsSection(s.forms)[1 + k];
      }
    }
    assert lines[|head|] == (if s.tables != [] then TablesHeader else MetadataHeader);
  }

  /** The tables before table `k` render to a prefix of all the tables' lines. */
  lemma {:induction false} TablesBodyPrefix(tables: seq<Table>, k: nat)
    requires k <= |tables|
    ensures TablesBody(tables[..k]) <= TablesBody(tables)
    decreases |tables| - k
  {
    if k < |tables| {
      TablesBodyPrefix(tables, k + 1);
      assert tables[..k + 1][..k] == tables[..k];
      assert TablesBody(tables[..k + 1]) == TablesBody(tables[..k]) + TableLines(tables[k], k + 1);
    } else {
      assert tables[..k] == tables;
    }
  }

  /** Tables are numbered from 1 in order: the block of the table at position `k` starts
      with the line "Table k+1:". */
  lemma {:induction false} TableNumbering(tables: seq<Table>, k: nat)
    requires k < |tables|
    ensures var at := |TablesBody(tables[..k])|;
            at < |TablesBody(tables)| && TablesBody(tables)[at] == TableTitle(k + 1)
  {
    TablesBodyPrefix(tables, k + 1);
    assert tables[..k + 1][..k] == tables[..k];
    assert TablesBody(tables[..k + 1]) == TablesBody(tables[..k]) + TableLines(tables[k], k + 1);
  }

  /** A text passthrough formats as the text followed directly by its metadata: no
      fields section and no tables section. */
  lemma {:induction false} PassthroughFormat(text: string)
    ensures FormatLines(TextPassthrough(text)) == [TextHeader, text, ""] + MetadataLines(TextPassthrough(text))
  {
    var s := TextPassthrough(text);
    assert FieldsSection(s.forms) == [] && TablesSection(s.tables) == [];
  }


}
