/** Text written one chunk per element, and the lines in it. */
module Chunked {
  /** chunk(x) for every element x, in order. */
  function Chunks<T>(elems: seq<T>, chunk: T -> string): string
  {
    if elems == [] then []
    else Chunks(elems[..|elems| - 1], chunk) + chunk(elems[|elems| - 1])
  }

  /** Writing the chunks of a + b is writing those of a, then those of b. */
  lemma {:induction false} ChunksAppend<T>(a: seq<T>, b: seq<T>, chunk: T -> string)
    ensures Chunks(a + b, chunk) == Chunks(a, chunk) + Chunks(b, chunk)
    decreases |b|
  {
    if b == [] {
      assert a + b == a;
    } else {
      var b' := b[..|b| - 1];
      ChunksAppend(a, b', chunk);
      assert (a + b)[..|a + b| - 1] == a + b';
    }
  }

  /** The chunks come in the order of the elements: the i-th element's chunk
      stands between the chunks of the elements before it and those of the
      elements after it. */
  lemma ChunksInOrder<T>(elems: seq<T>, i: nat, chunk: T -> string)
    requires i < |elems|
    ensures Chunks(elems, chunk)
         == Chunks(elems[..i], chunk) + chunk(elems[i]) + Chunks(elems[i + 1..], chunk)
  {
    var upto, post := elems[..i + 1], elems[i + 1..];
    calc {
      Chunks(elems, chunk);
      { assert elems == upto + post; }
      Chunks(upto + post, chunk);
      { ChunksAppend(upto, post, chunk); }
      Chunks(upto, chunk) + Chunks(post, chunk);
      { assert upto[..i] == elems[..i]; }
      Chunks(elems[..i], chunk) + chunk(elems[i]) + Chunks(post, chunk);
    }
  }

  // ---------------------------------------------------------------------
  // Lines

  /** The number of '\n' in s. */
  function NewlineCount(s: string): nat
  {
    if s == [] then 0 else (if s[0] == '\n' then 1 else 0) + NewlineCount(s[1..])
  }

  predicate NoNewline(s: string) { forall i :: 0 <= i < |s| ==> s[i] != '\n' }

  /** A line: text whose only '\n' is its last character. */
  predicate IsLine(s: string) { s != [] && s[|s| - 1] == '\n' && NoNewline(s[..|s| - 1]) }

  lemma {:induction false} NewlineCountAppend(a: string, b: string)
    ensures NewlineCount(a + b) == NewlineCount(a) + NewlineCount(b)
  {
    if a == [] {
      assert a + b == b;
    } else {
      assert (a + b)[1..] == a[1..] + b;
      NewlineCountAppend(a[1..], b);
    }
  }

  lemma {:induction false} NoNewlineCount(s: string)
    requires NoNewline(s)
    ensures NewlineCount(s) == 0
  {
    if s != [] {
      NoNewlineCount(s[1..]);
    }
  }

  lemma LineCount(s: string)
    requires IsLine(s)
    ensures NewlineCount(s) == 1
  {
    assert s == s[..|s| - 1] + "\n";
    NewlineCountAppend(s[..|s| - 1], "\n");
    NoNewlineCount(s[..|s| - 1]);
  }

  /** One line per record gives as many lines as elems. */
  lemma {:induction false} ChunkLines<T>(elems: seq<T>, chunk: T -> string)
    requires forall i :: 0 <= i < |elems| ==> IsLine(chunk(elems[i]))
    ensures NewlineCount(Chunks(elems, chunk)) == |elems|
    decreases |elems|
  {
    if elems != [] {
      var k := |elems| - 1;
      ChunkLines(elems[..k], chunk);
      NewlineCountAppend(Chunks(elems[..k], chunk), chunk(elems[k]));
      LineCount(chunk(elems[k]));
    }
  }

  /** Text made of newline-free pieces and a final '\n' is a line. */
  lemma LineOfPieces(body: string)
    requires NoNewline(body)
    ensures IsLine(body + "\n")
  {
    assert (body + "\n")[..|body|] == body;
  }

}

/** The streaming writers of gerador_links_advanced_auth.py, and
    route_writer, which picks one of them by name.

    A writer consumes the records the generator yields. The generator is
    lazy, so its own checks only run when the writer asks for the first
    record: by then the writer has written its opening framing. When the
    generator raises, the writer has written that framing and the records
    before the exception; it passes the exception on and never writes its
    closing framing. json.dumps and csv.writer's row formatting are opaque
    here: they are passed in as functions, and what is modelled is the
    framing around them, the order of the records and their count. */
module Writers {
  import opened Wrappers
  import opened Text
  import opened Ranges
  import opened Links
  import opened Generator
  import opened Chunked

  /** A text file opened for writing. */
  class OutputFile {
    /** Everything written to the file so far. */
    var text: string

    constructor ()
      ensures text == []
    {
      text := [];
    }

    /** file_obj.write(s). */
    method Write(s: string)
      modifies this
      ensures text == old(text) + s
    {
      text := text + s;
    }
  }

  // ---------------------------------------------------------------------
  // Framing

  /** What a writer that frames one chunk per record leaves in the file:
      its opening framing, the chunks of the records yielded, and its
      closing framing only when the records ran out without an exception. */
  function Framed(head: string, items: LinkStream, chunk: LinkRecord -> string, foot: string): string
  {
    head + Body(items, chunk, foot)
  }

  /** The chunks of the records yielded, then the closing framing unless
      the generator raised. */
  function Body(items: LinkStream, chunk: LinkRecord -> string, foot: string): string
  {
    Chunks(items.records, chunk) + (if items.failure.None? then foot else [])
  }

  /** What a writer returns: nothing, or the exception of the generator,
      passed on. */
  function Passed(items: LinkStream): (r: Outcome<Error>)
    ensures r.Pass? <==> items.failure.None?
    ensures r.Fail? ==> items.failure == Some(r.error)
  {
    if items.failure.None? then Pass else Fail(items.failure.value)
  }

  /** The loop every writer but the JSON-array one runs: one write of
      chunk(it) for each record it, in order; then, when the records ran
      out without an exception, the closing framing, if the writer has one.
      The generator's exception is passed on. */
  method WriteBody(items: LinkStream, f: OutputFile, chunk: LinkRecord -> string, foot: string)
    returns (r: Outcome<Error>)
    modifies f
    ensures f.text == old(f.text) + Body(items, chunk, foot)
    ensures r == Passed(items)
  {
    var records := items.records;
    var i := 0;
    while i < |records|
      invariant 0 <= i <= |records|
      invariant f.text == old(f.text) + Chunks(records[..i], chunk)
    {
      assert records[..i + 1][..i] == records[..i];
      f.Write(chunk(records[i]));
      i := i + 1;
    }
    assert records[..i] == records;
    if items.failure.Some? {
      assert Body(items, chunk, foot) == Chunks(records, chunk) + [];
      return Fail(items.failure.value);
    }
    if foot != [] {
      f.Write(foot);
    }
    return Pass;
  }

  // ---------------------------------------------------------------------
  // write_txt_stream

  /** "label -> url\n" for one record. */
  function TxtLine(r: LinkRecord): string
  {
    r.labelText + " -> " + r.url + "\n"
  }

  function TxtText(items: LinkStream): string
  {
    Framed([], items, TxtLine, [])
  }

  /** write_txt_stream: one line per record. */
  method WriteTxt(items: LinkStream, f: OutputFile) returns (r: Outcome<Error>)
    modifies f
    ensures f.text == old(f.text) + TxtText(items)
    ensures r == Passed(items)
  {
    r := WriteBody(items, f, TxtLine, []);
  }

  /** The text file holds exactly one line per record, the i-th record's
      line in i-th place, when no label or URL holds a newline. */
  lemma TxtOneLinePerRecord(items: LinkStream, i: nat)
    requires forall j :: 0 <= j < |items.records| ==>
               NoNewline(items.records[j].labelText) && NoNewline(items.records[j].url)
    requires i < |items.records|
    ensures NewlineCount(TxtText(items)) == |items.records|
    ensures TxtText(items) == Chunks(items.records[..i], TxtLine) + TxtLine(items.records[i])
                              + Chunks(items.records[i + 1..], TxtLine)
  {
    forall j | 0 <= j < |items.records|
      ensures IsLine(TxtLine(items.records[j]))
    {
      var r := items.records[j];
      var body := r.labelText + " -> " + r.url;
      assert NoNewline(body) by {
        assert forall c :: 0 <= c < |body| ==>
          body[c] == (if c < |r.labelText| then r.labelText[c]
                      else if c < |r.labelText| + 4 then " -> "[c - |r.labelText|]
                      else r.url[c - |r.labelText| - 4]);
      }
      LineOfPieces(body);
      assert TxtLine(r) == body + "\n";
    }
    ChunkLines(items.records, TxtLine);
    ChunksInOrder(items.records, i, TxtLine);
    assert TxtText(items) == Chunks(items.records, TxtLine);
  }

  // ---------------------------------------------------------------------
  // write_ndjson_stream

  /** json.dumps(it) followed by a newline. */
  function NdjsonChunk(dumps: LinkRecord -> string): LinkRecord -> string
  {
    r => dumps(r) + "\n"
  }

  function NdjsonText(items: LinkStream, dumps: LinkRecord -> string): string
  {
    Framed([], items, NdjsonChunk(dumps), [])
  }

  /** write_ndjson_stream: one serialised record per line. */
  method WriteNdjson(items: LinkStream, f: OutputFile, dumps: LinkRecord -> string) returns (r: Outcome<Error>)
    modifies f
    ensures f.text == old(f.text) + NdjsonText(items, dumps)
    ensures r == Passed(items)
  {
    r := WriteBody(items, f, NdjsonChunk(dumps), []);
  }

  /** When the serialiser writes no newline, the stream holds one line per
      record. */
  lemma NdjsonOneLinePerRecord(items: LinkStream, dumps: LinkRecord -> string)
    requires forall j :: 0 <= j < |items.records| ==> NoNewline(dumps(items.records[j]))
    ensures NewlineCount(NdjsonText(items, dumps)) == |items.records|
  {
    forall j | 0 <= j < |items.records|
      ensures IsLine(NdjsonChunk(dumps)(items.records[j]))
    {
      LineOfPieces(dumps(items.records[j]));
    }
    ChunkLines(items.records, NdjsonChunk(dumps));
    assert NdjsonText(items, dumps) == Chunks(items.records, NdjsonChunk(dumps));
  }

  // ---------------------------------------------------------------------
  // write_json_array_stream

  /** The records serialised and separated by ",\n": a separator is written
      before every record but the first. */
  function JsonItems(records: seq<LinkRecord>, dumps: LinkRecord -> string): string
  {
    if records == [] then []
    else if |records| == 1 then dumps(records[0])
    else JsonItems(records[..|records| - 1], dumps) + ",\n" + dumps(records[|records| - 1])
  }

  /** "[\n", the items, and "\n]\n" when the records ran out normally. */
  function JsonArrayText(items: LinkStream, dumps: LinkRecord -> string): string
  {
    "[\n" + JsonItems(items.records, dumps) + (if items.failure.None? then "\n]\n" else [])
  }

  /** write_json_array_stream: the `first` flag holds until the first record
      is written, and every later record is preceded by ",\n". */
  method WriteJsonArray(items: LinkStream, f: OutputFile, dumps: LinkRecord -> string) returns (r: Outcome<Error>)
    modifies f
    ensures f.text == old(f.text) + JsonArrayText(items, dumps)
    ensures r == Passed(items)
  {
    var records := items.records;
    var first := true;
    f.Write("[\n");
    ghost var start := f.text;
    var i := 0;
    while i < |records|
      invariant 0 <= i <= |records|
      invariant first <==> i == 0
      invariant f.text == start + JsonItems(records[..i], dumps)
    {
      ghost var sofar := JsonItems(records[..i], dumps);
      JsonItemsStep(records, i, dumps);
      if !first {
        f.Write(",\n");
        AppendTwice(start, sofar, ",\n");
      }
      ghost var sep := if first then [] else sofar + ",\n";
      assert f.text == start + sep;
      f.Write(dumps(records[i]));
      AppendTwice(start, sep, dumps(records[i]));
      first := false;
      i := i + 1;
    }
    assert records[..i] == records;
    if items.failure.Some? {
      return Fail(items.failure.value);
    }
    f.Write("\n]\n");
    return Pass;
  }

  lemma JsonItemsStep(records: seq<LinkRecord>, i: nat, dumps: LinkRecord -> string)
    requires i < |records|
    ensures JsonItems(records[..i + 1], dumps) ==
            (if i == 0 then [] else JsonItems(records[..i], dumps) + ",\n") + dumps(records[i])
  {
    var p := records[..i + 1];
    assert p[..|p| - 1] == records[..i] && p[|p| - 1] == records[i];
  }

  /** ",\n" followed by the serialised record. */
  function SeparatedChunk(dumps: LinkRecord -> string): LinkRecord -> string
  {
    r => ",\n" + dumps(r)
  }

  /** The array's items read the other way round: the first record alone,
      then ",\n" and a record for each of the rest. */
  lemma {:induction false} JsonItemsSeparated(records: seq<LinkRecord>, dumps: LinkRecord -> string)
    requires records != []
    ensures JsonItems(records, dumps) == dumps(records[0]) + Chunks(records[1..], SeparatedChunk(dumps))
    decreases |records|
  {
    if |records| > 1 {
      var k := |records| - 1;
      var init := records[..k];
      JsonItemsSeparated(init, dumps);
      assert init[0] == records[0];
      assert records[1..][..k - 1] == init[1..];
      assert Chunks(records[1..], SeparatedChunk(dumps))
          == Chunks(init[1..], SeparatedChunk(dumps)) + SeparatedChunk(dumps)(records[k]);
    } else {
      assert records[1..] == [];
    }
  }

  /** When the serialiser writes no newline, k records are joined by exactly
      k - 1 separators: the items hold k - 1 newlines. */
  lemma {:induction false} JsonSeparatorCount(records: seq<LinkRecord>, dumps: LinkRecord -> string)
    requires records != []
    requires forall j :: 0 <= j < |records| ==> NoNewline(dumps(records[j]))
    ensures NewlineCount(JsonItems(records, dumps)) == |records| - 1
    decreases |records|
  {
    var k := |records| - 1;
    NoNewlineCount(dumps(records[k]));
    if k > 0 {
      JsonSeparatorCount(records[..k], dumps);
      var init := JsonItems(records[..k], dumps);
      NewlineCountAppend(init + ",\n", dumps(records[k]));
      NewlineCountAppend(init, ",\n");
      assert NewlineCount(",\n") == 1;
    }
  }

  /** With no records the array is "[\n\n]\n". */
  lemma JsonArrayEmpty(dumps: LinkRecord -> string)
    ensures JsonArrayText(Emitted([], None), dumps) == "[\n\n]\n"
  {
  }

  // ---------------------------------------------------------------------
  // write_html_stream

  /** The page up to the opening <ul>, with the title escaped. */
  function HtmlHead(title: string): string
  {
    HtmlPreamble + HtmlTitle(title)
  }

  /** The first write of the HTML writer. */
  const HtmlPreamble: string := "<!doctype html>\n<html lang='pt-BR'>\n<head>\n<meta charset='utf-8'>\n"

  /** The second write: the escaped title, then the opening of the list. */
  function HtmlTitle(title: string): string
  {
    "<title>" + HtmlEscape(title) + "</title>\n</head>\n<body>\n<ul>\n"
  }

  /** The text before a record's URL in its list item. */
  const HrefOpen: string := "  <li><a href=\""

  /** One list item: a link to the escaped URL, labelled with the record's
      label (escaped already by the generator). */
  function HtmlItem(r: LinkRecord): string
  {
    HrefOpen + HtmlEscape(r.url) + "\">" + r.labelText + "</a></li>\n"
  }

  const HtmlFoot: string := "</ul>\n</body>\n</html>\n"

  function HtmlText(items: LinkStream, title: string): string
  {
    Framed(HtmlHead(title), items, HtmlItem, HtmlFoot)
  }

  /** The two writes write_html_stream makes before its loop. */
  method WriteHtmlHead(f: OutputFile, title: string)
    modifies f
    ensures f.text == old(f.text) + HtmlHead(title)
  {
    ghost var before := f.text;
    var preamble, heading := HtmlPreamble, HtmlTitle(title);
    f.Write(preamble);
    f.Write(heading);
    AppendTwice(before, preamble, heading);
  }

  lemma AppendTwice(s: string, a: string, b: string)
    ensures s + a + b == s + (a + b)
  {
  }

  /** write_html_stream. */
  method WriteHtml(items: LinkStream, f: OutputFile, title: string) returns (r: Outcome<Error>)
    modifies f
    ensures f.text == old(f.text) + HtmlText(items, title)
    ensures r == Passed(items)
  {
    ghost var before := f.text;
    WriteHtmlHead(f, title);
    r := WriteBody(items, f, HtmlItem, HtmlFoot);
    AppendTwice(before, HtmlHead(title), Body(items, HtmlItem, HtmlFoot));
  }

  /** A URL cannot leave its href attribute: the first '"' after the one
      that opens the attribute is the one the writer puts after the URL. */
  lemma HtmlHrefClosed(r: LinkRecord)
    ensures var item := HtmlItem(r);
            var u := HtmlEscape(r.url);
            |HrefOpen| + |u| < |item| && item[|HrefOpen| + |u|] == '"'
            && forall j :: |HrefOpen| <= j < |HrefOpen| + |u| ==> item[j] != '"'
  {
    var u := HtmlEscape(r.url);
    HtmlEscapeHasNoSpecials(r.url);
    var item := HtmlItem(r);
    assert item == HrefOpen + u + ("\">" + r.labelText + "</a></li>\n");
    forall j | |HrefOpen| <= j < |HrefOpen| + |u|
      ensures item[j] != '"'
    {
      assert item[j] == u[j - |HrefOpen|];
      assert !IsHtmlSpecial(u[j - |HrefOpen|]);
    }
  }

  /** The title cannot break out of the <title> element, nor the page's
      markup: its escaped text holds no raw <, >, " or '. */
  lemma HtmlTitleEscaped(title: string)
    ensures HtmlHead(title) == HtmlPreamble + "<title>" + HtmlEscape(title) + "</title>\n</head>\n<body>\n<ul>\n"
    ensures forall j :: 0 <= j < |HtmlEscape(title)| ==> !IsHtmlSpecial(HtmlEscape(title)[j])
  {
    HtmlEscapeHasNoSpecials(title);
  }

  // ---------------------------------------------------------------------
  // write_csv_stream

  /** A row of cells as csv.writer writes it (quoting and line terminator
      included); opaque here. */
  type CsvRow = seq<string> -> string

  const CsvHeader: seq<string> := ["n", "url", "label"]

  /** The row of one record: its number as str(n), its URL, its label. */
  function CsvChunk(row: CsvRow): LinkRecord -> string
  {
    (r: LinkRecord) => row([IntToString(r.n), r.url, r.labelText])
  }

  function CsvText(items: LinkStream, row: CsvRow): string
  {
    Framed(row(CsvHeader), items, CsvChunk(row), [])
  }

  /** write_csv_stream: the header row, then one row per record. */
  method WriteCsv(items: LinkStream, f: OutputFile, row: CsvRow) returns (r: Outcome<Error>)
    modifies f
    ensures f.text == old(f.text) + CsvText(items, row)
    ensures r == Passed(items)
  {
    f.Write(row(CsvHeader));
    r := WriteBody(items, f, CsvChunk(row), []);
  }

  /** The header row comes first and the i-th record's row stands in i-th
      place after it. */
  lemma CsvRowsInOrder(items: LinkStream, row: CsvRow, i: nat)
    requires i < |items.records|
    ensures CsvText(items, row)
         == row(CsvHeader) + Chunks(items.records[..i], CsvChunk(row))
            + row([IntToString(items.records[i].n), items.records[i].url, items.records[i].labelText])
            + Chunks(items.records[i + 1..], CsvChunk(row))
  {
    ChunksInOrder(items.records, i, CsvChunk(row));
  }

  // ---------------------------------------------------------------------
  // route_writer

  datatype OutputFormat = Html | Csv | Ndjson | Json | Txt

  /** The names route_writer knows, lower case. */
  const WriterNames: map<string, OutputFormat> :=
    map["html" := Html, "csv" := Csv, "ndjson" := Ndjson, "json" := Json, "txt" := Txt]

  /** The ValueError route_writer raises for a name it does not know. */
  datatype RouteError = UnknownFormat(name: string)

  /** The lower-case name of each format. */
  function FormatName(format: OutputFormat): string
  {
    match format
    case Html => "html"
    case Csv => "csv"
    case Ndjson => "ndjson"
    case Json => "json"
    case Txt => "txt"
  }

  /** route_writer: the writer named by format_name, lowered; any other
      name is an error naming what was asked for. */
  function RouteWriter(formatName: string): (r: Result<OutputFormat, RouteError>)
    ensures r.Failure? ==> r.error == UnknownFormat(formatName)
  {
    var key := AsciiLower(formatName);
    if key in WriterNames then Success(WriterNames[key]) else Failure(UnknownFormat(formatName))
  }

  lemma {:induction false} AsciiLowerOfLower(s: string)
    requires forall i :: 0 <= i < |s| ==> !('A' <= s[i] <= 'Z')
    ensures AsciiLower(s) == s
  {
  }

  /** route_writer accepts a name exactly when, lowered, it is the name of
      one of the five formats, and then picks that format. */
  lemma RouteWriterIff(formatName: string)
    ensures RouteWriter(formatName).Success? <==>
            exists format: OutputFormat :: AsciiLower(formatName) == FormatName(format)
    ensures RouteWriter(formatName).Success? ==>
            FormatName(RouteWriter(formatName).value) == AsciiLower(formatName)
  {
    var key := AsciiLower(formatName);
    if key in WriterNames {
      assert key == FormatName(WriterNames[key]);
    } else {
      forall format: OutputFormat
        ensures key != FormatName(format)
      {
        assert FormatName(format) in WriterNames;
      }
    }
  }

  /** Each format is reached by its own name. */
  lemma RouteWriterRoundTrip(format: OutputFormat)
    ensures RouteWriter(FormatName(format)) == Success(format)
  {
    AsciiLowerOfLower(FormatName(format));
  }

  /** route_writer ignores case: names that lower alike pick the same writer
      or are both refused. */
  lemma RouteWriterIgnoresCase(a: string, b: string)
    requires AsciiLower(a) == AsciiLower(b)
    ensures RouteWriter(a).Success? == RouteWriter(b).Success?
    ensures RouteWriter(a).Success? ==> RouteWriter(a).value == RouteWriter(b).value
  {
  }

  lemma RouteWriterUpperCase()
    ensures RouteWriter("JSON") == Success(Json)
    ensures RouteWriter("Html") == Success(Html)
    ensures RouteWriter("xml") == Failure(UnknownFormat("xml"))
  {
    assert AsciiLower("JSON") == "json";
    assert AsciiLower("Html") == "html";
    assert AsciiLower("xml") == "xml";
  }

  // ---------------------------------------------------------------------
  // Running the writer that was picked

  /** The HTML writer's title when the caller gives none. */
  const DefaultTitle: string := "Links"

  /** What the writer of `format` leaves in the file, called as
      writer(items, f). */
  function WriterText(format: OutputFormat, items: LinkStream, dumps: LinkRecord -> string, row: CsvRow): string
  {
    match format
    case Html => HtmlText(items, DefaultTitle)
    case Csv => CsvText(items, row)
    case Ndjson => NdjsonText(items, dumps)
    case Json => JsonArrayText(items, dumps)
    case Txt => TxtText(items)
  }

  /** The writer's opening framing: what it writes before it asks the
      generator for a record. */
  function OpeningText(format: OutputFormat, row: CsvRow): string
  {
    match format
    case Html => HtmlHead(DefaultTitle)
    case Csv => row(CsvHeader)
    case Ndjson => []
    case Json => "[\n"
    case Txt => []
  }

  /** writer(items, f) for the writer route_writer picked. */
  method RunWriter(format: OutputFormat, items: LinkStream, f: OutputFile,
                   dumps: LinkRecord -> string, row: CsvRow) returns (r: Outcome<Error>)
    modifies f
    ensures f.text == old(f.text) + WriterText(format, items, dumps, row)
    ensures r == Passed(items)
  {
    match format
    case Html => r := WriteHtml(items, f, DefaultTitle);
    case Csv => r := WriteCsv(items, f, row);
    case Ndjson => r := WriteNdjson(items, f, dumps);
    case Json => r := WriteJsonArray(items, f, dumps);
    case Txt => r := WriteTxt(items, f);
  }

  /** When gerar_links_iter rejects its arguments or a template, the writer
      that consumes it has written its opening framing and nothing more:
      the generator raises on the first request for a record, before any
      record and before any closing framing. */
  lemma RejectedRunWritesOpeningOnly(format: OutputFormat, tb: string, start: int, end: int, pad: int,
                                     step: int, lt: string, maxRange: Option<int>,
                                     dumps: LinkRecord -> string, row: CsvRow)
    requires ArgumentFailure(tb, start, end, step, lt, maxRange).Some?
    ensures WriterText(format, GeneratedLinks(tb, start, end, pad, step, lt, maxRange), dumps, row)
            == OpeningText(format, row)
    ensures Passed(GeneratedLinks(tb, start, end, pad, step, lt, maxRange))
            == Fail(ArgumentFailure(tb, start, end, step, lt, maxRange).value)
  {
    var items := GeneratedLinks(tb, start, end, pad, step, lt, maxRange);
    assert items == Emitted([], ArgumentFailure(tb, start, end, step, lt, maxRange));
  }
}
