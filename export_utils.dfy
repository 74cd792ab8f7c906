/** The CSV export: a header line and one comma-joined line per document behind a
    `data:` URL prefix, together with a reader for the grammar of section 2 of RFC 4180
    used to say what such a reader makes of the exported text. */
module ExportUtils {
  import opened Types
  import opened Lists
  import opened Text

  const CsvPrefix: string := "data:text/csv;charset=utf-8,"

  const Headers: seq<string> := ["Type", "Name", "Date", "Amount", "Currency", "Tax", "Category", "Summary"]

  /** `replace(/"/g, '""')`: every double quote doubled. */
  function Doubled(s: string): (r: string)
    ensures '"' !in s ==> r == s
    ensures |r| >= |s|
  {
    if s == [] then []
    else (if s[0] == '"' then "\"\"" else [s[0]]) + Doubled(s[1..])
  }

  function Quoted(s: string): string
  {
    "\"" + s + "\""
  }

  /** The eight cells of a document's line as the export writes them: vendor in quotes
      without doubling, summary in quotes with doubling, everything else bare. */
  function RowCells(d: DocumentRecord): seq<string>
  {
    [DocTypeName(d.docType), Quoted(d.vendor), d.date, d.amount, d.currency, d.tax, d.category,
     Quoted(Doubled(d.summary))]
  }

  function Row(d: DocumentRecord): string
  {
    Join(RowCells(d), ",")
  }

  function HeaderLine(): string
  {
    Join(Headers, ",")
  }

  /** The text after the `data:` prefix. */
  function CsvBody(docs: seq<DocumentRecord>): string
  {
    HeaderLine() + "\n" + Join(Map(docs, Row), "\n")
  }

  /** `csvContent` as the export builds it. */
  function CsvContent(docs: seq<DocumentRecord>): (r: string)
    ensures StartsWith(r, CsvPrefix)
  {
    CsvPrefix + CsvBody(docs)
  }

  /** The values a document's line is meant to carry, in header order. */
  function Values(d: DocumentRecord): (r: seq<string>)
    ensures |r| == |Headers|
  {
    [DocTypeName(d.docType), d.vendor, d.date, d.amount, d.currency, d.tax, d.category, d.summary]
  }

  // ----- an RFC 4180 reader (line feed as the record separator) -----

  datatype Scan<T> = Fail | Done(value: T, rest: string)

  predicate PlainChar(c: char)
  {
    c != ',' && c != '"' && c != '\n'
  }

  /** Text that may stand in a field without quotes. */
  predicate PlainSafe(s: string)
  {
    forall i :: 0 <= i < |s| ==> PlainChar(s[i])
  }

  predicate AtFieldEnd(rest: string)
  {
    rest == [] || rest[0] == ',' || rest[0] == '\n'
  }

  predicate AtRecordEnd(rest: string)
  {
    rest == [] || rest[0] == '\n'
  }

  /** An unquoted field: everything up to the next comma or line feed; a quote inside it is an error. */
  function ReadPlain(s: string): (r: Scan<string>)
    ensures r.Done? ==> |r.rest| <= |s| && AtFieldEnd(r.rest)
  {
    if AtFieldEnd(s) then Done("", s)
    else if s[0] == '"' then Fail
    else match ReadPlain(s[1..])
      case Fail => Fail
      case Done(v, rest) => Done([s[0]] + v, rest)
  }

  /** The inside of a quoted field, after its opening quote: a doubled quote stands for one
      quote, a single quote closes the field. */
  function ReadQuoted(s: string): (r: Scan<string>)
    ensures r.Done? ==> |r.rest| < |s|
  {
    if s == [] then Fail
    else if s[0] == '"' then
      if |s| >= 2 && s[1] == '"' then
        match ReadQuoted(s[2..])
        case Fail => Fail
        case Done(v, rest) => Done("\"" + v, rest)
      else Done("", s[1..])
    else match ReadQuoted(s[1..])
      case Fail => Fail
      case Done(v, rest) => Done([s[0]] + v, rest)
  }

  function ReadField(s: string): (r: Scan<string>)
    ensures r.Done? ==> |r.rest| <= |s|
  {
    if s != [] && s[0] == '"' then ReadQuoted(s[1..]) else ReadPlain(s)
  }

  /** The comma-separated fields of one record; the rest is empty or starts at the line feed. */
  function ReadRecord(s: string): (r: Scan<seq<string>>)
    ensures r.Done? ==> |r.rest| <= |s| && AtRecordEnd(r.rest) && |r.value| >= 1
    decreases |s|
  {
    match ReadField(s)
    case Fail => Fail
    case Done(v, rest) =>
      if AtRecordEnd(rest) then Done([v], rest)
      else if rest[0] == ',' then
        match ReadRecord(rest[1..])
        case Fail => Fail
        case Done(vs, rest2) => Done([v] + vs, rest2)
      else Fail
  }

  /** All records of a text, or `None` when it is not valid CSV. */
  function ParseCsv(s: string): (r: Option<seq<seq<string>>>)
    ensures r.Some? ==> |r.value| >= 1
    decreases |s|
  {
    match ReadRecord(s)
    case Fail => None
    case Done(record, rest) =>
      if rest == [] then Some([record])
      else match ParseCsv(rest[1..])
        case None => None
        case Some(records) => Some([record] + records)
  }

  // ----- what the reader makes of written text -----

  /** `cell` is a correct spelling of `value`: bare when that is safe, or quoted with its
      quotes doubled. */
  predicate Encodes(cell: string, value: string)
  {
    (cell == value && PlainSafe(value)) || cell == Quoted(Doubled(value))
  }

  lemma {:induction false} ReadPlainSafe(x: string, rest: string)
    requires PlainSafe(x) && AtFieldEnd(rest)
    ensures ReadPlain(x + rest) == Done(x, rest)
  {
    if x == [] {
      assert x + rest == rest;
    } else {
      assert (x + rest)[1..] == x[1..] + rest;
      ReadPlainSafe(x[1..], rest);
      assert x == [x[0]] + x[1..];
    }
  }

  lemma DoubledStep(x: string, rest: string)
    requires x != []
    ensures Doubled(x) + "\"" + rest == (if x[0] == '"' then "\"\"" else [x[0]]) + (Doubled(x[1..]) + "\"" + rest)
  {
  }

  lemma ReadQuotedPair(tail: string, v: string, rest: string)
    requires ReadQuoted(tail) == Done(v, rest)
    ensures ReadQuoted("\"\"" + tail) == Done("\"" + v, rest)
  {
    assert ("\"\"" + tail)[2..] == tail;
  }

  lemma ReadQuotedChar(c: char, tail: string, v: string, rest: string)
    requires c != '"' && ReadQuoted(tail) == Done(v, rest)
    ensures ReadQuoted([c] + tail) == Done([c] + v, rest)
  {
    assert ([c] + tail)[1..] == tail;
  }

  /** Halving the doubled quotes and dropping the closing quote gives the value back. */
  lemma {:induction false} ReadQuotedDoubled(x: string, rest: string)
    requires rest == [] || rest[0] != '"'
    ensures ReadQuoted(Doubled(x) + "\"" + rest) == Done(x, rest)
  {
    var s := Doubled(x) + "\"" + rest;
    if x == [] {
      assert s == "\"" + rest;
      assert s[1..] == rest;
    } else {
      var tail := Doubled(x[1..]) + "\"" + rest;
      ReadQuotedDoubled(x[1..], rest);
      DoubledStep(x, rest);
      if x[0] == '"' {
        assert s == "\"\"" + tail;
        ReadQuotedPair(tail, x[1..], rest);
        assert "\"" + x[1..] == x;
      } else {
        assert s == [x[0]] + tail;
        ReadQuotedChar(x[0], tail, x[1..], rest);
        assert [x[0]] + x[1..] == x;
      }
    }
  }

  lemma ReadFieldEncoded(cell: string, value: string, rest: string)
    requires Encodes(cell, value) && AtFieldEnd(rest)
    ensures ReadField(cell + rest) == Done(value, rest)
  {
    if cell == value && PlainSafe(value) {
      ReadPlainSafe(value, rest);
      if value != [] { assert (cell + rest)[0] == value[0]; }
    } else {
      var s := Quoted(Doubled(value)) + rest;
      assert s[0] == '"';
      assert s[1..] == Doubled(value) + "\"" + rest;
      ReadQuotedDoubled(value, rest);
    }
  }

  /** A comma-joined line of correctly spelled cells reads back as their values. */
  lemma {:induction false} ReadRecordEncoded(cells: seq<string>, values: seq<string>, rest: string)
    requires |cells| == |values| >= 1
    requires forall i :: 0 <= i < |cells| ==> Encodes(cells[i], values[i])
    requires AtRecordEnd(rest)
    ensures ReadRecord(Join(cells, ",") + rest) == Done(values, rest)
  {
    if |cells| == 1 {
      ReadFieldEncoded(cells[0], values[0], rest);
      assert values == [values[0]];
    } else {
      var tail := Join(cells[1..], ",") + rest;
      assert Join(cells, ",") == cells[0] + "," + Join(cells[1..], ",");
      assert Join(cells, ",") + rest == cells[0] + "," + tail;
      assert cells[0] + "," + tail == cells[0] + ("," + tail);
      ReadFieldEncoded(cells[0], values[0], "," + tail);
      ReadRecordEncoded(cells[1..], values[1..], rest);
      ReadRecordAfterFirst(cells[0], values[0], tail);
      assert values == [values[0]] + values[1..];
    }
  }

  /** A line the reader takes for `record` whatever record separator follows it. */
  ghost predicate LineOf(line: string, record: seq<string>)
  {
    forall rest :: AtRecordEnd(rest) ==> ReadRecord(line + rest) == Done(record, rest)
  }

  lemma {:induction false} ParseCsvLines(lines: seq<string>, records: seq<seq<string>>)
    requires |lines| == |records| >= 1
    requires forall i :: 0 <= i < |lines| ==> LineOf(lines[i], records[i])
    ensures ParseCsv(Join(lines, "\n")) == Some(records)
  {
    if |lines| == 1 {
      assert ReadRecord(lines[0] + "") == Done(records[0], "");
      assert lines[0] + "" == lines[0];
      assert records == [records[0]];
    } else {
      var tail := Join(lines[1..], "\n");
      assert Join(lines, "\n") == lines[0] + ("\n" + tail);
      assert ReadRecord(lines[0] + ("\n" + tail)) == Done(records[0], "\n" + tail);
      assert ("\n" + tail)[1..] == tail;
      ParseCsvLines(lines[1..], records[1..]);
      assert records == [records[0]] + records[1..];
    }
  }

  lemma LineOfEncoded(cells: seq<string>, values: seq<string>)
    requires |cells| == |values| >= 1
    requires forall i :: 0 <= i < |cells| ==> Encodes(cells[i], values[i])
    ensures LineOf(Join(cells, ","), values)
  {
    forall rest | AtRecordEnd(rest) ensures ReadRecord(Join(cells, ",") + rest) == Done(values, rest) {
      ReadRecordEncoded(cells, values, rest);
    }
  }

  // ----- the export as written -----

  lemma DocTypeNamePlain(t: DocType)
    ensures PlainSafe(DocTypeName(t))
  {
  }

  /** The document fields the export writes bare, plus a quote-free vendor: what the
      export needs of a record for a reader to get its values back. */
  predicate ExportSafe(d: DocumentRecord)
  {
    '"' !in d.vendor && PlainSafe(d.date) && PlainSafe(d.amount) && PlainSafe(d.currency)
    && PlainSafe(d.tax) && PlainSafe(d.category)
  }

  lemma HeaderLineOf()
    ensures LineOf(HeaderLine(), Headers)
  {
    forall i | 0 <= i < |Headers| ensures Encodes(Headers[i], Headers[i]) {
      assert PlainSafe(Headers[i]);
    }
    LineOfEncoded(Headers, Headers);
  }

  lemma RowLineOf(d: DocumentRecord)
    requires ExportSafe(d)
    ensures LineOf(Row(d), Values(d))
  {
    DocTypeNamePlain(d.docType);
    assert Doubled(d.vendor) == d.vendor;
    LineOfEncoded(RowCells(d), Values(d));
  }

  /** For a non-empty list, the body is the header line and one line per document, in list
      order, joined by line feeds with none at the end. */
  lemma CsvBodyLines(docs: seq<DocumentRecord>)
    requires docs != []
    ensures CsvBody(docs) == Join([HeaderLine()] + Map(docs, Row), "\n")
  {
    assert ([HeaderLine()] + Map(docs, Row))[1..] == Map(docs, Row);
  }

  /** An empty list exports the header line followed by one line feed. */
  lemma CsvBodyEmpty()
    ensures CsvBody([]) == HeaderLine() + "\n"
  {
    assert Join(Map([], Row), "\n") == "";
  }

  /** What a reader gets back from a non-empty export: the header record, then each
      document's eight values in list order, as long as no vendor holds a quote and no
      bare field holds a comma, quote or line feed. Summaries may hold anything. */
  lemma RowsLinesOf(docs: seq<DocumentRecord>)
    requires forall d :: d in docs ==> ExportSafe(d)
    ensures forall j :: 0 <= j < |docs| ==> LineOf(Map(docs, Row)[j], Map(docs, Values)[j])
  {
    forall j | 0 <= j < |docs| ensures LineOf(Map(docs, Row)[j], Map(docs, Values)[j]) {
      RowLineOf(docs[j]);
    }
  }

  /** Each line of the body reads back as its record. */
  lemma BodyLinesOf(docs: seq<DocumentRecord>)
    requires forall d :: d in docs ==> ExportSafe(d)
    ensures var lines, records := [HeaderLine()] + Map(docs, Row), [Headers] + Map(docs, Values);
      |lines| == |records| && forall i :: 0 <= i < |lines| ==> LineOf(lines[i], records[i])
  {
    var rows, values := Map(docs, Row), Map(docs, Values);
    var lines, records := [HeaderLine()] + rows, [Headers] + values;
    HeaderLineOf();
    RowsLinesOf(docs);
    forall i | 0 <= i < |lines| ensures LineOf(lines[i], records[i]) {
      if i > 0 {
        assert lines[i] == rows[i - 1] && records[i] == values[i - 1];
      }
    }
  }

  lemma CsvRoundTrip(docs: seq<DocumentRecord>)
    requires docs != []
    requires forall d :: d in docs ==> ExportSafe(d)
    ensures ParseCsv(CsvBody(docs)) == Some([Headers] + Map(docs, Values))
  {
    var lines, records := [HeaderLine()] + Map(docs, Row), [Headers] + Map(docs, Values);
    BodyLinesOf(docs);
    ParseCsvLines(lines, records);
    CsvBodyLines(docs);
  }

  // ----- two rows the export gets wrong -----

  /** After a first field that reads cleanly, a record reads on from the field after the comma. */
  lemma ReadRecordAfterFirst(first: string, v: string, tail: string)
    requires ReadField(first + "," + tail) == Done(v, "," + tail)
    ensures ReadRecord(first + "," + tail) == match ReadRecord(tail)
      case Fail => Fail
      case Done(vs, rest) => Done([v] + vs, rest)
  {
    assert ("," + tail)[1..] == tail;
  }

  /** A line reads on from its vendor field once the type field is read. */
  lemma RowAfterType(d: DocumentRecord)
    ensures var tail := Quoted(d.vendor) + "," + Join(RowCells(d)[2..], ",");
      ReadRecord(Row(d)) == match ReadRecord(tail)
        case Fail => Fail
        case Done(vs, rest) => Done([DocTypeName(d.docType)] + vs, rest)
  {
    var cells := RowCells(d);
    var more := Join(cells[2..], ",");
    var tail := Quoted(d.vendor) + "," + more;
    assert cells[1..][1..] == cells[2..];
    assert Join(cells[1..], ",") == cells[1] + "," + more;
    assert Row(d) == cells[0] + "," + tail;
    DocTypeNamePlain(d.docType);
    assert cells[0] + "," + tail == cells[0] + ("," + tail);
    ReadFieldEncoded(cells[0], cells[0], "," + tail);
    ReadRecordAfterFirst(cells[0], cells[0], tail);
  }

  /** A quoted field closed early, with an ordinary character right after the closing
      quote, is not CSV. */
  lemma QuotedThenPlainFails(x: string, c: char, z: string)
    requires '"' !in x && PlainChar(c)
    ensures ReadRecord("\"" + x + "\"" + [c] + z) == Fail
  {
    var s := "\"" + x + "\"" + [c] + z;
    assert s[0] == '"';
    assert s[1..] == Doubled(x) + "\"" + ([c] + z);
    ReadQuotedDoubled(x, [c] + z);
    assert ReadField(s) == Done(x, [c] + z);
  }

  lemma QuotedRegroup(v: string, x: string, c: char, y: string, more: string)
    requires v == x + "\"" + [c] + y
    ensures Quoted(v) + "," + more == "\"" + x + "\"" + [c] + (y + "\"" + "," + more)
  {
  }

  /** A vendor holding a quote followed by an ordinary character ends the quoted field early,
      and the line is no longer CSV (for instance the vendor `Joe "Tools"`). */
  lemma VendorQuoteBreaksRow(d: DocumentRecord, x: string, c: char, y: string)
    requires d.vendor == x + "\"" + [c] + y
    requires '"' !in x && PlainChar(c)
    ensures ReadRecord(Row(d)) == Fail
  {
    var more := Join(RowCells(d)[2..], ",");
    RowAfterType(d);
    QuotedRegroup(d.vendor, x, c, y, more);
    QuotedThenPlainFails(x, c, y + "\"" + "," + more);
  }

  /** A comma in the unquoted category splits it in two: the line reads back as nine
      values, the category's two halves in place of the category. */
  lemma CategoryCommaBreaksRow(d: DocumentRecord, x: string, y: string)
    requires d.category == x + "," + y && PlainSafe(x) && PlainSafe(y)
    requires '"' !in d.vendor && NumericFieldsPlain(d)
    ensures ReadRecord(Row(d)) == Done(Values(d)[..6] + [x, y, d.summary], "")
    ensures |ReadRecord(Row(d)).value| == |Headers| + 1
  {
    var cells := RowCells(d);
    var split := cells[..6] + [x, y] + cells[7..];
    var values := Values(d)[..6] + [x, y, d.summary];
    assert cells == cells[..6] + [x + "," + y] + cells[7..];
    JoinSplitPart(cells[..6], cells[7..], x, y, ",");
    SplitCellsEncode(d, x, y);
    ReadRecordEncoded(split, values, "");
    assert Row(d) + "" == Row(d);
  }

  /** The cells of a row whose category is cut at its comma spell the values with the
      category's two halves. */
  lemma SplitCellsEncode(d: DocumentRecord, x: string, y: string)
    requires PlainSafe(x) && PlainSafe(y)
    requires '"' !in d.vendor && NumericFieldsPlain(d)
    ensures var cells := RowCells(d);
      forall i :: 0 <= i < 9 ==>
        Encodes((cells[..6] + [x, y] + cells[7..])[i], (Values(d)[..6] + [x, y, d.summary])[i])
  {
    DocTypeNamePlain(d.docType);
    assert Doubled(d.vendor) == d.vendor;
  }

  // ----- the export as intended -----

  /** Vendor and category spelled like the summary: quoted, with their quotes doubled. */
  function EscapedRowCells(d: DocumentRecord): seq<string>
  {
    [DocTypeName(d.docType), Quoted(Doubled(d.vendor)), d.date, d.amount, d.currency, d.tax,
     Quoted(Doubled(d.category)), Quoted(Doubled(d.summary))]
  }

  function EscapedRow(d: DocumentRecord): string
  {
    Join(EscapedRowCells(d), ",")
  }

  function EscapedCsvBody(docs: seq<DocumentRecord>): string
  {
    HeaderLine() + "\n" + Join(Map(docs, EscapedRow), "\n")
  }

  /** The bare fields are dates, numbers and currency codes. */
  predicate NumericFieldsPlain(d: DocumentRecord)
  {
    PlainSafe(d.date) && PlainSafe(d.amount) && PlainSafe(d.currency) && PlainSafe(d.tax)
  }

  lemma EscapedRowLineOf(d: DocumentRecord)
    requires NumericFieldsPlain(d)
    ensures LineOf(EscapedRow(d), Values(d))
  {
    DocTypeNamePlain(d.docType);
    LineOfEncoded(EscapedRowCells(d), Values(d));
  }

  lemma EscapedCsvBodyLines(docs: seq<DocumentRecord>)
    requires docs != []
    ensures EscapedCsvBody(docs) == Join([HeaderLine()] + Map(docs, EscapedRow), "\n")
  {
    assert ([HeaderLine()] + Map(docs, EscapedRow))[1..] == Map(docs, EscapedRow);
  }

  /** With vendor and category escaped, every vendor, category and summary text reads back
      exactly. */
  lemma EscapedCsvRoundTrip(docs: seq<DocumentRecord>)
    requires docs != []
    requires forall d :: d in docs ==> NumericFieldsPlain(d)
    ensures ParseCsv(EscapedCsvBody(docs)) == Some([Headers] + Map(docs, Values))
  {
    var lines := [HeaderLine()] + Map(docs, EscapedRow);
    var records := [Headers] + Map(docs, Values);
    EscapedCsvBodyLines(docs);
    forall i | 0 <= i < |lines| ensures LineOf(lines[i], records[i]) {
      if i == 0 {
        HeaderLineOf();
      } else {
        assert lines[i] == EscapedRow(docs[i - 1]) && records[i] == Values(docs[i - 1]);
        EscapedRowLineOf(docs[i - 1]);
      }
    }
    ParseCsvLines(lines, records);
  }
}
