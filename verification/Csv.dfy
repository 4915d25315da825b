/**
 * The log download (logMonitorUtils.js), read back by section 2 of RFC 4180.
 *
 * TEXTDATA is taken as every character other than the double quote, the comma, CR and LF.
 */
module Csv {
  import opened Options
  import opened Text

  const CRLF := "\r\n"

  // ----- printing -----

  predicate IsSpecial(c: char) { c == '"' || c == ',' || c == '\r' || c == '\n' }

  predicate HasSpecial(text: string) { exists c <- text :: IsSpecial(c) }

  /** `text.replace(/"/g, '""')` */
  function DoubleQuotes(text: string): string {
    if text == "" then ""
    else (if text[0] == '"' then "\"\"" else [text[0]]) + DoubleQuotes(text[1..])
  }

  function EscapeCell(text: string): string {
    if !HasSpecial(text) then text else "\"" + DoubleQuotes(text) + "\""
  }

  function EscapeAll(cells: seq<string>): seq<string> {
    if cells == [] then [] else [EscapeCell(cells[0])] + EscapeAll(cells[1..])
  }

  /** A cell is printed as it is exactly if it holds no quote, comma, CR or LF; else between quotes. */
  lemma EscapesExactly(text: string)
    ensures EscapeCell(text) == text <==> '"' !in text && ',' !in text && '\r' !in text && '\n' !in text
    ensures EscapeCell(text) != text ==> EscapeCell(text)[0] == '"' == EscapeCell(text)[|EscapeCell(text)| - 1]
  {
    if HasSpecial(text) {
      DoublingKeepsLength(text);
      assert |EscapeCell(text)| > |text|;
    }
  }

  lemma {:induction false} DoublingKeepsLength(text: string)
    ensures |DoubleQuotes(text)| >= |text|
  {
    if text != "" {
      DoublingKeepsLength(text[1..]);
    }
  }

  function PrintRecord(cells: seq<string>): string { Join(EscapeAll(cells), ",") }

  function PrintAll(records: seq<seq<string>>): seq<string> {
    if records == [] then [] else [PrintRecord(records[0])] + PrintAll(records[1..])
  }

  type Row = map<string, string>

  /** A row's cells under the headers; a missing value prints as empty text. */
  function CellsOf(headers: seq<string>, row: Row): seq<string> {
    if headers == [] then []
    else [if headers[0] in row then row[headers[0]] else ""] + CellsOf(headers[1..], row)
  }

  /** Each header has its cell, in order. */
  lemma {:induction false} CellsAreOfRow(headers: seq<string>, row: Row)
    ensures |CellsOf(headers, row)| == |headers|
    ensures forall i :: 0 <= i < |headers| ==>
      CellsOf(headers, row)[i] == if headers[i] in row then row[headers[i]] else ""
  {
    if headers != [] {
      CellsAreOfRow(headers[1..], row);
    }
  }

  /** And each row its record. */
  lemma {:induction false} CellsAreOfRows(headers: seq<string>, rows: seq<Row>)
    ensures |Cells(headers, rows)| == |rows|
    ensures forall i :: 0 <= i < |rows| ==> Cells(headers, rows)[i] == CellsOf(headers, rows[i])
  {
    if rows != [] {
      CellsAreOfRows(headers, rows[1..]);
    }
  }

  function Cells(headers: seq<string>, rows: seq<Row>): seq<seq<string>> {
    if rows == [] then [] else [CellsOf(headers, rows[0])] + Cells(headers, rows[1..])
  }

  function BuildCsv(headers: seq<string>, rows: seq<Row>): string {
    Join([PrintRecord(headers)] + PrintAll(Cells(headers, rows)), CRLF)
  }

  // ----- reading -----

  datatype Taken<+T> = Taken(value: T, rest: string)

  /** A field that does not start with a quote: no quote may come up inside. */
  function ReadPlain(s: string): (r: Option<Taken<string>>)
    ensures r.Some? ==> |r.value.rest| <= |s|
  {
    if s == "" || (IsSpecial(s[0]) && s[0] != '"') then Some(Taken("", s))
    else if s[0] == '"' then None
    else
      match ReadPlain(s[1..])
      case None => None
      case Some(t) => Some(t.(value := [s[0]] + t.value))
  }

  /** A quoted field, from behind its opening quote. */
  function ReadQuoted(s: string): (r: Option<Taken<string>>)
    ensures r.Some? ==> |r.value.rest| <= |s|
    decreases |s|
  {
    if s == "" then None
    else if s[0] != '"' then
      match ReadQuoted(s[1..])
      case None => None
      case Some(t) => Some(t.(value := [s[0]] + t.value))
    else if |s| > 1 && s[1] == '"' then
      match ReadQuoted(s[2..])
      case None => None
      case Some(t) => Some(t.(value := "\"" + t.value))
    else Some(Taken("", s[1..]))
  }

  function ReadField(s: string): (r: Option<Taken<string>>)
    ensures r.Some? ==> |r.value.rest| <= |s|
  {
    if s != "" && s[0] == '"' then ReadQuoted(s[1..]) else ReadPlain(s)
  }

  /** One or more fields, separated by commas. */
  function ReadRecord(s: string): (r: Option<Taken<seq<string>>>)
    ensures r.Some? ==> |r.value.rest| <= |s|
    decreases |s|
  {
    match ReadField(s)
    case None => None
    case Some(field) =>
      if field.rest != "" && field.rest[0] == ',' then
        match ReadRecord(field.rest[1..])
        case None => None
        case Some(more) => Some(more.(value := [field.value] + more.value))
      else Some(Taken([field.value], field.rest))
  }

  /** Records on lines of their own; the last may or may not have an ending line break. */
  function ReadCsv(s: string): Option<seq<seq<string>>>
    decreases |s|
  {
    match ReadRecord(s)
    case None => None
    case Some(record) =>
      if record.rest == "" || record.rest == CRLF then Some([record.value])
      else if CRLF <= record.rest then
        match ReadCsv(record.rest[2..])
        case None => None
        case Some(more) => Some([record.value] + more)
      else None
  }

  // ----- reading back -----

  /** What may follow a field. */
  predicate EndsField(tail: string) { tail != "" ==> IsSpecial(tail[0]) && tail[0] != '"' }

  lemma {:induction false} PlainReadsBack(text: string, tail: string)
    requires !HasSpecial(text) && EndsField(tail)
    ensures ReadPlain(text + tail) == Some(Taken(text, tail))
  {
    if text == "" {
      assert text + tail == tail;
    } else {
      assert text[0] in text && forall c <- text[1..] :: c in text;
      assert !IsSpecial(text[0]) && text == [text[0]] + text[1..];
      PlainReadsBack(text[1..], tail);
      assert (text + tail)[1..] == text[1..] + tail;
    }
  }

  lemma {:induction false} QuotedReadsBack(text: string, tail: string)
    requires EndsField(tail)
    ensures ReadQuoted(DoubleQuotes(text) + "\"" + tail) == Some(Taken(text, tail))
  {
    var s := DoubleQuotes(text) + "\"" + tail;
    if text == "" {
      assert s == "\"" + tail && s[1..] == tail;
    } else {
      QuotedReadsBack(text[1..], tail);
      var rest := DoubleQuotes(text[1..]) + "\"" + tail;
      assert text == [text[0]] + text[1..];
      if text[0] == '"' {
        assert s == "\"\"" + rest && s[2..] == rest;
      } else {
        assert s == [text[0]] + rest && s[1..] == rest;
      }
    }
  }

  lemma CellReadsBack(text: string, tail: string)
    requires EndsField(tail)
    ensures ReadField(EscapeCell(text) + tail) == Some(Taken(text, tail))
  {
    hide ReadQuoted, ReadPlain, DoubleQuotes, HasSpecial;
    var s := EscapeCell(text) + tail;
    if HasSpecial(text) {
      QuotedReadsBack(text, tail);
      assert s[1..] == DoubleQuotes(text) + "\"" + tail;
    } else {
      PlainReadsBack(text, tail);
      StartsPlain(text, tail);
    }
  }

  lemma StartsPlain(text: string, tail: string)
    requires !HasSpecial(text) && EndsField(tail)
    ensures text + tail != "" ==> (text + tail)[0] != '"'
  {
    if text != "" {
      assert text[0] in text;
    }
  }

  /** What may follow a record. */
  predicate EndsRecord(tail: string) { tail == "" || CRLF <= tail }

  lemma RecordEndEndsField(tail: string)
    requires EndsRecord(tail)
    ensures EndsField(tail) && (tail != "" ==> tail[0] != ',')
  {
  }

  lemma PrintMoreCells(cells: seq<string>, tail: string)
    requires |cells| > 1
    ensures PrintRecord(cells) + tail == EscapeCell(cells[0]) + ("," + (PrintRecord(cells[1..]) + tail))
  {
    hide EscapeCell;
    EscapeAllLength(cells);
    assert EscapeAll(cells)[1..] == EscapeAll(cells[1..]);
  }

  lemma {:induction false} RecordReadsBack(cells: seq<string>, tail: string)
    requires cells != [] && EndsRecord(tail)
    ensures ReadRecord(PrintRecord(cells) + tail) == Some(Taken(cells, tail))
  {
    hide ReadField, EscapeCell, EndsRecord;
    assert cells == [cells[0]] + cells[1..];
    if |cells| == 1 {
      assert EscapeAll(cells) == [EscapeCell(cells[0])] && cells == [cells[0]];
      RecordEndEndsField(tail);
      CellReadsBack(cells[0], tail);
    } else {
      var more := PrintRecord(cells[1..]) + tail;
      PrintMoreCells(cells, tail);
      CellReadsBack(cells[0], "," + more);
      assert ("," + more)[1..] == more;
      RecordReadsBack(cells[1..], tail);
    }
  }

  lemma {:induction false} EscapeAllLength(cells: seq<string>)
    ensures |EscapeAll(cells)| == |cells|
  {
    if cells != [] {
      EscapeAllLength(cells[1..]);
    }
  }

  lemma {:induction false} PrintAllLength(records: seq<seq<string>>)
    ensures |PrintAll(records)| == |records|
  {
    if records != [] {
      PrintAllLength(records[1..]);
    }
  }

  /** Only a single empty cell prints as an empty line. */
  lemma EmptyLine(cells: seq<string>)
    requires cells != []
    ensures PrintRecord(cells) == "" <==> cells == [""]
  {
    EscapeAllLength(cells);
    if |cells| > 1 {
      assert ',' in PrintRecord(cells);
    } else {
      assert cells == [cells[0]];
    }
  }

  lemma PrintMoreRecords(records: seq<seq<string>>)
    requires |records| > 1
    ensures Join(PrintAll(records), CRLF) == PrintRecord(records[0]) + (CRLF + Join(PrintAll(records[1..]), CRLF))
  {
    hide PrintRecord;
    PrintAllLength(records);
    assert PrintAll(records)[1..] == PrintAll(records[1..]);
  }

  lemma PrintOneRecord(record: seq<string>)
    ensures Join(PrintAll([record]), CRLF) == PrintRecord(record)
  {
    hide PrintRecord;
    assert PrintAll([record]) == [PrintRecord(record)];
  }

  /** Only a single empty line is no text at all. */
  lemma EmptyText(records: seq<seq<string>>)
    requires records != [] && records[0] != []
    ensures Join(PrintAll(records), CRLF) == "" <==> records == [[""]]
  {
    hide PrintRecord;
    if |records| == 1 {
      assert records == [records[0]];
      PrintOneRecord(records[0]);
      EmptyLine(records[0]);
    } else {
      PrintMoreRecords(records);
    }
  }

  lemma FirstRecordReadsBack(first: seq<string>, text: string)
    requires first != []
    ensures ReadCsv(PrintRecord(first)) == Some([first])
    ensures ReadCsv(PrintRecord(first) + (CRLF + text)) ==
      if text == "" then Some([first])
      else match ReadCsv(text) case None => None case Some(more) => Some([first] + more)
  {
    hide PrintRecord, ReadRecord;
    RecordReadsBack(first, "");
    assert PrintRecord(first) + "" == PrintRecord(first);
    RecordReadsBack(first, CRLF + text);
    assert (CRLF + text)[2..] == text && |CRLF| == 2;
  }

  /** Printed records read back, but a last line that is empty is taken for an ending line break. */
  lemma {:induction false} RecordsReadBack(records: seq<seq<string>>)
    requires records != [] && forall record <- records :: record != []
    ensures ReadCsv(Join(PrintAll(records), CRLF)) ==
      Some(if |records| > 1 && records[|records| - 1] == [""] then records[..|records| - 1] else records)
    decreases |records|
  {
    hide PrintRecord, ReadRecord, ReadCsv, PrintAll, Join;
    var first, rest := records[0], records[1..];
    assert first in records && forall record <- rest :: record in records;
    if |records| == 1 {
      assert records == [first];
      PrintOneRecord(first);
      FirstRecordReadsBack(first, "");
    } else {
      PrintMoreRecords(records);
      FirstRecordReadsBack(first, Join(PrintAll(rest), CRLF));
      assert rest[0] in rest;
      EmptyText(rest);
      RecordsReadBack(rest);
      assert records == [first] + rest && records[..|records| - 1] == [first] + rest[..|rest| - 1];
    }
  }

  lemma {:induction false} CellsOfLength(headers: seq<string>, row: Row)
    ensures |CellsOf(headers, row)| == |headers|
  {
    if headers != [] {
      CellsOfLength(headers[1..], row);
    }
  }

  lemma {:induction false} CellsAreWide(headers: seq<string>, rows: seq<Row>)
    ensures |Cells(headers, rows)| == |rows|
    ensures forall i :: 0 <= i < |rows| ==> Cells(headers, rows)[i] == CellsOf(headers, rows[i])
    ensures forall record <- Cells(headers, rows) :: |record| == |headers|
  {
    if rows != [] {
      CellsAreWide(headers, rows[1..]);
      CellsOfLength(headers, rows[0]);
    }
  }

  /** The records the download stands for: the headers and the rows' cells. */
  function TableOf(headers: seq<string>, rows: seq<Row>): seq<seq<string>> {
    [headers] + Cells(headers, rows)
  }

  /** One column, and nothing in it on the last row. */
  predicate EndsInEmptyLine(headers: seq<string>, rows: seq<Row>) {
    |headers| == 1 && rows != [] && CellsOf(headers, rows[|rows| - 1]) == [""]
  }

  /** Whatever the cells hold, reading the download gives back its headers and cells, except when
      there are no columns, or the only one is empty on the last row. */
  lemma CsvReadsBack(headers: seq<string>, rows: seq<Row>)
    ensures ReadCsv(BuildCsv(headers, rows)) == Some(TableOf(headers, rows)) <==>
      headers != [] && !EndsInEmptyLine(headers, rows)
  {
    var table := TableOf(headers, rows);
    CellsAreWide(headers, rows);
    assert table[1..] == Cells(headers, rows);
    assert PrintAll(table) == [PrintRecord(headers)] + PrintAll(Cells(headers, rows));
    if headers == [] {
      NoEmptyRecords(BuildCsv(headers, rows));
      assert table[0] == [];
    } else {
      RecordsReadBack(table);
      assert rows != [] ==> table[|table| - 1] == CellsOf(headers, rows[|rows| - 1]);
      if |table| > 1 && table[|table| - 1] == [""] {
        assert table[..|table| - 1] != table;
      }
    }
  }

  lemma {:induction false} NoEmptyRecords(s: string)
    ensures ReadCsv(s).Some? ==> ReadCsv(s).value != [] && ReadCsv(s).value[0] != []
  {
  }

  lemma {:induction false} JoinOfSnoc(parts: seq<string>, last: string)
    requires parts != []
    ensures Join(parts + [last], CRLF) == Join(parts, CRLF) + CRLF + last
  {
    if |parts| == 1 {
      assert parts + [last] == [parts[0], last] && [parts[0], last][1..] == [last];
    } else {
      assert (parts + [last])[1..] == parts[1..] + [last];
      JoinOfSnoc(parts[1..], last);
    }
  }

  lemma {:induction false} PrintAllOfSnoc(records: seq<seq<string>>, last: seq<string>)
    ensures PrintAll(records + [last]) == PrintAll(records) + [PrintRecord(last)]
  {
    hide PrintRecord;
    if records == [] {
      assert records + [last] == [last] && PrintAll([last]) == [PrintRecord(last)];
    } else {
      assert (records + [last])[1..] == records[1..] + [last];
      PrintAllOfSnoc(records[1..], last);
    }
  }

  /** With one more record behind it, any printed table reads back. */
  lemma ReadsBackBeforeMore(records: seq<seq<string>>)
    requires records != [] && forall record <- records :: record != []
    ensures var more := ["more"];
      ReadCsv(Join(PrintAll(records), CRLF) + CRLF + PrintRecord(more)) == Some(records + [more])
  {
    hide ReadCsv, PrintRecord;
    var more := ["more"];
    PrintAllOfSnoc(records, more);
    PrintAllLength(records);
    JoinOfSnoc(PrintAll(records), PrintRecord(more));
    assert |"more"| == 4 && more != [""];
    RecordsReadBack(records + [more]);
  }

  lemma PrintedTablesTellApart(s: seq<seq<string>>, t: seq<seq<string>>)
    requires s != [] && t != [] && (forall record <- s :: record != []) && (forall record <- t :: record != [])
    requires Join(PrintAll(s), CRLF) == Join(PrintAll(t), CRLF)
    ensures s == t
  {
    hide ReadCsv, PrintRecord, PrintAll, Join;
    ReadsBackBeforeMore(s);
    ReadsBackBeforeMore(t);
    assert (s + [["more"]])[..|s|] == s && (t + [["more"]])[..|t|] == t;
    assert |s + [["more"]]| == |t + [["more"]]|;
  }

  /** Without columns each record is an empty line. */
  lemma {:induction false} EmptyRecordsPrint(records: seq<seq<string>>)
    requires records != [] && forall record <- records :: record == []
    ensures |Join(PrintAll(records), CRLF)| == 2 * (|records| - 1)
  {
    assert records[0] in records && forall record <- records[1..] :: record in records;
    assert PrintRecord([]) == "";
    if |records| == 1 {
      assert records == [records[0]];
      PrintOneRecord(records[0]);
    } else {
      PrintMoreRecords(records);
      EmptyRecordsPrint(records[1..]);
    }
  }

  lemma BuildPrintsTheTable(headers: seq<string>, rows: seq<Row>)
    ensures BuildCsv(headers, rows) == Join(PrintAll(TableOf(headers, rows)), CRLF)
  {
    var table := TableOf(headers, rows);
    assert table[1..] == Cells(headers, rows);
    assert PrintAll(table) == [PrintRecord(headers)] + PrintAll(Cells(headers, rows));
  }

  /** Under fixed headers, however many, the download determines every cell. */
  lemma CsvIsInjective(headers: seq<string>, a: seq<Row>, b: seq<Row>)
    ensures BuildCsv(headers, a) == BuildCsv(headers, b) <==> Cells(headers, a) == Cells(headers, b)
  {
    hide PrintAll, Join;
    var s, t := TableOf(headers, a), TableOf(headers, b);
    BuildPrintsTheTable(headers, a);
    BuildPrintsTheTable(headers, b);
    CellsAreWide(headers, a);
    CellsAreWide(headers, b);
    assert s[1..] == Cells(headers, a) && t[1..] == Cells(headers, b);
    if BuildCsv(headers, a) == BuildCsv(headers, b) {
      if headers == [] {
        EmptyRecordsPrint(s);
        EmptyRecordsPrint(t);
        assert s == t;
      } else {
        PrintedTablesTellApart(s, t);
      }
    }
  }

  /** Only the reading can lose something: with one column, an empty last row reads as no row, since its
      line break is taken for the ending one. */
  lemma OneColumnLosesARow(header: string)
    ensures var none: seq<Row> := []; ReadCsv(BuildCsv([header], [map[]])) == ReadCsv(BuildCsv([header], none))
  {
    var rows: seq<Row> := [map[]];
    var one, two := TableOf([header], []), TableOf([header], rows);
    assert CellsOf([header], rows[0]) == [""];
    CellsAreWide([header], rows);
    assert Cells([header], rows) == [[""]];
    assert two == [[header], [""]] && one == [[header]] && two[..1] == one;
    assert one[1..] == [] && two[1..] == [[""]];
    RecordsReadBack(one);
    RecordsReadBack(two);
  }
}
