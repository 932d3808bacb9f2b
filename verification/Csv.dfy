/**
 The CSV text of the activity-log exports, and a reader for it that follows the grammar of
 section 2 of RFC 4180, with LF between records as the printer emits them.
 */
module Csv {
  import opened Options

  const QUOTE: char := '"'

  /** A row object: a missing key reads as undefined, None stands for null; other values are already strings. */
  type Row = map<string, Option<string>>

  // ---------- The printer ----------

  function Stringify(row: Row, header: string): string {
    if header in row then row[header].GetOr("") else ""
  }

  function Doubled(s: string): string {
    if |s| == 0 then ""
    else (if s[0] == QUOTE then [QUOTE, QUOTE] else [s[0]]) + Doubled(s[1..])
  }

  predicate NeedsQuotes(s: string) {
    ',' in s || QUOTE in s || '\n' in s
  }

  function Escape(s: string): string {
    if NeedsQuotes(s) then [QUOTE] + Doubled(s) + [QUOTE] else s
  }

  function Join(parts: seq<string>, separator: char): string {
    if |parts| == 0 then ""
    else if |parts| == 1 then parts[0]
    else parts[0] + [separator] + Join(parts[1..], separator)
  }

  function Escaped(fields: seq<string>): (r: seq<string>)
    ensures |r| == |fields| && forall i :: 0 <= i < |r| ==> r[i] == Escape(fields[i])
  {
    seq(|fields|, i requires 0 <= i < |fields| => Escape(fields[i]))
  }

  function Line(fields: seq<string>): string {
    Join(Escaped(fields), ',')
  }

  function Values(headers: seq<string>, row: Row): (r: seq<string>)
    ensures |r| == |headers| && forall i :: 0 <= i < |r| ==> r[i] == Stringify(row, headers[i])
  {
    seq(|headers|, i requires 0 <= i < |headers| => Stringify(row, headers[i]))
  }

  /** The header record followed by the values of each row. */
  function Table(headers: seq<string>, rows: seq<Row>): (r: seq<seq<string>>)
    ensures |r| == |rows| + 1 && r[0] == headers
    ensures forall i :: 0 <= i < |rows| ==> r[i + 1] == Values(headers, rows[i])
  {
    [headers] + seq(|rows|, i requires 0 <= i < |rows| => Values(headers, rows[i]))
  }

  function Lines(records: seq<seq<string>>): (r: seq<string>)
    ensures |r| == |records| && forall i :: 0 <= i < |r| ==> r[i] == Line(records[i])
  {
    seq(|records|, i requires 0 <= i < |records| => Line(records[i]))
  }

  function BuildCsv(headers: seq<string>, rows: seq<Row>): string {
    Join(Lines(Table(headers, rows)), '\n')
  }

  // ---------- The reader ----------

  datatype Parsed<T> = Fail | Ok(value: T, rest: string)

  /** After an opening quote: up to the closing one, two quotes standing for one. */
  function ReadQuoted(s: string): (r: Parsed<string>)
    ensures r.Ok? ==> |r.rest| < |s|
  {
    if |s| == 0 then Fail
    else if s[0] != QUOTE then
      var tail := ReadQuoted(s[1..]);
      if tail.Ok? then Ok([s[0]] + tail.value, tail.rest) else Fail
    else if |s| > 1 && s[1] == QUOTE then
      var tail := ReadQuoted(s[2..]);
      if tail.Ok? then Ok([QUOTE] + tail.value, tail.rest) else Fail
    else Ok("", s[1..])
  }

  function ReadPlain(s: string): (r: Parsed<string>)
    ensures r.Ok? && |r.rest| <= |s|
  {
    if |s| == 0 || s[0] == ',' || s[0] == QUOTE || s[0] == '\n' then Ok("", s)
    else
      var tail := ReadPlain(s[1..]);
      Ok([s[0]] + tail.value, tail.rest)
  }

  function ReadField(s: string): (r: Parsed<string>)
    ensures r.Ok? ==> |r.rest| <= |s|
  {
    if |s| > 0 && s[0] == QUOTE then ReadQuoted(s[1..]) else ReadPlain(s)
  }

  function ReadRecord(s: string): (r: Parsed<seq<string>>)
    ensures r.Ok? ==> |r.rest| <= |s| && |r.value| > 0
    decreases |s|
  {
    var field := ReadField(s);
    if field.Fail? then Fail
    else if |field.rest| > 0 && field.rest[0] == ',' then
      var tail := ReadRecord(field.rest[1..]);
      if tail.Ok? then Ok([field.value] + tail.value, tail.rest) else Fail
    else Ok([field.value], field.rest)
  }

  function Parse(s: string): (r: Option<seq<seq<string>>>)
    ensures r.Some? ==> |r.value| > 0 && forall i :: 0 <= i < |r.value| ==> |r.value[i]| > 0
    decreases |s|
  {
    var record := ReadRecord(s);
    if record.Fail? then None
    else if |record.rest| == 0 then Some([record.value])
    else if record.rest[0] == '\n' then
      var tail := Parse(record.rest[1..]);
      if tail.Some? then Some([record.value] + tail.value) else None
    else None
  }

  // ---------- Reading what was printed ----------

  predicate EndsField(rest: string) {
    |rest| == 0 || rest[0] == ',' || rest[0] == '\n'
  }

  /** One character more before a text that reads, doubled if it is a quote. */
  lemma OneMoreReads(c: char, t: string)
    requires ReadQuoted(t).Ok?
    ensures ReadQuoted((if c == QUOTE then [QUOTE, QUOTE] else [c]) + t) == Ok([c] + ReadQuoted(t).value, ReadQuoted(t).rest)
  {
    if c == QUOTE {
      assert ([QUOTE, QUOTE] + t)[2..] == t;
    } else {
      assert ([c] + t)[1..] == t;
    }
  }

  lemma ClosingQuoteReads(rest: string)
    requires EndsField(rest)
    ensures ReadQuoted([QUOTE] + rest) == Ok("", rest)
  {
    assert ([QUOTE] + rest)[1..] == rest;
  }

  lemma {:induction false} QuotedReadsBack(v: string, rest: string)
    requires EndsField(rest)
    ensures ReadQuoted(Doubled(v) + [QUOTE] + rest) == Ok(v, rest)
    decreases |v|
  {
    hide ReadQuoted;
    var s := Doubled(v) + [QUOTE] + rest;
    if |v| == 0 {
      assert s == [QUOTE] + rest;
      ClosingQuoteReads(rest);
    } else {
      var t := Doubled(v[1..]) + [QUOTE] + rest;
      QuotedReadsBack(v[1..], rest);
      OneMoreReads(v[0], t);
      assert s == (if v[0] == QUOTE then [QUOTE, QUOTE] else [v[0]]) + t;
      assert [v[0]] + v[1..] == v;
    }
  }

  lemma {:induction false} PlainReadsBack(v: string, rest: string)
    requires !NeedsQuotes(v) && EndsField(rest)
    ensures ReadPlain(v + rest) == Ok(v, rest)
    decreases |v|
  {
    if |v| == 0 {
      assert v + rest == rest;
    } else {
      assert v[0] in v && v == [v[0]] + v[1..];
      assert (v + rest)[1..] == v[1..] + rest;
      PlainReadsBack(v[1..], rest);
    }
  }

  lemma FieldReadsBack(v: string, rest: string)
    requires EndsField(rest)
    ensures ReadField(Escape(v) + rest) == Ok(v, rest)
  {
    hide ReadQuoted;
    hide ReadPlain;
    hide Doubled;
    var s := Escape(v) + rest;
    if NeedsQuotes(v) {
      var t := Doubled(v) + [QUOTE] + rest;
      assert s == [QUOTE] + t;
      assert s[0] == QUOTE && s[1..] == t;
      QuotedReadsBack(v, rest);
    } else {
      PlainReadsBack(v, rest);
      assert |v| > 0 ==> s[0] == v[0] && v[0] in v;
    }
  }

  lemma {:induction false} RecordReadsBack(fields: seq<string>, rest: string)
    requires |fields| > 0
    requires |rest| == 0 || rest[0] == '\n'
    ensures ReadRecord(Line(fields) + rest) == Ok(fields, rest)
    decreases |fields|
  {
    hide ReadField;
    var e := Escaped(fields);
    if |fields| == 1 {
      FieldReadsBack(fields[0], rest);
      assert Line(fields) == Escape(fields[0]) && [fields[0]] == fields;
    } else {
      var tail := Line(fields[1..]) + rest;
      assert e[1..] == Escaped(fields[1..]);
      FieldReadsBack(fields[0], [','] + tail);
      assert Line(fields) + rest == Escape(fields[0]) + ([','] + tail);
      assert ([','] + tail)[1..] == tail;
      RecordReadsBack(fields[1..], rest);
      assert [fields[0]] + fields[1..] == fields;
    }
  }

  lemma {:induction false} RecordsReadBack(records: seq<seq<string>>)
    requires |records| > 0 && forall i :: 0 <= i < |records| ==> |records[i]| > 0
    ensures Parse(Join(Lines(records), '\n')) == Some(records)
    decreases |records|
  {
    hide ReadRecord;
    var lines := Lines(records);
    if |records| == 1 {
      assert Line(records[0]) + "" == Join(lines, '\n') && [records[0]] == records;
      RecordReadsBack(records[0], "");
    } else {
      var tail := Join(Lines(records[1..]), '\n');
      assert lines[1..] == Lines(records[1..]);
      assert Join(lines, '\n') == Line(records[0]) + (['\n'] + tail);
      RecordReadsBack(records[0], ['\n'] + tail);
      assert (['\n'] + tail)[1..] == tail;
      RecordsReadBack(records[1..]);
      assert [records[0]] + records[1..] == records;
    }
  }

  /**
   Reading the export gives back the header record and the values of each row, for any commas,
   quotes and line feeds in them; it fails only for an empty header list.
   */
  lemma ExportReadsBack(headers: seq<string>, rows: seq<Row>)
    ensures Parse(BuildCsv(headers, rows)) == Some(Table(headers, rows)) <==> |headers| > 0
  {
    if |headers| > 0 {
      RecordsReadBack(Table(headers, rows));
    }
  }

  /** A field for each header: the row's value if it has one, and empty exactly for a null, missing or empty value. */
  ghost predicate ReadsAs(record: seq<string>, headers: seq<string>, row: Row) {
    |record| == |headers| && forall j :: 0 <= j < |headers| ==>
      && (headers[j] in row && row[headers[j]].Some? ==> record[j] == row[headers[j]].value)
      && (record[j] == "" <==> headers[j] !in row || row[headers[j]] == None || row[headers[j]] == Some(""))
  }

  /** What a reader finds in the export: the header list, and then the cells of every row in order. */
  lemma ExportedCells(headers: seq<string>, rows: seq<Row>)
    requires |headers| > 0
    ensures var read := Parse(BuildCsv(headers, rows));
      && read.Some? && |read.value| == |rows| + 1 && read.value[0] == headers
      && forall i :: 0 <= i < |rows| ==> ReadsAs(read.value[i + 1], headers, rows[i])
  {
    ExportReadsBack(headers, rows);
    hide Parse;
    hide BuildCsv;
    forall i | 0 <= i < |rows| ensures ReadsAs(Table(headers, rows)[i + 1], headers, rows[i]) {
      assert Table(headers, rows)[i + 1] == Values(headers, rows[i]);
    }
  }

  /** Two rows have the same values under the headers, null and missing ones counting as empty. */
  ghost predicate SameCells(headers: seq<string>, row: Row, row': Row) {
    forall j :: 0 <= j < |headers| ==>
      (if headers[j] in row then row[headers[j]].GetOr("") else "") == (if headers[j] in row' then row'[headers[j]].GetOr("") else "")
  }

  lemma SameRecord(record: seq<string>, headers: seq<string>, row: Row, row': Row)
    requires ReadsAs(record, headers, row) && ReadsAs(record, headers, row')
    ensures SameCells(headers, row, row')
  {
  }

  /** Two exports with the same text have the same headers and, row by row, the same values. */
  lemma ExportIsInjective(headers: seq<string>, rows: seq<Row>, headers': seq<string>, rows': seq<Row>)
    requires |headers| > 0 && |headers'| > 0
    requires BuildCsv(headers, rows) == BuildCsv(headers', rows')
    ensures headers == headers' && |rows| == |rows'|
    ensures forall i :: 0 <= i < |rows| ==> SameCells(headers, rows[i], rows'[i])
  {
    hide BuildCsv;
    hide Parse;
    hide ReadsAs;
    hide SameCells;
    ExportedCells(headers, rows);
    ExportedCells(headers', rows');
    var read := Parse(BuildCsv(headers, rows)).value;
    forall i | 0 <= i < |rows| ensures SameCells(headers, rows[i], rows'[i]) {
      SameRecord(read[i + 1], headers, rows[i], rows'[i]);
    }
  }

  // ---------- The text itself ----------

  function Quotes(s: string): nat {
    if |s| == 0 then 0 else (if s[0] == '"' then 1 else 0) + Quotes(s[1..])
  }

  lemma {:induction false} DoubledLength(s: string)
    ensures |Doubled(s)| == |s| + Quotes(s)
    decreases |s|
  {
    if |s| > 0 {
      DoubledLength(s[1..]);
    }
  }

  /** A field is printed as it is unless it has a comma, a quote or a line feed; then it is put in quotes and each of its quotes doubled. */
  lemma FieldText(v: string)
    ensures ',' !in v && '"' !in v && '\n' !in v ==> Escape(v) == v
    ensures ',' in v || '"' in v || '\n' in v ==>
      Escape(v)[0] == '"' == Escape(v)[|Escape(v)| - 1] && |Escape(v)| == |v| + Quotes(v) + 2
  {
    DoubledLength(v);
  }

  /** Two columns and one row: commas between fields, a line feed between records, none at the end. */
  lemma TwoColumnText(a: string, b: string, row: Row)
    ensures BuildCsv([a, b], [row]) ==
      Escape(a) + "," + Escape(b) + "\n" +
      Escape(if a in row then row[a].GetOr("") else "") + "," + Escape(if b in row then row[b].GetOr("") else "")
  {
    var headers := [a, b];
    var values := Values(headers, row);
    assert Table(headers, [row]) == [headers, values];
    assert Lines([headers, values]) == [Line(headers), Line(values)];
    TwoJoined(Line(headers), Line(values), '\n');
    assert Escaped(headers) == [Escape(a), Escape(b)] && Escaped(values) == [Escape(values[0]), Escape(values[1])];
    TwoJoined(Escape(a), Escape(b), ',');
    TwoJoined(Escape(values[0]), Escape(values[1]), ',');
  }

  lemma TwoJoined(a: string, b: string, separator: char)
    ensures Join([a, b], separator) == a + [separator] + b
  {
    assert [a, b][1..] == [b];
  }
}
