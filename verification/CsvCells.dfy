/**
  One cell of the CSV export (`csvEscape`, src/lib/exporters.ts:3-8), and
  a reader for the text it produces. A cell holding `"`, `,`, a line feed or
  a carriage return is put in double quotes with each `"` doubled; any other
  cell is written as it is. The reader is the usual one for this quoting
  convention, and the lemmas here show that it recovers every cell.
 */
module CsvCells {
  import opened Wrappers
  import opened JsonValue
  import opened Text

  /** The characters that force a cell into quotes. */
  predicate IsSpecial(c: char) {
    c == '"' || c == ',' || c == '\n' || c == '\r'
  }

  predicate NeedsQuoting(s: string) {
    exists i :: 0 <= i < |s| && IsSpecial(s[i])
  }

  /**
    The text of a cell before quoting: nothing for `null` and `undefined`,
    a string as it is, anything else through `JSON.stringify`, which is
    given as `stringify`.
   */
  function CellText(v: Option<Json>, stringify: Json -> string): string {
    match v
    case None => ""
    case Some(JNull) => ""
    case Some(JStr(s)) => s
    case Some(j) => stringify(j)
  }

  /** `s.replace(/"/g, '""')`. */
  function DoubleQuotes(s: string): (r: string)
    ensures |r| >= |s|
    ensures forall i :: 0 <= i < |r| ==> r[i] == '"' || r[i] in s
  {
    if s == [] then []
    else (if s[0] == '"' then "\"\"" else [s[0]]) + DoubleQuotes(s[1..])
  }

  /** Quotes `s`, doubling its quotes, when it holds a special character. */
  function Escape(s: string): string {
    if NeedsQuoting(s) then "\"" + DoubleQuotes(s) + "\"" else s
  }

  function CsvEscape(v: Option<Json>, stringify: Json -> string): string {
    Escape(CellText(v, stringify))
  }

  /** The escaped cell is a quoted cell exactly when its text needs quoting, and only then does it change. */
  lemma EscapeShape(v: Option<Json>, stringify: Json -> string)
    ensures v.None? || v == Some(JNull) ==> CsvEscape(v, stringify) == ""
    ensures var s := CellText(v, stringify);
      !NeedsQuoting(s) <==> CsvEscape(v, stringify) == s
    ensures var r := CsvEscape(v, stringify);
      NeedsQuoting(CellText(v, stringify)) <==> (r != [] && r[0] == '"')
  {
    var s := CellText(v, stringify);
    if NeedsQuoting(s) {
      var i :| 0 <= i < |s| && IsSpecial(s[i]);
      var r := CsvEscape(v, stringify);
      assert |r| > |s|;
    } else if s != [] {
      assert !IsSpecial(s[0]);
    }
  }

  // ---------------------------------------------------------------------
  // Reading the text back

  /**
    The rest of a quoted cell, after its opening quote: its content, with
    each `""` read as `"`, and the text after the closing quote. `None`
    when the closing quote is missing.
   */
  function ReadQuoted(t: string): (r: Option<(string, string)>)
    ensures r.Some? ==> |r.value.1| < |t|
  {
    if t == [] then None
    else if t[0] == '"' then
      if |t| >= 2 && t[1] == '"' then
        match ReadQuoted(t[2..])
        case None => None
        case Some((c, rest)) => Some(("\"" + c, rest))
      else Some(([], t[1..]))
    else
      match ReadQuoted(t[1..])
      case None => None
      case Some((c, rest)) => Some(([t[0]] + c, rest))
  }

  /** An unquoted cell: everything up to the next `,` or line feed. */
  function ReadBare(t: string): (r: (string, string))
    ensures r.0 + r.1 == t
    ensures r.1 == [] || r.1[0] == ',' || r.1[0] == '\n'
  {
    if t == [] || t[0] == ',' || t[0] == '\n' then ([], t)
    else
      var (c, rest) := ReadBare(t[1..]);
      assert [t[0]] + c + rest == [t[0]] + t[1..];
      ([t[0]] + c, rest)
  }

  function ReadCell(t: string): (r: Option<(string, string)>)
    ensures r.Some? ==> |r.value.1| <= |t|
  {
    if t != [] && t[0] == '"' then ReadQuoted(t[1..]) else Some(ReadBare(t))
  }

  /** One record: cells separated by `,`, ended by a line feed (consumed) or the end of the text. */
  function ReadRecord(t: string): (r: Option<(seq<string>, string)>)
    ensures r.Some? && t != [] ==> |r.value.1| < |t|
    decreases |t|
  {
    match ReadCell(t)
    case None => None
    case Some((c, rest)) =>
      if rest == [] then Some(([c], []))
      else if rest[0] == ',' then
        match ReadRecord(rest[1..])
        case None => None
        case Some((cs, after)) => Some(([c] + cs, after))
      else if rest[0] == '\n' then Some(([c], rest[1..]))
      else None
  }

  /** A whole text, record by record. */
  function ReadRecords(t: string): Option<seq<seq<string>>>
    decreases |t|
  {
    if t == [] then Some([])
    else
      match ReadRecord(t)
      case None => None
      case Some((cs, rest)) =>
        match ReadRecords(rest)
        case None => None
        case Some(rs) => Some([cs] + rs)
  }

  // ---------------------------------------------------------------------
  // Joining

  /** The escaped cells of a record, joined by `,`. */
  function EscapedLine(cells: seq<string>): string {
    Join(seq(|cells|, i requires 0 <= i < |cells| => Escape(cells[i])), ",")
  }

  /** A cell a record can end at: the end of the text, a `,` or a line feed. */
  predicate Boundary(rest: string) {
    rest == [] || rest[0] == ',' || rest[0] == '\n'
  }

  lemma ReadQuotedDoubled(s: string, rest: string)
    requires rest == [] || rest[0] != '"'
    ensures ReadQuoted(DoubleQuotes(s) + "\"" + rest) == Some((s, rest))
  {
    ReadQuotedClosed(s, rest);
    Assoc(DoubleQuotes(s), "\"", rest);
  }

  lemma Assoc(a: string, b: string, c: string)
    ensures a + b + c == a + (b + c)
  {
  }

  /** The doubled text followed by the closing quote reads back as the text. */
  lemma {:induction false} ReadQuotedClosed(s: string, rest: string)
    requires rest == [] || rest[0] != '"'
    ensures ReadQuoted(DoubleQuotes(s) + ("\"" + rest)) == Some((s, rest))
  {
    if s == [] {
      assert DoubleQuotes(s) + ("\"" + rest) == "\"" + rest;
      ClosingQuote(rest);
    } else {
      ReadQuotedClosed(s[1..], rest);
      ReadQuotedCons(s, "\"" + rest, rest);
    }
  }

  /** One more character in front of the quoted text is read back in front of the cell. */
  lemma ReadQuotedCons(s: string, closing: string, rest: string)
    requires s != [] && ReadQuoted(DoubleQuotes(s[1..]) + closing) == Some((s[1..], rest))
    ensures ReadQuoted(DoubleQuotes(s) + closing) == Some((s, rest))
  {
    var d := DoubleQuotes(s[1..]);
    var head := if s[0] == '"' then "\"\"" else [s[0]];
    assert DoubleQuotes(s) == head + d;
    Assoc(head, d, closing);
    if s[0] == '"' {
      DoubledQuote(d + closing);
      assert "\"" + s[1..] == s;
    } else {
      PlainChar(s[0], d + closing);
      assert [s[0]] + s[1..] == s;
    }
  }

  /** A quote not followed by another closes the cell. */
  lemma ClosingQuote(rest: string)
    requires rest == [] || rest[0] != '"'
    ensures ReadQuoted("\"" + rest) == Some(([], rest))
  {
    var t := "\"" + rest;
    assert t[1..] == rest;
  }

  /** Two quotes inside a quoted cell are read as one. */
  lemma DoubledQuote(tail: string)
    requires ReadQuoted(tail).Some?
    ensures ReadQuoted("\"\"" + tail) == Some(("\"" + ReadQuoted(tail).value.0, ReadQuoted(tail).value.1))
  {
    var t := "\"\"" + tail;
    assert t[2..] == tail;
  }

  /** Any other character inside a quoted cell is read as it is. */
  lemma PlainChar(x: char, tail: string)
    requires x != '"' && ReadQuoted(tail).Some?
    ensures ReadQuoted([x] + tail) == Some(([x] + ReadQuoted(tail).value.0, ReadQuoted(tail).value.1))
  {
    var t := [x] + tail;
    assert t[1..] == tail;
  }

  lemma {:induction false} ReadBarePlain(s: string, rest: string)
    requires !NeedsQuoting(s) && Boundary(rest)
    ensures ReadBare(s + rest) == (s, rest)
  {
    if s != [] {
      assert !IsSpecial(s[0]);
      assert !NeedsQuoting(s[1..]) by {
        forall i | 0 <= i < |s[1..]| ensures !IsSpecial(s[1..][i]) {
          assert s[1..][i] == s[i + 1];
        }
      }
      ReadBarePlain(s[1..], rest);
      BareCons(s[0], s[1..] + rest);
      Assoc([s[0]], s[1..], rest);
      assert [s[0]] + s[1..] == s;
    } else {
      assert s + rest == rest;
    }
  }

  /** A character other than `,` and the line feed is part of the unquoted cell. */
  lemma BareCons(x: char, tail: string)
    requires x != ',' && x != '\n'
    ensures ReadBare([x] + tail) == ([x] + ReadBare(tail).0, ReadBare(tail).1)
  {
    var t := [x] + tail;
    assert t[0] == x && t[1..] == tail;
  }

  /** Every escaped cell reads back as its text, whatever follows it at a boundary. */
  lemma ReadCellEscaped(s: string, rest: string)
    requires Boundary(rest)
    ensures ReadCell(Escape(s) + rest) == Some((s, rest))
  {
    if NeedsQuoting(s) {
      QuotedCell(s, rest);
    } else {
      BareCell(s, rest);
    }
  }

  lemma QuotedCell(s: string, rest: string)
    requires NeedsQuoting(s) && Boundary(rest)
    ensures ReadCell(Escape(s) + rest) == Some((s, rest))
  {
    var d := DoubleQuotes(s);
    var q := "\"";
    assert Escape(s) == q + d + q;
    Assoc(q + d, q, rest);
    Assoc(q, d, q + rest);
    var t := q + (d + (q + rest));
    assert t[0] == '"' && t[1..] == d + (q + rest);
    ReadQuotedClosed(s, rest);
  }

  lemma BareCell(s: string, rest: string)
    requires !NeedsQuoting(s) && Boundary(rest)
    ensures ReadCell(Escape(s) + rest) == Some((s, rest))
  {
    ReadBarePlain(s, rest);
    if s != [] {
      assert !IsSpecial(s[0]);
    }
  }

  /** A line of escaped cells reads back as those cells. */
  lemma {:induction false} ReadRecordEscaped(cells: seq<string>, rest: string)
    requires cells != [] && (rest == [] || rest[0] == '\n')
    ensures ReadRecord(EscapedLine(cells) + rest) == Some((cells, if rest == [] then [] else rest[1..]))
  {
    if |cells| == 1 {
      EscapedLineOne(cells);
      LastCell(cells[0], rest);
      assert [cells[0]] == cells;
    } else {
      var tail := EscapedLine(cells[1..]) + rest;
      EscapedLineCons(cells);
      assert EscapedLine(cells) + rest == Escape(cells[0]) + "," + tail;
      ReadRecordEscaped(cells[1..], rest);
      NextCell(cells[0], tail);
      assert [cells[0]] + cells[1..] == cells;
    }
  }

  lemma EscapedLineOne(cells: seq<string>)
    requires |cells| == 1
    ensures EscapedLine(cells) == Escape(cells[0])
  {
  }

  lemma EscapedLineCons(cells: seq<string>)
    requires |cells| >= 2
    ensures EscapedLine(cells) == Escape(cells[0]) + "," + EscapedLine(cells[1..])
  {
    var escaped := seq(|cells|, i requires 0 <= i < |cells| => Escape(cells[i]));
    assert escaped[1..] == seq(|cells[1..]|, i requires 0 <= i < |cells[1..]| => Escape(cells[1..][i]));
  }

  /** The last cell of a record: what follows is the end of the text or the line feed, which is consumed. */
  lemma LastCell(c: string, rest: string)
    requires rest == [] || rest[0] == '\n'
    ensures ReadRecord(Escape(c) + rest) == Some(([c], if rest == [] then [] else rest[1..]))
  {
    ReadCellEscaped(c, rest);
  }

  /** A cell followed by a comma: the record goes on with the cells after it. */
  lemma NextCell(c: string, tail: string)
    requires ReadRecord(tail).Some?
    ensures ReadRecord(Escape(c) + "," + tail)
      == Some(([c] + ReadRecord(tail).value.0, ReadRecord(tail).value.1))
  {
    var after := "," + tail;
    assert after != [] && after[0] == ',' && after[1..] == tail;
    assert Escape(c) + "," + tail == Escape(c) + after;
    ReadCellEscaped(c, after);
  }

  /** The escaped lines of several records. */
  function EscapedLines(records: seq<seq<string>>): seq<string> {
    seq(|records|, i requires 0 <= i < |records| => EscapedLine(records[i]))
  }

  /**
    Records of at least two cells each, escaped and joined by line feeds,
    read back as the same records.
   */
  lemma {:induction false} ReadRecordsEscaped(records: seq<seq<string>>)
    requires forall i :: 0 <= i < |records| ==> |records[i]| >= 2
    ensures ReadRecords(Join(EscapedLines(records), "\n")) == Some(records)
  {
    if |records| == 1 {
      OneRecord(records);
    } else if records != [] {
      ReadRecordsEscaped(records[1..]);
      RecordsCons(records);
    }
  }

  lemma OneRecord(records: seq<seq<string>>)
    requires |records| == 1 && |records[0]| >= 2
    ensures ReadRecords(Join(EscapedLines(records), "\n")) == Some(records)
  {
    var lines := EscapedLines(records);
    LinesCons(records);
    LineNotEmpty(records[0]);
    assert Join(lines, "\n") == lines[0];
    ReadRecordEscaped(records[0], []);
    assert lines[0] + [] == lines[0];
    RecordsStep(lines[0], records, []);
  }

  /** The first record read back in front of the others. */
  lemma RecordsCons(records: seq<seq<string>>)
    requires |records| >= 2 && |records[0]| >= 2
    requires ReadRecords(Join(EscapedLines(records[1..]), "\n")) == Some(records[1..])
    ensures ReadRecords(Join(EscapedLines(records), "\n")) == Some(records)
  {
    var lines := EscapedLines(records);
    LinesCons(records);
    var others := Join(lines[1..], "\n");
    var rest := "\n" + others;
    JoinCons(lines, "\n");
    assert Join(lines, "\n") == lines[0] + rest;
    assert rest[0] == '\n' && rest[1..] == others;
    ReadRecordEscaped(records[0], rest);
    RecordsStep(lines[0] + rest, records, others);
  }

  lemma LinesCons(records: seq<seq<string>>)
    requires records != []
    ensures EscapedLines(records)[0] == EscapedLine(records[0])
    ensures EscapedLines(records)[1..] == EscapedLines(records[1..])
  {
  }

  /** A joined text is its first part, then the separator and the others when there are any. */
  lemma JoinCons(parts: seq<string>, sep: string)
    requires parts != []
    ensures Join(parts, sep) == parts[0] + (if |parts| == 1 then [] else sep + Join(parts[1..], sep))
  {
    if |parts| > 1 {
      Assoc(parts[0], sep, Join(parts[1..], sep));
    }
  }

  /** A text whose first record reads as the first of `records` and whose remainder reads as the others. */
  lemma RecordsStep(t: string, records: seq<seq<string>>, after: string)
    requires t != [] && records != []
    requires ReadRecord(t) == Some((records[0], after)) && ReadRecords(after) == Some(records[1..])
    ensures ReadRecords(t) == Some(records)
  {
    assert [records[0]] + records[1..] == records;
  }

  lemma LineNotEmpty(cells: seq<string>)
    requires |cells| >= 2
    ensures EscapedLine(cells) != []
  {
  }
}
