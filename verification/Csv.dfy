/**
 * The report encoder of services/admin-reporting/src/reports/csv.ts, and a strict
 * decoder for section 2 of RFC 4180 (with LF as the record separator) to judge it by.
 */
module Csv {
  import opened Wrappers

  /** A cell: null, undefined, or the text JavaScript's String() gives for it. */
  datatype Value = Null | Undefined | Text(text: string)

  /** A JavaScript object: its own keys in order, and the value each key holds. */
  datatype Record = Record(keys: seq<string>, cells: map<string, Value>)

  function Stringify(v: Value): string {
    match v
    case Text(s) => s
    case _ => ""
  }

  /** row[h], where a missing key reads as undefined. */
  function Cell(row: Record, h: string): Value {
    if h in row.cells then row.cells[h] else Undefined
  }

  predicate Special(s: string) {
    '"' in s || ',' in s || '\n' in s
  }

  function DoubleQuotes(s: string): (r: string)
    ensures |r| >= |s|
  {
    if s == "" then ""
    else (if s[0] == '"' then "\"\"" else [s[0]]) + DoubleQuotes(s[1..])
  }

  function EscapeText(s: string): string {
    if Special(s) then "\"" + DoubleQuotes(s) + "\"" else s
  }

  function EscapeCsvField(v: Value): string {
    EscapeText(Stringify(v))
  }

  function Join(parts: seq<string>, sep: char): string {
    if parts == [] then ""
    else if |parts| == 1 then parts[0]
    else parts[0] + [sep] + Join(parts[1..], sep)
  }

  /** The stringified fields of one row, in header order. */
  function Fields(row: Record, headers: seq<string>): seq<string> {
    seq(|headers|, i requires 0 <= i < |headers| => Stringify(Cell(row, headers[i])))
  }

  function Table(rows: seq<Record>, headers: seq<string>): seq<seq<string>> {
    seq(|rows|, i requires 0 <= i < |rows| => Fields(rows[i], headers))
  }

  function EscapeAll(fields: seq<string>): seq<string> {
    seq(|fields|, i requires 0 <= i < |fields| => EscapeText(fields[i]))
  }

  function Line(fields: seq<string>): string {
    Join(EscapeAll(fields), ',')
  }

  function Lines(table: seq<seq<string>>): seq<string> {
    seq(|table|, i requires 0 <= i < |table| => Line(table[i]))
  }

  /** The text ToCsv writes: raw headers first, then one escaped line for each row. */
  function Encode(headers: seq<string>, table: seq<seq<string>>): string {
    Join([Join(headers, ',')] + Lines(table), '\n')
  }

  method ToCsv(rows: seq<Record>) returns (csv: string)
    ensures rows == [] ==> csv == ""
    ensures rows != [] ==> csv == Encode(rows[0].keys, Table(rows, rows[0].keys))
  {
    if |rows| == 0 {
      return "";
    }
    var headers := rows[0].keys;
    var lines := [Join(headers, ',')];
    var i := 0;
    while i < |rows|
      invariant 0 <= i <= |rows|
      invariant lines == [Join(headers, ',')] + Lines(Table(rows, headers))[..i]
    {
      var cells := seq(|headers|, j requires 0 <= j < |headers| => EscapeCsvField(Cell(rows[i], headers[j])));
      assert cells == EscapeAll(Fields(rows[i], headers));
      lines := lines + [Join(cells, ',')];
      i := i + 1;
    }
    assert lines == [Join(headers, ',')] + Lines(Table(rows, headers));
    csv := Join(lines, '\n');
  }

  // ---------------------------------------------------------------- decoder

  /** Text outside quotes, up to a separator or the end; a stray quote is an error. */
  function BareField(s: string): (r: Option<(string, string)>)
    ensures r.Some? ==> |r.value.1| <= |s|
  {
    if s == "" || s[0] == ',' || s[0] == '\n' then Some(("", s))
    else if s[0] == '"' then None
    else match BareField(s[1..])
      case None => None
      case Some((f, rest)) => Some(([s[0]] + f, rest))
  }

  /** Text after an opening quote, up to its closing quote. */
  function QuotedField(s: string): (r: Option<(string, string)>)
    ensures r.Some? ==> |r.value.1| < |s|
  {
    if s == "" then None
    else if s[0] != '"' then
      match QuotedField(s[1..])
      case None => None
      case Some((f, rest)) => Some(([s[0]] + f, rest))
    else if |s| > 1 && s[1] == '"' then
      match QuotedField(s[2..])
      case None => None
      case Some((f, rest)) => Some(("\"" + f, rest))
    else Some(("", s[1..]))
  }

  function DecodeField(s: string): (r: Option<(string, string)>)
    ensures r.Some? ==> |r.value.1| <= |s|
  {
    if s != "" && s[0] == '"' then QuotedField(s[1..]) else BareField(s)
  }

  /** One record, and the text after its line feed, or None where the text ended. */
  function DecodeRecord(s: string): (r: Option<(seq<string>, Option<string>)>)
    ensures r.Some? ==> r.value.0 != []
    ensures r.Some? && r.value.1.Some? ==> |r.value.1.value| < |s|
    decreases |s|
  {
    match DecodeField(s)
    case None => None
    case Some((f, rest)) =>
      if rest == "" then Some(([f], None))
      else if rest[0] == '\n' then Some(([f], Some(rest[1..])))
      else if rest[0] == ',' then
        match DecodeRecord(rest[1..])
        case None => None
        case Some((fs, more)) => Some(([f] + fs, more))
      else None
  }

  function Decode(s: string): Option<seq<seq<string>>>
    decreases |s|
  {
    match DecodeRecord(s)
    case None => None
    case Some((fields, None)) => Some([fields])
    case Some((fields, Some(rest))) =>
      match Decode(rest)
      case None => None
      case Some(records) => Some([fields] + records)
  }

  // ------------------------------------------------- decoding what was encoded

  ghost predicate AtSeparator(s: string) {
    s == "" || s[0] == ',' || s[0] == '\n'
  }

  lemma {:induction false} BareFieldReads(f: string, tail: string)
    requires !Special(f) && AtSeparator(tail)
    ensures BareField(f + tail) == Some((f, tail))
  {
    if f == "" {
      assert f + tail == tail;
    } else {
      assert (f + tail)[1..] == f[1..] + tail;
      assert f[0] in f;
      BareFieldReads(f[1..], tail);
      assert [f[0]] + f[1..] == f;
    }
  }

  lemma {:induction false} QuotedFieldReads(f: string, tail: string)
    requires AtSeparator(tail)
    ensures QuotedField(DoubleQuotes(f) + "\"" + tail) == Some((f, tail))
  {
    var s := DoubleQuotes(f) + "\"" + tail;
    if f == "" {
      assert s == "\"" + tail;
    } else {
      QuotedFieldReads(f[1..], tail);
      var inner := DoubleQuotes(f[1..]) + "\"" + tail;
      if f[0] == '"' {
        assert s == "\"\"" + inner;
        assert s[2..] == inner;
      } else {
        assert s == [f[0]] + inner;
        assert s[1..] == inner;
      }
      assert [f[0]] + f[1..] == f;
    }
  }

  lemma OpeningQuoteStarts(inner: string)
    ensures DecodeField("\"" + inner) == QuotedField(inner)
  {
    assert ("\"" + inner)[1..] == inner;
  }

  lemma Concatenates(q: string, d: string, tail: string)
    ensures (q + d + q) + tail == q + (d + q + tail)
  {
  }

  lemma SpecialFieldReads(f: string, tail: string)
    requires AtSeparator(tail) && Special(f)
    ensures DecodeField(EscapeText(f) + tail) == Some((f, tail))
  {
    var inner := DoubleQuotes(f) + "\"" + tail;
    assert EscapeText(f) + tail == "\"" + inner by {
      Concatenates("\"", DoubleQuotes(f), tail);
    }
    QuotedFieldReads(f, tail);
    OpeningQuoteStarts(inner);
  }

  lemma PlainFieldReads(f: string, tail: string)
    requires AtSeparator(tail) && !Special(f)
    ensures DecodeField(EscapeText(f) + tail) == Some((f, tail))
  {
    BareFieldReads(f, tail);
    if f == "" {
      assert f + tail == tail;
    } else {
      assert f[0] in f;
    }
  }

  lemma FieldReads(f: string, tail: string)
    requires AtSeparator(tail)
    ensures DecodeField(EscapeText(f) + tail) == Some((f, tail))
  {
    if Special(f) {
      SpecialFieldReads(f, tail);
    } else {
      PlainFieldReads(f, tail);
    }
  }

  ghost predicate AtLineEnd(s: string) {
    s == "" || s[0] == '\n'
  }

  lemma LineSplits(f: string, more: seq<string>, tail: string)
    requires more != []
    ensures Line([f] + more) + tail == EscapeText(f) + ("," + (Line(more) + tail))
  {
    var escaped := EscapeAll([f] + more);
    assert escaped[0] == EscapeText(f) && escaped[1..] == EscapeAll(more);
  }

  lemma {:induction false} RecordReads(fields: seq<string>, tail: string)
    requires fields != [] && AtLineEnd(tail)
    ensures DecodeRecord(Line(fields) + tail)
         == Some((fields, if tail == "" then None else Some(tail[1..])))
    decreases |fields|
  {
    var f, more := fields[0], fields[1..];
    assert [f] + more == fields;
    if more == [] {
      FieldReads(f, tail);
      assert fields == [f];
      assert Line(fields) == EscapeText(f);
    } else {
      LineSplits(f, more, tail);
      FieldReads(f, "," + (Line(more) + tail));
      assert ("," + (Line(more) + tail))[1..] == Line(more) + tail;
      RecordReads(more, tail);
    }
  }

  lemma {:induction false} DocumentReads(table: seq<seq<string>>)
    requires table != [] && forall i :: 0 <= i < |table| ==> table[i] != []
    ensures Decode(Join(Lines(table), '\n')) == Some(table)
    decreases |table|
  {
    var text := Join(Lines(table), '\n');
    if |table| == 1 {
      assert table == [table[0]];
      assert text == Line(table[0]) + "";
      RecordReads(table[0], "");
    } else {
      assert Lines(table)[1..] == Lines(table[1..]);
      var rest := Join(Lines(table[1..]), '\n');
      assert text == Line(table[0]) + ("\n" + rest);
      RecordReads(table[0], "\n" + rest);
      assert ("\n" + rest)[1..] == rest;
      DocumentReads(table[1..]);
      assert [table[0]] + table[1..] == table;
    }
  }

  // -------------------------- no text is shorter than the escaped form of what it means

  lemma {:induction false} QuotedFieldLength(s: string)
    requires QuotedField(s).Some?
    ensures var (f, rest) := QuotedField(s).value; |s| - |rest| >= |DoubleQuotes(f)| + 1
  {
    var (f, rest) := QuotedField(s).value;
    if s[0] != '"' {
      QuotedFieldLength(s[1..]);
      assert f[1..] == QuotedField(s[1..]).value.0;
    } else if |s| > 1 && s[1] == '"' {
      QuotedFieldLength(s[2..]);
      assert f[1..] == QuotedField(s[2..]).value.0;
    }
  }

  lemma {:induction false} BareFieldLength(s: string)
    requires BareField(s).Some?
    ensures var (f, rest) := BareField(s).value; !Special(f) && |s| - |rest| == |f|
  {
    if !(s == "" || s[0] == ',' || s[0] == '\n') {
      BareFieldLength(s[1..]);
    }
  }

  lemma FieldLength(s: string)
    requires DecodeField(s).Some?
    ensures var (f, rest) := DecodeField(s).value; |s| - |rest| >= |EscapeText(f)|
  {
    if s != "" && s[0] == '"' {
      QuotedFieldLength(s[1..]);
    } else {
      BareFieldLength(s);
    }
  }

  lemma {:induction false} RecordLength(s: string)
    requires DecodeRecord(s).Some?
    ensures var (fields, rest) := DecodeRecord(s).value;
      |s| - (if rest.Some? then |rest.value| + 1 else 0) >= |Line(fields)|
    decreases |s|
  {
    var (f, rest) := DecodeField(s).value;
    FieldLength(s);
    if rest != "" && rest[0] == ',' {
      RecordLength(rest[1..]);
      var fs := DecodeRecord(rest[1..]).value.0;
      assert EscapeAll([f] + fs)[1..] == EscapeAll(fs);
    }
  }

  lemma {:induction false} DocumentLength(s: string)
    requires Decode(s).Some?
    ensures |s| >= |Join(Lines(Decode(s).value), '\n')|
    decreases |s|
  {
    RecordLength(s);
    var (fields, rest) := DecodeRecord(s).value;
    if rest.Some? {
      DocumentLength(rest.value);
      var records := Decode(rest.value).value;
      assert Lines([fields] + records)[1..] == Lines(records);
    }
  }

  lemma {:induction false} JoinLength(parts: seq<string>, longer: seq<string>, sep: char)
    requires |parts| == |longer|
    requires forall i :: 0 <= i < |parts| ==> |parts[i]| <= |longer[i]|
    ensures |Join(parts, sep)| <= |Join(longer, sep)|
    ensures (exists i :: 0 <= i < |parts| && |parts[i]| < |longer[i]|) ==> |Join(parts, sep)| < |Join(longer, sep)|
  {
    if |parts| > 1 {
      JoinLength(parts[1..], longer[1..], sep);
      if i :| 0 <= i < |parts| && |parts[i]| < |longer[i]| && i > 0 {
        assert parts[1..][i - 1] == parts[i] && longer[1..][i - 1] == longer[i];
      }
    }
  }

  // ------------------------------------------------------------ main results

  ghost predicate PlainHeaders(headers: seq<string>) {
    headers != [] && forall h <- headers :: !Special(h)
  }

  lemma HeaderRecordIsNotEmpty(s: string)
    requires Decode(s).Some?
    ensures Decode(s).value != [] && Decode(s).value[0] != []
  {
  }

  lemma EscapedHeadersAreLonger(headers: seq<string>, table: seq<seq<string>>)
    requires headers != [] && !PlainHeaders(headers)
    ensures |Encode(headers, table)| < |Join(Lines([headers] + table), '\n')|
  {
    var escaped := EscapeAll(headers);
    var h :| h in headers && Special(h);
    var i :| 0 <= i < |headers| && headers[i] == h;
    assert |headers[i]| < |escaped[i]|;
    JoinLength(headers, escaped, ',');
    var raw, full := [Join(headers, ',')] + Lines(table), Lines([headers] + table);
    assert full == [Line(headers)] + Lines(table);
    assert |raw[0]| < |full[0]|;
    JoinLength(raw, full, '\n');
  }

  /** Fields survive the trip whatever they hold, exactly when the headers need no quoting. */
  lemma RoundTrip(headers: seq<string>, table: seq<seq<string>>)
    requires forall i :: 0 <= i < |table| ==> |table[i]| == |headers|
    ensures Decode(Encode(headers, table)) == Some([headers] + table) <==> PlainHeaders(headers)
  {
    var all := [headers] + table;
    assert Lines(all) == [Line(headers)] + Lines(table);
    if PlainHeaders(headers) {
      assert EscapeAll(headers) == headers;
      assert all[0] == headers && forall i :: 1 <= i < |all| ==> all[i] == table[i - 1];
      DocumentReads(all);
    } else if Decode(Encode(headers, table)) == Some(all) {
      if headers == [] {
        HeaderRecordIsNotEmpty(Encode(headers, table));
      } else {
        EscapedHeadersAreLonger(headers, table);
        DocumentLength(Encode(headers, table));
      }
      assert false;
    }
  }

  /** Two reports with plain headers and one text are one report. */
  lemma EncodeInjective(h1: seq<string>, t1: seq<seq<string>>, h2: seq<string>, t2: seq<seq<string>>)
    requires PlainHeaders(h1) && PlainHeaders(h2)
    requires forall i :: 0 <= i < |t1| ==> |t1[i]| == |h1|
    requires forall i :: 0 <= i < |t2| ==> |t2[i]| == |h2|
    requires Encode(h1, t1) == Encode(h2, t2)
    ensures h1 == h2 && t1 == t2
  {
    RoundTrip(h1, t1);
    RoundTrip(h2, t2);
    assert ([h1] + t1)[0] == ([h2] + t2)[0];
    assert ([h1] + t1)[1..] == t1 && ([h2] + t2)[1..] == t2;
  }

  /** The condition is not idle: a comma in a header reads back as two headers. */
  lemma HeaderWithCommaIsLost()
    ensures Decode(Encode(["a,b"], [])) == Some([["a", "b"]])
  {
    assert Encode(["a,b"], []) == "a,b" by {
      assert [Join(["a,b"], ',')] + Lines([]) == ["a,b"];
    }
    var t := EscapeAll(["a", "b"]);
    assert Line(["a", "b"]) == "a,b" by {
      assert t[1..] == ["b"];
      assert !Special("a") && !Special("b");
    }
    assert Lines([["a", "b"]]) == ["a,b"];
    DocumentReads([["a", "b"]]);
  }
}
