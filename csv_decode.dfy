/**
 * A reader for the CSV the export endpoint writes (every field quoted,
 * records separated by "\n"), and the proof that reading the file back gives
 * exactly the exported entries, with null written and read as "".
 */
module CsvDecode {
  import opened Wrappers
  import opened WaitlistTypes
  import opened Csv

  /**
   * Reads a quoted field after its opening quote: `""` stands for one quote,
   * a lone `"` closes the field. Gives the content and what follows the
   * closing quote; fails when the field is never closed.
   */
  function ParseQuotedTail(s: string): (r: Option<(string, string)>)
    ensures r.Some? ==> |r.value.1| < |s|
    decreases |s|
  {
    if s == [] then None
    else if s[0] == '"' then
      if |s| >= 2 && s[1] == '"' then
        match ParseQuotedTail(s[2..])
        case None => None
        case Some((v, rest)) => Some(("\"" + v, rest))
      else Some(([], s[1..]))
    else
      match ParseQuotedTail(s[1..])
      case None => None
      case Some((v, rest)) => Some(([s[0]] + v, rest))
  }

  /** Reads one quoted field at the start of `s`. */
  function ParseField(s: string): (r: Option<(string, string)>)
    ensures r.Some? ==> |r.value.1| < |s|
  {
    if s != [] && s[0] == '"' then ParseQuotedTail(s[1..]) else None
  }

  /** Reads comma-separated quoted fields up to the first character that is not a comma after a field. */
  function ParseRecord(s: string): (r: Option<(seq<string>, string)>)
    ensures r.Some? ==> |r.value.1| < |s| && |r.value.0| >= 1
    decreases |s|
  {
    match ParseField(s)
    case None => None
    case Some((v, rest)) =>
      if rest != [] && rest[0] == ',' then
        match ParseRecord(rest[1..])
        case None => None
        case Some((vs, rest')) => Some(([v] + vs, rest'))
      else Some(([v], rest))
  }

  /** Reads records separated by "\n" up to the end of the text. */
  function ParseRecords(s: string): (r: Option<seq<seq<string>>>)
    decreases |s|
  {
    match ParseRecord(s)
    case None => None
    case Some((record, rest)) =>
      if rest == [] then Some([record])
      else if rest[0] == '\n' then
        match ParseRecords(rest[1..])
        case None => None
        case Some(records) => Some([record] + records)
      else None
  }

  /** Reads a whole export file: the fixed header line, then zero or more records. */
  function ParseDocument(text: string): Option<seq<seq<string>>> {
    if text == Header then Some([])
    else if |text| > |Header| && text[..|Header| + 1] == Header + "\n" then ParseRecords(text[|Header| + 1..])
    else None
  }

  /** The values an entry's record carries, with null read back as "". */
  function Values(cells: seq<Option<string>>): (r: seq<string>)
    ensures |r| == |cells|
    ensures forall k :: 0 <= k < |cells| ==> r[k] == cells[k].GetOr("")
  {
    if cells == [] then [] else [cells[0].GetOr("")] + Values(cells[1..])
  }

  function Table(entries: seq<Entry>): (r: seq<seq<string>>)
    ensures |r| == |entries|
    ensures forall k :: 0 <= k < |entries| ==> r[k] == Values(Cells(entries[k]))
  {
    if entries == [] then [] else [Values(Cells(entries[0]))] + Table(entries[1..])
  }

  /** A field's escaped content, its closing quote and anything not starting with a quote read back as the content. */
  lemma {:induction false} QuotedTailRoundTrip(v: string, rest: string)
    requires rest == [] || rest[0] != '"'
    ensures ParseQuotedTail(Escape(v) + "\"" + rest) == Some((v, rest))
    decreases |v|
  {
    var s := Escape(v) + "\"" + rest;
    if v == [] {
      assert s == "\"" + rest;
    } else if v[0] == '"' {
      assert s == "\"\"" + (Escape(v[1..]) + "\"" + rest);
      QuotedTailRoundTrip(v[1..], rest);
      assert [v[0]] + v[1..] == v;
    } else {
      assert s == [v[0]] + (Escape(v[1..]) + "\"" + rest);
      QuotedTailRoundTrip(v[1..], rest);
      assert [v[0]] + v[1..] == v;
    }
  }

  /**
   * Conversely, whatever the reader accepts is an escaped content followed by
   * a lone closing quote: inside a field, quotes come only in adjacent pairs.
   */
  lemma {:induction false} QuotedTailExact(s: string, v: string, rest: string)
    requires ParseQuotedTail(s) == Some((v, rest))
    ensures s == Escape(v) + "\"" + rest
    ensures rest == [] || rest[0] != '"'
    decreases |s|
  {
    if s[0] == '"' && |s| >= 2 && s[1] == '"' {
      var v' := ParseQuotedTail(s[2..]).value.0;
      QuotedTailExact(s[2..], v', rest);
      assert v == "\"" + v';
      EscapePrepend('"', v');
      Regroup("\"\"", s[2..], Escape(v'), rest);
    } else if s[0] != '"' {
      var v' := ParseQuotedTail(s[1..]).value.0;
      QuotedTailExact(s[1..], v', rest);
      assert v == [s[0]] + v';
      EscapePrepend(s[0], v');
      Regroup([s[0]], s[1..], Escape(v'), rest);
    }
  }

  /** A head in front of an escaped tail, regrouped. */
  lemma Regroup(head: string, tail: string, escaped: string, rest: string)
    requires tail == escaped + "\"" + rest
    ensures head + tail == (head + escaped) + "\"" + rest
  {
  }

  /** Escaping a string with one more character in front. */
  lemma EscapePrepend(c: char, v: string)
    ensures Escape([c] + v) == (if c == '"' then "\"\"" else [c]) + Escape(v)
  {
    assert ([c] + v)[1..] == v;
  }

  /** `toCSVField` read back: its value (null as "") and the untouched rest. */
  lemma FieldRoundTrip(c: Option<string>, rest: string)
    requires rest == [] || rest[0] != '"'
    ensures ParseField(ToCsvField(c) + rest) == Some((c.GetOr(""), rest))
  {
    var s := ToCsvField(c) + rest;
    assert s[1..] == Escape(c.GetOr("")) + "\"" + rest;
    QuotedTailRoundTrip(c.GetOr(""), rest);
  }

  /** Every field the reader accepts is exactly `toCSVField` of its value. */
  lemma FieldExact(s: string)
    requires ParseField(s).Some?
    ensures s == ToCsvField(Some(ParseField(s).value.0)) + ParseField(s).value.1
  {
    QuotedTailExact(s[1..], ParseField(s).value.0, ParseField(s).value.1);
    assert s == "\"" + s[1..];
  }

  /** A comma-joined record of quoted cells, followed by text not starting with a comma or a quote, reads back as its values. */
  lemma {:induction false} RecordRoundTrip(cells: seq<Option<string>>, rest: string)
    requires |cells| > 0
    requires rest == [] || (rest[0] != ',' && rest[0] != '"')
    ensures ParseRecord(Join(Fields(cells), ",") + rest) == Some((Values(cells), rest))
    decreases |cells|
  {
    var fields := Fields(cells);
    if |cells| == 1 {
      FieldRoundTrip(cells[0], rest);
      assert Values(cells) == [cells[0].GetOr("")];
    } else {
      var tail := Join(fields[1..], ",") + rest;
      assert fields[1..] == Fields(cells[1..]);
      assert Join(fields, ",") + rest == ToCsvField(cells[0]) + ("," + tail);
      FieldRoundTrip(cells[0], "," + tail);
      assert ("," + tail)[1..] == tail;
      RecordRoundTrip(cells[1..], rest);
      assert Values(cells) == [cells[0].GetOr("")] + Values(cells[1..]);
    }
  }

  /** An export row reads back as exactly five values, in the header's column order. */
  lemma RowRoundTrip(e: Entry, rest: string)
    requires rest == [] || rest[0] == '\n'
    ensures ParseRecord(Row(e) + rest)
            == Some(([e.id, e.email, e.name.GetOr(""), e.referredBy.GetOr(""), e.createdAt], rest))
  {
    RecordRoundTrip(Cells(e), rest);
    assert Values(Cells(e)) == [e.id, e.email, e.name.GetOr(""), e.referredBy.GetOr(""), e.createdAt];
  }

  /** The records of a non-empty export read back as its entries' values, in order. */
  lemma {:induction false} RecordsRoundTrip(entries: seq<Entry>)
    requires |entries| > 0
    ensures ParseRecords(Join(Rows(entries), "\n")) == Some(Table(entries))
    decreases |entries|
  {
    var rows := Rows(entries);
    if |entries| == 1 {
      assert ParseRecord(Join(rows, "\n")) == Some((Values(Cells(entries[0])), [])) by {
        assert Join(rows, "\n") == Row(entries[0]) + [];
        RecordRoundTrip(Cells(entries[0]), []);
      }
      assert Table(entries) == [Values(Cells(entries[0]))];
    } else {
      var tail := Join(Rows(entries[1..]), "\n");
      assert Join(rows, "\n") == Row(entries[0]) + ("\n" + tail) by {
        assert rows[1..] == Rows(entries[1..]);
      }
      assert ParseRecord(Row(entries[0]) + ("\n" + tail)) == Some((Values(Cells(entries[0])), "\n" + tail)) by {
        RecordRoundTrip(Cells(entries[0]), "\n" + tail);
      }
      RecordsRoundTrip(entries[1..]);
      ParseRecordsCons(Row(entries[0]) + ("\n" + tail), Values(Cells(entries[0])), tail, Table(entries[1..]));
      assert Table(entries) == [Values(Cells(entries[0]))] + Table(entries[1..]);
    }
  }

  /** A record followed by a newline and more records reads as that record in front of the others. */
  lemma ParseRecordsCons(s: string, record: seq<string>, tail: string, records: seq<seq<string>>)
    requires ParseRecord(s) == Some((record, "\n" + tail))
    requires ParseRecords(tail) == Some(records)
    ensures ParseRecords(s) == Some([record] + records)
  {
    assert ("\n" + tail)[1..] == tail;
  }

  /** The export round-trip: reading the file back gives every entry's values, in the fetched order. */
  lemma DocumentRoundTrip(entries: seq<Entry>)
    ensures ParseDocument(Document(entries)) == Some(Table(entries))
  {
    var lines := [Header] + Rows(entries);
    if entries == [] {
      assert lines == [Header];
    } else {
      var body := Join(Rows(entries), "\n");
      assert lines[1..] == Rows(entries);
      assert Document(entries) == Header + "\n" + body;
      assert (Header + "\n" + body)[..|Header| + 1] == Header + "\n";
      assert (Header + "\n" + body)[|Header| + 1..] == body;
      RecordsRoundTrip(entries);
    }
  }
}
