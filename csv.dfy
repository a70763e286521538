/**
 * The CSV serialiser of the export endpoint: every field is quoted and each
 * embedded double quote is doubled (the quoting of section 2, rules 5 to 7,
 * of RFC 4180), fields are joined by commas and records by a single "\n"
 * (not the CRLF of rule 1), with a fixed header line and no final newline.
 */
module Csv {
  import opened Wrappers
  import opened WaitlistTypes

  const Header := "id,email,name,referred_by,created_at"

  /** The number of double quotes in `s`. */
  function QuoteCount(s: string): nat {
    if s == [] then 0 else (if s[0] == '"' then 1 else 0) + QuoteCount(s[1..])
  }

  /** The global replacement of `"` by `""`. */
  function Escape(s: string): (r: string)
    ensures |r| == |s| + QuoteCount(s)
  {
    if s == [] then []
    else (if s[0] == '"' then "\"\"" else [s[0]]) + Escape(s[1..])
  }

  /** `toCSVField`: a null value is written as the empty string, then quoted. */
  function ToCsvField(v: Option<string>): (r: string)
    ensures |r| == |v.GetOr("")| + 2 + QuoteCount(v.GetOr(""))
    ensures r[0] == '"' && r[|r| - 1] == '"'
  {
    "\"" + Escape(v.GetOr("")) + "\""
  }

  /** Null and the empty string are written alike, as `""`. */
  lemma NullLooksEmpty()
    ensures ToCsvField(None) == ToCsvField(Some("")) == "\"\""
  {
  }

  /** The summed length of some strings. */
  function TotalLength(parts: seq<string>): nat {
    if parts == [] then 0 else |parts[0]| + TotalLength(parts[1..])
  }

  /** `parts.join(sep)`: the parts in order, with one separator between neighbours. */
  function Join(parts: seq<string>, sep: string): string {
    if |parts| == 0 then ""
    else if |parts| == 1 then parts[0]
    else parts[0] + sep + Join(parts[1..], sep)
  }

  /** A join is as long as its parts plus one separator fewer than there are parts, and starts with the first part. */
  lemma {:induction false} JoinLength(parts: seq<string>, sep: string)
    requires |parts| > 0
    ensures |Join(parts, sep)| == TotalLength(parts) + (|parts| - 1) * |sep|
    ensures Join(parts, sep)[..|parts[0]|] == parts[0]
    decreases |parts|
  {
    if |parts| > 1 {
      JoinLength(parts[1..], sep);
    }
  }

  /** The cells of one row, in the column order of the header; only name and referral can be null. */
  function Cells(e: Entry): (r: seq<Option<string>>)
    ensures |r| == 5 && r[0].Some? && r[1].Some? && r[4].Some?
    ensures r[2] == e.name && r[3] == e.referredBy
  {
    [Some(e.id), Some(e.email), e.name, e.referredBy, Some(e.createdAt)]
  }

  /** Every cell quoted. */
  function Fields(cells: seq<Option<string>>): (r: seq<string>)
    ensures |r| == |cells|
    ensures forall k :: 0 <= k < |cells| ==> r[k] == ToCsvField(cells[k])
  {
    if cells == [] then [] else [ToCsvField(cells[0])] + Fields(cells[1..])
  }

  /** One CSV record: it opens and closes with a quote, like every field. */
  function Row(e: Entry): (r: string)
    ensures |r| >= 2 && r[0] == '"' && r[|r| - 1] == '"'
  {
    var fields := Fields(Cells(e));
    JoinEndsWithLastPart(fields, ",");
    Join(fields, ",")
  }

  /**
   * A record is five quoted fields and four commas: its length is that of
   * the five values (null as ""), plus one per embedded quote, plus 14.
   */
  lemma RowLength(e: Entry)
    ensures var vs := [e.id, e.email, e.name.GetOr(""), e.referredBy.GetOr(""), e.createdAt];
            |Row(e)| == TotalLength(vs)
                        + QuoteCount(vs[0]) + QuoteCount(vs[1]) + QuoteCount(vs[2]) + QuoteCount(vs[3]) + QuoteCount(vs[4])
                        + 14
  {
    var cells := Cells(e);
    var fields := Fields(cells);
    var vs := [e.id, e.email, e.name.GetOr(""), e.referredBy.GetOr(""), e.createdAt];
    JoinLength(fields, ",");
    TotalLengthOfFive(fields);
    TotalLengthOfFive(vs);
    assert fields == [ToCsvField(cells[0]), ToCsvField(cells[1]), ToCsvField(cells[2]), ToCsvField(cells[3]), ToCsvField(cells[4])];
  }

  lemma TotalLengthOfFive(xs: seq<string>)
    requires |xs| == 5
    ensures TotalLength(xs) == |xs[0]| + |xs[1]| + |xs[2]| + |xs[3]| + |xs[4]|
  {
    assert xs[4..][1..] == [];
    assert TotalLength(xs[4..]) == |xs[4]|;
    assert xs[3..][1..] == xs[4..];
    assert TotalLength(xs[3..]) == |xs[3]| + TotalLength(xs[4..]);
    assert xs[2..][1..] == xs[3..];
    assert TotalLength(xs[2..]) == |xs[2]| + TotalLength(xs[3..]);
    assert xs[1..][1..] == xs[2..];
    assert TotalLength(xs[1..]) == |xs[1]| + TotalLength(xs[2..]);
  }

  /** One record per entry, in the order of the query result. */
  function Rows(entries: seq<Entry>): (r: seq<string>)
    ensures |r| == |entries|
    ensures forall k :: 0 <= k < |entries| ==> r[k] == Row(entries[k])
  {
    if entries == [] then [] else [Row(entries[0])] + Rows(entries[1..])
  }

  /** The whole file: the header, then the records, separated by "\n". */
  function Document(entries: seq<Entry>): (r: string)
    ensures |r| >= |Header| && r[..|Header|] == Header
    ensures entries == [] <==> r == Header
  {
    Join([Header] + Rows(entries), "\n")
  }

  /** A join ends with the last part's last character. */
  lemma {:induction false} JoinEndsWithLastPart(parts: seq<string>, sep: string)
    requires |parts| > 0 && parts[|parts| - 1] != []
    ensures var j := Join(parts, sep); |j| > 0 && j[|j| - 1] == parts[|parts| - 1][|parts[|parts| - 1]| - 1]
    decreases |parts|
  {
    if |parts| > 1 {
      JoinEndsWithLastPart(parts[1..], sep);
    }
  }

  /** There is no final newline: the file ends with the header's last letter, or with a record's closing quote. */
  lemma NoTrailingNewline(entries: seq<Entry>)
    ensures var d := Document(entries); |d| > 0 && d[|d| - 1] == (if entries == [] then 't' else '"')
  {
    var lines := [Header] + Rows(entries);
    if entries != [] {
      var last := entries[|entries| - 1];
      assert lines[|lines| - 1] == Row(last);
      JoinEndsWithLastPart(Fields(Cells(last)), ",");
    }
    JoinEndsWithLastPart(lines, "\n");
  }
}
