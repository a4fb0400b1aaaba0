/** The CSV text the pages export: each row's cells joined with commas, the
    rows joined with newlines, and the one quoted column written as RFC 4180
    section 2, item 7 prescribes (enclosed in double quotes, each double
    quote inside doubled). */
module Csv {
  import opened Wrappers
  import Text

  /** `s.replace(/"/g, '""')`: every double quote doubled. */
  function EscapeQuotes(s: string): (r: string)
    ensures |r| == |s| + multiset(s)['"']
    decreases |s|
  {
    if |s| == 0 then ""
    else
      assert s == [s[0]] + s[1..];
      (if s[0] == '"' then "\"\"" else [s[0]]) + EscapeQuotes(s[1..])
  }

  /** A quoted field: `"${EscapeQuotes(s)}"`. */
  function Quote(s: string): (r: string)
    ensures |r| >= 2 && r[0] == '"' && r[|r| - 1] == '"'
  {
    "\"" + EscapeQuotes(s) + "\""
  }

  /** How a reader decodes the inside of a quoted field: `""` stands for one
      `"`; a lone `"` cannot occur inside (`None`). */
  function Unescape(t: string): (r: Option<string>)
    decreases |t|
  {
    if |t| == 0 then Some("")
    else if t[0] == '"' then
      if |t| >= 2 && t[1] == '"' then
        match Unescape(t[2..])
        case Some(u) => Some("\"" + u)
        case None => None
      else None
    else
      match Unescape(t[1..])
      case Some(u) => Some([t[0]] + u)
      case None => None
  }

  /** How a reader decodes a quoted field. */
  function ReadQuoted(field: string): Option<string> {
    if |field| >= 2 && field[0] == '"' && field[|field| - 1] == '"' then Unescape(field[1..|field| - 1])
    else None
  }

  lemma {:induction false} UnescapeEscape(s: string)
    ensures Unescape(EscapeQuotes(s)) == Some(s)
    decreases |s|
  {
    if |s| > 0 {
      UnescapeEscape(s[1..]);
      var e := EscapeQuotes(s);
      var rest := EscapeQuotes(s[1..]);
      if s[0] == '"' {
        assert e == "\"\"" + rest;
        assert e[2..] == rest;
      } else {
        assert e == [s[0]] + rest;
        assert e[1..] == rest;
      }
      assert s == [s[0]] + s[1..];
    }
  }

  /** A reader gets back exactly the text that was quoted. */
  lemma QuoteRoundTrip(s: string)
    ensures ReadQuoted(Quote(s)) == Some(s)
  {
    var q := Quote(s);
    assert q[1..|q| - 1] == EscapeQuotes(s);
    UnescapeEscape(s);
  }

  /** Escaping adds double quotes and nothing else: the other characters
      (commas and newlines included) are kept. */
  lemma {:induction false} EscapeKeepsOthers(s: string, c: char)
    requires c != '"'
    ensures multiset(EscapeQuotes(s))[c] == multiset(s)[c]
    decreases |s|
  {
    if |s| > 0 {
      EscapeKeepsOthers(s[1..], c);
      assert s == [s[0]] + s[1..];
    }
  }

  /** `row.join(',')`. */
  function Line(cells: seq<string>): string {
    Text.Join(cells, ',')
  }

  /** `lines.join('\n')`. */
  function Document(lines: seq<string>): string {
    Text.Join(lines, '\n')
  }

  /** A line whose cells hold no comma splits back into its cells; the
      exports that do not quote rely on this. */
  lemma LineCells(cells: seq<string>)
    requires |cells| >= 1
    requires forall i :: 0 <= i < |cells| ==> ',' !in cells[i]
    ensures Text.Split(Line(cells), ',') == cells
  {
    Text.SplitJoin(cells, ',');
  }

  /** A document whose header and rows hold no line break splits back into
      the header followed by the rows. */
  lemma DocumentLines(header: string, rows: seq<string>)
    requires '\n' !in header
    requires forall i :: 0 <= i < |rows| ==> '\n' !in rows[i]
    ensures Text.Split(Document([header] + rows), '\n') == [header] + rows
  {
    var lines := [header] + rows;
    assert forall i :: 0 <= i < |lines| ==> '\n' !in lines[i];
    Text.SplitJoin(lines, '\n');
  }

  /** `rows.map(row => row.join(',')).join('\n')`: the export of the pages
      that do not quote, rows of cells written as they are. */
  function Table(rows: seq<seq<string>>): (r: string)
  {
    Document(seq(|rows|, i requires 0 <= i < |rows| => Line(rows[i])))
  }

  /** When no cell holds a line break, a table has one line per row; a row
      whose cells hold no comma either splits back into its cells. */
  lemma TableLines(rows: seq<seq<string>>)
    requires |rows| >= 1
    requires forall i, j :: 0 <= i < |rows| && 0 <= j < |rows[i]| ==> '\n' !in rows[i][j]
    ensures |Text.Split(Table(rows), '\n')| == |rows|
    ensures forall i :: 0 <= i < |rows| ==> Text.Split(Table(rows), '\n')[i] == Line(rows[i])
    ensures forall i :: 0 <= i < |rows| && |rows[i]| >= 1 && (forall j :: 0 <= j < |rows[i]| ==> ',' !in rows[i][j]) ==>
              Text.Split(Text.Split(Table(rows), '\n')[i], ',') == rows[i]
  {
    var lines := seq(|rows|, i requires 0 <= i < |rows| => Line(rows[i]));
    forall i | 0 <= i < |rows|
      ensures '\n' !in lines[i]
    {
      Text.JoinExcludes(rows[i], ',', '\n');
    }
    Text.SplitJoin(lines, '\n');
    forall i | 0 <= i < |rows| && |rows[i]| >= 1 && (forall j :: 0 <= j < |rows[i]| ==> ',' !in rows[i][j])
      ensures Text.Split(lines[i], ',') == rows[i]
    {
      LineCells(rows[i]);
    }
  }

  /** The rows a page exports: its header row, then one row of cells per
      shown record, in order. */
  function Sheet<T>(headers: seq<string>, shown: seq<T>, cells: T -> seq<string>): (r: seq<seq<string>>)
    ensures |r| == |shown| + 1 && r[0] == headers
    ensures forall i :: 0 <= i < |shown| ==> r[i + 1] == cells(shown[i])
  {
    [headers] + seq(|shown|, i requires 0 <= i < |shown| => cells(shown[i]))
  }

  /** When no cell holds a line break, an unquoted export has the header
      line and one line per shown record, in order; the header and every
      line whose cells hold no comma split back into their cells. */
  lemma SheetLines<T>(headers: seq<string>, shown: seq<T>, cells: T -> seq<string>)
    requires |headers| >= 1 && forall j :: 0 <= j < |headers| ==> '\n' !in headers[j] && ',' !in headers[j]
    requires forall i, j :: 0 <= i < |shown| && 0 <= j < |cells(shown[i])| ==> '\n' !in cells(shown[i])[j]
    ensures |Text.Split(Table(Sheet(headers, shown, cells)), '\n')| == |shown| + 1
    ensures Text.Split(Text.Split(Table(Sheet(headers, shown, cells)), '\n')[0], ',') == headers
    ensures forall i :: 0 <= i < |shown| ==> Text.Split(Table(Sheet(headers, shown, cells)), '\n')[i + 1] == Line(cells(shown[i]))
    ensures forall i :: 0 <= i < |shown| && |cells(shown[i])| >= 1 && (forall j :: 0 <= j < |cells(shown[i])| ==> ',' !in cells(shown[i])[j]) ==>
              Text.Split(Text.Split(Table(Sheet(headers, shown, cells)), '\n')[i + 1], ',') == cells(shown[i])
  {
    var t := Sheet(headers, shown, cells);
    forall i, j | 0 <= i < |t| && 0 <= j < |t[i]|
      ensures '\n' !in t[i][j]
    {
      if i > 0 {
        assert t[i] == cells(shown[i - 1]);
      }
    }
    TableLines(t);
  }
}
