/** The CSV download of `src/app/learning/reports/page.tsx`: roadmaps are
    flattened to one row per step (or one placeholder row for a roadmap
    without steps), every data field is quoted as in section 2 of RFC 4180
    (the header line is not), and the lines are joined with LF behind a
    `data:` URI prefix. A reader for
    that document shows nothing is lost on the way. */
module LearningExport {
  import opened Wrappers
  import opened LearningTypes
  import Text

  /** One exported row: the `Topik`, `Langkah` and `Status` columns. */
  datatype Row = Row(topic: string, step: string, status: string)

  function StatusText(completed: bool): string {
    if completed then "Selesai" else "Belum Selesai"
  }

  /** A roadmap's rows: one per step in step order, or the single
      "no steps" row. */
  function RoadmapRows(r: Roadmap): (rows: seq<Row>)
    ensures |rows| == if |r.steps| == 0 then 1 else |r.steps|
    ensures |r.steps| == 0 ==> rows == [Row(r.topic, "Tidak ada langkah", "N/A")]
    ensures forall i :: 0 <= i < |r.steps| ==>
      rows[i] == Row(r.topic, r.steps[i].title, StatusText(r.steps[i].completed))
  {
    if |r.steps| == 0 then [Row(r.topic, "Tidak ada langkah", "N/A")]
    else
      seq(|r.steps|, i requires 0 <= i < |r.steps| =>
        Row(r.topic, r.steps[i].title, StatusText(r.steps[i].completed)))
  }

  /** `roadmaps.flatMap(...)`. */
  function ExportRows(roadmaps: seq<Roadmap>): seq<Row> {
    if roadmaps == [] then [] else RoadmapRows(roadmaps[0]) + ExportRows(roadmaps[1..])
  }

  /** The sum over the roadmaps of max(1, number of steps). */
  function RowCount(roadmaps: seq<Roadmap>): nat {
    if roadmaps == [] then 0
    else (if |roadmaps[0].steps| == 0 then 1 else |roadmaps[0].steps|) + RowCount(roadmaps[1..])
  }

  lemma {:induction false} ExportRowsCount(roadmaps: seq<Roadmap>)
    ensures |ExportRows(roadmaps)| == RowCount(roadmaps)
  {
    if roadmaps != [] {
      ExportRowsCount(roadmaps[1..]);
    }
  }

  /** Rows follow roadmap order: the rows of a concatenation are the
      concatenation of the rows. */
  lemma {:induction false} ExportRowsConcat(a: seq<Roadmap>, b: seq<Roadmap>)
    ensures ExportRows(a + b) == ExportRows(a) + ExportRows(b)
  {
    if a != [] {
      assert (a + b)[0] == a[0] && (a + b)[1..] == a[1..] + b;
      ExportRowsConcat(a[1..], b);
      assert ExportRows(a + b) == RoadmapRows(a[0]) + ExportRows(a[1..] + b);
    } else {
      assert a + b == b;
    }
  }

  /** The field body with every double quote doubled. */
  function Escape(v: string): (e: string)
    ensures |e| >= |v|
  {
    if v == [] then []
    else if v[0] == '"' then "\"\"" + Escape(v[1..])
    else [v[0]] + Escape(v[1..])
  }

  /** `"${value.replace(/"/g, '""')}"`. */
  function Quote(v: string): string {
    "\"" + Escape(v) + "\""
  }

  /** A data line: the three quoted fields joined with commas. */
  function Line(row: Row): string {
    Quote(row.topic) + ("," + (Quote(row.step) + ("," + Quote(row.status))))
  }

  function Lines(rows: seq<Row>): (ls: seq<string>)
    ensures |ls| == |rows|
    ensures forall i :: 0 <= i < |rows| ==> ls[i] == Line(rows[i])
  {
    if rows == [] then [] else [Line(rows[0])] + Lines(rows[1..])
  }

  const Prefix: string := "data:text/csv;charset=utf-8,"

  /** The header is the key list of the first row, which is not quoted. */
  const Header: string := "Topik,Langkah,Status"

  function Document(rows: seq<Row>): string {
    Prefix + Text.Join([Header] + Lines(rows), "\n")
  }

  /** `handleDownload`: nothing without roadmaps, otherwise the CSV document. */
  function Export(roadmaps: seq<Roadmap>): (r: Option<string>)
    ensures r.None? <==> roadmaps == []
    ensures r.Some? ==> r.value == Document(ExportRows(roadmaps))
  {
    if roadmaps == [] then None else Some(Document(ExportRows(roadmaps)))
  }

  /** Reads a quoted field's body up to its closing quote, undoubling quotes;
      gives the value and the text after the closing quote. */
  function ReadQuoted(s: string): (r: Option<(string, string)>)
    ensures r.Some? ==> |r.value.1| < |s|
    decreases |s|
  {
    if s == [] then None
    else if s[0] == '"' then
      if |s| >= 2 && s[1] == '"' then
        match ReadQuoted(s[2..])
        case None => None
        case Some(p) => Some(("\"" + p.0, p.1))
      else Some(([], s[1..]))
    else
      match ReadQuoted(s[1..])
      case None => None
      case Some(p) => Some(([s[0]] + p.0, p.1))
  }

  /** A quoted field at the front of `s`. */
  function ReadField(s: string): (r: Option<(string, string)>)
    ensures r.Some? ==> |r.value.1| < |s|
  {
    if s != [] && s[0] == '"' then ReadQuoted(s[1..]) else None
  }

  /** Reads a data line back into a row: three quoted fields separated by
      commas, and nothing after the third. */
  function ParseLine(line: string): Option<Row> {
    match ReadField(line)
    case None => None
    case Some(f1) =>
      if f1.1 == [] || f1.1[0] != ',' then None
      else match ReadField(f1.1[1..])
        case None => None
        case Some(f2) =>
          if f2.1 == [] || f2.1[0] != ',' then None
          else match ReadField(f2.1[1..])
            case None => None
            case Some(f3) => if f3.1 != [] then None else Some(Row(f1.0, f2.0, f3.0))
  }

  /** The escaped body and closing quote read back to the value, leaving
      what follows (when that does not start with a quote). */
  lemma {:induction false} ReadEscaped(v: string, t: string)
    requires t == [] || t[0] != '"'
    ensures ReadQuoted(Escape(v) + "\"" + t) == Some((v, t))
  {
    var s := Escape(v) + "\"" + t;
    if v == [] {
      assert s == "\"" + t;
      assert s[1..] == t;
    } else if v[0] == '"' {
      ReadEscaped(v[1..], t);
      assert s == "\"\"" + (Escape(v[1..]) + "\"" + t);
      assert s[2..] == Escape(v[1..]) + "\"" + t;
      assert "\"" + v[1..] == v;
    } else {
      ReadEscaped(v[1..], t);
      assert s == [v[0]] + (Escape(v[1..]) + "\"" + t);
      assert s[1..] == Escape(v[1..]) + "\"" + t;
      assert [v[0]] + v[1..] == v;
    }
  }

  lemma ReadQuote(v: string, t: string)
    requires t == [] || t[0] != '"'
    ensures ReadField(Quote(v) + t) == Some((v, t))
  {
    ReadEscaped(v, t);
    assert (Quote(v) + t)[1..] == Escape(v) + "\"" + t;
  }

  /** Every data line reads back to its row (the quoting of RFC 4180 is
      undone exactly, commas and quotes inside fields included). */
  lemma ParseLineRoundTrip(row: Row)
    ensures ParseLine(Line(row)) == Some(row)
  {
    var q1, q2, q3 := Quote(row.topic), Quote(row.step), Quote(row.status);
    var rest2 := "," + q3;
    var rest1 := "," + (q2 + rest2);
    assert Line(row) == q1 + rest1;
    ReadQuote(row.topic, rest1);
    assert ReadField(Line(row)) == Some((row.topic, rest1));
    assert rest1[1..] == q2 + rest2;
    ReadQuote(row.step, rest2);
    assert ReadField(rest1[1..]) == Some((row.step, rest2));
    assert rest2[1..] == q3 + [];
    ReadQuote(row.status, []);
    assert ReadField(rest2[1..]) == Some((row.status, []));
  }

  /** Escaping adds only quotes, so other characters stay absent. */
  lemma {:induction false} EscapeAbsent(v: string, c: char)
    requires c != '"' && c !in v
    ensures c !in Escape(v)
  {
    if v != [] {
      EscapeAbsent(v[1..], c);
    }
  }

  /** No field holds a line break. */
  predicate OneLine(row: Row) {
    '\n' !in row.topic && '\n' !in row.step && '\n' !in row.status
  }

  lemma LineOneLine(row: Row)
    requires OneLine(row)
    ensures '\n' !in Line(row)
  {
    EscapeAbsent(row.topic, '\n');
    EscapeAbsent(row.step, '\n');
    EscapeAbsent(row.status, '\n');
  }

  function ParseLines(ls: seq<string>): (r: Option<seq<Row>>)
    ensures r.Some? ==> |r.value| == |ls|
  {
    if ls == [] then Some([])
    else match (ParseLine(ls[0]), ParseLines(ls[1..]))
      case (Some(row), Some(rows)) => Some([row] + rows)
      case _ => None
  }

  /** Reads a document: the prefix, the header line, then one row per line. */
  function ParseDocument(doc: string): Option<seq<Row>> {
    if |doc| < |Prefix| || doc[..|Prefix|] != Prefix then None
    else
      var pieces := Text.Split(doc[|Prefix|..], '\n');
      if pieces[0] != Header then None else ParseLines(pieces[1..])
  }

  lemma {:induction false} ParseLinesRoundTrip(rows: seq<Row>)
    ensures ParseLines(Lines(rows)) == Some(rows)
  {
    if rows != [] {
      ParseLineRoundTrip(rows[0]);
      ParseLinesRoundTrip(rows[1..]);
      assert Lines(rows) == [Line(rows[0])] + Lines(rows[1..]);
      ParseLinesCons(Line(rows[0]), Lines(rows[1..]), rows[0], rows[1..]);
      assert rows == [rows[0]] + rows[1..];
    }
  }

  /** Reading a line in front of readable lines puts its row in front. */
  lemma ParseLinesCons(l: string, ls: seq<string>, row: Row, rows: seq<Row>)
    requires ParseLine(l) == Some(row) && ParseLines(ls) == Some(rows)
    ensures ParseLines([l] + ls) == Some([row] + rows)
  {
    assert ([l] + ls)[0] == l && ([l] + ls)[1..] == ls;
  }

  /** When no field holds a line break, the document has one line per row
      after the header, and reading it gives the rows back. */
  lemma DocumentRoundTrip(rows: seq<Row>)
    requires forall i :: 0 <= i < |rows| ==> OneLine(rows[i])
    ensures |Text.Split(Document(rows)[|Prefix|..], '\n')| == |rows| + 1
    ensures ParseDocument(Document(rows)) == Some(rows)
  {
    var doc := Document(rows);
    var body := Text.Join([Header] + Lines(rows), "\n");
    assert doc[..|Prefix|] == Prefix && doc[|Prefix|..] == body;
    var pieces := [Header] + Lines(rows);
    forall i | 0 <= i < |pieces|
      ensures '\n' !in pieces[i]
    {
      if i > 0 {
        LineOneLine(rows[i - 1]);
      }
    }
    Text.SplitJoin(pieces, '\n');
    assert Text.Split(body, '\n') == pieces;
    assert pieces[1..] == Lines(rows);
    ParseLinesRoundTrip(rows);
  }

  /** Exported rows never break a line when the topics and step titles do not. */
  lemma {:induction false} ExportRowsOneLine(roadmaps: seq<Roadmap>)
    requires forall k :: 0 <= k < |roadmaps| ==> '\n' !in roadmaps[k].topic
    requires forall k, i :: 0 <= k < |roadmaps| && 0 <= i < |roadmaps[k].steps| ==> '\n' !in roadmaps[k].steps[i].title
    ensures forall j :: 0 <= j < |ExportRows(roadmaps)| ==> OneLine(ExportRows(roadmaps)[j])
  {
    if roadmaps != [] {
      var rest := roadmaps[1..];
      assert forall k :: 0 <= k < |rest| ==> rest[k] == roadmaps[k + 1];
      ExportRowsOneLine(rest);
      RoadmapRowsOneLine(roadmaps[0]);
    }
  }

  /** A roadmap's rows break no line when its topic and step titles do not. */
  lemma RoadmapRowsOneLine(r: Roadmap)
    requires '\n' !in r.topic
    requires forall i :: 0 <= i < |r.steps| ==> '\n' !in r.steps[i].title
    ensures forall j :: 0 <= j < |RoadmapRows(r)| ==> OneLine(RoadmapRows(r)[j])
  {
    assert '\n' !in StatusText(true) && '\n' !in StatusText(false);
    assert '\n' !in "Tidak ada langkah" && '\n' !in "N/A";
  }
}
