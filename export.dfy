/**
 * The audit export (convex/export.ts): the audit entries of a time range, written as CSV with
 * a fixed header line, one line-feed-terminated record per entry, and every text field in
 * double quotes with inner quotes doubled (section 2, rules 5 to 7, of RFC 4180; lines end
 * with LF rather than the CRLF of rule 1).
 */
module Export {
  import opened Wrappers
  import opened Types
  import opened Store
  import opened Seqs

  /** The projection `getAuditLogsForExport` returns for one entry. */
  datatype ExportRow = ExportRow(timestamp: int, eventType: string, ruleViolated: Option<string>,
                                 severity: Option<string>, correctiveAction: Option<string>,
                                 aiExplanation: Option<string>)

  /** The stored spelling of a severity. */
  function SeverityName(s: Severity): string {
    match s
    case Low => "low"
    case Medium => "medium"
    case High => "high"
    case Critical => "critical"
  }

  /** Both bounds are inclusive. */
  function InRange(startTime: real, endTime: real): Doc<AuditRow> -> bool {
    (d: Doc<AuditRow>) => startTime <= d.row.timestamp as real <= endTime
  }

  function Project(d: Doc<AuditRow>): ExportRow {
    ExportRow(d.row.timestamp, d.row.eventType, d.row.ruleViolated,
              match d.row.severity case Some(s) => Some(SeverityName(s)) case None => None,
              d.row.correctiveAction, d.row.aiExplanation)
  }

  function ProjectAll(ds: seq<Doc<AuditRow>>): (r: seq<ExportRow>)
    ensures |r| == |ds|
    ensures forall k :: 0 <= k < |ds| ==> r[k] == Project(ds[k])
  {
    seq(|ds|, k requires 0 <= k < |ds| => Project(ds[k]))
  }

  /** `getAuditLogsForExport`: the whole table, filtered by the range, then projected. */
  function AuditLogsForExport(logs: seq<Doc<AuditRow>>, startTime: real, endTime: real): seq<ExportRow> {
    ProjectAll(Filter(logs, InRange(startTime, endTime)))
  }

  /**
   * The export holds exactly the entries whose timestamp lies in the closed range, as an
   * order-preserving subsequence of the table, each projected field for field.
   */
  lemma ExportRange(logs: seq<Doc<AuditRow>>, startTime: real, endTime: real)
    ensures var sel := Filter(logs, InRange(startTime, endTime));
      && IsSubseq(sel, logs)
      && (forall d :: d in sel <==> d in logs && startTime <= d.row.timestamp as real <= endTime)
      && AuditLogsForExport(logs, startTime, endTime) == ProjectAll(sel)
  {
    var sel := Filter(logs, InRange(startTime, endTime));
    FilterSubseq(logs, InRange(startTime, endTime));
    forall d ensures d in sel <==> d in logs && startTime <= d.row.timestamp as real <= endTime {
      FilterMembers(logs, InRange(startTime, endTime), d);
    }
  }

  // ---------------------------------------------------------------------------
  // Quoting
  // ---------------------------------------------------------------------------

  /** `s.replace(/"/g, '""')`. */
  function Escape(s: string): (r: string)
    ensures |r| >= |s|
  {
    if s == [] then []
    else (if s[0] == '"' then "\"\"" else [s[0]]) + Escape(s[1..])
  }

  /** A field as written: the escaped text between two quotes. */
  function Quote(s: string): string {
    "\"" + Escape(s) + "\""
  }

  /** `t.replace(/""/g, '"')`: each pair of quotes, read left to right, becomes one. */
  function UndoublePairs(t: string): string {
    if t == [] then []
    else if |t| >= 2 && t[0] == '"' && t[1] == '"' then "\"" + UndoublePairs(t[2..])
    else [t[0]] + UndoublePairs(t[1..])
  }

  /** Strip the outer quotes, then undo the doubling. */
  function Unquote(q: string): string
    requires |q| >= 2
  {
    UndoublePairs(q[1..|q| - 1])
  }

  /** Every quote comes in a pair of two adjacent quotes. */
  predicate PairedQuotes(t: string) {
    if t == [] then true
    else if t[0] == '"' then |t| >= 2 && t[1] == '"' && PairedQuotes(t[2..])
    else PairedQuotes(t[1..])
  }

  lemma EscapeCons(c: char, s: string)
    ensures Escape([c] + s) == (if c == '"' then "\"\"" else [c]) + Escape(s)
  {
    assert ([c] + s)[1..] == s;
  }

  /** Undoing the doubling recovers the text. */
  lemma {:induction false} UndoubleEscape(s: string)
    ensures UndoublePairs(Escape(s)) == s
  {
    if s != [] {
      UndoubleEscape(s[1..]);
      var e := Escape(s[1..]);
      if s[0] == '"' {
        assert ("\"\"" + e)[2..] == e;
      } else {
        assert ([s[0]] + e)[1..] == e;
      }
      assert s == [s[0]] + s[1..];
    }
  }

  /** Removing the outer quotes and undoing the doubling recovers the field. */
  lemma UnquoteQuote(s: string)
    ensures |Quote(s)| >= 2 && Unquote(Quote(s)) == s
  {
    var q := Quote(s);
    assert q[1..|q| - 1] == Escape(s);
    UndoubleEscape(s);
  }

  /** Inside the outer quotes every quote is one of a doubled pair. */
  lemma {:induction false} EscapePaired(s: string)
    ensures PairedQuotes(Escape(s))
  {
    if s != [] {
      EscapePaired(s[1..]);
      var e := Escape(s[1..]);
      if s[0] == '"' {
        assert ("\"\"" + e)[2..] == e;
      } else {
        assert ([s[0]] + e)[1..] == e;
      }
    }
  }

  /** Conversely, text whose quotes are all paired is the escaped form of its undoubled text. */
  lemma {:induction false} PairedIsEscaped(t: string)
    requires PairedQuotes(t)
    ensures Escape(UndoublePairs(t)) == t
  {
    if t != [] {
      if t[0] == '"' {
        PairedIsEscaped(t[2..]);
        EscapeCons('"', UndoublePairs(t[2..]));
        assert t == "\"\"" + t[2..];
      } else {
        PairedIsEscaped(t[1..]);
        EscapeCons(t[0], UndoublePairs(t[1..]));
        assert t == [t[0]] + t[1..];
      }
    }
  }

  // ---------------------------------------------------------------------------
  // The document
  // ---------------------------------------------------------------------------

  const Header: string := "Timestamp,Event Type,Rule Violated,Severity,Corrective Action,AI Explanation\n"

  /** The cells of one record as text: the ISO time, then the quoted fields. */
  datatype Cells = Cells(time: string, fields: seq<string>)

  /**
   * The cells of a row, absent fields as ""; `iso` stands for `new Date(t).toISOString()`.
   * The `?? ""` on the event type never applies, since every entry has one.
   */
  function CellsOf(row: ExportRow, iso: int -> string): (c: Cells)
    ensures |c.fields| == 5
  {
    Cells(iso(row.timestamp), [row.eventType, row.ruleViolated.GetOr(""), row.severity.GetOr(""),
                               row.correctiveAction.GetOr(""), row.aiExplanation.GetOr("")])
  }

  /** The quoted fields, separated by commas, then the line feed. */
  function QuotedCells(fs: seq<string>): string
    requires fs != []
  {
    if |fs| == 1 then Quote(fs[0]) + "\n" else Quote(fs[0]) + "," + QuotedCells(fs[1..])
  }

  /** One record: the time unquoted, a comma, then the quoted fields. */
  function Render(c: Cells): string
    requires c.fields != []
  {
    c.time + "," + QuotedCells(c.fields)
  }

  /** `rows.join("")`. */
  function Concat(rs: seq<string>): string {
    if rs == [] then [] else rs[0] + Concat(rs[1..])
  }

  function CellsAll(rows: seq<ExportRow>, iso: int -> string): (r: seq<Cells>)
    ensures |r| == |rows|
    ensures forall k :: 0 <= k < |rows| ==> r[k] == CellsOf(rows[k], iso)
  {
    seq(|rows|, k requires 0 <= k < |rows| => CellsOf(rows[k], iso))
  }

  function RenderAll(rows: seq<ExportRow>, iso: int -> string): (r: seq<string>)
    ensures |r| == |rows|
    ensures forall k :: 0 <= k < |rows| ==> r[k] == Render(CellsOf(rows[k], iso))
  {
    seq(|rows|, k requires 0 <= k < |rows| => Render(CellsOf(rows[k], iso)))
  }

  /** `exportAuditLogsCSV`: the header, then one record per exported entry. */
  function ExportCsv(logs: seq<Doc<AuditRow>>, startTime: real, endTime: real, iso: int -> string): string {
    Header + Concat(RenderAll(AuditLogsForExport(logs, startTime, endTime), iso))
  }

  // ---------------------------------------------------------------------------
  // Reading the document back
  // ---------------------------------------------------------------------------

  /**
   * The rest of a quoted field after its opening quote: a pair of quotes is one quote of the
   * text, a single quote closes the field. None when the field is never closed.
   */
  function Closing(u: string): (r: Option<(string, string)>)
    ensures r.Some? ==> |r.value.1| < |u|
  {
    if u == [] then None
    else if u[0] == '"' then
      if |u| >= 2 && u[1] == '"' then
        match Closing(u[2..])
        case None => None
        case Some((text, rest)) => Some(("\"" + text, rest))
      else Some(([], u[1..]))
    else
      match Closing(u[1..])
      case None => None
      case Some((text, rest)) => Some(([u[0]] + text, rest))
  }

  /** A quoted field followed by the character `sep`: its text and what follows `sep`. */
  function QuotedThen(t: string, sep: char): (r: Option<(string, string)>)
    ensures r.Some? ==> |r.value.1| < |t|
  {
    if t == [] || t[0] != '"' then None
    else
      match Closing(t[1..])
      case None => None
      case Some((text, rest)) => if rest != [] && rest[0] == sep then Some((text, rest[1..])) else None
  }

  /** Everything up to the first `sep`, and what follows it. */
  function Until(t: string, sep: char): (r: Option<(string, string)>)
    ensures r.Some? ==> |r.value.1| < |t|
  {
    if t == [] then None
    else if t[0] == sep then Some(([], t[1..]))
    else
      match Until(t[1..], sep)
      case None => None
      case Some((head, rest)) => Some(([t[0]] + head, rest))
  }

  /** `n` quoted fields, each followed by a comma except the last, which ends the line. */
  function ReadQuotedCells(t: string, n: nat): (r: Option<(seq<string>, string)>)
    requires n >= 1
    ensures r.Some? ==> |r.value.1| < |t|
    decreases n
  {
    if n == 1 then
      match QuotedThen(t, '\n')
      case None => None
      case Some((text, rest)) => Some(([text], rest))
    else
      match QuotedThen(t, ',')
      case None => None
      case Some((text, t1)) =>
        match ReadQuotedCells(t1, n - 1)
        case None => None
        case Some((fs, rest)) => Some(([text] + fs, rest))
  }

  /** One record, as an RFC 4180 reader splits it, and the text after it. */
  function ReadRecord(t: string): (r: Option<(Cells, string)>)
    ensures r.Some? ==> |r.value.1| < |t|
  {
    match Until(t, ',')
    case None => None
    case Some((time, t1)) =>
      match ReadQuotedCells(t1, 5)
      case None => None
      case Some((fs, rest)) => Some((Cells(time, fs), rest))
  }

  function ReadRecords(t: string): Option<seq<Cells>>
    decreases |t|
  {
    if t == [] then Some([])
    else
      match ReadRecord(t)
      case None => None
      case Some((c, rest)) =>
        match ReadRecords(rest)
        case None => None
        case Some(cs) => Some([c] + cs)
  }

  /** A reader of the export: the header line, then records to the end. */
  function ReadCsv(t: string): Option<seq<Cells>> {
    if |t| >= |Header| && t[..|Header|] == Header then ReadRecords(t[|Header|..]) else None
  }

  /** A closing quote not followed by another quote ends the field, and its text is what was escaped. */
  lemma {:induction false} ClosingEscape(s: string, rest: string)
    requires rest == [] || rest[0] != '"'
    ensures Closing(Escape(s) + "\"" + rest) == Some((s, rest))
  {
    var u := Escape(s) + "\"" + rest;
    if s == [] {
      assert u == "\"" + rest;
      assert u[1..] == rest;
    } else {
      ClosingEscape(s[1..], rest);
      var tail := Escape(s[1..]) + "\"" + rest;
      if s[0] == '"' {
        assert u == "\"\"" + tail;
        assert u[2..] == tail;
      } else {
        assert u == [s[0]] + tail;
        assert u[1..] == tail;
      }
      assert s == [s[0]] + s[1..];
    }
  }

  lemma QuotedThenQuote(s: string, sep: char, rest: string)
    requires sep != '"'
    ensures QuotedThen(Quote(s) + [sep] + rest, sep) == Some((s, rest))
  {
    var t := Quote(s) + [sep] + rest;
    assert t[1..] == Escape(s) + "\"" + ([sep] + rest);
    ClosingEscape(s, [sep] + rest);
    assert ([sep] + rest)[1..] == rest;
  }

  lemma {:induction false} UntilPrefix(head: string, sep: char, rest: string)
    requires sep !in head
    ensures Until(head + [sep] + rest, sep) == Some((head, rest))
  {
    var t := head + [sep] + rest;
    if head == [] {
      assert t == [sep] + rest;
    } else {
      UntilPrefix(head[1..], sep, rest);
      assert t[1..] == head[1..] + [sep] + rest;
      assert head == [head[0]] + head[1..];
    }
  }

  lemma {:induction false} ReadQuotedCellsRender(fs: seq<string>, rest: string)
    requires fs != []
    ensures ReadQuotedCells(QuotedCells(fs) + rest, |fs|) == Some((fs, rest))
  {
    if |fs| == 1 {
      assert QuotedCells(fs) + rest == Quote(fs[0]) + ['\n'] + rest;
      QuotedThenQuote(fs[0], '\n', rest);
      assert fs == [fs[0]];
    } else {
      var tail := QuotedCells(fs[1..]) + rest;
      assert QuotedCells(fs) + rest == Quote(fs[0]) + [','] + tail;
      QuotedThenQuote(fs[0], ',', tail);
      ReadQuotedCellsRender(fs[1..], rest);
      assert fs == [fs[0]] + fs[1..];
    }
  }

  /** A rendered record reads back as its cells, provided the time has no comma. */
  lemma ReadRender(c: Cells, rest: string)
    requires ',' !in c.time && |c.fields| == 5
    ensures ReadRecord(Render(c) + rest) == Some((c, rest))
  {
    var t1 := QuotedCells(c.fields) + rest;
    assert Render(c) + rest == c.time + [','] + t1;
    UntilPrefix(c.time, ',', t1);
    ReadQuotedCellsRender(c.fields, rest);
  }

  lemma {:induction false} ReadRenderAll(rows: seq<ExportRow>, iso: int -> string)
    requires forall k :: 0 <= k < |rows| ==> ',' !in iso(rows[k].timestamp)
    ensures ReadRecords(Concat(RenderAll(rows, iso))) == Some(CellsAll(rows, iso))
  {
    var rs := RenderAll(rows, iso);
    if rows != [] {
      assert rs[1..] == RenderAll(rows[1..], iso);
      assert CellsAll(rows, iso) == [CellsOf(rows[0], iso)] + CellsAll(rows[1..], iso);
      ReadRenderAll(rows[1..], iso);
      ReadRender(CellsOf(rows[0], iso), Concat(rs[1..]));
    }
  }

  /**
   * The export reads back, record by record and in order, as the cells of the exported
   * entries: a reader following RFC 4180 recovers every field, whatever quotes, commas or
   * line feeds it holds, as long as the ISO times hold no comma.
   */
  lemma ExportRoundTrip(logs: seq<Doc<AuditRow>>, startTime: real, endTime: real, iso: int -> string)
    requires forall t :: ',' !in iso(t)
    ensures var rows := AuditLogsForExport(logs, startTime, endTime);
      ReadCsv(ExportCsv(logs, startTime, endTime, iso)) == Some(CellsAll(rows, iso))
  {
    var rows := AuditLogsForExport(logs, startTime, endTime);
    var body := Concat(RenderAll(rows, iso));
    var out := Header + body;
    assert out[..|Header|] == Header && out[|Header|..] == body;
    ReadRenderAll(rows, iso);
  }

  /** The document starts with the header line, so an empty range exports the header alone. */
  lemma ExportHeader(logs: seq<Doc<AuditRow>>, startTime: real, endTime: real, iso: int -> string)
    ensures var out := ExportCsv(logs, startTime, endTime, iso); |out| >= |Header| && out[..|Header|] == Header
    ensures AuditLogsForExport(logs, startTime, endTime) == [] ==> ExportCsv(logs, startTime, endTime, iso) == Header
  {
  }
}
