/**
 * The administrator's CSV export (app/admin/cases/export/route.ts): a header and one row
 * per case, every field quoted with its quotes doubled, fields separated by commas and
 * records by CRLF, as section 2 of RFC 4180 lays out.
 *
 * `ReadCsv` is a reader for the quoted fields of that section. It is the partner the
 * writer is proved against: what the route writes reads back as the header and the rows.
 * The request origin, the user relation's email (`emailOf`), `toISOString` (`toIso`) and
 * the query-string encoding (`encode`) are parameters.
 */
module CsvExport {
  import opened Wrappers
  import opened Strings
  import opened JsonValue
  import opened Http
  import opened Screenshots
  import opened Cases
  import opened Admin

  const Forbidden := "Forbidden"
  const Header: seq<string> := ["case_number", "user_email", "platform_link", "created_at", "screenshot_links", "status"]
  const LinkSeparator := " | "
  const LineBreak := "\r\n"

  /** `value.replace(/"/g, '""')` */
  function DoubleQuotes(v: string): (r: string)
    ensures |r| == |v| + Count(v, '"')
  {
    if v == [] then []
    else (if v[0] == '"' then "\"\"" else [v[0]]) + DoubleQuotes(v[1..])
  }

  /** `escapeCsvValue`: the value in quotes, each quote inside doubled. */
  function EscapeCsvValue(v: string): (r: string)
    ensures |r| == |v| + Count(v, '"') + 2
    ensures r[0] == '"' && r[|r| - 1] == '"'
  {
    "\"" + DoubleQuotes(v) + "\""
  }

  /**
   * Reads the inside of a quoted field, the opening quote already consumed: `""` is one
   * quote and a lone quote closes the field. Gives the value and what follows the close.
   */
  function ReadQuoted(s: string): (r: Option<(string, string)>)
    ensures r.Some? ==> |r.value.1| < |s|
  {
    if s == [] then None
    else if s[0] == '"' then
      if |s| >= 2 && s[1] == '"' then
        match ReadQuoted(s[2..])
        case None => None
        case Some((v, rest)) => Some(("\"" + v, rest))
      else Some(("", s[1..]))
    else
      match ReadQuoted(s[1..])
      case None => None
      case Some((v, rest)) => Some(([s[0]] + v, rest))
  }

  /** Reads one quoted field. */
  function ReadField(s: string): (r: Option<(string, string)>)
    ensures r.Some? ==> |r.value.1| < |s|
  {
    if s != [] && s[0] == '"' then ReadQuoted(s[1..]) else None
  }

  /** Reads one record: fields separated by commas, up to a line break or the end of the text. */
  function ReadRecord(s: string): (r: Option<(seq<string>, string)>)
    ensures r.Some? ==> |r.value.1| < |s| && r.value.0 != []
    decreases |s|
  {
    match ReadField(s)
    case None => None
    case Some((v, rest)) =>
      if rest != [] && rest[0] == ',' then
        match ReadRecord(rest[1..])
        case None => None
        case Some((vs, tail)) => Some(([v] + vs, tail))
      else Some(([v], rest))
  }

  /** Reads a whole text: records separated by CRLF, no line break after the last one. */
  function ReadCsv(s: string): (r: Option<seq<seq<string>>>)
    ensures r.Some? ==> r.value != []
    decreases |s|
  {
    match ReadRecord(s)
    case None => None
    case Some((fields, rest)) =>
      if rest == [] then Some([fields])
      else if |rest| >= 2 && rest[..2] == LineBreak then
        match ReadCsv(rest[2..])
        case None => None
        case Some(rows) => Some([fields] + rows)
      else None
  }

  /** The doubled quotes and the closing quote read back as the value, whatever follows that is not a quote. */
  lemma {:induction false} ReadQuotedEscaped(v: string, rest: string)
    requires rest == [] || rest[0] != '"'
    ensures ReadQuoted(DoubleQuotes(v) + "\"" + rest) == Some((v, rest))
  {
    var s := DoubleQuotes(v) + "\"" + rest;
    if v == [] {
      assert s == "\"" + rest;
      assert s[1..] == rest;
    } else {
      var after := DoubleQuotes(v[1..]) + "\"" + rest;
      ReadQuotedEscaped(v[1..], rest);
      var head := if v[0] == '"' then "\"\"" else [v[0]];
      assert DoubleQuotes(v) == head + DoubleQuotes(v[1..]);
      Regroup(head, DoubleQuotes(v[1..]), "\"", rest);
      if v[0] == '"' {
        ReadQuotedDoubled(after);
      } else {
        ReadQuotedPlain(v[0], after);
      }
      assert [v[0]] + v[1..] == v;
    }
  }

  /** Concatenation regrouped around its first piece. */
  lemma Regroup(a: string, b: string, c: string, d: string)
    ensures a + b + c + d == a + (b + c + d)
  {
  }

  /** A doubled quote reads as one quote in front of what the rest reads as. */
  lemma ReadQuotedDoubled(t: string)
    requires ReadQuoted(t).Some?
    ensures ReadQuoted("\"\"" + t) == Some(("\"" + ReadQuoted(t).value.0, ReadQuoted(t).value.1))
  {
    assert ("\"\"" + t)[2..] == t;
  }

  /** A character other than a quote reads as itself in front of what the rest reads as. */
  lemma ReadQuotedPlain(c: char, t: string)
    requires c != '"' && ReadQuoted(t).Some?
    ensures ReadQuoted([c] + t) == Some(([c] + ReadQuoted(t).value.0, ReadQuoted(t).value.1))
  {
    assert ([c] + t)[1..] == t;
  }

  /** An escaped field reads back as its value. */
  lemma ReadFieldEscaped(v: string, rest: string)
    requires rest == [] || rest[0] != '"'
    ensures ReadField(EscapeCsvValue(v) + rest) == Some((v, rest))
  {
    var s := EscapeCsvValue(v) + rest;
    assert s[1..] == DoubleQuotes(v) + "\"" + rest;
    ReadQuotedEscaped(v, rest);
  }

  /** The fields of a line, each escaped. */
  function EscapeAll(values: seq<string>): (r: seq<string>)
    ensures |r| == |values| && forall i :: 0 <= i < |values| ==> r[i] == EscapeCsvValue(values[i])
  {
    seq(|values|, i requires 0 <= i < |values| => EscapeCsvValue(values[i]))
  }

  /** `line.map(escapeCsvValue).join(",")` */
  function CsvLine(values: seq<string>): string {
    Join(EscapeAll(values), ",")
  }

  /** A line of several values is the first escaped value, a comma and the line of the others. */
  lemma CsvLineCons(values: seq<string>)
    requires |values| > 1
    ensures CsvLine(values) == EscapeCsvValue(values[0]) + "," + CsvLine(values[1..])
  {
    assert EscapeAll(values)[1..] == EscapeAll(values[1..]);
  }

  /** A field followed by a comma reads as that field in front of the record after the comma. */
  lemma ReadRecordCons(s: string, v: string, after: string)
    requires ReadField(s) == Some((v, "," + after))
    requires ReadRecord(after).Some?
    ensures ReadRecord(s) == Some(([v] + ReadRecord(after).value.0, ReadRecord(after).value.1))
  {
    assert ("," + after)[1..] == after;
  }

  /** A written line reads back as its values, when a line break or nothing follows. */
  lemma {:induction false} ReadRecordLine(values: seq<string>, rest: string)
    requires values != []
    requires rest == [] || rest[0] == '\r'
    ensures ReadRecord(CsvLine(values) + rest) == Some((values, rest))
  {
    if |values| == 1 {
      assert CsvLine(values) == EscapeCsvValue(values[0]);
      ReadFieldEscaped(values[0], rest);
      assert values == [values[0]];
    } else {
      var tail := CsvLine(values[1..]);
      CsvLineCons(values);
      assert CsvLine(values) + rest == EscapeCsvValue(values[0]) + ("," + (tail + rest));
      ReadFieldEscaped(values[0], "," + (tail + rest));
      ReadRecordLine(values[1..], rest);
      ReadRecordCons(CsvLine(values) + rest, values[0], tail + rest);
      assert [values[0]] + values[1..] == values;
    }
  }

  /** Each line written. */
  function LinesOf(rows: seq<seq<string>>): (r: seq<string>)
    ensures |r| == |rows| && forall i :: 0 <= i < |rows| ==> r[i] == CsvLine(rows[i])
  {
    seq(|rows|, i requires 0 <= i < |rows| => CsvLine(rows[i]))
  }

  /** `[header, ...rows].map(line).join("\r\n")` */
  function CsvText(rows: seq<seq<string>>): string {
    Join(LinesOf(rows), LineBreak)
  }

  /** RFC 4180 round trip: the written text reads back as the rows it was written from. */
  lemma {:induction false} ReadCsvText(rows: seq<seq<string>>)
    requires rows != []
    requires forall i :: 0 <= i < |rows| ==> rows[i] != []
    ensures ReadCsv(CsvText(rows)) == Some(rows)
  {
    if |rows| == 1 {
      ReadCsvSingle(rows);
    } else {
      ReadCsvText(rows[1..]);
      ReadCsvStep(rows);
    }
  }

  /** When the text of all rows but the first reads back, so does the text of them all. */
  lemma ReadCsvStep(rows: seq<seq<string>>)
    requires |rows| > 1 && rows[0] != []
    requires ReadCsv(CsvText(rows[1..])) == Some(rows[1..])
    ensures ReadCsv(CsvText(rows)) == Some(rows)
  {
    var tail := CsvText(rows[1..]);
    CsvTextCons(rows);
    ReadRecordLine(rows[0], LineBreak + tail);
    ReadCsvCons(CsvLine(rows[0]) + (LineBreak + tail), rows, tail);
  }

  /** The text of a single row reads back as that row. */
  lemma ReadCsvSingle(rows: seq<seq<string>>)
    requires |rows| == 1 && rows[0] != []
    ensures ReadCsv(CsvText(rows)) == Some(rows)
  {
    assert CsvText(rows) == CsvLine(rows[0]);
    ReadRecordLine(rows[0], []);
    assert CsvLine(rows[0]) + [] == CsvLine(rows[0]);
    assert rows == [rows[0]];
  }

  /** The text of several rows is the first row's line, a line break, and the text of the others. */
  lemma CsvTextCons(rows: seq<seq<string>>)
    requires |rows| > 1
    ensures CsvText(rows) == CsvLine(rows[0]) + (LineBreak + CsvText(rows[1..]))
  {
    assert LinesOf(rows)[1..] == LinesOf(rows[1..]);
  }

  /** A record ended by a line break, followed by readable text, reads as that record in front of the text's rows. */
  lemma ReadCsvCons(s: string, rows: seq<seq<string>>, tail: string)
    requires rows != []
    requires ReadRecord(s) == Some((rows[0], LineBreak + tail))
    requires ReadCsv(tail) == Some(rows[1..])
    ensures ReadCsv(s) == Some(rows)
  {
    assert (LineBreak + tail)[..2] == LineBreak && (LineBreak + tail)[2..] == tail;
    assert [rows[0]] + rows[1..] == rows;
  }

  /** `record.profileLink ?? record.teaProfileUrl ?? ""` */
  function PlatformLink(c: Case): (r: string)
    ensures c.profileLink.Some? ==> r == c.profileLink.value
    ensures c.profileLink.None? && c.dmca.teaProfileUrl.Some? ==> r == c.dmca.teaProfileUrl.value
    ensures c.profileLink.None? && c.dmca.teaProfileUrl.None? ==> r == ""
  {
    c.profileLink.OrElse(c.dmca.teaProfileUrl).GetOr("")
  }

  /** The absolute download link of each stored screenshot key, in order. */
  function DownloadLinks(c: Case, origin: string, json: JsonCodec, urlPath: string -> Option<string>,
                         encode: string -> string): (r: seq<string>)
    ensures |r| == |ParseScreenshotKeys(c.screenshotUrls, json, urlPath)|
    ensures forall i :: 0 <= i < |r| ==>
              r[i] == origin + BuildScreenshotDownloadUrl(c.id, ParseScreenshotKeys(c.screenshotUrls, json, urlPath)[i], encode)
  {
    var keys := ParseScreenshotKeys(c.screenshotUrls, json, urlPath);
    seq(|keys|, i requires 0 <= i < |keys| => origin + BuildScreenshotDownloadUrl(c.id, keys[i], encode))
  }

  /** The six fields of a case's row, in the header's order. */
  function CaseRow(c: Case, emailOf: string -> Option<string>, origin: string, toIso: Date -> string,
                   json: JsonCodec, urlPath: string -> Option<string>, encode: string -> string): (r: seq<string>)
    ensures |r| == |Header|
    ensures r[0] == c.caseNumber && r[1] == emailOf(c.userId).GetOr("") && r[2] == PlatformLink(c)
    ensures r[3] == toIso(c.createdAt) && r[5] == c.status
    ensures r[4] == Join(DownloadLinks(c, origin, json, urlPath, encode), LinkSeparator)
    ensures ParseScreenshotKeys(c.screenshotUrls, json, urlPath) == [] ==> r[4] == ""
  {
    var email := emailOf(c.userId).GetOr("");
    var links := DownloadLinks(c, origin, json, urlPath, encode);
    assert ParseScreenshotKeys(c.screenshotUrls, json, urlPath) == [] ==> links == [];
    [c.caseNumber, email, PlatformLink(c), toIso(c.createdAt), Join(links, LinkSeparator), c.status]
  }

  /** One row per case, in the listing's order. */
  function CaseRows(cases: seq<Case>, emailOf: string -> Option<string>, origin: string, toIso: Date -> string,
                    json: JsonCodec, urlPath: string -> Option<string>, encode: string -> string): (r: seq<seq<string>>)
    ensures |r| == |cases|
    ensures forall i :: 0 <= i < |cases| ==> r[i] == CaseRow(cases[i], emailOf, origin, toIso, json, urlPath, encode)
  {
    seq(|cases|, i requires 0 <= i < |cases| => CaseRow(cases[i], emailOf, origin, toIso, json, urlPath, encode))
  }

  /** Is the session's user an administrator with an email? */
  predicate IsAdminSession(config: Option<string>, session: Option<SessionUser>) {
    session.Some? && IsSet(session.value.email) && IsAdminEmail(config, session.value.email)
  }

  /**
   * `GET /admin/cases/export` over `cases`, the listing `getAllCasesForAdmin` returns
   * (newest first). A caller that is not an administrator gets 403 and no case data;
   * an administrator gets the CSV text of the header and the rows.
   */
  function ExportCsv(config: Option<string>, session: Option<SessionUser>, cases: seq<Case>,
                     emailOf: string -> Option<string>, origin: string, toIso: Date -> string,
                     json: JsonCodec, urlPath: string -> Option<string>, encode: string -> string): (r: Response)
    ensures r.Reply?
    ensures r.status == 403 <==> !IsAdminSession(config, session)
    ensures r.status == 403 ==> r.message == Forbidden
    ensures r.status != 403 ==>
              r.status == 200 && r.message == CsvText([Header] + CaseRows(cases, emailOf, origin, toIso, json, urlPath, encode))
  {
    if !IsAdminSession(config, session) then Reply(403, Forbidden)
    else Reply(200, CsvText([Header] + CaseRows(cases, emailOf, origin, toIso, json, urlPath, encode)))
  }

  /**
   * What an administrator downloads reads back, under RFC 4180, as the header followed by
   * exactly one six-field row per case, in the listing's order.
   */
  lemma ExportReadsBack(config: Option<string>, session: Option<SessionUser>, cases: seq<Case>,
                        emailOf: string -> Option<string>, origin: string, toIso: Date -> string,
                        json: JsonCodec, urlPath: string -> Option<string>, encode: string -> string)
    requires IsAdminSession(config, session)
    ensures var r := ExportCsv(config, session, cases, emailOf, origin, toIso, json, urlPath, encode);
            && ReadCsv(r.message) == Some([Header] + CaseRows(cases, emailOf, origin, toIso, json, urlPath, encode))
            && |ReadCsv(r.message).value| == |cases| + 1
            && forall i :: 0 <= i < |ReadCsv(r.message).value| ==> |ReadCsv(r.message).value[i]| == 6
  {
    var body := CaseRows(cases, emailOf, origin, toIso, json, urlPath, encode);
    assert forall i :: 0 <= i < |body| ==> |body[i]| == |Header|;
    HeaderAndRowsReadBack(body);
  }

  /** The header followed by rows of six fields reads back as itself, six fields per row. */
  lemma HeaderAndRowsReadBack(body: seq<seq<string>>)
    requires forall i :: 0 <= i < |body| ==> |body[i]| == |Header|
    ensures ReadCsv(CsvText([Header] + body)) == Some([Header] + body)
    ensures forall i :: 0 <= i < |[Header] + body| ==> |([Header] + body)[i]| == 6
  {
    var rows := [Header] + body;
    SixFieldRows(body);
    assert forall i :: 0 <= i < |rows| ==> rows[i] != [];
    ReadCsvText(rows);
  }

  /** The header and every row of six fields: six fields each. */
  lemma SixFieldRows(body: seq<seq<string>>)
    requires forall i :: 0 <= i < |body| ==> |body[i]| == |Header|
    ensures forall i :: 0 <= i < |[Header] + body| ==> |([Header] + body)[i]| == 6
  {
    var rows := [Header] + body;
    forall i | 0 <= i < |rows| ensures |rows[i]| == 6 {
      if i > 0 {
        assert rows[i] == body[i - 1];
      }
    }
  }
}
