/** The CSV text the `export` procedure builds from the records `getAllCalls`
    returns: a fixed header line, then one line per record, lines separated
    by `\n` with none after the last. The comment is the one field quoted as
    section 2 of RFC 4180 prescribes (rules 5 to 7: enclosed in double quotes,
    each double quote inside doubled); patient name, appointment time and agent
    name are enclosed in quotes without escaping, and the status is bare.
    `new Date(t).toISOString()` is the parameter `iso`. */
module CsvExport {
  import opened Wrappers
  import opened Schema
  import opened Text

  const Headers: seq<string> := ["ID", "Patient Name", "Appointment Time", "Agent Name", "Status", "Comment", "Created At"]

  /** The header line `ID,Patient Name,Appointment Time,Agent Name,Status,Comment,Created At`. */
  const HeaderLine: string :=
    "ID" + "," + "Patient Name" + "," + "Appointment Time" + "," + "Agent Name" + ","
    + "Status" + "," + "Comment" + "," + "Created At"

  /** `"${s}"` */
  function Quote(s: string): (r: string)
    ensures |r| == |s| + 2 && r[0] == '"' && r[|r| - 1] == '"' && r[1..|r| - 1] == s
  {
    "\"" + s + "\""
  }

  /** `s.replace(/"/g, '""')` */
  function EscapeQuotes(s: string): (r: string)
    ensures |r| >= |s|
    ensures '"' !in s ==> r == s
  {
    if s == [] then []
    else (if s[0] == '"' then "\"\"" else [s[0]]) + EscapeQuotes(s[1..])
  }

  /** The comment column: a null (or empty) comment is `""`. */
  function CommentField(comment: Option<string>): string {
    Quote(EscapeQuotes(comment.GetOr("")))
  }

  /** The seven fields of one record, in header order. */
  function Fields(c: CallRow, iso: int -> string): (r: seq<string>)
    ensures |r| == |Headers|
  {
    [NatToString(c.id), Quote(c.patientName), Quote(c.appointmentTime), Quote(c.agentName),
     StatusText(c.status), CommentField(c.comment), iso(c.createdAt)]
  }

  function RowLine(c: CallRow, iso: int -> string): string {
    Join(Fields(c, iso), ",")
  }

  function RowLines(calls: seq<CallRow>, iso: int -> string): (r: seq<string>)
    ensures |r| == |calls|
  {
    seq(|calls|, i requires 0 <= i < |calls| => RowLine(calls[i], iso))
  }

  /** `[headers.join(","), ...rows.map(r => r.join(","))].join("\n")` */
  function CsvContent(calls: seq<CallRow>, iso: int -> string): string {
    Join([Join(Headers, ",")] + RowLines(calls, iso), "\n")
  }

  /** `pura_calls_${now.toISOString().split("T")[0]}.csv` */
  function FileName(nowIso: string): string {
    "pura_calls_" + Split(nowIso, 'T')[0] + ".csv"
  }

  /** Reads one field written by the rules of RFC 4180: it must open and close with
      a double quote, and inside, a double quote may appear only doubled. */
  function ParseQuoted(s: string): Option<string> {
    if |s| >= 2 && s[0] == '"' && s[|s| - 1] == '"' then Unescape(s[1..|s| - 1]) else None
  }

  function Unescape(s: string): Option<string> {
    if s == [] then Some([])
    else if s[0] == '"' then
      if |s| >= 2 && s[1] == '"' then
        match Unescape(s[2..])
        case None => None
        case Some(t) => Some(['"'] + t)
      else None
    else
      match Unescape(s[1..])
      case None => None
      case Some(t) => Some([s[0]] + t)
  }

  // Properties

  lemma JoinCons(a: string, rest: seq<string>, sep: string)
    requires rest != []
    ensures Join([a] + rest, sep) == a + sep + Join(rest, sep)
  {
    assert ([a] + rest)[1..] == rest;
  }

  /** Joining seven parts puts the separator between each neighbouring pair. */
  lemma {:induction false} JoinSeven(a: string, b: string, c: string, d: string, e: string, f: string, g: string, sep: string)
    ensures Join([a, b, c, d, e, f, g], sep) == a + sep + b + sep + c + sep + d + sep + e + sep + f + sep + g
  {
    JoinCons(f, [g], sep);
    JoinCons(e, [f, g], sep);
    JoinCons(d, [e, f, g], sep);
    JoinCons(c, [d, e, f, g], sep);
    JoinCons(b, [c, d, e, f, g], sep);
    JoinCons(a, [b, c, d, e, f, g], sep);
    assert [a, b, c, d, e, f, g] == [a] + [b, c, d, e, f, g];
  }

  /** The header line is exactly the seven column titles separated by commas. */
  lemma HeaderText()
    ensures Join(Headers, ",") == HeaderLine
  {
    JoinSeven("ID", "Patient Name", "Appointment Time", "Agent Name", "Status", "Comment", "Created At", ",");
  }

  /** An empty table exports the header line alone. */
  lemma ExportEmpty(iso: int -> string)
    ensures CsvContent([], iso) == HeaderLine
  {
    HeaderText();
    assert [Join(Headers, ",")] + RowLines([], iso) == [HeaderLine];
  }

  /** One more record adds exactly one line, after the others and after a single `\n`. */
  lemma ExportSnoc(calls: seq<CallRow>, c: CallRow, iso: int -> string)
    ensures CsvContent(calls + [c], iso) == CsvContent(calls, iso) + "\n" + RowLine(c, iso)
  {
    var lines := [Join(Headers, ",")] + RowLines(calls, iso);
    assert RowLines(calls + [c], iso) == RowLines(calls, iso) + [RowLine(c, iso)];
    assert [Join(Headers, ",")] + RowLines(calls + [c], iso) == lines + [RowLine(c, iso)];
    JoinSnoc(lines, RowLine(c, iso), "\n");
  }

  /** The export is the header line, then the records' lines in the given order. */
  lemma ExportLines(calls: seq<CallRow>, iso: int -> string)
    ensures calls != [] ==> CsvContent(calls, iso) == HeaderLine + "\n" + Join(RowLines(calls, iso), "\n")
  {
    HeaderText();
    if calls != [] {
      JoinCons(Join(Headers, ","), RowLines(calls, iso), "\n");
    }
  }

  /** Rules 6 and 7 of section 2 of RFC 4180: an escaped comment reads back as itself. */
  lemma {:induction false} UnescapeEscape(s: string)
    ensures Unescape(EscapeQuotes(s)) == Some(s)
  {
    if s != [] {
      UnescapeEscape(s[1..]);
      var e := EscapeQuotes(s);
      if s[0] == '"' {
        assert e[2..] == EscapeQuotes(s[1..]);
      } else {
        assert e[1..] == EscapeQuotes(s[1..]);
      }
      assert s == [s[0]] + s[1..];
    }
  }

  lemma CommentRoundTrip(comment: Option<string>)
    ensures ParseQuoted(CommentField(comment)) == Some(comment.GetOr(""))
  {
    UnescapeEscape(comment.GetOr(""));
  }

  /** A comment with a quote in it is written with the quote doubled. */
  lemma CommentExample()
    ensures CommentField(Some("a\"b")) == "\"a\"\"b\""
  {
    assert "a\"b"[1..] == "\"b" && "\"b"[1..] == "b" && "b"[1..] == [];
    assert EscapeQuotes("\"b") == "\"\"" + "b";
    assert EscapeQuotes("a\"b") == "a" + "\"\"b";
  }

  /** A null comment and an empty one are written alike. */
  lemma NullCommentIsEmpty()
    ensures CommentField(None) == CommentField(Some("")) == "\"\""
  {
  }

  /** A patient name with a quote in it is not escaped, so its field is not one
      that RFC 4180 admits; a name without quotes reads back as itself. */
  lemma NameNotEscaped(name: string)
    ensures '"' !in name ==> ParseQuoted(Quote(name)) == Some(name)
    ensures ParseQuoted(Quote("O\"Hara")) == None
  {
    if '"' !in name {
      assert EscapeQuotes(name) == name;
      UnescapeEscape(name);
    }
    var q := Quote("O\"Hara");
    assert q[1..|q| - 1] == "O\"Hara";
    calc {
      Unescape("O\"Hara");
      { assert "O\"Hara"[1..] == "\"Hara"; }
      match Unescape("\"Hara") case None => None case Some(t) => Some(['O'] + t);
    }
    assert "\"Hara"[1] != '"';
  }

  /** The status needs no quoting: its text has no comma, quote or line break. */
  lemma StatusNeedsNoQuotes(s: Status)
    ensures ',' !in StatusText(s) && '"' !in StatusText(s) && '\n' !in StatusText(s)
  {
  }

  /** The file name carries the date part of the ISO time. */
  lemma FileNameDate(date: string, time: string)
    requires 'T' !in date
    ensures FileName(date + "T" + time) == "pura_calls_" + date + ".csv"
  {
    SplitFirst(date, 'T', time);
  }
}
