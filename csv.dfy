/** The contact page's CSV dialect: a character-level scanner that reads rows of
    cells (quotes toggle anywhere in a cell, `""` inside quotes is one quote, a
    bare CR, a bare LF or CRLF outside quotes ends a row, rows without a
    non-blank cell are dropped), and the export encoder (quote a cell iff it
    holds `"`, `,`, CR or LF, doubling inner quotes; cells joined with `,`,
    rows with CRLF). */
module Csv {
  import Seqs
  import Text

  type Row = seq<string>

  /** The scanner's state between two characters, as the local variables of
      the parsing loop: the closed rows (all of them; the ones without content
      are dropped once, at the end), the cells of the open row, the open cell,
      and whether a quoted section is open. */
  datatype Scanner = Scanner(rows: seq<Row>, row: Row, current: string, inQuotes: bool)

  const Start := Scanner([], [], "", false)

  const Bom: char := '\U{FEFF}'

  /** A row is kept iff one of its cells is not blank after trimming. */
  predicate HasContent(row: Row) {
    exists k | 0 <= k < |row| :: Text.Trim(row[k]) != ""
  }

  /** Push the open cell, close the row, start a new one. */
  function CloseRow(st: Scanner): Scanner {
    Scanner(st.rows + [st.row + [st.current]], [], "", st.inQuotes)
  }

  /** One step of the scanner at the head of the remaining text `t`: how many
      characters it consumes (two for `""` inside quotes and for CRLF outside,
      which a one-character look-ahead decides) and the state after them. */
  function Step(t: string, st: Scanner): (r: (nat, Scanner))
    requires t != []
    ensures 1 <= r.0 <= 2 && r.0 <= |t|
  {
    var c := t[0];
    if c == '"' then
      if st.inQuotes && |t| > 1 && t[1] == '"' then (2, st.(current := st.current + ['"']))
      else (1, st.(inQuotes := !st.inQuotes))
    else if c == ',' && !st.inQuotes then
      (1, st.(row := st.row + [st.current], current := ""))
    else if (c == '\n' || c == '\r') && !st.inQuotes then
      if c == '\r' && |t| > 1 && t[1] == '\n' then (2, CloseRow(st)) else (1, CloseRow(st))
    else (1, st.(current := st.current + [c]))
  }

  /** The scanner run over the remaining text `t`. */
  function Run(t: string, st: Scanner): Scanner
    decreases |t|
  {
    if t == [] then st
    else
      var (n, next) := Step(t, st);
      Run(t[n..], next)
  }

  /** After the last character: a pending cell or row is closed like a row end. */
  function Finish(st: Scanner): seq<Row> {
    if |st.current| > 0 || |st.row| > 0 then CloseRow(st).rows else st.rows
  }

  /** Only a byte-order mark at the very start is removed. */
  function StripBom(s: string): string {
    if s != [] && s[0] == Bom then s[1..] else s
  }

  /** Every row the scanner closes in `input`, before dropping blank ones. */
  function RawRows(input: string): seq<Row> {
    Finish(Run(StripBom(input), Start))
  }

  /** The rows the parser returns for `input`. */
  function Rows(input: string): seq<Row> {
    Seqs.Filter(RawRows(input), HasContent)
  }

  /** The parsing loop, proved to compute `Rows`; it drops a row without
      content as it closes it. */
  method ParseCsv(input: string) returns (rows: seq<Row>)
    ensures rows == Rows(input)
  {
    var s := StripBom(input);
    var current := "";
    var row: Row := [];
    var inQuotes := false;
    rows := [];
    ghost var closed: seq<Row> := [];
    var i := 0;
    while i < |s|
      invariant 0 <= i <= |s|
      invariant Run(s[i..], Scanner(closed, row, current, inQuotes)) == Run(s, Start)
      invariant rows == Seqs.Filter(closed, HasContent)
      decreases |s| - i
    {
      var c := s[i];
      if c == '"' {
        if inQuotes && i + 1 < |s| && s[i + 1] == '"' {
          assert s[i..][2..] == s[i + 2..];
          current := current + ['"'];
          i := i + 2;
        } else {
          assert s[i..][1..] == s[i + 1..];
          inQuotes := !inQuotes;
          i := i + 1;
        }
      } else if c == ',' && !inQuotes {
        assert s[i..][1..] == s[i + 1..];
        row := row + [current];
        current := "";
        i := i + 1;
      } else if (c == '\n' || c == '\r') && !inQuotes {
        row := row + [current];
        FilterSnoc(closed, row);
        closed := closed + [row];
        if HasContent(row) {
          rows := rows + [row];
        }
        row := [];
        current := "";
        if c == '\r' && i + 1 < |s| && s[i + 1] == '\n' {
          assert s[i..][2..] == s[i + 2..];
          i := i + 2;
        } else {
          assert s[i..][1..] == s[i + 1..];
          i := i + 1;
        }
      } else {
        assert s[i..][1..] == s[i + 1..];
        current := current + [c];
        i := i + 1;
      }
    }
    if |current| > 0 || |row| > 0 {
      row := row + [current];
      FilterSnoc(closed, row);
      if HasContent(row) {
        rows := rows + [row];
      }
    }
  }

  lemma FilterSnoc(rows: seq<Row>, row: Row)
    ensures Seqs.Filter(rows + [row], HasContent)
         == Seqs.Filter(rows, HasContent) + (if HasContent(row) then [row] else [])
  {
    assert (rows + [row])[..|rows|] == rows;
  }

  /** Every row the parser returns has at least one non-blank cell. */
  lemma RowsHaveContent(input: string)
    ensures forall k :: 0 <= k < |Rows(input)| ==> HasContent(Rows(input)[k])
  {
  }

  /** A leading byte-order mark is skipped: the text reads as if it were absent. */
  lemma BomDropped(t: string)
    requires t == [] || t[0] != Bom
    ensures Rows([Bom] + t) == Rows(t)
  {
    assert ([Bom] + t)[1..] == t;
  }

  /** Outside quotes, CRLF ends exactly one row. */
  lemma CrLfEndsRow(t: string, st: Scanner)
    requires !st.inQuotes
    ensures Run("\r\n" + t, st) == Run(t, CloseRow(st))
  {
    assert ("\r\n" + t)[2..] == t;
  }

  /** Outside quotes, a CR not followed by LF ends exactly one row. */
  lemma CrEndsRow(t: string, st: Scanner)
    requires !st.inQuotes && (t == [] || t[0] != '\n')
    ensures Run("\r" + t, st) == Run(t, CloseRow(st))
  {
    assert ("\r" + t)[1..] == t;
  }

  /** Outside quotes, LF ends exactly one row. */
  lemma LfEndsRow(t: string, st: Scanner)
    requires !st.inQuotes
    ensures Run("\n" + t, st) == Run(t, CloseRow(st))
  {
    assert ("\n" + t)[1..] == t;
  }

  /** Outside quotes, a comma ends the open cell. */
  lemma CommaEndsCell(t: string, st: Scanner)
    requires !st.inQuotes
    ensures Run("," + t, st) == Run(t, st.(row := st.row + [st.current], current := ""))
  {
    assert ("," + t)[1..] == t;
  }

  /** Inside quotes, `""` is one literal quote... */
  lemma DoubledQuoteInQuotes(t: string, st: Scanner)
    requires st.inQuotes
    ensures Run("\"\"" + t, st) == Run(t, st.(current := st.current + ['"']))
  {
    assert ("\"\"" + t)[2..] == t;
  }

  /** ... and a comma, CR or LF is cell content. */
  lemma SeparatorInQuotes(c: char, t: string, st: Scanner)
    requires st.inQuotes && (c == ',' || c == '\n' || c == '\r')
    ensures Run([c] + t, st) == Run(t, st.(current := st.current + [c]))
  {
    assert ([c] + t)[1..] == t;
  }

  /** Text that ends with a row terminator outside quotes parses to the same
      rows as that text without it: a final newline adds no row. */
  lemma TrailingTerminator(s: string, nl: char)
    requires nl == '\n' || nl == '\r'
    requires !Run(StripBom(s), Start).inQuotes
    ensures Rows(s + [nl]) == Rows(s)
  {
    if s != [] {
      assert (s + [nl])[1..] == s[1..] + [nl];
    }
    assert StripBom(s + [nl]) == StripBom(s) + [nl];
    TerminatorRun(StripBom(s), nl, Start);
  }

  lemma {:induction false} TerminatorRun(s: string, nl: char, st: Scanner)
    requires nl == '\n' || nl == '\r'
    requires !Run(s, st).inQuotes
    ensures Seqs.Filter(Finish(Run(s + [nl], st)), HasContent)
         == Seqs.Filter(Finish(Run(s, st)), HasContent)
    decreases |s|
  {
    var t := s + [nl];
    if s == [] {
      assert t[1..] == [];
      assert Run(t, st) == CloseRow(st);
      ClosedOpenRow(st);
    } else if s == "\r" && nl == '\n' && !st.inQuotes {
      assert t[2..] == [];
      assert s[1..] == [];
    } else {
      var (n, next) := Step(s, st);
      assert Step(t, st) == (n, next);
      assert t[n..] == s[n..] + [nl];
      TerminatorRun(s[n..], nl, next);
    }
  }

  /** Closing a row explicitly and flushing at the end agree after blank rows
      are dropped. */
  lemma ClosedOpenRow(st: Scanner)
    ensures Seqs.Filter(Finish(CloseRow(st)), HasContent) == Seqs.Filter(Finish(st), HasContent)
  {
    if !(|st.current| > 0 || |st.row| > 0) {
      assert st.row + [st.current] == [""];
      assert !HasContent([""]) by {
        assert Text.Trim("") == "";
      }
      FilterSnoc(st.rows, [""]);
    }
  }

  // ----- export -----

  /** `value.replace(/"/g, '""')`. */
  function DoubleQuotes(v: string): string {
    Text.ReplaceAll(v, "\"", "\"\"")
  }

  predicate IsSpecial(c: char) {
    c == '"' || c == ',' || c == '\n' || c == '\r'
  }

  predicate NeedsQuoting(v: string) {
    exists k | 0 <= k < |v| :: IsSpecial(v[k])
  }

  /** A cell as the export writes it. */
  function EscapeCsvValue(v: string): (r: string)
    ensures NeedsQuoting(v) ==> r == "\"" + DoubleQuotes(v) + "\""
    ensures !NeedsQuoting(v) ==> r == v
  {
    var n := DoubleQuotes(v);
    DoubleQuotesSpecial(v);
    if NeedsQuoting(n) then "\"" + n + "\""
    else
      NoQuoteUnchanged(v);
      n
  }

  /** Doubling quotes changes nothing in a value without quotes... */
  lemma {:induction false} NoQuoteUnchanged(v: string)
    requires forall k :: 0 <= k < |v| ==> v[k] != '"'
    ensures DoubleQuotes(v) == v
    decreases |v|
  {
    if v != [] {
      assert v[..1] == [v[0]];
      NoQuoteUnchanged(v[1..]);
    }
  }

  /** ... and keeps the special characters: the escaped form needs quoting
      exactly when the value does. */
  lemma {:induction false} DoubleQuotesSpecial(v: string)
    ensures NeedsQuoting(DoubleQuotes(v)) == NeedsQuoting(v)
    decreases |v|
  {
    if v != [] {
      DoubleQuotesSpecial(v[1..]);
      var d := DoubleQuotes(v);
      var tail := DoubleQuotes(v[1..]);
      var head := if v[0] == '"' then "\"\"" else [v[0]];
      assert d == head + tail by {
        assert v[..1] == [v[0]];
      }
      assert NeedsQuoting(v) == (IsSpecial(v[0]) || NeedsQuoting(v[1..])) by {
        if NeedsQuoting(v) {
          var k :| 0 <= k < |v| && IsSpecial(v[k]);
          if k > 0 { assert IsSpecial(v[1..][k - 1]); }
        }
        if NeedsQuoting(v[1..]) {
          var k :| 0 <= k < |v[1..]| && IsSpecial(v[1..][k]);
          assert IsSpecial(v[k + 1]);
        }
      }
      assert NeedsQuoting(d) == (IsSpecial(head[0]) || NeedsQuoting(tail)) by {
        if NeedsQuoting(d) {
          var k :| 0 <= k < |d| && IsSpecial(d[k]);
          if k >= |head| { assert IsSpecial(tail[k - |head|]); }
          else { assert head[k] == head[0]; }
        }
        if NeedsQuoting(tail) {
          var k :| 0 <= k < |tail| && IsSpecial(tail[k]);
          assert IsSpecial(d[k + |head|]);
        }
        if IsSpecial(head[0]) {
          assert IsSpecial(d[0]);
        }
      }
    }
  }

  /** One row: escaped cells joined with commas. */
  function EncodeRow(cells: Row): string {
    Text.Join(Seqs.Map(cells, EscapeCsvValue), ",")
  }

  /** The whole file: encoded rows joined with CRLF. */
  function EncodeRows(rows: seq<Row>): string {
    Text.Join(Seqs.Map(rows, EncodeRow), "\r\n")
  }

  /** Scanning a value without special characters adds it to the open cell. */
  lemma {:induction false} PlainRun(v: string, rest: string, st: Scanner)
    requires !st.inQuotes && !NeedsQuoting(v)
    ensures Run(v + rest, st) == Run(rest, st.(current := st.current + v))
    decreases |v|
  {
    if v == [] {
      assert v + rest == rest;
      assert st.current + v == st.current;
    } else {
      assert !IsSpecial(v[0]);
      assert !NeedsQuoting(v[1..]);
      assert (v + rest)[1..] == v[1..] + rest;
      PlainRun(v[1..], rest, st.(current := st.current + [v[0]]));
      assert st.current + [v[0]] + v[1..] == st.current + v;
    }
  }

  /** Inside quotes, the doubled form of `v` followed by a closing quote that
      no quote follows reads back `v` and closes the quoted section. */
  lemma {:induction false} QuotedRun(v: string, rest: string, st: Scanner)
    requires st.inQuotes && (rest == [] || rest[0] != '"')
    ensures Run(DoubleQuotes(v) + "\"" + rest, st)
         == Run(rest, st.(current := st.current + v, inQuotes := false))
    decreases |v|
  {
    var t := DoubleQuotes(v) + "\"" + rest;
    if v == [] {
      assert t == "\"" + rest;
      assert t[1..] == rest;
      assert st.current + v == st.current;
    } else {
      var tail := DoubleQuotes(v[1..]) + "\"" + rest;
      assert v[..1] == [v[0]];
      if v[0] == '"' {
        assert t == "\"\"" + tail;
        assert t[2..] == tail;
        QuotedRun(v[1..], rest, st.(current := st.current + ['"']));
      } else {
        assert t == [v[0]] + tail;
        assert t[1..] == tail;
        QuotedRun(v[1..], rest, st.(current := st.current + [v[0]]));
      }
      assert st.current + [v[0]] + v[1..] == st.current + v;
    }
  }

  /** A cell at the start of a cell, followed by a separator or the end of the
      text, reads back as the open cell. */
  lemma CellRun(v: string, rest: string, st: Scanner)
    requires !st.inQuotes && st.current == ""
    requires rest == [] || rest[0] == ',' || rest[0] == '\r'
    ensures Run(EscapeCsvValue(v) + rest, st) == Run(rest, st.(current := v))
  {
    if NeedsQuoting(v) {
      QuotedCellRun(v, rest, st);
    } else {
      PlainCellRun(v, rest, st);
    }
  }

  /** `CellRun` for a value that gets quoted. */
  lemma QuotedCellRun(v: string, rest: string, st: Scanner)
    requires !st.inQuotes && st.current == "" && NeedsQuoting(v)
    requires rest == [] || rest[0] != '"'
    ensures Run(EscapeCsvValue(v) + rest, st) == Run(rest, st.(current := v))
  {
    var body := DoubleQuotes(v) + "\"" + rest;
    assert EscapeCsvValue(v) + rest == "\"" + body;
    OpeningQuote(body, st);
    QuotedRun(v, rest, st.(inQuotes := true));
    assert st.current + v == v;
  }

  /** Outside quotes, a quote opens a quoted cell. */
  lemma OpeningQuote(t: string, st: Scanner)
    requires !st.inQuotes
    ensures Run("\"" + t, st) == Run(t, st.(inQuotes := true))
  {
    assert ("\"" + t)[1..] == t;
  }

  /** `CellRun` for a value written as it is. */
  lemma PlainCellRun(v: string, rest: string, st: Scanner)
    requires !st.inQuotes && st.current == "" && !NeedsQuoting(v)
    requires rest == [] || rest[0] == ',' || rest[0] == '\r'
    ensures Run(EscapeCsvValue(v) + rest, st) == Run(rest, st.(current := v))
  {
    PlainRun(v, rest, st);
    assert st.current + v == v;
  }

  /** The encoding of a row of two or more cells is its first cell, a comma and
      the encoding of the rest. */
  lemma EncodeRowCons(cells: Row)
    requires |cells| > 1
    ensures EncodeRow(cells) == EscapeCsvValue(cells[0]) + "," + EncodeRow(cells[1..])
  {
    var escaped := Seqs.Map(cells, EscapeCsvValue);
    assert escaped[1..] == Seqs.Map(cells[1..], EscapeCsvValue);
  }

  /** The encoding of the rows is the first row, CRLF and the encoding of the rest. */
  lemma EncodeRowsCons(rows: seq<Row>)
    requires |rows| > 1
    ensures EncodeRows(rows) == EncodeRow(rows[0]) + "\r\n" + EncodeRows(rows[1..])
  {
    var encoded := Seqs.Map(rows, EncodeRow);
    assert encoded[1..] == Seqs.Map(rows[1..], EncodeRow);
  }

  /** Reading the first cell of a row of two or more cells and the comma after it. */
  lemma RowRunHead(cells: Row, rest: string, st: Scanner)
    requires |cells| > 1 && !st.inQuotes && st.current == ""
    ensures Run(EncodeRow(cells) + rest, st)
         == Run(EncodeRow(cells[1..]) + rest, st.(row := st.row + [cells[0]], current := ""))
  {
    var tail := EncodeRow(cells[1..]) + rest;
    assert EncodeRow(cells) + rest == EscapeCsvValue(cells[0]) + ("," + tail) by {
      EncodeRowCons(cells);
    }
    CellRun(cells[0], "," + tail, st);
    CommaEndsCell(tail, st.(current := cells[0]));
  }

  /** A non-empty row read from the start of a row leaves its last cell open. */
  lemma {:induction false} RowRun(cells: Row, rest: string, st: Scanner)
    requires cells != [] && !st.inQuotes && st.current == ""
    requires rest == [] || rest[0] == '\r'
    ensures Run(EncodeRow(cells) + rest, st)
         == Run(rest, st.(row := st.row + cells[..|cells| - 1], current := cells[|cells| - 1]))
    decreases |cells|
  {
    if |cells| == 1 {
      CellRun(cells[0], rest, st);
      Seqs.AppendEmptyPrefix(st.row, cells);
    } else {
      var st' := st.(row := st.row + [cells[0]], current := "");
      RowRunHead(cells, rest, st);
      RowRun(cells[1..], rest, st');
      Seqs.AppendPrefixShift(st.row, cells);
    }
  }

  /** What the scanner closes for encoded rows: the rows themselves, except
      that a last row made of one empty cell encodes to nothing. */
  function ReadBack(rows: seq<Row>): seq<Row> {
    if rows != [] && rows[|rows| - 1] == [""] then rows[..|rows| - 1] else rows
  }

  /** The last row, read from a row start, is flushed at the end of the text. */
  lemma LastRowRun(r: Row, st: Scanner)
    requires r != [] && !st.inQuotes && st.current == "" && st.row == []
    ensures Finish(Run(EncodeRow(r), st)) == st.rows + ReadBack([r])
  {
    var open := st.(row := r[..|r| - 1], current := r[|r| - 1]);
    assert Run(EncodeRow(r), st) == open by {
      RowRun(r, [], st);
      assert EncodeRow(r) + [] == EncodeRow(r);
    }
    assert r[..|r| - 1] + [r[|r| - 1]] == r;
    if |open.current| == 0 && |open.row| == 0 {
      assert r == [""];
    }
  }

  /** Encoded rows read from a row start close exactly the rows (`ReadBack`). */
  lemma {:induction false} RowsRun(rows: seq<Row>, st: Scanner)
    requires rows != [] && forall k :: 0 <= k < |rows| ==> rows[k] != []
    requires !st.inQuotes && st.current == "" && st.row == []
    ensures Finish(Run(EncodeRows(rows), st)) == st.rows + ReadBack(rows)
    decreases |rows|
  {
    if |rows| == 1 {
      assert EncodeRows(rows) == EncodeRow(rows[0]);
      assert rows == [rows[0]];
      LastRowRun(rows[0], st);
    } else {
      var next := FirstRowRun(rows, st);
      RowsRun(rows[1..], next);
      Seqs.AppendAssoc(st.rows, [rows[0]], ReadBack(rows[1..]));
      ReadBackCons(rows);
    }
  }

  lemma ReadBackCons(rows: seq<Row>)
    requires |rows| > 1
    ensures ReadBack(rows) == [rows[0]] + ReadBack(rows[1..])
  {
    assert rows == [rows[0]] + rows[1..];
    assert rows[1..][|rows| - 2] == rows[|rows| - 1];
    if rows[|rows| - 1] == [""] {
      assert rows[..|rows| - 1] == [rows[0]] + rows[1..][..|rows| - 2];
    }
  }

  /** Reading the first of two or more encoded rows and the CRLF after it. */
  lemma FirstRowRun(rows: seq<Row>, st: Scanner) returns (next: Scanner)
    requires |rows| > 1 && rows[0] != []
    requires !st.inQuotes && st.current == "" && st.row == []
    ensures Run(EncodeRows(rows), st) == Run(EncodeRows(rows[1..]), next)
    ensures !next.inQuotes && next.current == "" && next.row == []
    ensures next.rows == st.rows + [rows[0]]
  {
    var r := rows[0];
    var open := st.(row := r[..|r| - 1], current := r[|r| - 1]);
    next := CloseRow(open);
    var tail := EncodeRows(rows[1..]);
    EncodeRowsCons(rows);
    assert EncodeRow(r) + "\r\n" + tail == EncodeRow(r) + ("\r\n" + tail);
    RowRun(r, "\r\n" + tail, st);
    assert st.row + r[..|r| - 1] == open.row;
    CrLfEndsRow(tail, open);
    assert r[..|r| - 1] + [r[|r| - 1]] == r;
  }

  /** The first character of the export is a quote, the first character of the
      first cell, a comma or a CR. */
  lemma FirstChar(rows: seq<Row>)
    requires rows != [] && rows[0] != []
    requires rows[0][0] == [] || rows[0][0][0] != Bom
    ensures var e := EncodeRows(rows); e == [] || e[0] != Bom
  {
    var r := rows[0];
    var cell := EscapeCsvValue(r[0]);
    var escaped := Seqs.Map(r, EscapeCsvValue);
    Text.JoinMargins(Seqs.Map(rows, EncodeRow), "\r\n");
    Text.JoinMargins(escaped, ",");
    var e := EncodeRows(rows);
    if cell == [] {
      if |r| > 1 {
        assert escaped[1..] == Seqs.Map(r[1..], EscapeCsvValue);
        assert EncodeRow(r)[0] == ',';
      } else if |rows| > 1 {
        assert EncodeRow(r) == "";
        assert e == EncodeRow(r) + "\r\n" + EncodeRows(rows[1..]) by {
          assert Seqs.Map(rows, EncodeRow)[1..] == Seqs.Map(rows[1..], EncodeRow);
        }
        assert e[0] == '\r';
      }
    } else {
      assert e[0] == cell[0];
    }
  }

  /** Export then import: the scanner closes exactly the encoded rows (a last
      row of one empty cell, which encodes to nothing, aside). */
  lemma RawRoundTrip(rows: seq<Row>)
    requires rows != [] && forall k :: 0 <= k < |rows| ==> rows[k] != []
    requires rows[0][0] == [] || rows[0][0][0] != Bom
    ensures RawRows(EncodeRows(rows)) == ReadBack(rows)
  {
    var e := EncodeRows(rows);
    FirstChar(rows);
    assert StripBom(e) == e;
    RowsRun(rows, Start);
    assert Start.rows + ReadBack(rows) == ReadBack(rows);
  }

  /** Export then import: parsing the encoded rows gives back every row that
      has a non-blank cell, in order. */
  lemma RoundTrip(rows: seq<Row>)
    requires rows != [] && forall k :: 0 <= k < |rows| ==> rows[k] != []
    requires rows[0][0] == [] || rows[0][0][0] != Bom
    ensures Rows(EncodeRows(rows)) == Seqs.Filter(rows, HasContent)
  {
    RawRoundTrip(rows);
    ReadBackFiltered(rows);
  }

  /** Dropping a last row of one empty cell does not change which rows have content. */
  lemma ReadBackFiltered(rows: seq<Row>)
    ensures Seqs.Filter(ReadBack(rows), HasContent) == Seqs.Filter(rows, HasContent)
  {
    if rows != [] && rows[|rows| - 1] == [""] {
      assert !HasContent([""]) by {
        assert Text.Trim("") == "";
      }
    }
  }

  /** When every row has content, parsing the export returns exactly the rows. */
  lemma ExactRoundTrip(rows: seq<Row>)
    requires rows != [] && forall k :: 0 <= k < |rows| ==> rows[k] != [] && HasContent(rows[k])
    requires rows[0][0] == [] || rows[0][0][0] != Bom
    ensures Rows(EncodeRows(rows)) == rows
  {
    RoundTrip(rows);
    Seqs.FilterAll(rows, HasContent);
  }
}
