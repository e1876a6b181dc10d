/** The contacts page (src/pages/Contacts.tsx): turning CSV text into contacts,
    the manual add form, the search filter and the CSV export. */
module Contacts {
  import opened Wrappers
  import opened Domain
  import Seqs
  import Text
  import Csv
  import Store

  /** The characters `splitTags` cuts at (`/[;,|]/`). */
  const TagSeparators: set<char> := {';', ',', '|'}

  /** The single separator the manual add form splits tags at. */
  const ManualSeparators: set<char> := {','}

  const NameMax: nat := 100
  const PhoneMax: nat := 20

  predicate NonEmpty(s: string) {
    s != []
  }

  // ---------------------------------------------------------------- tags

  /** A tag as the splitters leave it: non-empty, trimmed, free of separators. */
  predicate CleanTag(t: string, seps: set<char>) {
    t != [] && Text.Trimmed(t) && forall j :: 0 <= j < |t| ==> t[j] !in seps
  }

  lemma TrimKeepsOut(s: string, seps: set<char>)
    requires forall j :: 0 <= j < |s| ==> s[j] !in seps
    ensures forall j :: 0 <= j < |Text.Trim(s)| ==> Text.Trim(s)[j] !in seps
  {
    Text.TrimSlice(s);
    var a := |s| - |Text.TrimStart(s)|;
    var t := Text.Trim(s);
    forall j | 0 <= j < |t|
      ensures t[j] !in seps
    {
      assert t[j] == s[a..a + |t|][j] == s[a + j];
    }
  }

  lemma TrimmedPiecesClean(pieces: seq<string>, seps: set<char>)
    requires forall i, k :: 0 <= i < |pieces| && 0 <= k < |pieces[i]| ==> pieces[i][k] !in seps
    ensures forall t :: t in Seqs.Map(pieces, Text.Trim) && t != [] ==> CleanTag(t, seps)
  {
    var m := Seqs.Map(pieces, Text.Trim);
    forall t | t in m && t != []
      ensures CleanTag(t, seps)
    {
      var i :| 0 <= i < |m| && m[i] == t;
      TrimKeepsOut(pieces[i], seps);
      Text.TrimMargins(pieces[i]);
    }
  }

  /** `value.split(seps).map(t => t.trim()).filter(Boolean)`. */
  function Tags(v: string, seps: set<char>): (r: seq<string>)
    ensures forall k :: 0 <= k < |r| ==> CleanTag(r[k], seps)
  {
    var pieces := Text.Split(v, seps);
    TrimmedPiecesClean(pieces, seps);
    Seqs.Filter(Seqs.Map(pieces, Text.Trim), NonEmpty)
  }

  /** `splitTags`: tags of an imported row. */
  function SplitTags(v: string): (r: seq<string>)
    ensures forall k :: 0 <= k < |r| ==> CleanTag(r[k], TagSeparators)
  {
    Tags(v, TagSeparators)
  }

  /** The tags of the manual add form, cut at commas only. */
  function ManualTags(v: string): (r: seq<string>)
    ensures forall k :: 0 <= k < |r| ==> CleanTag(r[k], ManualSeparators)
  {
    Tags(v, ManualSeparators)
  }

  lemma {:induction false} SplitNone(x: string, seps: set<char>)
    requires forall j :: 0 <= j < |x| ==> x[j] !in seps
    ensures Text.Split(x, seps) == [x]
    decreases |x|
  {
    if x != [] {
      SplitNone(x[1..], seps);
      assert [x[0]] + x[1..] == x;
    }
  }

  lemma {:induction false} SplitAt(x: string, c: char, rest: string, seps: set<char>)
    requires forall j :: 0 <= j < |x| ==> x[j] !in seps
    requires c in seps
    ensures Text.Split(x + [c] + rest, seps) == [x] + Text.Split(rest, seps)
    decreases |x|
  {
    var s := x + [c] + rest;
    if x == [] {
      assert s[0] == c && s[1..] == rest;
    } else {
      assert s[0] == x[0] && s[1..] == x[1..] + [c] + rest;
      SplitAt(x[1..], c, rest, seps);
      assert [x[0]] + x[1..] == x;
    }
  }

  lemma JoinHead(pre: string, tags: seq<string>)
    requires |tags| > 1
    ensures pre + Text.Join(tags, ", ") == (pre + tags[0]) + [','] + (" " + Text.Join(tags[1..], ", "))
  {
  }

  /** Cutting a `", "` join at the separators gives back the pieces, each after
      the first still carrying the space of the join. */
  lemma {:induction false} SplitJoined(pre: string, tags: seq<string>, seps: set<char>)
    requires ',' in seps && ' ' !in seps
    requires forall j :: 0 <= j < |pre| ==> pre[j] !in seps
    requires tags != []
    requires forall i, j :: 0 <= i < |tags| && 0 <= j < |tags[i]| ==> tags[i][j] !in seps
    ensures var r := Text.Split(pre + Text.Join(tags, ", "), seps);
      |r| == |tags| && r[0] == pre + tags[0] && forall k :: 1 <= k < |tags| ==> r[k] == " " + tags[k]
    decreases |tags|
  {
    if |tags| == 1 {
      SplitNone(pre + tags[0], seps);
    } else {
      var tail := tags[1..];
      var j := Text.Join(tail, ", ");
      JoinHead(pre, tags);
      SplitAt(pre + tags[0], ',', " " + j, seps);
      SplitJoined(" ", tail, seps);
      var r := Text.Split(pre + Text.Join(tags, ", "), seps);
      var rt := Text.Split(" " + j, seps);
      assert r == [pre + tags[0]] + rt;
      SplitJoinedStep(pre, tags, r, rt);
    }
  }

  lemma SplitJoinedStep(pre: string, tags: seq<string>, r: seq<string>, rt: seq<string>)
    requires |tags| > 1 && r == [pre + tags[0]] + rt
    requires |rt| == |tags| - 1 && rt[0] == " " + tags[1..][0]
    requires forall k :: 1 <= k < |tags| - 1 ==> rt[k] == " " + tags[1..][k]
    ensures |r| == |tags| && r[0] == pre + tags[0] && forall k :: 1 <= k < |tags| ==> r[k] == " " + tags[k]
  {
    forall k | 1 <= k < |tags|
      ensures r[k] == " " + tags[k]
    {
      assert r[k] == rt[k - 1];
      assert tags[1..][k - 1] == tags[k];
    }
  }

  lemma TagsOmitSeparators(tags: seq<string>, seps: set<char>)
    requires forall k :: 0 <= k < |tags| ==> CleanTag(tags[k], seps)
    ensures forall i, j :: 0 <= i < |tags| && 0 <= j < |tags[i]| ==> tags[i][j] !in seps
  {
    forall i, j | 0 <= i < |tags| && 0 <= j < |tags[i]|
      ensures tags[i][j] !in seps
    {
      assert CleanTag(tags[i], seps);
    }
  }

  lemma JoinedPieces(tags: seq<string>)
    requires tags != [] && forall k :: 0 <= k < |tags| ==> CleanTag(tags[k], TagSeparators)
    ensures var r := Text.Split(Text.Join(tags, ", "), TagSeparators);
      |r| == |tags| && r[0] == tags[0] && forall k :: 1 <= k < |tags| ==> r[k] == " " + tags[k]
  {
    TagsOmitSeparators(tags, TagSeparators);
    assert "" + Text.Join(tags, ", ") == Text.Join(tags, ", ");
    SplitJoined("", tags, TagSeparators);
  }

  lemma TrimPieces(tags: seq<string>, pieces: seq<string>)
    requires |pieces| == |tags| && tags != [] && pieces[0] == tags[0]
    requires forall k :: 1 <= k < |tags| ==> pieces[k] == " " + tags[k]
    requires forall k :: 0 <= k < |tags| ==> tags[k] != [] && Text.Trimmed(tags[k])
    ensures Seqs.Map(pieces, Text.Trim) == tags
  {
    var m := Seqs.Map(pieces, Text.Trim);
    forall k | 0 <= k < |tags|
      ensures m[k] == tags[k]
    {
      if k == 0 {
        Text.TrimUnchanged(tags[0]);
      } else {
        Text.TrimAfterSpace(tags[k]);
      }
    }
  }

  lemma SplitTagsEmpty()
    ensures SplitTags("") == []
  {
    assert Text.Split("", TagSeparators) == [""];
    assert Seqs.Map([""], Text.Trim) == [""] by {
      assert Text.Trim("") == "";
    }
    Seqs.FilterSingle("", NonEmpty);
  }

  /** Exported tags read back as the same tags: the `", "` join is undone by
      `splitTags`. */
  lemma SplitTagsJoin(tags: seq<string>)
    requires forall k :: 0 <= k < |tags| ==> CleanTag(tags[k], TagSeparators)
    ensures SplitTags(Text.Join(tags, ", ")) == tags
  {
    if tags == [] {
      assert Text.Join(tags, ", ") == "";
      SplitTagsEmpty();
    } else {
      var pieces := Text.Split(Text.Join(tags, ", "), TagSeparators);
      JoinedPieces(tags);
      TrimPieces(tags, pieces);
      Seqs.FilterAll(tags, NonEmpty);
    }
  }

  // ---------------------------------------------------------------- phones

  /** `normalizePhone`: blank stays blank; otherwise the trimmed number, behind
      the default country code unless it already starts with `+`, with every
      white-space character removed. */
  function NormalizePhone(phone: string, countryCode: string): string {
    var trimmed := Text.Trim(phone);
    if trimmed == [] then []
    else Text.RemoveWhitespace(if Text.StartsWithChar(trimmed, '+') then trimmed else countryCode + trimmed)
  }

  /** The normalised number is empty exactly when the input is blank, and never
      holds white space. */
  lemma NormalizePhoneShape(phone: string, countryCode: string)
    ensures NormalizePhone(phone, countryCode) == [] <==> Text.IsBlank(phone)
    ensures forall k :: 0 <= k < |NormalizePhone(phone, countryCode)| ==>
              !Text.IsWhitespace(NormalizePhone(phone, countryCode)[k])
  {
    var trimmed := Text.Trim(phone);
    Text.TrimEmptyIffBlank(phone);
    if trimmed != [] {
      Text.TrimMargins(phone);
      if !Text.StartsWithChar(trimmed, '+') {
        Text.RemoveWhitespaceAppend(countryCode, trimmed);
      }
      Text.RemoveWhitespaceCons(trimmed);
    }
  }

  /** A number typed with `+` keeps its own prefix... */
  lemma NormalizePhonePlus(phone: string, countryCode: string)
    requires Text.StartsWithChar(Text.Trim(phone), '+')
    ensures NormalizePhone(phone, countryCode) == Text.RemoveWhitespace(Text.Trim(phone))
    ensures NormalizePhone(phone, countryCode) != [] && NormalizePhone(phone, countryCode)[0] == '+'
  {
    var trimmed := Text.Trim(phone);
    Text.RemoveWhitespaceCons(trimmed);
  }

  /** ... and any other non-blank number is put behind the country code. */
  lemma NormalizePhoneCountryCode(phone: string, countryCode: string)
    requires !Text.IsBlank(phone) && !Text.StartsWithChar(Text.Trim(phone), '+')
    ensures NormalizePhone(phone, countryCode) ==
              Text.RemoveWhitespace(countryCode) + Text.RemoveWhitespace(Text.Trim(phone))
    ensures Text.StartsWith(NormalizePhone(phone, countryCode), Text.RemoveWhitespace(countryCode))
  {
    Text.TrimEmptyIffBlank(phone);
    Text.RemoveWhitespaceAppend(countryCode, Text.Trim(phone));
  }

  /** An international number without white space is already normal. */
  lemma {:induction false} NormalizePhoneKeeps(phone: string, countryCode: string)
    requires Text.StartsWithChar(phone, '+')
    requires forall k :: 0 <= k < |phone| ==> !Text.IsWhitespace(phone[k])
    ensures NormalizePhone(phone, countryCode) == phone
  {
    assert Text.Trim(phone) == phone by {
      Text.TrimWithoutWhitespace(phone);
    }
    assert Text.RemoveWhitespace(phone) == phone by {
      Text.RemoveWhitespaceNone(phone);
    }
    NormalizeFixed(phone, countryCode);
  }

  lemma NormalizeFixed(phone: string, countryCode: string)
    requires Text.StartsWithChar(phone, '+')
    requires Text.Trim(phone) == phone && Text.RemoveWhitespace(phone) == phone
    ensures NormalizePhone(phone, countryCode) == phone
  {
  }

  /** Normalising twice changes nothing once the result is international. */
  lemma NormalizePhoneIdempotent(phone: string, countryCode: string)
    requires Text.StartsWithChar(NormalizePhone(phone, countryCode), '+')
    ensures NormalizePhone(NormalizePhone(phone, countryCode), countryCode) == NormalizePhone(phone, countryCode)
  {
    NormalizePhoneKeeps(NormalizePhone(phone, countryCode), countryCode);
  }

  // ---------------------------------------------------------------- import

  /** Every cell trimmed, as the importer does before reading any row. */
  function TrimCells(row: Csv.Row): (r: Csv.Row)
    ensures |r| == |row| && forall k :: 0 <= k < |row| ==> r[k] == Text.Trim(row[k])
  {
    Seqs.Map(row, Text.Trim)
  }

  function LowerCells(row: Csv.Row): (r: Csv.Row)
    ensures |r| == |row| && forall k :: 0 <= k < |row| ==> r[k] == Text.Lower(row[k])
  {
    Seqs.Map(row, Text.Lower)
  }

  predicate IsColumnName(c: string) {
    c == "name" || c == "phone" || c == "tags"
  }

  /** Where the importer reads the fields: a header flag and one index per
      column, -1 meaning "use the column's fixed position". */
  datatype Columns = Columns(hasHeader: bool, name: int, phone: int, tags: int)

  /** `idx` is the first header cell that reads `column`, or -1 when there is no
      header or no such cell. */
  predicate LocatesColumn(first: Csv.Row, column: string, hasHeader: bool, idx: int) {
    if hasHeader && column in LowerCells(first) then
      0 <= idx < |first| && Text.Lower(first[idx]) == column
      && forall j :: 0 <= j < idx ==> Text.Lower(first[j]) != column
    else idx == -1
  }

  /** The header test and column lookup of `parseContactsFromCsv`. */
  function DetectColumns(first: Csv.Row): (c: Columns)
    ensures c.hasHeader <==> exists k :: 0 <= k < |first| && IsColumnName(Text.Lower(first[k]))
    ensures LocatesColumn(first, "name", c.hasHeader, c.name)
    ensures LocatesColumn(first, "phone", c.hasHeader, c.phone)
    ensures LocatesColumn(first, "tags", c.hasHeader, c.tags)
  {
    var header := LowerCells(first);
    var hasHeader := exists k :: 0 <= k < |header| && IsColumnName(header[k]);
    if hasHeader then
      Columns(true, Seqs.IndexOf(header, "name"), Seqs.IndexOf(header, "phone"), Seqs.IndexOf(header, "tags"))
    else
      Columns(false, -1, -1, -1)
  }

  /** `getCellValue`: the header's index when there is one, else the fixed
      position; `''` past the end of the row. */
  function CellValue(row: Csv.Row, index: int, fallback: nat): (v: string)
    ensures 0 <= index < |row| ==> v == row[index]
    ensures index < 0 && fallback < |row| ==> v == row[fallback]
    ensures index >= |row| || (index < 0 && fallback >= |row|) ==> v == ""
  {
    var k := if index >= 0 then index else fallback;
    if k < |row| then row[k] else ""
  }

  /** What an imported contact always satisfies. */
  predicate Imported(c: NewContact) {
    c.name != [] && c.phone != []
    && (forall k :: 0 <= k < |c.phone| ==> !Text.IsWhitespace(c.phone[k]))
    && forall k :: 0 <= k < |c.tags| ==> CleanTag(c.tags[k], TagSeparators)
  }

  /** One body row: dropped when its phone cell is blank, otherwise a contact
      named `'Unknown'` when the name cell is empty. */
  function ContactFromRow(row: Csv.Row, cols: Columns, countryCode: string): Option<NewContact> {
    var name := CellValue(row, cols.name, 0);
    var phone := NormalizePhone(CellValue(row, cols.phone, 1), countryCode);
    var tags := CellValue(row, cols.tags, 2);
    if phone == [] then None
    else Some(NewContact(if name == [] then "Unknown" else name, phone, if tags == [] then [] else SplitTags(tags)))
  }

  /** A row is skipped exactly when its phone cell is blank; a kept row gives a
      named contact with the normalised phone. */
  lemma ContactFromRowSpec(row: Csv.Row, cols: Columns, countryCode: string)
    ensures var r := ContactFromRow(row, cols, countryCode);
      && (r.None? <==> Text.IsBlank(CellValue(row, cols.phone, 1)))
      && (r.Some? ==> Imported(r.value))
      && (r.Some? ==> r.value.phone == NormalizePhone(CellValue(row, cols.phone, 1), countryCode))
      && (r.Some? && CellValue(row, cols.name, 0) == "" ==> r.value.name == "Unknown")
      && (r.Some? && CellValue(row, cols.name, 0) != "" ==> r.value.name == CellValue(row, cols.name, 0))
  {
    NormalizePhoneShape(CellValue(row, cols.phone, 1), countryCode);
  }

  /** The contacts a single row contributes. */
  function RowContacts(row: Csv.Row, cols: Columns, countryCode: string): seq<NewContact> {
    var c := ContactFromRow(row, cols, countryCode);
    if c.Some? then [c.value] else []
  }

  /** The contacts of the body rows, in row order. */
  function ContactsFromRows(rows: seq<Csv.Row>, cols: Columns, countryCode: string): seq<NewContact>
    decreases |rows|
  {
    if rows == [] then []
    else
      ContactsFromRows(rows[..|rows| - 1], cols, countryCode) + RowContacts(rows[|rows| - 1], cols, countryCode)
  }

  lemma {:induction false} ContactsFromRowsImported(rows: seq<Csv.Row>, cols: Columns, countryCode: string)
    ensures |ContactsFromRows(rows, cols, countryCode)| <= |rows|
    ensures forall k :: 0 <= k < |ContactsFromRows(rows, cols, countryCode)| ==>
              Imported(ContactsFromRows(rows, cols, countryCode)[k])
    decreases |rows|
  {
    if rows != [] {
      ContactsFromRowsImported(rows[..|rows| - 1], cols, countryCode);
      ContactFromRowSpec(rows[|rows| - 1], cols, countryCode);
    }
  }

  /** The rows the importer works on: the parsed rows with trimmed cells. */
  function ImportRows(csvText: string): seq<Csv.Row> {
    Seqs.Map(Csv.Rows(csvText), TrimCells)
  }

  /** `parseContactsFromCsv`: the contacts of every row after the header (or of
      every row when the first one is not a header). */
  function ContactsFromCsv(csvText: string, countryCode: string): seq<NewContact> {
    var rows := ImportRows(csvText);
    if rows == [] then []
    else
      var cols := DetectColumns(rows[0]);
      ContactsFromRows(rows[if cols.hasHeader then 1 else 0..], cols, countryCode)
  }

  /** Reading two runs of rows one after the other gives their contacts one
      after the other. */
  lemma {:induction false} ContactsFromRowsAppend(a: seq<Csv.Row>, b: seq<Csv.Row>, cols: Columns, countryCode: string)
    ensures ContactsFromRows(a + b, cols, countryCode) ==
              ContactsFromRows(a, cols, countryCode) + ContactsFromRows(b, cols, countryCode)
    decreases |b|
  {
    if b == [] {
      assert a + b == a;
    } else {
      var b' := b[..|b| - 1];
      assert (a + b)[..|a + b| - 1] == a + b';
      assert (a + b)[|a + b| - 1] == b[|b| - 1];
      ContactsFromRowsAppend(a, b', cols, countryCode);
      Seqs.AppendAssoc(ContactsFromRows(a, cols, countryCode), ContactsFromRows(b', cols, countryCode),
                       RowContacts(b[|b| - 1], cols, countryCode));
    }
  }

  /** Reading rows front to back: the first row's contact, then the rest's. */
  lemma ContactsFromRowsCons(rows: seq<Csv.Row>, cols: Columns, countryCode: string)
    requires rows != []
    ensures ContactsFromRows(rows, cols, countryCode) ==
              RowContacts(rows[0], cols, countryCode) + ContactsFromRows(rows[1..], cols, countryCode)
  {
    var first := [rows[0]];
    assert rows == first + rows[1..];
    assert ContactsFromRows(first, cols, countryCode) == RowContacts(rows[0], cols, countryCode) by {
      assert first[..0] == [];
    }
    ContactsFromRowsAppend(first, rows[1..], cols, countryCode);
  }

  /** Every imported contact has a name and a phone; there is at most one per
      parsed row. A header row contributes nothing: the result is what reading
      every row with the detected columns gives, less the header's own contact.
      Without a header the first row is read like any other. */
  lemma ContactsFromCsvSpec(csvText: string, countryCode: string)
    ensures var r := ContactsFromCsv(csvText, countryCode);
      forall k :: 0 <= k < |r| ==> Imported(r[k])
    ensures |ContactsFromCsv(csvText, countryCode)| <= |Csv.Rows(csvText)|
    ensures var rows := ImportRows(csvText);
      rows != [] && DetectColumns(rows[0]).hasHeader ==> |ContactsFromCsv(csvText, countryCode)| <= |rows| - 1
    ensures var rows := ImportRows(csvText);
      rows != [] && DetectColumns(rows[0]).hasHeader ==>
        ContactsFromRows(rows, DetectColumns(rows[0]), countryCode) ==
        RowContacts(rows[0], DetectColumns(rows[0]), countryCode) + ContactsFromCsv(csvText, countryCode)
    ensures var rows := ImportRows(csvText);
      rows != [] && !DetectColumns(rows[0]).hasHeader ==>
        ContactsFromCsv(csvText, countryCode) == ContactsFromRows(rows, DetectColumns(rows[0]), countryCode)
  {
    var rows := ImportRows(csvText);
    if rows != [] {
      var cols := DetectColumns(rows[0]);
      var body := rows[if cols.hasHeader then 1 else 0..];
      assert ContactsFromCsv(csvText, countryCode) == ContactsFromRows(body, cols, countryCode);
      ContactsFromRowsImported(body, cols, countryCode);
      if cols.hasHeader {
        ContactsFromRowsCons(rows, cols, countryCode);
      } else {
        assert body == rows;
      }
    }
  }

  /** A header without a column makes the importer read that field from its
      fixed position (name 0, phone 1, tags 2). */
  lemma HeaderFallback(first: Csv.Row, row: Csv.Row)
    requires DetectColumns(first).hasHeader
    ensures "name" !in LowerCells(first) ==> CellValue(row, DetectColumns(first).name, 0) == CellValue(row, -1, 0)
    ensures "phone" !in LowerCells(first) ==> CellValue(row, DetectColumns(first).phone, 1) == CellValue(row, -1, 1)
    ensures "tags" !in LowerCells(first) ==> CellValue(row, DetectColumns(first).tags, 2) == CellValue(row, -1, 2)
  {
  }

  /** A file that holds only a header imports nothing: the header row itself
      never becomes a contact. */
  lemma HeaderOnly(csvText: string, countryCode: string)
    requires |ImportRows(csvText)| == 1 && DetectColumns(ImportRows(csvText)[0]).hasHeader
    ensures ContactsFromCsv(csvText, countryCode) == []
  {
  }

  /** `parseContactsFromCsv` as the source runs it: parse, trim, look at the
      header, then push one contact per usable body row. */
  method ParseContactsFromCsv(csvText: string, countryCode: string) returns (contacts: seq<NewContact>)
    ensures contacts == ContactsFromCsv(csvText, countryCode)
  {
    var parsed := Csv.ParseCsv(csvText);
    contacts := [];
    if |parsed| == 0 {
      return;
    }
    var rows := Seqs.Map(parsed, TrimCells);
    var cols := DetectColumns(rows[0]);
    var body := rows[if cols.hasHeader then 1 else 0..];
    var i := 0;
    while i < |body|
      invariant 0 <= i <= |body|
      invariant contacts == ContactsFromRows(body[..i], cols, countryCode)
    {
      var c := ContactFromRow(body[i], cols, countryCode);
      ContactsFromRowsSnoc(body, i, cols, countryCode);
      if c.Some? {
        contacts := contacts + [c.value];
      }
      i := i + 1;
    }
    Seqs.TakeAll(body);
  }

  lemma ContactsFromRowsSnoc(rows: seq<Csv.Row>, i: nat, cols: Columns, countryCode: string)
    requires i < |rows|
    ensures var c := ContactFromRow(rows[i], cols, countryCode);
      ContactsFromRows(rows[..i + 1], cols, countryCode)
      == ContactsFromRows(rows[..i], cols, countryCode) + (if c.Some? then [c.value] else [])
  {
    Seqs.TakeSnoc(rows, i);
  }

  // ---------------------------------------------------------------- export

  const Header: Csv.Row := ["name", "phone", "tags"]

  /** One exported line: name, phone and the tags joined with `", "`. */
  function ContactRow(c: Contact): Csv.Row {
    [c.name, c.phone, Text.Join(c.tags, ", ")]
  }

  function ExportRows(cs: seq<Contact>): seq<Csv.Row> {
    [Header] + Seqs.Map(cs, ContactRow)
  }

  /** The text of the exported file. */
  function ExportCsv(cs: seq<Contact>): string {
    Csv.EncodeRows(ExportRows(cs))
  }

  /** The export button: an error when nothing is listed, else the file text. */
  function HandleExport(listed: seq<Contact>): (r: Result<string, string>)
    ensures r.Failure? <==> listed == []
    ensures r.Success? ==> r.value == ExportCsv(listed)
  {
    if listed == [] then Failure("No contacts available to export.") else Success(ExportCsv(listed))
  }

  /** A contact that survives export and import unchanged: a trimmed name, an
      international phone without white space, and tags as `splitTags` makes them. */
  predicate Canonical(c: Contact) {
    c.name != [] && Text.Trimmed(c.name)
    && Text.StartsWithChar(c.phone, '+')
    && (forall k :: 0 <= k < |c.phone| ==> !Text.IsWhitespace(c.phone[k]))
    && forall k :: 0 <= k < |c.tags| ==> CleanTag(c.tags[k], TagSeparators)
  }

  function Draft(c: Contact): NewContact {
    NewContact(c.name, c.phone, c.tags)
  }

  lemma JoinedTagsTrimmed(tags: seq<string>)
    requires forall k :: 0 <= k < |tags| ==> CleanTag(tags[k], TagSeparators)
    ensures Text.Trimmed(Text.Join(tags, ", "))
    ensures Text.Trim(Text.Join(tags, ", ")) == Text.Join(tags, ", ")
    ensures Text.Join(tags, ", ") == [] <==> tags == []
  {
    var j := Text.Join(tags, ", ");
    if tags != [] {
      Text.JoinMargins(tags, ", ");
      var first := tags[0];
      var last := tags[|tags| - 1];
      assert CleanTag(first, TagSeparators) && CleanTag(last, TagSeparators);
      assert j[0] == first[0] by {
        assert j[..|first|][0] == first[0];
      }
      assert j[|j| - 1] == last[|last| - 1] by {
        assert j[|j| - |last|..][|last| - 1] == last[|last| - 1];
      }
    }
    Text.TrimUnchanged(j);
  }

  lemma TrimCellsUnchanged(row: Csv.Row)
    requires forall k :: 0 <= k < |row| ==> Text.Trimmed(row[k])
    ensures TrimCells(row) == row
  {
    forall k | 0 <= k < |row|
      ensures Text.Trim(row[k]) == row[k]
    {
      Text.TrimUnchanged(row[k]);
    }
  }

  lemma HeaderColumns()
    ensures DetectColumns(Header) == Columns(true, 0, 1, 2)
  {
    var h := LowerCells(Header);
    assert h == Header by {
      Text.LowerUnchanged("name");
      Text.LowerUnchanged("phone");
      Text.LowerUnchanged("tags");
    }
    assert h[0] == "name" && h[1] == "phone" && h[2] == "tags";
    assert IsColumnName(h[0]);
    assert "name" != "phone" && "name" != "tags" && "phone" != "tags";
  }

  lemma CanonicalRow(c: Contact, countryCode: string)
    requires Canonical(c)
    ensures ContactFromRow(ContactRow(c), Columns(true, 0, 1, 2), countryCode) == Some(Draft(c))
  {
    var row := ContactRow(c);
    var cols := Columns(true, 0, 1, 2);
    assert CellValue(row, cols.name, 0) == c.name;
    assert CellValue(row, cols.phone, 1) == c.phone;
    assert CellValue(row, cols.tags, 2) == Text.Join(c.tags, ", ");
    assert NormalizePhone(c.phone, countryCode) == c.phone by {
      NormalizePhoneKeeps(c.phone, countryCode);
    }
    assert Text.Join(c.tags, ", ") == [] <==> c.tags == [] by {
      JoinedTagsTrimmed(c.tags);
    }
    assert SplitTags(Text.Join(c.tags, ", ")) == c.tags by {
      SplitTagsJoin(c.tags);
    }
  }

  lemma MapInit<T, U>(xs: seq<T>, f: T -> U)
    requires xs != []
    ensures Seqs.Map(xs, f) == Seqs.Map(xs[..|xs| - 1], f) + [f(xs[|xs| - 1])]
  {
    assert Seqs.Map(xs, f)[..|xs| - 1] == Seqs.Map(xs[..|xs| - 1], f);
  }

  lemma {:induction false} CanonicalRows(cs: seq<Contact>, countryCode: string)
    requires forall k :: 0 <= k < |cs| ==> Canonical(cs[k])
    ensures ContactsFromRows(Seqs.Map(cs, ContactRow), Columns(true, 0, 1, 2), countryCode) == Seqs.Map(cs, Draft)
    decreases |cs|
  {
    if cs != [] {
      var init := cs[..|cs| - 1];
      var rows := Seqs.Map(cs, ContactRow);
      MapInit(cs, ContactRow);
      MapInit(cs, Draft);
      assert rows[..|rows| - 1] == Seqs.Map(init, ContactRow);
      CanonicalRows(init, countryCode);
      CanonicalRow(cs[|cs| - 1], countryCode);
    }
  }

  /** An exported contact line has content and trimmed cells. */
  lemma ContactRowClean(c: Contact)
    requires Canonical(c)
    ensures Csv.HasContent(ContactRow(c)) && TrimCells(ContactRow(c)) == ContactRow(c)
  {
    var row := ContactRow(c);
    assert Text.Trim(row[0]) != "" by {
      Text.TrimUnchanged(c.name);
    }
    JoinedTagsTrimmed(c.tags);
    TrimCellsUnchanged(row);
  }

  lemma HeaderHasContent()
    ensures Csv.HasContent(Header) && Header[0][0] != Csv.Bom
  {
    var h := Header;
    assert Text.Trimmed(h[0]);
    Text.TrimUnchanged(h[0]);
    assert Text.Trim(h[0]) != "";
  }

  lemma HeaderTrimmed()
    ensures TrimCells(Header) == Header
  {
    var h := Header;
    assert Text.Trimmed(h[0]) && Text.Trimmed(h[1]) && Text.Trimmed(h[2]);
    TrimCellsUnchanged(h);
  }

  lemma ExportRowsAt(cs: seq<Contact>, k: int)
    requires 1 <= k <= |cs|
    ensures ExportRows(cs)[k] == ContactRow(cs[k - 1])
  {
  }

  lemma ExportRowsParse(cs: seq<Contact>)
    requires forall k :: 0 <= k < |cs| ==> Canonical(cs[k])
    ensures Csv.Rows(ExportCsv(cs)) == ExportRows(cs)
    ensures forall k :: 0 <= k < |ExportRows(cs)| ==> TrimCells(ExportRows(cs)[k]) == ExportRows(cs)[k]
  {
    var rows := ExportRows(cs);
    HeaderHasContent();
    HeaderTrimmed();
    forall k | 0 <= k < |rows|
      ensures rows[k] != [] && Csv.HasContent(rows[k]) && TrimCells(rows[k]) == rows[k]
    {
      if k > 0 {
        ExportRowsAt(cs, k);
        ContactRowClean(cs[k - 1]);
      }
    }
    Csv.ExactRoundTrip(rows);
  }

  /** Export then import: a list of canonical contacts comes back as the same
      contacts, in the same order, whatever the default country code. */
  lemma ExportImport(cs: seq<Contact>, countryCode: string)
    requires forall k :: 0 <= k < |cs| ==> Canonical(cs[k])
    ensures ContactsFromCsv(ExportCsv(cs), countryCode) == Seqs.Map(cs, Draft)
  {
    var rows := ExportRows(cs);
    ExportRowsParse(cs);
    assert ImportRows(ExportCsv(cs)) == rows;
    HeaderColumns();
    assert rows[1..] == Seqs.Map(cs, ContactRow);
    CanonicalRows(cs, countryCode);
  }

  // ---------------------------------------------------------------- import dialog

  /** Where the import text comes from: nothing chosen, a file that was read,
      or a file the reader failed on. */
  datatype ImportSource = NoFile | FileText(text: string) | FileUnreadable

  const NothingToImport := "Upload a CSV file or paste contact rows to import."
  const NoValidContacts := "No valid contacts found. Check your CSV columns."
  const UnreadableFile := "Could not read the CSV file."

  /** `handleImport`: the contacts handed to the store, or the error shown. */
  function ImportResult(source: ImportSource, pasted: string, countryCode: string): (r: Result<seq<NewContact>, string>)
    ensures source.NoFile? && Text.IsBlank(pasted) ==> r == Failure(NothingToImport)
    ensures source.FileUnreadable? ==> r == Failure(UnreadableFile)
    ensures source.FileText? ==> r.Success? || r == Failure(NoValidContacts)
    ensures r.Success? ==> r.value != []
    ensures r.Success? ==> r.value == ContactsFromCsv(if source.FileText? then source.text else pasted, countryCode)
    ensures !(source.NoFile? && Text.IsBlank(pasted)) && !source.FileUnreadable? ==>
              (r.Success? <==> ContactsFromCsv(if source.FileText? then source.text else pasted, countryCode) != [])
  {
    Text.TrimEmptyIffBlank(pasted);
    if source.NoFile? && Text.Trim(pasted) == [] then Failure(NothingToImport)
    else if source.FileUnreadable? then Failure(UnreadableFile)
    else
      var parsed := ContactsFromCsv(if source.FileText? then source.text else pasted, countryCode);
      if parsed == [] then Failure(NoValidContacts) else Success(parsed)
  }

  // ---------------------------------------------------------------- add form

  datatype ContactForm = ContactForm(name: string, phone: string, tags: string)

  const NameRequired := "Name is required"
  const PhoneRequired := "Phone is required"

  /** The message of a violated maximum length. */
  function TooLong(max: nat): string {
    "String must contain at most " + Text.NatToString(max) + " character(s)"
  }

  /** `contactSchema`: the first rule the form breaks, if any. Both fields are
      judged after trimming, their lengths in UTF-16 code units; the name's
      rules come first. */
  function ValidateContact(form: ContactForm): (r: Option<string>)
    ensures r.None? <==>
              var name := Text.Trim(form.name);
              var phone := Text.Trim(form.phone);
              name != [] && Text.Utf16Length(name) <= NameMax && phone != [] && Text.Utf16Length(phone) <= PhoneMax
    ensures Text.Trim(form.name) == [] ==> r == Some(NameRequired)
    ensures Text.Utf16Length(Text.Trim(form.name)) > NameMax ==> r == Some(TooLong(NameMax))
    ensures var name := Text.Trim(form.name);
      name != [] && Text.Utf16Length(name) <= NameMax && Text.Trim(form.phone) == [] ==> r == Some(PhoneRequired)
    ensures var name := Text.Trim(form.name);
      var phone := Text.Trim(form.phone);
      name != [] && Text.Utf16Length(name) <= NameMax && Text.Utf16Length(phone) > PhoneMax ==> r == Some(TooLong(PhoneMax))
  {
    var name := Text.Trim(form.name);
    var phone := Text.Trim(form.phone);
    if Text.Utf16Length(name) < 1 then Some(NameRequired)
    else if Text.Utf16Length(name) > NameMax then Some(TooLong(NameMax))
    else if Text.Utf16Length(phone) < 1 then Some(PhoneRequired)
    else if Text.Utf16Length(phone) > PhoneMax then Some(TooLong(PhoneMax))
    else None
  }

  /** The contact the add handler builds, as written: the `+` test looks at the
      phone before it is trimmed. */
  function AddedContactAsWritten(form: ContactForm, countryCode: string): NewContact {
    var phone := if Text.StartsWithChar(form.phone, '+') then form.phone else countryCode + form.phone;
    NewContact(Text.Trim(form.name), Text.RemoveWhitespace(phone), ManualTags(form.tags))
  }

  /** A number typed with a leading space is put behind the country code
      although it already has its own `+` prefix. */
  lemma AsWrittenDoublePrefix(form: ContactForm, countryCode: string, number: string)
    requires form.phone == [' '] + number && Text.StartsWithChar(number, '+')
    requires forall k :: 0 <= k < |number| ==> !Text.IsWhitespace(number[k])
    requires forall k :: 0 <= k < |countryCode| ==> !Text.IsWhitespace(countryCode[k])
    ensures AddedContactAsWritten(form, countryCode).phone == countryCode + number
  {
    assert !Text.StartsWithChar(form.phone, '+');
    assert Text.RemoveWhitespace(form.phone) == number by {
      Text.RemoveWhitespaceAppend([' '], number);
      Text.RemoveWhitespaceNone(number);
      Seqs.FilterSingle(' ', Text.NotWhitespace);
    }
    assert Text.RemoveWhitespace(countryCode + form.phone) == countryCode + number by {
      Text.RemoveWhitespaceAppend(countryCode, form.phone);
      Text.RemoveWhitespaceNone(countryCode);
    }
  }

  /** The contact the add handler should build: the phone normalised exactly as
      an imported phone is. */
  function AddedContact(form: ContactForm, countryCode: string): (r: NewContact)
    ensures forall k :: 0 <= k < |r.tags| ==> CleanTag(r.tags[k], ManualSeparators)
  {
    NewContact(Text.Trim(form.name), NormalizePhone(form.phone, countryCode), ManualTags(form.tags))
  }

  /** The same padded number, added by the corrected handler, keeps its own prefix. */
  lemma CorrectedKeepsPrefix(form: ContactForm, countryCode: string, number: string)
    requires form.phone == [' '] + number && Text.StartsWithChar(number, '+')
    requires forall k :: 0 <= k < |number| ==> !Text.IsWhitespace(number[k])
    ensures AddedContact(form, countryCode).phone == number
  {
    assert Text.Trim(form.phone) == number by {
      Text.TrimAfterSpace(number);
    }
    NormalizePhonePlus(form.phone, countryCode);
    Text.RemoveWhitespaceNone(number);
  }

  /** A valid form gives a contact with a name and an international number
      that keeps its own `+` prefix however it was padded. */
  lemma AddedContactValid(form: ContactForm, countryCode: string)
    requires ValidateContact(form).None?
    ensures AddedContact(form, countryCode).name != []
    ensures AddedContact(form, countryCode).phone != []
    ensures Text.StartsWithChar(Text.Trim(form.phone), '+') ==>
              AddedContact(form, countryCode).phone == Text.RemoveWhitespace(Text.Trim(form.phone))
  {
    var phone := AddedContact(form, countryCode).phone;
    assert phone != [] by {
      Text.TrimEmptyIffBlank(form.phone);
      NormalizePhoneShape(form.phone, countryCode);
    }
    if Text.StartsWithChar(Text.Trim(form.phone), '+') {
      NormalizePhonePlus(form.phone, countryCode);
    }
  }

  /** `handleAddContact`: a form that breaks a rule leaves the store alone and
      reports the rule; a valid one appends exactly one contact. */
  method SubmitContact(store: Store.AppStore, form: ContactForm, id: string, now: int) returns (error: Option<string>)
    modifies store
    ensures error == ValidateContact(form)
    ensures error.Some? ==> store.contacts == old(store.contacts)
    ensures var added := Store.StampContact(AddedContact(form, old(store.settings.defaultCountryCode)), id, now);
      error.None? ==> store.contacts == old(store.contacts) + [added]
    ensures store.templates == old(store.templates) && store.campaigns == old(store.campaigns)
    ensures store.logs == old(store.logs) && store.settings == old(store.settings)
  {
    error := ValidateContact(form);
    if error.None? {
      store.AddContact(AddedContact(form, store.settings.defaultCountryCode), id, now);
    }
  }

  // ---------------------------------------------------------------- search

  /** The search box: a case-blind match on the name or a literal match on the phone. */
  predicate ContactMatches(c: Contact, search: string) {
    Text.Contains(Text.Lower(c.name), Text.Lower(search)) || Text.Contains(c.phone, search)
  }

  /** `filteredContacts`: the matching contacts in store order; an empty search
      lists everyone. */
  function FilteredContacts(cs: seq<Contact>, search: string): (r: seq<Contact>)
    ensures Seqs.IsSubsequence(r, cs)
    ensures forall k :: 0 <= k < |r| ==> ContactMatches(r[k], search)
    ensures forall k :: 0 <= k < |cs| && ContactMatches(cs[k], search) ==> cs[k] in r
    ensures search == [] ==> r == cs
    ensures forall c :: multiset(r)[c] == if ContactMatches(c, search) then multiset(cs)[c] else 0
  {
    var p := (c: Contact) => ContactMatches(c, search);
    Seqs.FilterIsSubsequence(cs, p);
    Seqs.FilterMultisets(cs, p);
    if search == [] then
      EmptySearchMatchesAll(cs);
      Seqs.FilterKeepsAll(cs, p);
      Seqs.Filter(cs, p)
    else Seqs.Filter(cs, p)
  }

  /** Every contact matches the empty search. */
  lemma EmptySearchMatchesAll(cs: seq<Contact>)
    ensures forall k :: 0 <= k < |cs| ==> ContactMatches(cs[k], [])
  {
    forall k | 0 <= k < |cs| ensures ContactMatches(cs[k], []) {
      Text.ContainsEmpty(cs[k].phone);
    }
  }
}
