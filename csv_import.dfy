/** The client side of the bulk import: the file-extension check, the
    CSV reader (blank lines dropped, cells trimmed and stripped of double
    quotes, one record per data line keyed by the header cells) and the
    mapping of records to the rows sent to the server, which stops at the
    first record missing a required field. */
module CsvImport {
  import opened Common
  import opened Text
  import opened Ledger
  import opened Grouping
  import opened TransactionRoutes

  // ---------------------------------------------------------------------------
  // The file-extension check

  const ACCEPTED_EXTENSIONS: seq<string> := ["csv", "xlsx", "xls"]

  /** `name.split('.').pop().toLowerCase()`. */
  function Extension(fileName: string): string
  {
    Lower(LastPiece(fileName, '.'))
  }

  predicate AcceptedFile(fileName: string)
  {
    Extension(fileName) in ACCEPTED_EXTENSIONS
  }

  /** The last piece of a split is decided by what follows the last separator. */
  lemma {:induction false} LastPieceAfter(a: string, sep: char, b: string)
    ensures |Split(a + [sep] + b, sep)| >= 2
    ensures LastPiece(a + [sep] + b, sep) == LastPiece(b, sep)
    decreases |a|
  {
    var s := a + [sep] + b;
    if a == [] {
      assert s == [sep] + b && s[1..] == b;
    } else {
      assert s[1..] == a[1..] + [sep] + b;
      LastPieceAfter(a[1..], sep, b);
    }
  }

  /** A file is accepted exactly when the text after its last dot is one
      of the extensions, in any letter case; a name without a dot is
      judged as a whole. */
  lemma AcceptedFileIff(stem: string, ext: string)
    requires '.' !in ext
    ensures AcceptedFile(stem + "." + ext) <==> Lower(ext) in ACCEPTED_EXTENSIONS
    ensures AcceptedFile(ext) <==> Lower(ext) in ACCEPTED_EXTENSIONS
  {
    LastPieceAfter(stem, '.', ext);
    assert stem + "." + ext == stem + ['.'] + ext;
    SplitNoSeparator(ext, '.');
  }

  // ---------------------------------------------------------------------------
  // The CSV reader

  /** A header or value cell: trimmed, then every double quote removed. */
  function Clean(cell: string): string
  {
    RemoveChar(Trim(cell), '"')
  }

  /** The cells of a line, split on commas. */
  function Cells(line: string): (r: seq<string>)
    ensures |r| >= 1
    ensures forall i :: 0 <= i < |r| ==> '"' !in r[i]
  {
    MapSeq(Split(line, ','), Clean)
  }

  function NonBlank(line: string): bool
  {
    Trim(line) != ""
  }

  /** The lines of the text, split on newlines, without the blank ones. */
  function TextLines(text: string): seq<string>
  {
    Filter(Split(text, '\n'), NonBlank)
  }

  /** The line the reader skips outright: eight empty cells. */
  const EMPTY_ROW: string := ",,,,,,,"

  /** The value of cell `i`, or empty when the line is short. */
  function FieldAt(values: seq<string>, i: nat): string
  {
    if i < |values| then values[i] else ""
  }

  /** The record of one line: each header in turn set to its cell, so a
      repeated header keeps its last cell. */
  function RecordOf(headers: seq<string>, values: seq<string>): map<string, string>
    decreases |headers|
  {
    if headers == [] then map[]
    else RecordOf(headers[..|headers| - 1], values)[headers[|headers| - 1] := FieldAt(values, |headers| - 1)]
  }

  /** Header `j` is not repeated later. */
  predicate LastOccurrence(headers: seq<string>, j: int)
    requires 0 <= j < |headers|
  {
    forall k :: j < k < |headers| ==> headers[k] != headers[j]
  }

  /** A record has one key per header, and each key holds the cell under
      its last occurrence, or empty when the line is short. */
  lemma RecordOfMeaning(headers: seq<string>, values: seq<string>)
    ensures forall h :: h in RecordOf(headers, values) <==> h in headers
    ensures forall j :: 0 <= j < |headers| && LastOccurrence(headers, j) ==>
      RecordOf(headers, values)[headers[j]] == FieldAt(values, j)
  {
    RecordOfKeys(headers, values);
    RecordOfValues(headers, values);
  }

  lemma {:induction false} RecordOfKeys(headers: seq<string>, values: seq<string>)
    ensures forall h :: h in RecordOf(headers, values) <==> h in headers
    decreases |headers|
  {
    if headers != [] {
      var n := |headers| - 1;
      RecordOfKeys(headers[..n], values);
      assert headers == headers[..n] + [headers[n]];
    }
  }

  lemma RecordOfValues(headers: seq<string>, values: seq<string>)
    ensures forall j :: 0 <= j < |headers| && LastOccurrence(headers, j) ==>
      headers[j] in RecordOf(headers, values) && RecordOf(headers, values)[headers[j]] == FieldAt(values, j)
  {
    forall j | 0 <= j < |headers| && LastOccurrence(headers, j)
      ensures headers[j] in RecordOf(headers, values) && RecordOf(headers, values)[headers[j]] == FieldAt(values, j)
    {
      RecordOfValue(headers, values, j);
    }
  }

  /** The key of header `j`, not repeated later, holds cell `j`. */
  lemma {:induction false} RecordOfValue(headers: seq<string>, values: seq<string>, j: nat)
    requires j < |headers| && LastOccurrence(headers, j)
    ensures headers[j] in RecordOf(headers, values) && RecordOf(headers, values)[headers[j]] == FieldAt(values, j)
    decreases |headers|
  {
    var n := |headers| - 1;
    if j < n {
      var init := headers[..n];
      assert init[j] == headers[j];
      assert headers[n] != headers[j];
      assert LastOccurrence(init, j);
      RecordOfValue(init, values, j);
    }
  }

  /** The row-building loop: each header is assigned its cell in order. */
  method BuildRecord(headers: seq<string>, values: seq<string>) returns (row: map<string, string>)
    ensures row == RecordOf(headers, values)
  {
    row := map[];
    for index := 0 to |headers|
      invariant row == RecordOf(headers[..index], values)
    {
      assert headers[..index + 1][..index] == headers[..index];
      row := row[headers[index] := FieldAt(values, index)];
    }
    assert headers[..|headers|] == headers;
  }

  predicate HasData(values: seq<string>)
  {
    exists i :: 0 <= i < |values| && values[i] != ""
  }

  /** A data line yields a record unless it is empty, the empty row, or
      all its cells are empty. */
  function Kept(line: string): bool
  {
    var t := Trim(line);
    t != "" && t != EMPTY_ROW && HasData(Cells(t))
  }

  /** The records of the data lines, in line order. */
  function RowsOf(headers: seq<string>, lines: seq<string>): seq<map<string, string>>
    decreases |lines|
  {
    if lines == [] then []
    else
      var prev := RowsOf(headers, lines[..|lines| - 1]);
      var line := lines[|lines| - 1];
      if Kept(line) then prev + [RecordOf(headers, Cells(Trim(line)))] else prev
  }

  /** `parseCSV`: no records unless there is a header line and at least one
      more non-blank line. */
  function CsvRecords(text: string): seq<map<string, string>>
  {
    var lines := TextLines(text);
    if |lines| < 2 then [] else RowsOf(Cells(lines[0]), lines[1..])
  }

  /** The reader's loop over the data lines. */
  method ParseCsv(text: string) returns (data: seq<map<string, string>>)
    ensures data == CsvRecords(text)
  {
    var lines := TextLines(text);
    if |lines| < 2 {
      return [];
    }
    var headers := Cells(lines[0]);
    var body := lines[1..];
    data := [];
    for i := 0 to |body|
      invariant data == RowsOf(headers, body[..i])
    {
      RowsOfStep(headers, body, i);
      var row := ReadLine(headers, body[i]);
      if row.Some? {
        data := data + [row.value];
      }
    }
    assert body[..|body|] == body;
  }

  /** One pass of the loop body: the skips, then the record of a kept line. */
  method ReadLine(headers: seq<string>, raw: string) returns (row: Option<map<string, string>>)
    ensures row.Some? <==> Kept(raw)
    ensures row.Some? ==> row.value == RecordOf(headers, Cells(Trim(raw)))
  {
    var line := Trim(raw);
    if line == "" || line == EMPTY_ROW {
      return None;
    }
    var values := Cells(line);
    var hasData := exists k :: 0 <= k < |values| && values[k] != "";
    if !hasData {
      return None;
    }
    var record := BuildRecord(headers, values);
    return Some(record);
  }

  /** One more data line read. */
  lemma RowsOfStep(headers: seq<string>, lines: seq<string>, i: nat)
    requires i < |lines|
    ensures RowsOf(headers, lines[..i + 1]) ==
      RowsOf(headers, lines[..i]) + (if Kept(lines[i]) then [RecordOf(headers, Cells(Trim(lines[i])))] else [])
  {
    assert lines[..i + 1][..i] == lines[..i];
  }

  /** Exactly the kept data lines yield records, one each, in line order. */
  lemma {:induction false} RowsOfKept(headers: seq<string>, lines: seq<string>)
    ensures |RowsOf(headers, lines)| == |Filter(lines, Kept)|
    ensures forall k :: 0 <= k < |Filter(lines, Kept)| ==>
      RowsOf(headers, lines)[k] == RecordOf(headers, Cells(Trim(Filter(lines, Kept)[k])))
    decreases |lines|
  {
    if lines != [] {
      var init, last := lines[..|lines| - 1], lines[|lines| - 1];
      RowsOfKept(headers, init);
      assert lines == init + [last];
      FilterSnoc(init, last, Kept);
      if Kept(last) {
        RowsOfKeptSnoc(headers, RowsOf(headers, init), Filter(init, Kept), last);
      }
    }
  }

  /** The step of RowsOfKept for a kept last line, over the records and
      kept lines so far. */
  lemma RowsOfKeptSnoc(headers: seq<string>, rows: seq<map<string, string>>, kept: seq<string>, last: string)
    requires |rows| == |kept|
    requires forall k :: 0 <= k < |kept| ==> rows[k] == RecordOf(headers, Cells(Trim(kept[k])))
    ensures var rows', kept' := rows + [RecordOf(headers, Cells(Trim(last)))], kept + [last];
      |rows'| == |kept'| && forall k :: 0 <= k < |kept'| ==> rows'[k] == RecordOf(headers, Cells(Trim(kept'[k])))
  {
  }

  /** There are at most as many records as non-blank lines after the
      header, and none without a header and a data line. */
  lemma CsvRecordsBound(text: string)
    ensures |TextLines(text)| < 2 ==> CsvRecords(text) == []
    ensures |TextLines(text)| >= 2 ==> |CsvRecords(text)| <= |TextLines(text)| - 1
  {
    var lines := TextLines(text);
    if |lines| >= 2 {
      RowsOfKept(Cells(lines[0]), lines[1..]);
    }
  }

  /** Every record has exactly the header cells as keys, none of which
      holds a double quote. */
  lemma CsvRecordKeys(text: string, k: nat)
    requires k < |CsvRecords(text)|
    ensures forall h :: h in CsvRecords(text)[k] <==> h in Cells(TextLines(text)[0])
    ensures forall h :: h in CsvRecords(text)[k] ==> '"' !in h
  {
    var lines := TextLines(text);
    var headers := Cells(lines[0]);
    RowsOfKept(headers, lines[1..]);
    var line := Filter(lines[1..], Kept)[k];
    RecordOfMeaning(headers, Cells(Trim(line)));
  }

  // ---------------------------------------------------------------------------
  // Records to upload rows

  /** `row[key]`, empty when the record has no such key. */
  function Get(row: map<string, string>, key: string): string
  {
    if key in row then row[key] else ""
  }

  /** The required fields the record lacks, in the order checked. */
  function MissingFields(row: map<string, string>): (r: seq<string>)
    ensures |r| <= 5
  {
    (if Get(row, "date") == "" then ["date"] else [])
      + (if Get(row, "name") == "" then ["name"] else [])
      + (if Get(row, "account") == "" then ["account"] else [])
      + (if Get(row, "category") == "" then ["category"] else [])
      + (if Get(row, "amount") == "" then ["amount"] else [])
  }

  predicate Complete(row: map<string, string>)
  {
    Get(row, "date") != "" && Get(row, "name") != "" && Get(row, "account") != ""
    && Get(row, "category") != "" && Get(row, "amount") != ""
  }

  lemma MissingFieldsMeaning(row: map<string, string>)
    ensures MissingFields(row) == [] <==> Complete(row)
    ensures forall f :: f in MissingFields(row) ==> Get(row, f) == ""
  {
  }

  /** `parseFloat` of the amount as it travels to the server: a number, or
      `null` when it reads as `NaN` (which JSON cannot carry). */
  function AmountOf(text: string): (a: AmountField)
    ensures AmountValue(a) == ParseNumber(text)
  {
    var v := ParseNumber(text);
    if v.Some? then Num(v.value) else Absent
  }

  /** The first non-empty of the given texts, or empty (a chain of `||`). */
  function FirstNonEmpty(texts: seq<string>): (r: string)
    ensures r == "" <==> forall i :: 0 <= i < |texts| ==> texts[i] == ""
    ensures r != "" ==> r in texts
    decreases |texts|
  {
    if texts == [] then ""
    else if texts[0] != "" then texts[0]
    else FirstNonEmpty(texts[1..])
  }

  /** Of two texts, the first unless it is empty. */
  lemma FirstNonEmptyPair(a: string, b: string)
    ensures FirstNonEmpty([a, b]) == if a != "" then a else b
  {
    assert [a, b][1..] == [b];
    assert [b][1..] == [];
  }

  /** The row sent for a complete record: the sub-category falls back to
      the category, the notes come from `note`, else `notes`. */
  function UploadRow(row: map<string, string>): (r: ImportRow)
    requires Complete(row)
    ensures r.date == Get(row, "date") && r.name == Get(row, "name") && r.account == Get(row, "account")
    ensures r.category == Get(row, "category") && r.description == Get(row, "description")
    ensures r.subCategory != ""
    ensures r.subCategory == FirstNonEmpty([Get(row, "subCategory"), Get(row, "category")])
    ensures r.notes == FirstNonEmpty([Get(row, "note"), Get(row, "notes")])
    ensures AmountValue(r.amount) == ParseNumber(Get(row, "amount"))
  {
    var sub := FirstNonEmpty([Get(row, "subCategory"), Get(row, "category")]);
    FirstNonEmptyPair(Get(row, "subCategory"), Get(row, "category"));
    ImportRow(Get(row, "date"), Get(row, "name"), Get(row, "account"), Get(row, "category"), sub,
              AmountOf(Get(row, "amount")), FirstNonEmpty([Get(row, "note"), Get(row, "notes")]),
              Get(row, "description"))
  }

  datatype UploadError =
    | NoData
    | Missing(rowNumber: nat, fields: seq<string>)

  datatype Upload = Uploaded(rows: seq<ImportRow>) | UploadFailed(error: UploadError)

  /** The records from position `start` on, mapped; the first incomplete
      one aborts with its row number (the header is row 1). */
  function MapRecords(records: seq<map<string, string>>, start: nat): Upload
    decreases |records|
  {
    if records == [] then Uploaded([])
    else if !Complete(records[0]) then UploadFailed(Missing(start + 2, MissingFields(records[0])))
    else
      var rest := MapRecords(records[1..], start + 1);
      if rest.Uploaded? then Uploaded([UploadRow(records[0])] + rest.rows) else rest
  }

  /** The upload step: no records is an error, else every record mapped. */
  function UploadRows(records: seq<map<string, string>>): Upload
  {
    if records == [] then UploadFailed(NoData) else MapRecords(records, 0)
  }

  predicate AllComplete(records: seq<map<string, string>>)
  {
    forall i :: 0 <= i < |records| ==> Complete(records[i])
  }

  /** Record `i` is the first incomplete one. */
  predicate FirstIncomplete(records: seq<map<string, string>>, i: int)
  {
    0 <= i < |records| && !Complete(records[i]) && forall j :: 0 <= j < i ==> Complete(records[j])
  }

  /** Mapping succeeds exactly when every record is complete. */
  lemma {:induction false} MapRecordsSuccess(records: seq<map<string, string>>, start: nat)
    ensures MapRecords(records, start).Uploaded? <==> AllComplete(records)
    decreases |records|
  {
    if records != [] {
      MapRecordsSuccess(records[1..], start + 1);
      if Complete(records[0]) {
        assert forall i :: 1 <= i < |records| ==> records[i] == records[1..][i - 1];
        if AllComplete(records[1..]) {
          assert AllComplete(records);
        } else {
          var i :| 0 <= i < |records| - 1 && !Complete(records[1..][i]);
          assert !Complete(records[i + 1]);
        }
      }
    }
  }

  /** A successful mapping maps each record, in order. */
  lemma {:induction false} MapRecordsRows(records: seq<map<string, string>>, start: nat)
    requires MapRecords(records, start).Uploaded?
    ensures AllComplete(records)
    ensures |MapRecords(records, start).rows| == |records|
    ensures forall i :: 0 <= i < |records| ==> MapRecords(records, start).rows[i] == UploadRow(records[i])
    decreases |records|
  {
    MapRecordsSuccess(records, start);
    if records != [] {
      var rest := MapRecords(records[1..], start + 1);
      MapRecordsRows(records[1..], start + 1);
      assert forall i :: 1 <= i < |records| ==> records[i] == records[1..][i - 1];
    }
  }

  /** A failed mapping names the first incomplete record, numbered from
      `start` + 2, and the fields it lacks. */
  lemma {:induction false} MapRecordsFailure(records: seq<map<string, string>>, start: nat)
    requires MapRecords(records, start).UploadFailed?
    ensures exists i :: (FirstIncomplete(records, i)
      && MapRecords(records, start).error == Missing(start + i + 2, MissingFields(records[i])))
    decreases |records|
  {
    if Complete(records[0]) {
      var rest := MapRecords(records[1..], start + 1);
      MapRecordsFailure(records[1..], start + 1);
      var i :| FirstIncomplete(records[1..], i) && rest.error == Missing(start + 1 + i + 2, MissingFields(records[1..][i]));
      assert records[i + 1] == records[1..][i];
      assert forall j :: 1 <= j < i + 1 ==> records[j] == records[1..][j - 1];
      assert FirstIncomplete(records, i + 1);
    } else {
      assert FirstIncomplete(records, 0);
    }
  }

  /** A row the client uploads always carries the fields it checks, so the
      server never reports them missing; the amount is reported missing
      exactly when its text is not a number. */
  lemma UploadedRowPresence(row: map<string, string>)
    requires Complete(row)
    ensures DateErrors(UploadRow(row).date) != [DATE_MISSING]
    ensures NameErrors(UploadRow(row).name) != [NAME_MISSING]
    ensures AccountErrors(UploadRow(row).account) == []
    ensures CategoryErrors(UploadRow(row).category) != [CATEGORY_MISSING]
    ensures AmountErrors(UploadRow(row).amount) == [AMOUNT_MISSING] <==> ParseNumber(Get(row, "amount")).None?
  {
    var r := UploadRow(row);
    if ParseNumber(Get(row, "amount")).None? {
      assert r.amount == Absent;
    }
  }
}
