/** The spreadsheet upload handler (`upload_excel`) and the collection of
    manual records it replaces. */
module Upload {
  import opened Wrappers
  import opened Text
  import opened Documents

  /** A parsed worksheet: the header row and the data rows, a missing cell
      being `None`. */
  datatype Sheet = Sheet(headers: seq<string>, rows: seq<seq<Option<Cell>>>)

  /** What reading the workbook gives: a sheet, or the parser's error message. */
  datatype Workbook = Parsed(sheet: Sheet) | Unreadable(message: string)

  /** The reply `{"status": "ok", "count": n}`. */
  datatype UploadReply = UploadReply(status: string, count: nat)

  const ServerError: nat := 500

  /** A header with the white space around it cut off and its letters
      lowercased. */
  function NormalizeHeader(h: string): (name: string)
    ensures |name| <= |h|
  {
    Lower(Strip(h))
  }

  lemma LowerKeepsSpace(s: string)
    ensures forall i :: 0 <= i < |s| ==> (IsSpace(Lower(s)[i]) <==> IsSpace(s[i]))
  {
  }

  lemma {:induction false} StripUnchanged(s: string)
    requires s == [] || (!IsSpace(s[0]) && !IsSpace(s[|s| - 1]))
    ensures Strip(s) == s
  {
    assert TrimStart(s) == s;
  }

  /** A normalised header has no white space at either end and no upper-case
      letter, so normalising it again changes nothing. */
  lemma NormalizeHeaderIdempotent(h: string)
    ensures NormalizeHeader(NormalizeHeader(h)) == NormalizeHeader(h)
    ensures forall i :: 0 <= i < |NormalizeHeader(h)| ==> !('A' <= NormalizeHeader(h)[i] <= 'Z')
  {
    var t := Strip(h);
    StripSpec(h);
    LowerKeepsSpace(t);
    StripUnchanged(Lower(t));
    LowerIdempotent(t);
  }

  /** The column names: every header normalised, in sheet order. */
  function Columns(headers: seq<string>): (cols: seq<string>)
    ensures |cols| == |headers|
    ensures forall i :: 0 <= i < |headers| ==> cols[i] == NormalizeHeader(headers[i])
  {
    seq(|headers|, i requires 0 <= i < |headers| => NormalizeHeader(headers[i]))
  }

  /** A missing cell reads as the empty string. */
  function FillNa(c: Option<Cell>): Cell
  {
    c.GetOr(Str(""))
  }

  /** One row as a dictionary: column `i` maps to cell `i`, columns taken
      left to right, so a later column with the same name overwrites an
      earlier one. */
  function RowDocument(columns: seq<string>, cells: seq<Option<Cell>>): (doc: Document)
    ensures |doc| <= Min(|columns|, |cells|)
    ensures Min(|columns|, |cells|) > 0 ==> columns[Min(|columns|, |cells|) - 1] in doc
    decreases |columns|
  {
    var n := Min(|columns|, |cells|);
    if n == 0 then map[]
    else RowDocument(columns[..n - 1], cells[..n - 1])[columns[n - 1] := FillNa(cells[n - 1])]
  }

  /** Column `i` is the last of the first `n` with its name. */
  predicate LastNamed(columns: seq<string>, n: nat, i: nat)
    requires i < n <= |columns|
  {
    forall j :: i < j < n ==> columns[j] != columns[i]
  }

  /** The keys of a row's dictionary are exactly the names of the columns
      the row has. */
  lemma {:induction false} RowDocumentKeys(columns: seq<string>, cells: seq<Option<Cell>>, k: string)
    ensures k in RowDocument(columns, cells) <==> k in columns[..Min(|columns|, |cells|)]
    decreases |columns|
  {
    var n := Min(|columns|, |cells|);
    if n > 0 {
      var cs := columns[..n - 1];
      RowDocumentKeys(cs, cells[..n - 1], k);
      assert columns[..n] == cs + [columns[n - 1]];
      assert cs[..n - 1] == cs;
    }
  }

  /** Each key holds the cell of the last column with that name. */
  lemma {:induction false} RowDocumentValue(columns: seq<string>, cells: seq<Option<Cell>>, i: nat)
    requires i < Min(|columns|, |cells|) && LastNamed(columns, Min(|columns|, |cells|), i)
    ensures columns[i] in RowDocument(columns, cells)
    ensures RowDocument(columns, cells)[columns[i]] == FillNa(cells[i])
    decreases |columns|
  {
    var n := Min(|columns|, |cells|);
    if i < n - 1 {
      var cs, vs := columns[..n - 1], cells[..n - 1];
      assert columns[n - 1] != columns[i];
      assert LastNamed(cs, n - 1, i);
      RowDocumentValue(cs, vs, i);
    }
  }

  /** The rows as dictionaries keyed by the normalised column names, one per
      row, in row order. */
  function SheetDocuments(sheet: Sheet): (docs: seq<Document>)
    ensures |docs| == |sheet.rows|
  {
    var columns := Columns(sheet.headers);
    seq(|sheet.rows|, i requires 0 <= i < |sheet.rows| => RowDocument(columns, sheet.rows[i]))
  }

  /** The keys of row `i`'s dictionary are the column names (the normalised
      headers) of the columns the row has cells for. */
  lemma SheetDocumentKeys(sheet: Sheet, i: nat, k: string)
    requires i < |sheet.rows|
    ensures k in SheetDocuments(sheet)[i] <==> k in Columns(sheet.headers)[..Min(|sheet.headers|, |sheet.rows[i]|)]
  {
    assert SheetDocuments(sheet)[i] == RowDocument(Columns(sheet.headers), sheet.rows[i]);
    RowDocumentKeys(Columns(sheet.headers), sheet.rows[i], k);
  }

  /** In a rectangular sheet, as pandas reads it, every row's dictionary has
      all the column names as its keys, and no other. */
  lemma RectangularSheetKeys(sheet: Sheet, i: nat, k: string)
    requires i < |sheet.rows| && |sheet.rows[i]| == |sheet.headers|
    ensures k in SheetDocuments(sheet)[i] <==> k in Columns(sheet.headers)
  {
    SheetDocumentKeys(sheet, i, k);
    assert Columns(sheet.headers)[..|sheet.headers|] == Columns(sheet.headers);
  }

  /** The collection after an upload of `docs`: replaced by them, unless
      there are none. */
  function AfterUpload(stored: seq<Document>, docs: seq<Document>): (after: seq<Document>)
    ensures docs != [] ==> after == docs
    ensures after == [] <==> stored == [] && docs == []
  {
    if docs == [] then stored else docs
  }

  /** Repeating an upload leaves the collection as the first one left it. */
  lemma UploadIdempotent(stored: seq<Document>, sheet: Sheet)
    ensures var docs := SheetDocuments(sheet);
            AfterUpload(AfterUpload(stored, docs), docs) == AfterUpload(stored, docs)
    ensures |sheet.rows| > 0 ==> AfterUpload(stored, SheetDocuments(sheet)) == SheetDocuments(sheet)
    ensures |sheet.rows| == 0 ==> AfterUpload(stored, SheetDocuments(sheet)) == stored
  {
  }

  /** The `manual_data` collection. */
  class ManualStore {
    var documents: seq<Document>

    constructor ()
      ensures documents == []
    {
      documents := [];
    }

    /** `upload_excel`: a readable sheet with rows replaces the whole
        collection; an empty sheet leaves it as it was; a read failure is
        reported with status 500. */
    method UploadExcel(workbook: Workbook) returns (r: Result<UploadReply>)
      modifies this
      ensures workbook.Unreadable? ==> r == Err(ServerError, workbook.message) && documents == old(documents)
      ensures workbook.Parsed? ==>
                && r == Ok(UploadReply("ok", |workbook.sheet.rows|))
                && documents == AfterUpload(old(documents), SheetDocuments(workbook.sheet))
    {
      if workbook.Unreadable? {
        return Err(ServerError, workbook.message);
      }
      var records := SheetDocuments(workbook.sheet);
      if |records| > 0 {
        documents := [];
        documents := documents + records;
      }
      r := Ok(UploadReply("ok", |records|));
    }
  }

  /** Uploading the same workbook twice leaves the same collection and reply. */
  method UploadTwice(store: ManualStore, workbook: Workbook) returns (first: Result<UploadReply>, second: Result<UploadReply>)
    modifies store
    ensures first == second
    ensures workbook.Parsed? ==> store.documents == AfterUpload(old(store.documents), SheetDocuments(workbook.sheet))
    ensures workbook.Unreadable? ==> store.documents == old(store.documents)
  {
    first := store.UploadExcel(workbook);
    second := store.UploadExcel(workbook);
  }
}
