/**
 * The workbook as the spreadsheet reader hands it to the analysis code. Reading the
 * file and converting a worksheet to rows happen outside the model: their results
 * are the inputs described here.
 */
module Spreadsheet {
  import opened Wrappers
  import opened JsString

  /** A cell value of a row array. */
  datatype Cell =
    | Empty                   // null or undefined
    | Scalar(shown: string)   // a string, number or boolean, carrying `String(value)`
    | Date(iso: string)       // a Date, carrying `value.toISOString()`
    | Object(json: string)    // any other object, carrying `JSON.stringify(value)`

  type Row = seq<Cell>

  /**
   * One entry of `SheetNames` with its worksheet converted twice: `formatted` is the
   * row list for keyword matching (formatted text, empty cells as ''), `raw` the row
   * list for sampling. Either is `None` when the worksheet is missing or the
   * conversion throws; both conversions are skipped over in that case.
   */
  datatype Sheet = Sheet(name: string, formatted: Option<seq<Row>>, raw: Option<seq<Row>>)

  type Workbook = seq<Sheet>

  /** The outcome of checking for the file and reading it. */
  datatype FileRead = Missing | Unreadable | Readable(book: Workbook)

  /** `iso.split('T')[0]`: the calendar date of an ISO timestamp, the text up to its first `T` or all of it. */
  function DatePart(iso: string): (d: string)
    ensures 'T' !in d && d <= iso
    ensures d == iso || (|d| < |iso| && iso[|d|] == 'T')
  {
    if iso == [] || iso[0] == 'T' then [] else [iso[0]] + DatePart(iso[1..])
  }

  /** The text of a cell when it is matched against the query (null becomes ''). */
  function MatchText(c: Cell): string {
    match c
    case Empty => []
    case Scalar(s) => s
    case Date(iso) => DatePart(iso)
    case Object(j) => j
  }

  /** `row.map(...)`: one text per cell, in order. */
  function MatchCells(row: Row): (cells: seq<string>)
    ensures |cells| == |row|
    ensures forall k :: 0 <= k < |row| ==> cells[k] == MatchText(row[k])
  {
    if row == [] then [] else [MatchText(row[0])] + MatchCells(row[1..])
  }

  /** `row.filter(cell => cell !== null && cell !== undefined)`: the non-empty cells, in order. */
  function NonNull(row: Row): (r: Row)
    ensures |r| <= |row|
    ensures forall c :: c in r ==> c in row && c != Empty
    ensures forall c :: c in row && c != Empty ==> c in r
    ensures (forall i :: 0 <= i < |row| ==> row[i] != Empty) ==> r == row
  {
    if row == [] then []
    else if row[0] == Empty then NonNull(row[1..])
    else [row[0]] + NonNull(row[1..])
  }

  /** The filter keeps the order and the number of the cells it keeps: it distributes over concatenation, drops a lone null cell and keeps any other. */
  lemma {:induction false} NonNullAppend(a: Row, b: Row)
    ensures NonNull(a + b) == NonNull(a) + NonNull(b)
    ensures NonNull([Empty]) == []
    ensures forall c :: c != Empty ==> NonNull([c]) == [c]
  {
    if a != [] {
      NonNullAppend(a[1..], b);
      assert (a + b)[1..] == a[1..] + b;
    } else {
      assert a + b == b;
    }
    forall c | c != Empty ensures NonNull([c]) == [c] {
      assert [c][1..] == [];
    }
  }

  /** `row.filter(cell => cell != null).map(...)`: the texts of the non-empty cells, in order. */
  function SampleCells(row: Row): (cells: seq<string>)
    ensures |cells| <= |row|
    ensures (forall i :: 0 <= i < |row| ==> row[i] != Empty) ==> |cells| == |row|
    ensures cells == MatchCells(NonNull(row))
  {
    if row == [] then []
    else if row[0] == Empty then SampleCells(row[1..])
    else [MatchText(row[0])] + SampleCells(row[1..])
  }

  /** `workbook.SheetNames` */
  function Names(book: Workbook): (names: seq<string>)
    ensures |names| == |book|
    ensures forall i :: 0 <= i < |book| ==> names[i] == book[i].name
  {
    if book == [] then [] else [book[0].name] + Names(book[1..])
  }
}
