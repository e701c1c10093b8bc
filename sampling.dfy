/**
 * The text sample taken from a workbook when no row matched the query: a header per
 * sheet, the non-blank rows among its first 15, a note when the running text passes
 * 3000 characters inside a sheet, and a stop (with a count of the sheets not shown)
 * once a sheet leaves the running text above 4000 characters. Both pipelines sample
 * with the same code.
 */
module Sampling {
  import opened Wrappers
  import opened JsString
  import opened Spreadsheet

  /** `jsonData.slice(0, 15)` */
  const SampleRowLimit: nat := 15
  /** Inside a sheet, sampling stops once the text is longer than this. */
  const SheetTextLimit: nat := 3000
  /** Sampling stops after a sheet that leaves the text longer than this. */
  const TotalTextLimit: nat := 4000

  function Header(name: string): string {
    "【工作表: " + name + "】\n"
  }

  function MoreRowsNote(name: string): string {
    "[...工作表" + name + "包含更多内容...]\n"
  }

  function MoreSheetsNote(n: nat): string {
    "[...文档还包含" + NatToString(n) + "个工作表未显示...]\n"
  }

  /** The non-empty cells of a row, as text, joined with " | ". */
  function RowSample(row: Row): string {
    Join(SampleCells(row), " | ")
  }

  /** The rows that are sampled: the first 15, or all of them when there are fewer. */
  function FirstRows(rows: seq<Row>): (r: seq<Row>)
    ensures |r| == if |rows| < SampleRowLimit then |rows| else SampleRowLimit
    ensures r == rows[..|r|]
  {
    if |rows| <= SampleRowLimit then rows else rows[..SampleRowLimit]
  }

  /** The text after one non-empty row: its sample and a line break, unless the sample is blank. */
  function RowStep(text: string, row: Row): (t: string)
    ensures |text| <= |t| <= |text| + |RowSample(row)| + 1
  {
    var r := RowSample(row);
    if Trim(r) != [] then text + r + "\n" else text
  }

  /**
   * The text after sampling `rows[k..]` onto `text`: an empty row is passed over, a
   * row whose sample is blank adds nothing, any other row adds its sample and a line
   * break; after each non-empty row, a text longer than 3000 characters gets the
   * "more rows" note and ends the sheet.
   */
  function RowsSample(text: string, name: string, rows: seq<Row>, k: nat): string
    requires k <= |rows|
    decreases |rows| - k
  {
    if k == |rows| then text
    else if rows[k] == [] then RowsSample(text, name, rows, k + 1)
    else
      var t := RowStep(text, rows[k]);
      if |t| > SheetTextLimit then t + MoreRowsNote(name) else RowsSample(t, name, rows, k + 1)
  }

  /** The text after one sheet: its header, its sampled rows and a blank line. */
  function SheetSample(text: string, name: string, rows: seq<Row>): string {
    RowsSample(text + Header(name), name, FirstRows(rows), 0) + "\n"
  }

  /** `SheetNames.slice(SheetNames.indexOf(name) + 1).length` */
  function UnseenSheets(book: Workbook, name: string): nat
    requires name in Names(book)
  {
    |book| - (IndexOf(Names(book), name) + 1)
  }

  /**
   * The text after sampling `book[i..]` onto `text`. A sheet without raw rows (missing,
   * or its conversion threw) is passed over; after any other sheet, a text longer than
   * 4000 characters ends the sampling, with a note counting the sheets after it when
   * there are any.
   */
  function BookSample(text: string, book: Workbook, i: nat): string
    requires i <= |book|
    decreases |book| - i
  {
    if i == |book| then text
    else
      match book[i].raw
      case None => BookSample(text, book, i + 1)
      case Some(rows) =>
        assert Names(book)[i] == book[i].name;
        var t := SheetSample(text, book[i].name, rows);
        if |t| > TotalTextLimit then
          var n := UnseenSheets(book, book[i].name);
          t + (if n > 0 then MoreSheetsNote(n) else [])
        else BookSample(t, book, i + 1)
  }

  /** The body of the row loop for a non-empty row. */
  method SampleRow(text: string, row: Row) returns (t: string)
    ensures t == RowStep(text, row)
  {
    t := text;
    var rowText := Join(SampleCells(row), " | ");
    if Trim(rowText) != [] {
      t := t + rowText + "\n";
    }
  }

  /** The body of the row loop at row `k`: the text after the row, and whether the
      sheet ends there. */
  method SampleRowAt(t: string, name: string, sample: seq<Row>, k: nat) returns (t': string, stop: bool)
    requires k < |sample|
    ensures stop ==> t' == RowsSample(t, name, sample, k)
    ensures !stop ==> RowsSample(t', name, sample, k + 1) == RowsSample(t, name, sample, k)
  {
    var row := sample[k];
    if |row| > 0 {
      var next := SampleRow(t, row);
      RowsSampleStep(t, name, sample, k, next);
      if |next| > SheetTextLimit {
        return next + MoreRowsNote(name), true;
      }
      return next, false;
    }
    RowsSampleSkip(t, name, sample, k);
    return t, false;
  }

  /** The row loop over the first 15 rows of one sheet. */
  method SampleSheetRows(text: string, name: string, rows: seq<Row>) returns (t: string)
    ensures t == RowsSample(text, name, FirstRows(rows), 0)
  {
    var sample := FirstRows(rows);
    ghost var goal := RowsSample(text, name, sample, 0);
    t := text;
    var k := 0;
    while k < |sample|
      invariant 0 <= k <= |sample|
      invariant RowsSample(t, name, sample, k) == goal
    {
      var stop;
      t, stop := SampleRowAt(t, name, sample, k);
      if stop {
        return;
      }
      k := k + 1;
    }
  }

  /** An empty row leaves the text as it is. */
  lemma RowsSampleSkip(text: string, name: string, rows: seq<Row>, k: nat)
    requires k < |rows| && rows[k] == []
    ensures RowsSample(text, name, rows, k) == RowsSample(text, name, rows, k + 1)
  {
  }

  /** A non-empty row takes one `RowStep`, then either ends the sheet with the note or goes on. */
  lemma RowsSampleStep(text: string, name: string, rows: seq<Row>, k: nat, next: string)
    requires k < |rows| && rows[k] != [] && next == RowStep(text, rows[k])
    ensures |next| > SheetTextLimit ==> RowsSample(text, name, rows, k) == next + MoreRowsNote(name)
    ensures |next| <= SheetTextLimit ==> RowsSample(text, name, rows, k) == RowsSample(next, name, rows, k + 1)
  {
  }

  /** The sheet loop of the no-match path: the sample handed on for analysis. */
  method SampleWorkbook(book: Workbook) returns (text: string)
    ensures text == BookSample([], book, 0)
  {
    ghost var goal := BookSample([], book, 0);
    text := [];
    var i := 0;
    while i < |book|
      invariant 0 <= i <= |book|
      invariant BookSample(text, book, i) == goal
    {
      var sheet := book[i];
      if sheet.raw.Some? {
        text := text + Header(sheet.name);
        text := SampleSheetRows(text, sheet.name, sheet.raw.value);
        text := text + "\n";
        if |text| > TotalTextLimit {
          var names := Names(book);
          assert names[i] == sheet.name;
          var remaining := |names[IndexOf(names, sheet.name) + 1..]|;
          if remaining > 0 {
            text := text + MoreSheetsNote(remaining);
          }
          return;
        }
      }
      i := i + 1;
    }
  }

  /** Sampling only appends: the text it starts from is a prefix of the result. */
  lemma {:induction false} RowsSampleExtends(text: string, name: string, rows: seq<Row>, k: nat)
    requires k <= |rows|
    ensures text <= RowsSample(text, name, rows, k)
    decreases |rows| - k
  {
    if k < |rows| {
      var t := RowStep(text, rows[k]);
      assert text <= t;
      if rows[k] == [] {
        RowsSampleExtends(text, name, rows, k + 1);
      } else if |t| <= SheetTextLimit {
        RowsSampleExtends(t, name, rows, k + 1);
        PrefixTransitive(text, t, RowsSample(t, name, rows, k + 1));
      } else {
        PrefixTransitive(text, t, t + MoreRowsNote(name));
      }
    }
  }

  /**
   * A sheet stops growing soon after the text passes 3000 characters: starting at most
   * 3000 long, the text after the rows is at most one row sample, one line break and
   * the note longer than 3000.
   */
  lemma {:induction false} RowsSampleBound(text: string, name: string, rows: seq<Row>, k: nat, m: nat)
    requires k <= |rows| && |text| <= SheetTextLimit
    requires forall j :: k <= j < |rows| ==> |RowSample(rows[j])| <= m
    ensures |RowsSample(text, name, rows, k)| <= SheetTextLimit + m + 1 + |MoreRowsNote(name)|
    decreases |rows| - k
  {
    if k < |rows| {
      if rows[k] == [] {
        RowsSampleBound(text, name, rows, k + 1, m);
      } else {
        var t := RowStep(text, rows[k]);
        assert |t| <= SheetTextLimit + m + 1;
        if |t| <= SheetTextLimit {
          RowsSampleBound(t, name, rows, k + 1, m);
        } else {
          assert RowsSample(text, name, rows, k) == t + MoreRowsNote(name);
        }
      }
    }
  }

  lemma PrefixTransitive(a: string, b: string, c: string)
    requires a <= b && b <= c
    ensures a <= c
  {
    assert b[..|a|] == c[..|b|][..|a|];
  }

  /** A sheet's sample begins with the text before it and the sheet's header. */
  lemma SheetSampleHeader(text: string, name: string, rows: seq<Row>)
    ensures text + Header(name) <= SheetSample(text, name, rows)
    ensures text <= SheetSample(text, name, rows) && |SheetSample(text, name, rows)| > |text|
  {
    var h := text + Header(name);
    var s := RowsSample(h, name, FirstRows(rows), 0);
    RowsSampleExtends(h, name, FirstRows(rows), 0);
    PrefixTransitive(h, s, s + "\n");
    PrefixTransitive(text, h, s + "\n");
  }

  /** Sampling a workbook only appends to the text it starts from. */
  lemma {:induction false} BookSampleExtends(text: string, book: Workbook, i: nat)
    requires i <= |book|
    ensures text <= BookSample(text, book, i)
    decreases |book| - i
  {
    if i < |book| {
      match book[i].raw
      case None =>
        BookSampleExtends(text, book, i + 1);
        assert BookSample(text, book, i) == BookSample(text, book, i + 1);
      case Some(rows) =>
        var t := SheetSample(text, book[i].name, rows);
        SheetSampleHeader(text, book[i].name, rows);
        if |t| <= TotalTextLimit {
          BookSampleExtends(t, book, i + 1);
          assert BookSample(text, book, i) == BookSample(t, book, i + 1);
          PrefixTransitive(text, t, BookSample(t, book, i + 1));
        } else {
          assert Names(book)[i] == book[i].name;
          var n := UnseenSheets(book, book[i].name);
          assert BookSample(text, book, i) == t + (if n > 0 then MoreSheetsNote(n) else []);
          PrefixTransitive(text, t, t + (if n > 0 then MoreSheetsNote(n) else []));
        }
    }
  }

  /** The first sheet that has rows puts its header right after the text sampled so far. */
  lemma {:induction false} BookSampleHeader(text: string, book: Workbook, i: nat)
    requires i < |book| && book[i].raw.Some?
    ensures text + Header(book[i].name) <= BookSample(text, book, i)
  {
    var t := SheetSample(text, book[i].name, book[i].raw.value);
    SheetSampleHeader(text, book[i].name, book[i].raw.value);
    BookSampleExtends(t, book, i + 1);
    assert Names(book)[i] == book[i].name;
    var n := UnseenSheets(book, book[i].name);
    assert t <= BookSample(text, book, i) by {
      if |t| <= TotalTextLimit {
        assert BookSample(text, book, i) == BookSample(t, book, i + 1);
      } else {
        assert BookSample(text, book, i) == t + (if n > 0 then MoreSheetsNote(n) else []);
      }
    }
    PrefixTransitive(text + Header(book[i].name), t, BookSample(text, book, i));
  }

  /** Sampling adds nothing exactly when no sheet from `i` on has raw rows. */
  lemma {:induction false} BookSampleUnchangedIff(text: string, book: Workbook, i: nat)
    requires i <= |book|
    ensures BookSample(text, book, i) == text <==> forall j :: i <= j < |book| ==> book[j].raw.None?
    decreases |book| - i
  {
    if i < |book| {
      match book[i].raw
      case None =>
        BookSampleUnchangedIff(text, book, i + 1);
      case Some(rows) =>
        BookSampleHeader(text, book, i);
    }
  }

  /** In a workbook whose sheet names are distinct, the note counts exactly the sheets after the current one. */
  lemma UnseenSheetsDistinct(book: Workbook, i: nat)
    requires i < |book| && Distinct(Names(book))
    ensures book[i].name in Names(book)
    ensures UnseenSheets(book, book[i].name) == |book| - i - 1
  {
    var names := Names(book);
    assert names[i] == book[i].name;
    IndexOfDistinct(names, i);
  }
}
