/**
 * Keyword matching over a workbook with a cap on the number of matched rows, shared
 * by both analysis pipelines (their scan loops are the same code).
 *
 * The specification has two layers. `ScanOf` records, for every row of every sheet
 * with row data, the entry the row contributes when it matches (its candidate). The
 * functions over such a record then say what the scan keeps: `AllKept` lists every
 * entry of the first `n` sheets in order, ignoring the cap; the scan keeps the first
 * `cap` of them, records which sheets it reached, and raises the "exceeds limit" flag
 * when it reaches a sheet or a row while `cap` rows are already kept.
 */
module KeywordMatch {
  import opened Wrappers
  import opened JsString
  import opened JsNumber
  import opened Spreadsheet

  /** An entry of `matchedLines`: sheet name, 1-based row number, joined text and cell texts. */
  datatype MatchedLine = MatchedLine(sheet: string, row: nat, content: string, cells: seq<string>)

  /** An entry of `sheets`: a sheet the scan converted, with its number of rows. */
  datatype SheetInfo = SheetInfo(name: string, rowCount: nat)

  /** `filteredRow.join(' ')` */
  function RowText(row: Row): string {
    Join(MatchCells(row), " ")
  }

  /** A row is reported when it is not empty and its lower-cased text contains `q`,
      the lower-cased query. */
  predicate RowMatches(toLower: CaseMap, q: string, row: Row) {
    row != [] && Contains(toLower(RowText(row)), q)
  }

  /** The entry recorded for the row at 0-based index `k`. */
  function LineOf(name: string, k: nat, row: Row): MatchedLine {
    MatchedLine(name, k + 1, RowText(row), MatchCells(row))
  }

  // ---------------------------------------------------------------- candidates

  /** The entry a row contributes, if it matches. */
  function Candidate(toLower: CaseMap, q: string, name: string, k: nat, row: Row): Option<MatchedLine> {
    if RowMatches(toLower, q, row) then Some(LineOf(name, k, row)) else None
  }

  /** The candidates of the rows of one sheet, in order. */
  function RowCandidates(toLower: CaseMap, q: string, name: string, rows: seq<Row>): (cs: seq<Option<MatchedLine>>)
    ensures |cs| == |rows|
  {
    if rows == [] then []
    else RowCandidates(toLower, q, name, rows[..|rows| - 1]) + [Candidate(toLower, q, name, |rows| - 1, rows[|rows| - 1])]
  }

  /** A sheet's name with its row candidates, or `None` when it has no row data. */
  datatype SheetScan = SheetScan(name: string, rows: Option<seq<Option<MatchedLine>>>)

  function SheetScanOf(toLower: CaseMap, q: string, s: Sheet): SheetScan {
    SheetScan(s.name, if s.formatted.Some? then Some(RowCandidates(toLower, q, s.name, s.formatted.value)) else None)
  }

  function ScanOf(toLower: CaseMap, q: string, book: Workbook): (sc: seq<SheetScan>)
    ensures |sc| == |book|
  {
    if book == [] then [] else ScanOf(toLower, q, book[..|book| - 1]) + [SheetScanOf(toLower, q, book[|book| - 1])]
  }

  /** The candidate of row `k` is the one `Candidate` gives for it. */
  lemma {:induction false} RowCandidatesAt(toLower: CaseMap, q: string, name: string, rows: seq<Row>, k: nat)
    requires k < |rows|
    ensures RowCandidates(toLower, q, name, rows)[k] == Candidate(toLower, q, name, k, rows[k])
    decreases |rows|
  {
    if k < |rows| - 1 {
      RowCandidatesAt(toLower, q, name, rows[..|rows| - 1], k);
    }
  }

  /** The record of sheet `i` is the one `SheetScanOf` gives for it. */
  lemma {:induction false} ScanOfAt(toLower: CaseMap, q: string, book: Workbook, i: nat)
    requires i < |book|
    ensures ScanOf(toLower, q, book)[i] == SheetScanOf(toLower, q, book[i])
    decreases |book|
  {
    if i < |book| - 1 {
      ScanOfAt(toLower, q, book[..|book| - 1], i);
    }
  }

  // ---------------------------------------------------------------- what the scan keeps

  /** The entries among the first `n` candidates, in order. */
  function Kept(cs: seq<Option<MatchedLine>>, n: nat): (ms: seq<MatchedLine>)
    requires n <= |cs|
    ensures |ms| <= n
  {
    if n == 0 then [] else Kept(cs, n - 1) + (if cs[n - 1].Some? then [cs[n - 1].value] else [])
  }

  function SheetKept(s: SheetScan): seq<MatchedLine> {
    if s.rows.Some? then Kept(s.rows.value, |s.rows.value|) else []
  }

  /** Every entry of the first `n` sheets, sheet by sheet, ignoring the cap. */
  function AllKept(sc: seq<SheetScan>, n: nat): seq<MatchedLine>
    requires n <= |sc|
  {
    if n == 0 then [] else AllKept(sc, n - 1) + SheetKept(sc[n - 1])
  }

  /** The first `n` elements (all of them when there are fewer). */
  function Take<T>(s: seq<T>, n: nat): (r: seq<T>)
    ensures |r| == if |s| <= n then |s| else n
  {
    if |s| <= n then s else s[..n]
  }

  /** The number of entries found before the scan's last check of the cap among the
      first `n` sheets: the check before the last row of sheet `n - 1`, or before that
      sheet itself when it has no rows to look at. */
  function BeforeLastCheck(sc: seq<SheetScan>, n: nat): nat
    requires 0 < n <= |sc|
  {
    var last := sc[n - 1];
    |AllKept(sc, n - 1)|
    + (if last.rows.Some? && last.rows.value != [] then |Kept(last.rows.value, |last.rows.value| - 1)| else 0)
  }

  /** `matchCountExceedsLimit` after the first `n` sheets: some check of the cap found
      `cap` rows already kept. */
  predicate Exceeds(sc: seq<SheetScan>, n: nat, cap: nat)
    requires n <= |sc|
  {
    n > 0 && BeforeLastCheck(sc, n) >= cap
  }

  /** The entries pushed to `sheets` from sheet `from` on: the scan records every sheet with
      row data that it reaches, with its row count, and stops at the first sheet it reaches with `cap` rows kept. */
  function Visited(sc: seq<SheetScan>, from: nat, cap: nat): seq<SheetInfo>
    requires from <= |sc|
    decreases |sc| - from
  {
    if from == |sc| || |AllKept(sc, from)| >= cap then []
    else (if sc[from].rows.Some? then [SheetInfo(sc[from].name, |sc[from].rows.value|)] else []) + Visited(sc, from + 1, cap)
  }

  /** Every matching row of the workbook in order, ignoring the cap. */
  function AllMatches(toLower: CaseMap, q: string, book: Workbook): seq<MatchedLine> {
    AllKept(ScanOf(toLower, q, book), |book|)
  }

  /** `totalMatches`: the count, followed by '+' when the cap was exceeded. */
  function TotalMatchesText(n: nat, exceeded: bool): (t: string)
    ensures t != [] && (t[|t| - 1] == '+' <==> exceeded)
    ensures exceeded ==> t[..|t| - 1] == NatToString(n)
    ensures !exceeded ==> t == NatToString(n)
  {
    NatToString(n) + (if exceeded then "+" else "")
  }

  // ---------------------------------------------------------------- the scan

  /** The body of the row loop: a non-empty row is converted to cell texts, joined with
      single spaces and lower-cased; it is recorded when the query occurs in that text. */
  method MatchRow(toLower: CaseMap, q: string, name: string, ri: nat, row: Row) returns (line: Option<MatchedLine>)
    ensures line == Candidate(toLower, q, name, ri, row)
    ensures line.Some? <==> row != [] && Contains(toLower(RowText(row)), q)
    ensures line.Some? ==> line.value.sheet == name && line.value.row == ri + 1 && line.value.cells == MatchCells(row)
  {
    line := None;
    if row != [] {
      var cells := MatchCells(row);
      var text := Join(cells, " ");
      if Contains(toLower(text), q) {
        line := Some(MatchedLine(name, ri + 1, text, cells));
      }
    }
  }

  /** The row loop of one sheet. It starts with fewer than `cap` rows kept (the sheet
      loop has just checked that) and stops at the first row it reaches with `cap` rows kept. */
  method ScanRows(toLower: CaseMap, q: string, name: string, rows: seq<Row>, matched: seq<MatchedLine>, cap: nat)
    returns (found: seq<MatchedLine>, stopped: bool)
    requires |matched| < cap
    ensures var cs := RowCandidates(toLower, q, name, rows);
      && found == Take(matched + Kept(cs, |cs|), cap)
      && (!stopped ==> found == matched + Kept(cs, |cs|))
      && (stopped <==> cs != [] && |matched| + |Kept(cs, |cs| - 1)| >= cap)
      && (stopped ==> |found| == cap)
  {
    ghost var cs := RowCandidates(toLower, q, name, rows);
    found := matched;
    stopped := false;
    var ri := 0;
    while ri < |rows|
      invariant 0 <= ri <= |rows|
      invariant found == matched + Kept(cs, ri)
      invariant |found| <= cap
      invariant ri > 0 ==> |matched| + |Kept(cs, ri - 1)| < cap
    {
      if |found| >= cap {
        stopped := true;
        StoppedAt(cs, matched, ri, cap);
        break;
      }
      var line := MatchRow(toLower, q, name, ri, rows[ri]);
      KeptStep(cs, matched, ri);
      RowCandidatesAt(toLower, q, name, rows, ri);
      if line.Some? {
        found := found + [line.value];
      }
      ri := ri + 1;
    }
    if !stopped {
      TakeAll(found, cap);
    }
  }

  /** The body of the sheet loop for sheet `si`, reached with fewer than `cap` rows kept:
      a sheet without row data is skipped; otherwise it is recorded and its rows scanned. */
  method ScanSheet(toLower: CaseMap, q: string, sheet: Sheet, matched: seq<MatchedLine>, sheets: seq<SheetInfo>, cap: nat,
                   ghost sc: seq<SheetScan>, ghost si: nat)
    returns (matched': seq<MatchedLine>, sheets': seq<SheetInfo>, exceeded: bool)
    requires si < |sc| && sc[si] == SheetScanOf(toLower, q, sheet)
    requires matched == AllKept(sc, si) && |matched| < cap
    ensures matched' == Take(AllKept(sc, si + 1), cap)
    ensures sheets' + Visited(sc, si + 1, cap) == sheets + Visited(sc, si, cap)
    ensures exceeded == Exceeds(sc, si + 1, cap)
    ensures exceeded ==> |matched'| >= cap
    ensures !exceeded ==> matched' == AllKept(sc, si + 1)
  {
    if sheet.formatted.None? {
      SkippedSheet(sc, si, cap);
      return matched, sheets, false;
    }
    var rows := sheet.formatted.value;
    ghost var cs := RowCandidates(toLower, q, sheet.name, rows);
    var found, stopped := ScanRows(toLower, q, sheet.name, rows, matched, cap);
    ScannedSheet(sc, si, cap, cs, found, stopped);
    RecordedSheet(sc, si, cap, cs, sheets);
    matched' := found;
    sheets' := sheets + [SheetInfo(sheet.name, |rows|)];
    exceeded := stopped;
  }

  /** The sheet loop of both pipelines' scan. */
  method ScanWorkbook(toLower: CaseMap, q: string, book: Workbook, cap: nat)
    returns (matched: seq<MatchedLine>, sheets: seq<SheetInfo>, exceeded: bool)
    ensures var sc := ScanOf(toLower, q, book);
      && matched == Take(AllKept(sc, |sc|), cap)
      && sheets == Visited(sc, 0, cap)
      && exceeded == Exceeds(sc, |sc|, cap)
  {
    ghost var sc := ScanOf(toLower, q, book);
    matched := [];
    sheets := [];
    exceeded := false;
    var si := 0;
    while si < |book|
      invariant 0 <= si <= |book|
      invariant matched == Take(AllKept(sc, si), cap)
      invariant sheets + Visited(sc, si, cap) == Visited(sc, 0, cap)
      invariant exceeded == Exceeds(sc, si, cap)
      invariant exceeded ==> |matched| >= cap
      invariant !exceeded ==> matched == AllKept(sc, si)
    {
      if |matched| >= cap {
        exceeded := true;
        CapReached(sc, si, cap);
        break;
      }
      ScanOfAt(toLower, q, book, si);
      matched, sheets, exceeded := ScanSheet(toLower, q, book[si], matched, sheets, cap, sc, si);
      si := si + 1;
    }
    assert sheets + [] == sheets;
  }

  // ---------------------------------------------------------------- lemmas

  /** Taking at least as many elements as there are keeps them all. */
  lemma {:induction false} TakeAll<T>(s: seq<T>, n: nat)
    requires |s| <= n
    ensures Take(s, n) == s
  {
  }

  /** The first `n` elements of a sequence are those of any prefix of it at least `n` long. */
  lemma {:induction false} TakeOfPrefix<T>(a: seq<T>, b: seq<T>, n: nat)
    requires a <= b && n <= |a|
    ensures Take(b, n) == Take(a, n)
  {
  }

  /** The entries of fewer candidates are a prefix of those of more. */
  lemma {:induction false} KeptPrefix(cs: seq<Option<MatchedLine>>, i: nat, j: nat)
    requires i <= j <= |cs|
    ensures Kept(cs, i) <= Kept(cs, j)
    decreases j
  {
    if i < j {
      KeptPrefix(cs, i, j - 1);
    }
  }

  /** The entries of fewer sheets are a prefix of those of more. */
  lemma {:induction false} AllKeptPrefix(sc: seq<SheetScan>, i: nat, j: nat)
    requires i <= j <= |sc|
    ensures AllKept(sc, i) <= AllKept(sc, j)
    decreases j
  {
    if i < j {
      AllKeptPrefix(sc, i, j - 1);
    }
  }

  /** One more candidate adds its entry, if any, at the end. */
  lemma {:induction false} KeptStep(cs: seq<Option<MatchedLine>>, matched: seq<MatchedLine>, ri: nat)
    requires ri < |cs|
    ensures matched + Kept(cs, ri + 1) == matched + Kept(cs, ri) + (if cs[ri].Some? then [cs[ri].value] else [])
  {
    assert Kept(cs, ri + 1) == Kept(cs, ri) + (if cs[ri].Some? then [cs[ri].value] else []);
  }

  /** The row loop's state when the check at row `ri` finds the cap reached is its final state. */
  lemma {:induction false} StoppedAt(cs: seq<Option<MatchedLine>>, matched: seq<MatchedLine>, ri: nat, cap: nat)
    requires ri < |cs|
    requires |matched + Kept(cs, ri)| == cap
    ensures matched + Kept(cs, ri) == Take(matched + Kept(cs, |cs|), cap)
    ensures |matched| + |Kept(cs, |cs| - 1)| >= cap
  {
    KeptPrefix(cs, ri, |cs|);
    assert matched + Kept(cs, ri) <= matched + Kept(cs, |cs|);
    TakeOfPrefix(matched + Kept(cs, ri), matched + Kept(cs, |cs|), cap);
    KeptPrefix(cs, ri, |cs| - 1);
  }

  /** More sheets never hold fewer entries. */
  lemma {:induction false} AllKeptGrow(sc: seq<SheetScan>, i: nat, j: nat)
    requires i <= j <= |sc|
    ensures |AllKept(sc, i)| <= |AllKept(sc, j)|
    decreases j
  {
    if i < j {
      AllKeptGrow(sc, i, j - 1);
    }
  }

  /** A sheet without row data changes nothing but the position. */
  lemma {:induction false} SkippedSheet(sc: seq<SheetScan>, si: nat, cap: nat)
    requires si < |sc| && sc[si].rows.None?
    requires |AllKept(sc, si)| < cap
    ensures AllKept(sc, si + 1) == AllKept(sc, si)
    ensures Visited(sc, si, cap) == Visited(sc, si + 1, cap)
    ensures !Exceeds(sc, si + 1, cap)
  {
    assert AllKept(sc, si + 1) == AllKept(sc, si) + [];
    assert Visited(sc, si, cap) == [] + Visited(sc, si + 1, cap);
  }

  /** The row loop's result on a sheet with row data gives the kept rows and the flag of
      the next state of the sheet loop. */
  lemma {:induction false} ScannedSheet(sc: seq<SheetScan>, si: nat, cap: nat, cs: seq<Option<MatchedLine>>,
                                        found: seq<MatchedLine>, stopped: bool)
    requires si < |sc| && sc[si].rows == Some(cs)
    requires |AllKept(sc, si)| < cap
    requires found == Take(AllKept(sc, si) + Kept(cs, |cs|), cap)
      && (!stopped ==> found == AllKept(sc, si) + Kept(cs, |cs|))
      && (stopped <==> cs != [] && |AllKept(sc, si)| + |Kept(cs, |cs| - 1)| >= cap)
      && (stopped ==> |found| == cap)
    ensures found == Take(AllKept(sc, si + 1), cap)
    ensures stopped == Exceeds(sc, si + 1, cap)
    ensures !stopped ==> found == AllKept(sc, si + 1)
  {
    assert AllKept(sc, si + 1) == AllKept(sc, si) + Kept(cs, |cs|);
  }

  /** A sheet with row data reached with fewer than `cap` rows kept is recorded. */
  lemma {:induction false} RecordedSheet(sc: seq<SheetScan>, si: nat, cap: nat, cs: seq<Option<MatchedLine>>, sheets: seq<SheetInfo>)
    requires si < |sc| && sc[si].rows == Some(cs)
    requires |AllKept(sc, si)| < cap
    ensures sheets + Visited(sc, si, cap) == sheets + [SheetInfo(sc[si].name, |cs|)] + Visited(sc, si + 1, cap)
  {
    var info := SheetInfo(sc[si].name, |cs|);
    assert Visited(sc, si, cap) == [info] + Visited(sc, si + 1, cap);
    assert sheets + ([info] + Visited(sc, si + 1, cap)) == sheets + [info] + Visited(sc, si + 1, cap);
  }

  /** The state of the scan when the check at sheet `si` finds the cap reached is its final state. */
  lemma {:induction false} CapReached(sc: seq<SheetScan>, si: nat, cap: nat)
    requires si < |sc|
    requires |AllKept(sc, si)| >= cap
    ensures Take(AllKept(sc, |sc|), cap) == Take(AllKept(sc, si), cap)
    ensures Visited(sc, si, cap) == []
    ensures Exceeds(sc, |sc|, cap)
  {
    KeptSettled(sc, si, cap);
    LastCheckReached(sc, si, cap);
  }

  /** Later sheets do not change the first `cap` entries once `cap` precede sheet `si`. */
  lemma {:induction false} KeptSettled(sc: seq<SheetScan>, si: nat, cap: nat)
    requires si <= |sc|
    requires |AllKept(sc, si)| >= cap
    ensures Take(AllKept(sc, |sc|), cap) == Take(AllKept(sc, si), cap)
  {
    AllKeptPrefix(sc, si, |sc|);
    TakeOfPrefix(AllKept(sc, si), AllKept(sc, |sc|), cap);
  }

  /** The last check sees at least the entries that precede sheet `si`. */
  lemma {:induction false} LastCheckReached(sc: seq<SheetScan>, si: nat, cap: nat)
    requires si < |sc|
    requires |AllKept(sc, si)| >= cap
    ensures Exceeds(sc, |sc|, cap)
  {
    AllKeptGrow(sc, si, |sc| - 1);
    assert BeforeLastCheck(sc, |sc|) >= |AllKept(sc, |sc| - 1)|;
  }

  /** At most `cap` rows are kept, and the flag relates to the number of matching rows:
      more than `cap` of them raise it, and it is only raised when at least `cap` exist,
      so that exactly `cap` are kept. */
  lemma {:induction false} ExceedsBounds(sc: seq<SheetScan>, cap: nat)
    ensures |Take(AllKept(sc, |sc|), cap)| <= cap
    ensures |AllKept(sc, |sc|)| > cap ==> Exceeds(sc, |sc|, cap)
    ensures Exceeds(sc, |sc|, cap) ==> |AllKept(sc, |sc|)| >= cap && |Take(AllKept(sc, |sc|), cap)| == cap
  {
    if sc != [] {
      LastCheckBounds(sc);
    }
  }

  /** The count at the last check is at most the total, and misses at most the last row. */
  lemma {:induction false} LastCheckBounds(sc: seq<SheetScan>)
    requires sc != []
    ensures BeforeLastCheck(sc, |sc|) <= |AllKept(sc, |sc|)| <= BeforeLastCheck(sc, |sc|) + 1
  {
    var n := |sc|;
    var last := sc[n - 1];
    assert |AllKept(sc, n)| == |AllKept(sc, n - 1)| + |SheetKept(last)|;
    if last.rows.Some? && last.rows.value != [] {
      var cs := last.rows.value;
      assert |Kept(cs, |cs|)| <= |Kept(cs, |cs| - 1)| + 1;
      KeptPrefix(cs, |cs| - 1, |cs|);
    }
  }


  /** The entries among the first `n` candidates are exactly the values present there. */
  lemma {:induction false} KeptIff(cs: seq<Option<MatchedLine>>, n: nat, m: MatchedLine)
    requires n <= |cs|
    ensures m in Kept(cs, n) <==> exists k :: 0 <= k < n && cs[k] == Some(m)
    decreases n
  {
    if n > 0 {
      KeptIff(cs, n - 1, m);
    }
  }

  /** The entries of the first `n` sheets are exactly those of each of them. */
  lemma {:induction false} AllKeptIff(sc: seq<SheetScan>, n: nat, m: MatchedLine)
    requires n <= |sc|
    ensures m in AllKept(sc, n) <==> exists i :: 0 <= i < n && m in SheetKept(sc[i])
    decreases n
  {
    if n > 0 {
      AllKeptIff(sc, n - 1, m);
    }
  }

  /** A row is reported (before the cap applies) exactly when it matches: an entry is in
      `AllMatches` if and only if some sheet with row data has a matching row at 0-based
      index `k` whose entry it is, carrying that sheet's name and row number `k + 1`. */
  lemma {:induction false} RowReportedIff(toLower: CaseMap, q: string, book: Workbook, m: MatchedLine)
    ensures m in AllMatches(toLower, q, book) <==>
      exists i, k :: 0 <= i < |book| && book[i].formatted.Some? && 0 <= k < |book[i].formatted.value|
        && RowMatches(toLower, q, book[i].formatted.value[k])
        && m == LineOf(book[i].name, k, book[i].formatted.value[k])
  {
    var sc := ScanOf(toLower, q, book);
    AllKeptIff(sc, |sc|, m);
    if m in AllMatches(toLower, q, book) {
      var i :| 0 <= i < |book| && m in SheetKept(sc[i]);
      ScanOfAt(toLower, q, book, i);
      var cs := sc[i].rows.value;
      KeptIff(cs, |cs|, m);
      var k :| 0 <= k < |cs| && cs[k] == Some(m);
      RowCandidatesAt(toLower, q, book[i].name, book[i].formatted.value, k);
    } else {
      forall i, k | 0 <= i < |book| && book[i].formatted.Some? && 0 <= k < |book[i].formatted.value|
        && RowMatches(toLower, q, book[i].formatted.value[k])
        ensures m != LineOf(book[i].name, k, book[i].formatted.value[k])
      {
        ScanOfAt(toLower, q, book, i);
        var cs := sc[i].rows.value;
        KeptIff(cs, |cs|, m);
        RowCandidatesAt(toLower, q, book[i].name, book[i].formatted.value, k);
      }
    }
  }

  // ---------------------------------------------------------------- the scan's outcome

  /** What the scan leaves behind: `matchedLines`, the names in `sheets` and `matchCountExceedsLimit`. */
  datatype ScanResult = ScanResult(matched: seq<MatchedLine>, sheets: seq<string>, exceeded: bool)

  /** `sheets.map(s => s.name)` */
  function SheetNames(infos: seq<SheetInfo>): (names: seq<string>)
    ensures |names| == |infos|
    ensures forall k :: 0 <= k < |infos| ==> names[k] == infos[k].name
  {
    if infos == [] then [] else [infos[0].name] + SheetNames(infos[1..])
  }

  /** The scan of `book` for the lower-cased query `q`, keeping at most `cap` rows. */
  function Scanned(toLower: CaseMap, q: string, book: Workbook, cap: nat): (r: ScanResult)
    ensures |r.matched| <= cap
    ensures r.matched <= AllMatches(toLower, q, book)
  {
    var sc := ScanOf(toLower, q, book);
    ScanResult(Take(AllKept(sc, |sc|), cap), SheetNames(Visited(sc, 0, cap)), Exceeds(sc, |sc|, cap))
  }

  /** The scan as the source runs it. */
  method Scan(toLower: CaseMap, q: string, book: Workbook, cap: nat) returns (s: ScanResult)
    ensures s == Scanned(toLower, q, book, cap)
  {
    var matched, sheets, exceeded := ScanWorkbook(toLower, q, book, cap);
    s := ScanResult(matched, SheetNames(sheets), exceeded);
  }

  /**
   * The scan keeps at most `cap` rows, exactly `cap` when the flag is raised, and
   * raises the flag whenever more than `cap` rows match; every row it keeps contains
   * the query in its lower-cased text.
   */
  lemma ScannedBounds(toLower: CaseMap, q: string, book: Workbook, cap: nat)
    ensures var s := Scanned(toLower, q, book, cap);
      && |s.matched| <= cap
      && (s.exceeded ==> |s.matched| == cap)
      && (|AllMatches(toLower, q, book)| > cap ==> s.exceeded)
      && (!s.exceeded ==> s.matched == AllMatches(toLower, q, book))
  {
    var sc := ScanOf(toLower, q, book);
    ExceedsBounds(sc, cap);
    if !Exceeds(sc, |sc|, cap) {
      TakeAll(AllKept(sc, |sc|), cap);
    }
  }

  /** Every row the scan keeps has the query in its lower-cased content. */
  lemma ScannedContainQuery(toLower: CaseMap, q: string, book: Workbook, cap: nat)
    ensures var ms := Scanned(toLower, q, book, cap).matched;
      forall k :: 0 <= k < |ms| ==> Contains(toLower(ms[k].content), q)
  {
    var all := AllMatches(toLower, q, book);
    var ms := Scanned(toLower, q, book, cap).matched;
    assert ms <= all;
    forall k | 0 <= k < |ms| ensures Contains(toLower(ms[k].content), q) {
      var m := ms[k];
      assert m == all[k];
      RowReportedIff(toLower, q, book, m);
    }
  }
}
