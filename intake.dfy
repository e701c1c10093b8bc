/**
 * The steps both analysis pipelines take before any scoring, in the same order in
 * `analyzeExcelContent` of server/index.js and of restructure/server/services/excel.js:
 * the file checks, the blank-query check, the keyword scan (at most 100 rows), the text
 * to analyze, the short-content check, whitespace normalisation and the snippet.
 */
module Intake {
  import opened Wrappers
  import opened JsString
  import opened Spreadsheet
  import opened KeywordMatch
  import opened Sampling
  import opened Snippet

  /** `MAX_MATCHED_LINES` */
  const MaxMatchedLines: nat := 100

  /** Where the steps end: an error, or the scan and the snippet to send. */
  datatype Prepared = Stopped(error: string) | Ready(scan: ScanResult, snippet: string)

  /** The text analyzed: the matched rows joined with blank lines, or the workbook sample. */
  function AnalysisText(book: Workbook, matched: seq<MatchedLine>): string {
    if |matched| > 0 then MatchedText(matched) else BookSample([], book, 0)
  }

  /** What the steps produce for a file, a query and a snippet budget. */
  function Preparation(toLower: CaseMap, file: FileRead, query: string, budget: nat): (r: Prepared)
    ensures r.Ready? ==> file.Readable? && file.book != [] && Trim(query) != []
    ensures r.Ready? ==> |r.snippet| <= budget && |r.scan.matched| <= MaxMatchedLines
  {
    match file
    case Missing => Stopped("文件未找到")
    case Unreadable => Stopped("无法读取Excel文件")
    case Readable(book) =>
      if book == [] then Stopped("Excel文件没有工作表")
      else if Trim(query) == [] then Stopped("搜索内容为空")
      else
        var s := Scanned(toLower, toLower(query), book, MaxMatchedLines);
        var text := AnalysisText(book, s.matched);
        if |text| < MinTextLength then Stopped("Excel文件内容不足")
        else Ready(s, Snippet.Snippet(toLower, query, Normalize(text), s.matched, budget))
  }

  /** The steps, in the order the pipelines take them. */
  method Prepare(toLower: CaseMap, file: FileRead, query: string, budget: nat) returns (p: Prepared)
    ensures p == Preparation(toLower, file, query, budget)
  {
    if file.Missing? {
      return Stopped("文件未找到");
    }
    if file.Unreadable? {
      return Stopped("无法读取Excel文件");
    }
    var book := file.book;
    if |book| == 0 {
      return Stopped("Excel文件没有工作表");
    }
    if Trim(query) == [] {
      return Stopped("搜索内容为空");
    }
    var s := Scan(toLower, toLower(query), book, MaxMatchedLines);
    var text;
    if |s.matched| > 0 {
      text := MatchedText(s.matched);
    } else {
      text := SampleWorkbook(book);
    }
    if |text| < MinTextLength {
      return Stopped("Excel文件内容不足");
    }
    text := Normalize(text);
    var snippet := BuildSnippet(toLower, query, text, s.matched, budget);
    return Ready(s, snippet);
  }

  // ---------------------------------------------------------------- properties

  /**
   * The checks come in source order, each error only when every earlier check passed,
   * and the scan runs only for a readable workbook with sheets and a non-blank query.
   */
  lemma PreparationStops(toLower: CaseMap, file: FileRead, query: string, budget: nat)
    ensures var p := Preparation(toLower, file, query, budget);
      && (p == Stopped("文件未找到") <==> file.Missing?)
      && (p == Stopped("无法读取Excel文件") <==> file.Unreadable?)
      && (p == Stopped("Excel文件没有工作表") <==> file.Readable? && file.book == [])
      && (p == Stopped("搜索内容为空") <==> file.Readable? && file.book != [] && Trim(query) == [])
      && (p.Ready? ==> file.Readable? && file.book != [] && Trim(query) != [])
  {
  }

  /** A snippet is ready only for text of at least 10 characters; it is the scan's and it fits the budget. */
  lemma PreparationReady(toLower: CaseMap, file: FileRead, query: string, budget: nat)
    requires Preparation(toLower, file, query, budget).Ready?
    ensures var p := Preparation(toLower, file, query, budget);
      && p.scan == Scanned(toLower, toLower(query), file.book, MaxMatchedLines)
      && |AnalysisText(file.book, p.scan.matched)| >= MinTextLength
      && |p.snippet| <= budget
      && |p.scan.matched| <= MaxMatchedLines
      && (forall k :: 0 <= k < |p.scan.matched| ==> Contains(toLower(p.scan.matched[k].content), toLower(query)))
  {
    var s := Scanned(toLower, toLower(query), file.book, MaxMatchedLines);
    ScannedBounds(toLower, toLower(query), file.book, MaxMatchedLines);
    ScannedContainQuery(toLower, toLower(query), file.book, MaxMatchedLines);
  }

  /**
   * The scan's rows all contain the query, so ranking them changes nothing, and a text
   * over budget with matches is cut to its first 500 characters and the rows in scan order.
   */
  lemma ScanRanking(toLower: CaseMap, query: string, book: Workbook, text: string, budget: nat)
    requires |text| > budget >= 1500
    ensures var s := Scanned(toLower, toLower(query), book, MaxMatchedLines);
      && Ranked(toLower, query, s.matched) == s.matched
      && (|s.matched| > 0 ==>
            Snippet.Snippet(toLower, query, text, s.matched, budget) == text[..IntroLength] + "\n\n" + Important(s.matched, []))
  {
    var s := Scanned(toLower, toLower(query), book, MaxMatchedLines);
    ScannedContainQuery(toLower, toLower(query), book, MaxMatchedLines);
    RankedIdentity(toLower, query, s.matched);
    if |s.matched| > 0 {
      MatchedSnippet(toLower, query, text, s.matched, budget);
    }
  }
}
