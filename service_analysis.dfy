/**
 * The second analysis pipeline, `analyzeExcelContent` of
 * restructure/server/services/excel.js: the same steps up to the snippet (budget 2000,
 * or 3000 for a deep analysis), the same two skip rules, then the AI service's
 * `analyzeContent` and the floor applied to its score. There is no configuration check
 * of its own: the AI service falls back to a default score instead.
 */
module ServiceAnalysis {
  import opened Wrappers
  import opened JsString
  import opened Spreadsheet
  import opened KeywordMatch
  import opened Intake
  import opened Policy
  import opened Http
  import opened Environment
  import opened AiService
  import LegacyAnalysis

  /** `maxContentLength`, times 1.5 for a deep analysis. */
  function SnippetBudget(depth: string): (b: nat)
    ensures b == 2000 || b == 3000
    ensures b == 3000 <==> depth == "deep"
  {
    if depth == "deep" then 3000 else 2000
  }

  /**
   * The steps after the snippet: the skip rules, otherwise the AI service's result with
   * the floor applied; together with the snippet, if a request is made, and the log call.
   */
  function Settle(query: string, s: ScanResult, mode: string, env: Env, outcome: Outcome, snippet: string)
    : (r: (AnalysisResult, Option<string>, Option<LogCall>))
    ensures 0 <= r.0.Score() <= 100 && Reports(r.0, s)
    ensures r.1.Some? ==> r.1.value == snippet
  {
    var n := |s.matched|;
    match SkipScore(n, mode)
    case Some(score) => (Report(s, score, true, None, None), None, None)
    case None =>
      var (ai, log) := AnalyzeContent(env, query, mode, outcome);
      (Report(s, ApplyFloor(n, ai.score), false, ai.warning, None), if ConfigComplete(env) then Some(snippet) else None, log)
  }

  /**
   * `analyzeExcelContent(filePath, searchContent, { understandingMode: mode,
   * analysisDepth: depth })`, with the file, the environment and the request's outcome
   * given as inputs.
   */
  method AnalyzeExcelContent(toLower: CaseMap, file: FileRead, query: string, mode: string, depth: string, env: Env, outcome: Outcome)
    returns (r: AnalysisResult, request: Option<string>, log: Option<LogCall>)
    ensures match Preparation(toLower, file, query, SnippetBudget(depth))
      case Stopped(e) => r == Failure(e) && request.None? && log.None?
      case Ready(s, snippet) => (r, request, log) == Settle(query, s, mode, env, outcome, snippet)
    ensures 0 <= r.Score() <= 100
    ensures file.Readable? ==> Reports(r, Scanned(toLower, toLower(query), file.book, MaxMatchedLines))
    ensures request.Some? ==> |request.value| <= SnippetBudget(depth)
  {
    var p := Prepare(toLower, file, query, SnippetBudget(depth));
    match p
    case Stopped(e) =>
      r, request, log := Failure(e), None, None;
    case Ready(s, snippet) =>
      PreparationReady(toLower, file, query, SnippetBudget(depth));
      var settled := Settle(query, s, mode, env, outcome, snippet);
      r, request, log := settled.0, settled.1, settled.2;
  }

  // ---------------------------------------------------------------- properties

  /**
   * The skip rules come first and call nothing; otherwise the request goes out exactly
   * when `API_URL` and `API_KEY` are set.
   */
  lemma SettleRequests(query: string, s: ScanResult, mode: string, env: Env, outcome: Outcome, snippet: string)
    ensures var (r, request, log) := Settle(query, s, mode, env, outcome, snippet);
      && (SkipScore(|s.matched|, mode).Some? ==>
            r.Scored? && r.apiSkipped && Some(r.score) == SkipScore(|s.matched|, mode) && request.None? && log.None?)
      && (request.Some? <==> SkipScore(|s.matched|, mode).None? && ConfigComplete(env))
      && (log.Some? ==> request.Some? && outcome.Replied?)
  {
    if SkipScore(|s.matched|, mode).None? {
      LoggedIff(env, query, mode, outcome);
    }
  }

  /**
   * Without a skip, the score is the AI service's, raised to 50 + min(2n, 50) when rows
   * matched and it is under 50; its warning is passed on and its error dropped.
   */
  lemma ServiceFloor(query: string, s: ScanResult, mode: string, env: Env, outcome: Outcome, snippet: string)
    requires SkipScore(|s.matched|, mode).None?
    ensures var n := |s.matched|;
      var (ai, _) := AnalyzeContent(env, query, mode, outcome);
      var (r, request, log) := Settle(query, s, mode, env, outcome, snippet);
      && r.Scored? && !r.apiSkipped && r.apiWarning == ai.warning
      && r.score == (if n > 0 && ai.score < 50 then 50 + Min(2 * n, 50) else ai.score)
      && (n > 0 ==> r.score >= 50)
  {
  }

  /** Without the API configured, a workbook without matches scores 0 in exact mode and 50 otherwise. */
  lemma UnconfiguredScore(query: string, s: ScanResult, mode: string, env: Env, outcome: Outcome, snippet: string)
    requires !ConfigComplete(env) && |s.matched| == 0
    ensures var (r, request, log) := Settle(query, s, mode, env, outcome, snippet);
      && r.Scored? && r.score == (if mode == "exact" then 0 else 50)
      && r.apiWarning == Some("未配置API，无法进行语义分析") && request.None? && log.None?
  {
  }

  /**
   * The two pipelines disagree on a timeout: with two matched rows in semantic mode and
   * every variable set, the first scores 60 (its timeout fallback) and this one 50 (the
   * AI service's default, which the floor leaves alone).
   */
  lemma TimeoutDisagreement(query: string, s: ScanResult, env: Env, f: RequestError, snippet: string)
    requires LegacyAnalysis.KeyPresent(env) && LegacyAnalysis.UrlPresent(env) && ConfigComplete(env)
    requires TimedOut(f) && |s.matched| == 2
    ensures LegacyAnalysis.Conclude(query, s, "semantic", env, Failed(f), snippet).0.Score() == 60
    ensures Settle(query, s, "semantic", env, Failed(f), snippet).0.Score() == 50
  {
    LegacyAnalysis.TimeoutExample(query, s, env, f, snippet);
  }
}
