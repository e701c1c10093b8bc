/**
 * The first analysis pipeline, `analyzeExcelContent` of server/index.js: read checks,
 * keyword scan (at most 100 rows), analysis text and snippet (budget 2000), the API
 * configuration check, the two skip rules, the AI reply and the score it yields, the
 * floor, and the fallbacks for a malformed reply and a timeout.
 *
 * Besides the result, the pipeline reports the snippet it sends to the AI (`None` when
 * no request is made); the prompt around it is fixed text and not modelled.
 */
module LegacyAnalysis {
  import opened Wrappers
  import opened JsString
  import opened JsNumber
  import opened Spreadsheet
  import opened KeywordMatch
  import opened Intake
  import opened Policy
  import opened ReplyScore
  import opened Http
  import opened Environment

  /** `maxContentLength`, the same for both analysis depths in this pipeline. */
  const SnippetBudget: nat := 2000

  /** `SOPHNET_API_KEY`, trimmed, is set and not blank. */
  predicate KeyPresent(env: Env) {
    Truthy(Get(env, "SOPHNET_API_KEY")) && Trim(env["SOPHNET_API_KEY"]) != []
  }

  /** `SOPHNET_API_URL` is set and not empty. */
  predicate UrlPresent(env: Env) {
    Truthy(Get(env, "SOPHNET_API_URL"))
  }

  /** The reply lacks `choices[0].message`. */
  predicate Malformed(body: Body) {
    body.choices.None? || |body.choices.value| == 0 || body.choices.value[0].message.None?
  }

  /** The explanation bands of `generateRelevanceExplanation`: 0 (below 20) up to 5 (90 and above). */
  function ExplanationBand(score: int): (b: nat)
    ensures b <= 5
  {
    if score >= 90 then 5
    else if score >= 75 then 4
    else if score >= 60 then 3
    else if score >= 40 then 2
    else if score >= 20 then 1
    else 0
  }

  /** `generateRelevanceExplanation(score, matchCount, searchContent)` */
  function RelevanceExplanation(score: int, query: string): (r: string)
    ensures "内容与\"" + query + "\"" <= r
  {
    var quoted := "内容与\"" + query + "\"";
    match ExplanationBand(score)
    case 5 => quoted + "高度相关，可能包含直接匹配或非常接近的同义概念"
    case 4 => quoted + "显著相关，包含相关概念或上下文"
    case 3 => quoted + "中等相关，包含一些间接相关的概念"
    case 2 => quoted + "轻微相关，可能包含相似的主题领域"
    case 1 => quoted + "相关性低，仅有很少的相关之处"
    case _ => quoted + "几乎无关"
  }

  /** A higher score never falls in a lower explanation band. */
  lemma ExplanationBandMonotone(a: int, b: int)
    requires a <= b
    ensures ExplanationBand(a) <= ExplanationBand(b)
  {
  }

  /** The bands' lower bounds are 20, 40, 60, 75 and 90. */
  lemma ExplanationBandBounds(score: int)
    ensures ExplanationBand(score) == 5 <==> score >= 90
    ensures ExplanationBand(score) == 0 <==> score < 20
    ensures ExplanationBand(score) == 3 <==> 60 <= score < 75
  {
  }

  /** The result of a 2xx reply. */
  function ReplyAnswer(query: string, s: ScanResult, body: Body): (r: AnalysisResult)
    ensures 0 <= r.Score() <= 100 && Reports(r, s)
  {
    var n := |s.matched|;
    if Malformed(body) then
      if n > 0 then Report(s, MatchFloor(n), false, Some("响应格式异常"), None)
      else Failure("API响应格式异常")
    else
      var score := ApplyFloor(n, ReplyScore.ReplyScore(RawContent(body.choices.value[0].message.value.content)));
      Report(s, score, false, None, Some(RelevanceExplanation(score, query)))
  }

  /** The result of a rejected request. */
  function FailureAnswer(s: ScanResult, f: RequestError): (r: AnalysisResult)
    ensures r.Score() == (if TimedOut(f) && |s.matched| > 0 then TimeoutFallback(|s.matched|) else 0)
    ensures 0 <= r.Score() <= 100 && Reports(r, s)
  {
    var n := |s.matched|;
    if TimedOut(f) then
      if n > 0 then
        Report(s, TimeoutFallback(n), false, Some("API超时，使用备用评分"),
               Some("文件中包含 " + NatToString(n) + " 处直接匹配，可能相关"))
      else Failure("API超时")
    else if f.response.Some? then
      if f.response.value.status == 401 then Failure("认证失败 (401): 请检查API密钥是否正确")
      else Failure("API错误 (" + NatToString(f.response.value.status) + ")")
    else if f.requestSent then Failure("API无响应")
    else Failure(f.message)
  }

  /** The result once the AI request has settled. */
  function Answer(query: string, s: ScanResult, outcome: Outcome): (r: AnalysisResult)
    ensures 0 <= r.Score() <= 100 && Reports(r, s)
  {
    match outcome
    case Replied(body) => ReplyAnswer(query, s, body)
    case Failed(f) => FailureAnswer(s, f)
  }

  /**
   * The steps after the snippet: the configuration check, the skip rules, and otherwise
   * the request (whose snippet is returned) and its answer.
   */
  function Conclude(query: string, s: ScanResult, mode: string, env: Env, outcome: Outcome, snippet: string)
    : (r: (AnalysisResult, Option<string>))
    ensures 0 <= r.0.Score() <= 100 && Reports(r.0, s)
    ensures r.1.Some? ==> r.1.value == snippet
  {
    var n := |s.matched|;
    if !KeyPresent(env) then (Failure("API密钥未设置，请配置API密钥"), None)
    else if !UrlPresent(env) then (Failure("API地址未设置，请配置API地址"), None)
    else
      match SkipScore(n, mode)
      case Some(score) => (Report(s, score, true, None, None), None)
      case None => (Answer(query, s, outcome), Some(snippet))
  }

  /**
   * `analyzeExcelContent(filePath, searchContent, { understandingMode: mode })`, with
   * the file's existence and contents, the environment and the AI request's outcome
   * given as inputs.
   */
  method AnalyzeExcelContent(toLower: CaseMap, file: FileRead, query: string, mode: string, env: Env, outcome: Outcome)
    returns (r: AnalysisResult, request: Option<string>)
    ensures match Preparation(toLower, file, query, SnippetBudget)
      case Stopped(e) => r == Failure(e) && request.None?
      case Ready(s, snippet) => (r, request) == Conclude(query, s, mode, env, outcome, snippet)
    ensures 0 <= r.Score() <= 100
    ensures file.Readable? ==> Reports(r, Scanned(toLower, toLower(query), file.book, MaxMatchedLines))
    ensures request.Some? ==> |request.value| <= SnippetBudget
  {
    var p := Prepare(toLower, file, query, SnippetBudget);
    match p
    case Stopped(e) =>
      r, request := Failure(e), None;
    case Ready(s, snippet) =>
      PreparationReady(toLower, file, query, SnippetBudget);
      r, request := Conclude(query, s, mode, env, outcome, snippet).0, Conclude(query, s, mode, env, outcome, snippet).1;
  }

  // ---------------------------------------------------------------- properties

  /**
   * The configuration is checked before the skip rules: without a usable key or URL the
   * result is an error with score 0 and no request, however many rows matched.
   */
  lemma ConfigCheckedFirst(query: string, s: ScanResult, mode: string, env: Env, outcome: Outcome, snippet: string)
    requires !KeyPresent(env) || !UrlPresent(env)
    ensures var (r, request) := Conclude(query, s, mode, env, outcome, snippet);
      r.Failure? && r.Score() == 0 && request.None?
  {
  }

  /**
   * With the configuration present, the skip rules decide: more than 5 rows in exact mode
   * or more than 10 in balanced mode give 70 + min(n, 30); otherwise 1 to 5 rows in exact
   * mode give 50 + 5n. Either way the AI is not called and the result is marked skipped;
   * otherwise the request is made.
   */
  lemma SkipRules(query: string, s: ScanResult, mode: string, env: Env, outcome: Outcome, snippet: string)
    requires KeyPresent(env) && UrlPresent(env)
    ensures var n := |s.matched|;
      var (r, request) := Conclude(query, s, mode, env, outcome, snippet);
      && ((mode == "exact" && n > 5) || (mode == "balanced" && n > 10) ==>
            r.Scored? && r.score == 70 + Min(n, 30) && r.apiSkipped && request.None?)
      && (mode == "exact" && 1 <= n <= 5 ==> r.Scored? && r.score == 50 + 5 * n && r.apiSkipped && request.None?)
      && (request.Some? <==> SkipScore(n, mode).None?)
  {
  }

  /**
   * A readable reply gives the score read from it, raised to 50 + min(2n, 50) when rows
   * matched and it is under 50; the result carries the matching explanation.
   */
  lemma RepliedScore(query: string, s: ScanResult, body: Body)
    requires !Malformed(body)
    ensures var n := |s.matched|;
      var read := ReplyScore.ReplyScore(RawContent(body.choices.value[0].message.value.content));
      var r := Answer(query, s, Replied(body));
      && r.Scored? && !r.apiSkipped && r.apiWarning.None?
      && r.score == (if n > 0 && read < 50 then MatchFloor(n) else read)
      && (n > 0 ==> r.score >= 50)
      && r.explanation == Some(RelevanceExplanation(r.score, query))
  {
  }

  /** A reply without `choices[0].message` falls back to 50 + min(2n, 50) with a warning when rows matched, and is an error otherwise. */
  lemma MalformedReply(query: string, s: ScanResult, body: Body)
    requires Malformed(body)
    ensures var r := Answer(query, s, Replied(body));
      && (|s.matched| > 0 ==> r.Scored? && r.score == 50 + Min(2 * |s.matched|, 50) && r.apiWarning == Some("响应格式异常"))
      && (|s.matched| == 0 ==> r == Failure("API响应格式异常"))
  {
  }

  /**
   * A timeout falls back to 50 + min(5n, 50) with a warning when rows matched; every other
   * failure, and a timeout without matches, is an error with score 0.
   */
  lemma FailedRequest(query: string, s: ScanResult, f: RequestError)
    ensures var r := Answer(query, s, Failed(f));
      && (TimedOut(f) && |s.matched| > 0 ==>
            r.Scored? && r.score == 50 + Min(5 * |s.matched|, 50) && r.apiWarning == Some("API超时，使用备用评分"))
      && (!TimedOut(f) || |s.matched| == 0 ==> r.Failure?)
      && (!TimedOut(f) && f.response.Some? && f.response.value.status == 401 ==> r == Failure("认证失败 (401): 请检查API密钥是否正确"))
      && (!TimedOut(f) && f.response.None? && f.requestSent ==> r == Failure("API无响应"))
      && (!TimedOut(f) && f.response.None? && !f.requestSent ==> r == Failure(f.message))
  {
  }

  /** A timeout with two matched rows in semantic mode scores 60, with a warning. */
  lemma TimeoutExample(query: string, s: ScanResult, env: Env, f: RequestError, snippet: string)
    requires KeyPresent(env) && UrlPresent(env) && TimedOut(f) && |s.matched| == 2
    ensures var (r, request) := Conclude(query, s, "semantic", env, Failed(f), snippet);
      r.Scored? && r.score == 60 && r.apiWarning.Some? && request == Some(snippet)
  {
  }
}
