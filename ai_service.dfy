/**
 * The AI service of the second pipeline (restructure/server/services/ai.js): the
 * relevance request `analyzeContent` and the connection test `testConnection`, with the
 * HTTP request replaced by its outcome. The reply's score is its first run of digits,
 * clamped to 1..100; every failure is classified and degrades to a mode-dependent
 * default score.
 */
module AiService {
  import opened Wrappers
  import opened JsString
  import opened JsNumber
  import opened Http
  import opened Environment

  const DefaultModel: string := "DeepSeek-R1"

  /** Whether `API_URL` and `API_KEY` are both set and non-empty. */
  predicate ConfigComplete(env: Env) {
    Truthy(Get(env, "API_URL")) && Truthy(Get(env, "API_KEY"))
  }

  /** `process.env.API_MODEL || config.api.defaultModel` */
  function ModelName(env: Env): string {
    Or(Get(env, "API_MODEL"), DefaultModel)
  }

  /** The kinds of failure, in the order the handlers test them. */
  datatype FailureKind =
    | TimedOutKind
    | InvalidKey
    | InvalidUrl
    | HttpError(status: nat, detail: string)
    | Unreachable
    | ClientError(message: string)

  /**
   * The classification both handlers use: a timeout first, then an HTTP status (401,
   * 404, any other), then a request that got no reply, then anything else.
   */
  function Classify(f: RequestError): (k: FailureKind)
    ensures TimedOut(f) <==> k.TimedOutKind?
    ensures k.InvalidKey? <==> !TimedOut(f) && f.response.Some? && f.response.value.status == 401
    ensures k.InvalidUrl? <==> !TimedOut(f) && f.response.Some? && f.response.value.status == 404
    ensures k.HttpError? <==> !TimedOut(f) && f.response.Some? && f.response.value.status !in {401, 404}
    ensures k.Unreachable? <==> !TimedOut(f) && f.response.None? && f.requestSent
    ensures k.ClientError? <==> !TimedOut(f) && f.response.None? && !f.requestSent
    ensures k.HttpError? ==> k.status == f.response.value.status
    ensures k.ClientError? ==> k.message == f.message
  {
    if TimedOut(f) then TimedOutKind
    else if f.response.Some? then
      var status := f.response.value.status;
      if status == 401 then InvalidKey
      else if status == 404 then InvalidUrl
      else HttpError(status, Or(f.response.value.body.errorMessage, "未知错误"))
    else if f.requestSent then Unreachable
    else ClientError(f.message)
  }

  /** The warning `analyzeContent` gives for a failure of the given kind. */
  function AnalysisWarning(k: FailureKind): string {
    match k
    case TimedOutKind => "API请求超时"
    case InvalidKey => "API密钥无效"
    case InvalidUrl => "API地址无效"
    case HttpError(s, d) => "API错误 (" + NatToString(s) + "): " + d
    case Unreachable => "无法连接到API服务器"
    case ClientError(m) => "请求错误: " + m
  }

  /** The message `testConnection` gives for a failure of the given kind. */
  function ConnectionMessage(k: FailureKind): string {
    match k
    case TimedOutKind => "连接超时"
    case InvalidKey => "API密钥无效"
    case InvalidUrl => "API地址无效"
    case HttpError(s, d) => "API错误 (" + NatToString(s) + "): " + d
    case Unreachable => "无法连接到API服务器"
    case ClientError(m) => "请求错误: " + m
  }

  /** The default score: 0 in exact mode, 50 in every other. */
  function DefaultScore(mode: string): (s: int)
    ensures s == 0 <==> mode == "exact"
    ensures s == 0 || s == 50
  {
    if mode == "exact" then 0 else 50
  }

  /** What `analyzeContent` returns: `error` and `model`/`requestId` are `None` when absent. */
  datatype AiResult = AiResult(score: int, warning: Option<string>, error: Option<string>, model: Option<string>, requestId: Option<string>)

  /** The arguments of the call to `logger.logApiResponse(query, response.data, score)`. */
  datatype LogCall = LogCall(query: string, body: Body, score: int)

  /** The message of the `TypeError` thrown when a missing property is read. */
  function MissingPropertyMessage(property: string): string {
    "Cannot read properties of undefined (reading '" + property + "')"
  }

  /** The score read from reply text: its first digit run, clamped to 1..100; `None` without a digit. */
  function DigitScore(text: string): (r: Option<int>)
    ensures r.None? <==> !HasDigit(text)
    ensures r.Some? ==> 1 <= r.value <= 100
  {
    var runs := DigitRuns(text);
    DigitRunsEmptyIff(text);
    if runs == [] then None
    else
      ParseIntOfRun(runs[0]);
      var v := ParseInt(runs[0]).value;
      Some(if v < 1 then 1 else if v > 100 then 100 else v)
  }

  /** Reading `choices[0].message.content.trim()` throws: the first choice has no message, or its message no content. */
  predicate ReadFails(body: Body) {
    && body.choices.Some? && |body.choices.value| > 0
    && (body.choices.value[0].message.None? || body.choices.value[0].message.value.content.None?)
  }

  /** The result for a failure, which is also how an exception thrown while reading the reply ends. */
  function FailureResult(f: RequestError, mode: string): AiResult {
    AiResult(DefaultScore(mode), Some(AnalysisWarning(Classify(f))), Some(f.message), None, None)
  }

  /**
   * `analyzeContent(query, content, { understandingMode: mode })` with the request's
   * outcome given, together with the log call it makes, if any.
   */
  function AnalyzeContent(env: Env, query: string, mode: string, outcome: Outcome): (r: (AiResult, Option<LogCall>))
    ensures 0 <= r.0.score <= 100
    ensures r.0.error.Some? <==> ConfigComplete(env) && (outcome.Failed? || ReadFails(outcome.body))
  {
    if !ConfigComplete(env) then
      (AiResult(DefaultScore(mode), Some("未配置API，无法进行语义分析"), None, None, None), None)
    else
      match outcome
      case Failed(f) => (FailureResult(f, mode), None)
      case Replied(body) =>
        if body.choices.Some? && |body.choices.value| > 0 then
          var choice := body.choices.value[0];
          if choice.message.None? then
            (FailureResult(RequestError(None, None, false, MissingPropertyMessage("content")), mode), None)
          else if choice.message.value.content.None? then
            (FailureResult(RequestError(None, None, false, MissingPropertyMessage("trim")), mode), None)
          else
            var text := Trim(choice.message.value.content.value);
            var (score, warning) :=
              match DigitScore(text)
              case Some(s) => (s, None)
              case None => (50, Some("无法从API响应中提取分数"));
            (AiResult(score, warning, None, Some(Or(body.model, ModelName(env))), body.id), Some(LogCall(query, body, score)))
        else
          (AiResult(50, Some("API响应格式不正确"), None, Some(Or(body.model, ModelName(env))), body.id),
           Some(LogCall(query, body, 50)))
  }

  /** What `testConnection` returns. */
  datatype Connection = Connection(success: bool, message: string, model: Option<string>)

  /** `testConnection()` with the test request's outcome given. */
  function TestConnection(env: Env, outcome: Outcome): (c: Connection)
    ensures !ConfigComplete(env) ==> c == Connection(false, "API配置不完整", None)
    ensures c.success <==> ConfigComplete(env) && outcome.Replied?
    ensures ConfigComplete(env) && outcome.Failed? ==> c.message == ConnectionMessage(Classify(outcome.failure))
    ensures c.success ==> c.model.Some? && c.model.value != []
  {
    if !ConfigComplete(env) then Connection(false, "API配置不完整", None)
    else
      match outcome
      case Failed(f) => Connection(false, ConnectionMessage(Classify(f)), None)
      case Replied(body) => Connection(true, "连接成功", Some(Or(body.model, ModelName(env))))
  }

  // ---------------------------------------------------------------- properties

  /** Without `API_URL` or `API_KEY` no request is made and nothing is logged: the score is the mode's default, with a warning. */
  lemma MissingConfig(env: Env, query: string, mode: string, outcome: Outcome)
    requires !ConfigComplete(env)
    ensures var (r, log) := AnalyzeContent(env, query, mode, outcome);
      r.score == (if mode == "exact" then 0 else 50) && r.warning.Some? && r.error.None? && log.None?
  {
  }

  /**
   * A failed request gives the mode's default score with both a warning (from the
   * classification) and an error (the failure's message), and logs nothing.
   */
  lemma FailedRequest(env: Env, query: string, mode: string, f: RequestError)
    requires ConfigComplete(env)
    ensures var (r, log) := AnalyzeContent(env, query, mode, Failed(f));
      && r.score == (if mode == "exact" then 0 else 50)
      && r.warning == Some(AnalysisWarning(Classify(f)))
      && r.error == Some(f.message)
      && log.None?
  {
  }

  /**
   * A reply with a message reads its score from the message: the first digit run clamped
   * to 1..100 without a warning, or 50 with a warning when there is no digit. The call
   * is logged with that score.
   */
  lemma RepliedWithContent(env: Env, query: string, mode: string, body: Body, content: string)
    requires ConfigComplete(env)
    requires body.choices.Some? && |body.choices.value| > 0
    requires body.choices.value[0].message == Some(Message(Some(content)))
    ensures var (r, log) := AnalyzeContent(env, query, mode, Replied(body));
      && (HasDigit(Trim(content)) ==> r.score == DigitScore(Trim(content)).value && 1 <= r.score <= 100 && r.warning.None?)
      && (!HasDigit(Trim(content)) ==> r.score == 50 && r.warning == Some("无法从API响应中提取分数"))
      && r.error.None?
      && log == Some(LogCall(query, body, r.score))
  {
  }

  /** A reply without choices scores 50 with a format warning, and is logged. */
  lemma RepliedWithoutChoices(env: Env, query: string, mode: string, body: Body)
    requires ConfigComplete(env)
    requires body.choices.None? || body.choices.value == []
    ensures var (r, log) := AnalyzeContent(env, query, mode, Replied(body));
      r.score == 50 && r.warning == Some("API响应格式不正确") && log == Some(LogCall(query, body, 50))
  {
  }

  /** A call is logged exactly when a reply arrived whose score could be read (the configuration being complete). */
  lemma LoggedIff(env: Env, query: string, mode: string, outcome: Outcome)
    ensures var (r, log) := AnalyzeContent(env, query, mode, outcome);
      && (log.Some? ==> ConfigComplete(env) && outcome.Replied? && log.value == LogCall(query, outcome.body, r.score))
      && (ConfigComplete(env) && outcome.Replied? && r.error.None? ==> log.Some?)
  {
  }

  /** A reply that is a decimal number scores that number clamped to 1..100. */
  lemma DigitScoreOfNumber(n: nat)
    ensures DigitScore(NatToString(n)) == Some(if n < 1 then 1 else if n > 100 then 100 else n)
  {
    var s := NatToString(n);
    DigitPrefixAll(s);
    assert s[|s|..] == [];
    assert DigitRuns(s) == [s];
    ParseIntNatToString(n);
  }

  /**
   * A number inside reply text, preceded by no digit and not followed by one, is the
   * score, clamped to 1..100: "评分：85分" scores 85.
   */
  lemma DigitScoreEmbedded(p: string, n: nat, q: string)
    requires forall i :: 0 <= i < |p| ==> !IsDigit(p[i])
    requires q == [] || !IsDigit(q[0])
    ensures DigitScore(p + NatToString(n) + q) == Some(if n < 1 then 1 else if n > 100 then 100 else n)
  {
    var d := NatToString(n);
    var s := p + d + q;
    RunsAfterNonDigits(p, d + q);
    assert s == p + (d + q);
    FirstRunOf(d, q);
    ParseIntNatToString(n);
    DigitScoreOfFirstRun(s, d, n);
  }

  /** Digit-free text in front changes no digit run. */
  lemma RunsAfterNonDigits(p: string, t: string)
    requires forall i :: 0 <= i < |p| ==> !IsDigit(p[i])
    ensures DigitRuns(p + t) == DigitRuns(t)
  {
    var s := p + t;
    assert forall i :: 0 <= i < |p| ==> s[i] == p[i];
    SkipNonDigits(s, |p|);
    assert s[|p|..] == t;
  }

  /** The score is read from the first digit run alone. */
  lemma DigitScoreOfFirstRun(text: string, d: string, v: int)
    requires DigitRuns(text) != [] && DigitRuns(text)[0] == d && ParseInt(d) == Some(v)
    ensures DigitScore(text) == Some(if v < 1 then 1 else if v > 100 then 100 else v)
  {
  }

  /** "评分：85分" scores 85. */
  lemma DigitScoreInText()
    ensures DigitScore("评分：85分") == Some(85)
  {
    assert NatToString(85) == "85" by { assert NatToString(8) == "8"; }
    assert "评分：85分" == "评分：" + NatToString(85) + "分";
    DigitScoreEmbedded("评分：", 85, "分");
  }

  /** "0" is raised to 1 and "150" lowered to 100. */
  lemma DigitScoreClamps()
    ensures DigitScore("0") == Some(1)
    ensures DigitScore("150") == Some(100)
  {
    DigitScoreOfNumber(0);
    DigitScoreOfNumber(150);
    assert NatToString(0) == "0";
    assert NatToString(150) == "150" by {
      assert NatToString(15) == "15" by { assert NatToString(1) == "1"; }
    }
  }
}
