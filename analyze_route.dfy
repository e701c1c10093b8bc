/**
 * The upload-and-analyze endpoint of server/index.js (`POST /api/upload-and-analyze`):
 * input validation, one result per file kept when its score reaches the threshold
 * (a file whose analysis threw is always kept), the labels derived from the score, and
 * the final ordering (files with matched rows first, then by descending relevance).
 *
 * The analysis of each file is an input: what `analyzeExcelContent` returned for it, or
 * the message it threw.
 */
module AnalyzeRoute {
  import opened Wrappers
  import opened JsNumber
  import JsString
  import opened KeywordMatch
  import opened Policy
  import opened Sorting
  import opened Environment

  /** What the analysis of one uploaded file came to. */
  datatype FileAnalysis =
    | Analyzed(name: string, result: AnalysisResult)
    | Threw(name: string, message: string)

  /** One element of `results`; absent or null fields are `None` (or false, or empty). */
  datatype Entry = Entry(
    fileName: string,
    relevance: int,
    location: string,
    matchedLines: seq<MatchedLine>,
    sheets: seq<string>,
    explanation: Option<string>,
    error: Option<string>,
    apiSkipped: bool,
    apiWarning: Option<string>,
    semanticMatch: bool,
    exceedsLimit: bool)

  /** The JSON response. */
  datatype Response =
    | BadRequest(error: string)
    | Results(total: nat, results: seq<Entry>, mode: string, threshold: Option<int>, depth: string)

  const ErrorLocation: string := "分析出错"

  /** `suggestedLocation`: above 80, above 50, otherwise. */
  function Location(score: int): (l: string)
    ensures l != ErrorLocation
  {
    if score > 80 then "很可能在此文件中"
    else if score > 50 then "可能在此文件中"
    else "不太可能在此文件中"
  }

  /** `relevanceExplanation` as the endpoint words it: above 80, 60, 40 and 20, otherwise. */
  function RouteExplanation(score: int): (r: string)
    ensures |r| > 5 && r[..5] == "内容与搜索"
    ensures r == "内容与搜索几乎无关" <==> score <= 20
  {
    if score > 80 then "内容与搜索高度相关"
    else if score > 60 then "内容与搜索较为相关"
    else if score > 40 then "内容与搜索部分相关"
    else if score > 20 then "内容与搜索相关度较低"
    else "内容与搜索几乎无关"
  }

  /** `value || null` for a string field. */
  function NonEmpty(value: Option<string>): (r: Option<string>)
    ensures r.Some? <==> value.Some? && value.value != []
  {
    if value.Some? && value.value != [] then value else None
  }

  /**
   * `parseInt(req.body.minRelevanceThreshold || '0')`; `None` stands for `NaN`. The
   * default `'0'` parses to 0 (`ThresholdParses`).
   */
  function Threshold(field: Option<string>): (r: Option<int>)
    ensures !Truthy(field) ==> r == Some(0)
  {
    if Truthy(field) then ParseInt(field.value) else Some(0)
  }

  /** `analysisResult.score >= minRelevanceThreshold`, which is false against `NaN`. */
  predicate MeetsThreshold(score: int, threshold: Option<int>) {
    threshold.Some? && score >= threshold.value
  }

  /** The entry pushed for an analysis result. */
  function EntryOf(name: string, r: AnalysisResult, mode: string): (e: Entry)
    ensures e.relevance == r.Score() && e.location != ErrorLocation
    ensures e.error.Some? <==> r.Failure? && r.error != []
  {
    match r
    case Failure(error) =>
      Entry(name, 0, Location(0), [], [], Some(RouteExplanation(0)), NonEmpty(Some(error)), false, None,
            mode == "semantic", false)
    case Scored(score, matched, sheets, _, exceeded, skipped, warning, _) =>
      Entry(name, score, Location(score), matched, sheets, Some(RouteExplanation(score)), None, skipped,
            NonEmpty(warning), mode == "semantic" && !skipped, exceeded)
  }

  /** The entry pushed when the analysis threw. */
  function ThrownEntry(name: string, message: string): (e: Entry)
    ensures e.relevance == 0 && e.location == ErrorLocation && e.error.Some?
  {
    Entry(name, 0, ErrorLocation, [], [], None, Some(if message != [] then message else "处理文件时发生未知错误"),
          false, None, false, false)
  }

  /** Whether a file gets an entry: its analysis threw, or its score reached the threshold. */
  predicate Kept(f: FileAnalysis, threshold: Option<int>) {
    f.Threw? || MeetsThreshold(f.result.Score(), threshold)
  }

  /** The entry a kept file gets. */
  function EntryFor(f: FileAnalysis, mode: string): Entry {
    match f
    case Threw(name, message) => ThrownEntry(name, message)
    case Analyzed(name, r) => EntryOf(name, r, mode)
  }

  /** How many of the first `k` files are kept. */
  function KeptBefore(files: seq<FileAnalysis>, k: nat, threshold: Option<int>): (n: nat)
    requires k <= |files|
    ensures n <= k
  {
    if k == 0 then 0 else KeptBefore(files, k - 1, threshold) + (if Kept(files[k - 1], threshold) then 1 else 0)
  }

  /** The entries collected for the first `k` files: one per kept file. */
  function Collected(files: seq<FileAnalysis>, k: nat, mode: string, threshold: Option<int>): (r: seq<Entry>)
    requires k <= |files|
    ensures |r| <= k
  {
    if k == 0 then []
    else
      var before := Collected(files, k - 1, mode, threshold);
      match files[k - 1]
      case Threw(name, message) => before + [ThrownEntry(name, message)]
      case Analyzed(name, r) =>
        if MeetsThreshold(r.Score(), threshold) then before + [EntryOf(name, r, mode)] else before
  }

  /** The comparator: `-1` for a file with matches before one without, `1` the other way, else `b.relevance - a.relevance`. */
  function Compare(a: Entry, b: Entry): (r: int)
    ensures r < 0 <==>
      || (|a.matchedLines| > 0 && |b.matchedLines| == 0)
      || ((|a.matchedLines| > 0) == (|b.matchedLines| > 0) && a.relevance > b.relevance)
  {
    if |a.matchedLines| > 0 && |b.matchedLines| == 0 then -1
    else if |a.matchedLines| == 0 && |b.matchedLines| > 0 then 1
    else b.relevance - a.relevance
  }

  /** `a` may stay before `b`. */
  predicate Precedes(a: Entry, b: Entry) {
    Compare(a, b) <= 0
  }

  /** The order of the results: files with matched rows first, each group by descending relevance. */
  predicate Ranked(s: seq<Entry>) {
    forall i, j :: 0 <= i < j < |s| ==>
      && (|s[j].matchedLines| > 0 ==> |s[i].matchedLines| > 0)
      && ((|s[i].matchedLines| > 0) == (|s[j].matchedLines| > 0) ==> s[i].relevance >= s[j].relevance)
  }

  /** Collects one entry for a file, as the loop body does. */
  method AddResult(results: seq<Entry>, f: FileAnalysis, mode: string, threshold: Option<int>) returns (results': seq<Entry>)
    ensures f.Threw? ==> results' == results + [ThrownEntry(f.name, f.message)]
    ensures f.Analyzed? && MeetsThreshold(f.result.Score(), threshold) ==> results' == results + [EntryOf(f.name, f.result, mode)]
    ensures f.Analyzed? && !MeetsThreshold(f.result.Score(), threshold) ==> results' == results
  {
    results' := results;
    match f
    case Threw(name, message) =>
      results' := results' + [ThrownEntry(name, message)];
    case Analyzed(name, r) =>
      if threshold.Some? && r.Score() >= threshold.value {
        results' := results' + [EntryOf(name, r, mode)];
      }
  }

  /** The loop over the uploaded files, collecting the entry of each kept file. */
  method CollectResults(files: seq<FileAnalysis>, mode: string, threshold: Option<int>) returns (results: seq<Entry>)
    ensures results == Collected(files, |files|, mode, threshold)
  {
    results := [];
    for k := 0 to |files|
      invariant results == Collected(files, k, mode, threshold)
    {
      results := AddResult(results, files[k], mode, threshold);
    }
  }

  /** The endpoint, given the request's fields and each file's analysis. */
  method UploadAndAnalyze(query: Option<string>, files: seq<FileAnalysis>, modeField: Option<string>,
                          thresholdField: Option<string>, depthField: Option<string>) returns (resp: Response)
    ensures query.None? || query.value == [] ==> resp == BadRequest("请提供搜索内容")
    ensures query.Some? && query.value != [] && files == [] ==> resp == BadRequest("请上传至少一个Excel文件")
    ensures query.Some? && query.value != [] && files != [] ==>
      var mode := Or(modeField, "semantic");
      var threshold := Threshold(thresholdField);
      && resp.Results? && resp.total == |files|
      && resp.results == Sort(Collected(files, |files|, mode, threshold), Precedes)
      && resp.mode == mode && resp.threshold == threshold && resp.depth == Or(depthField, "shallow")
    ensures resp.Results? ==> Ranked(resp.results)
  {
    if query.None? || query.value == [] {
      return BadRequest("请提供搜索内容");
    }
    if |files| == 0 {
      return BadRequest("请上传至少一个Excel文件");
    }
    var mode := Or(modeField, "semantic");
    var threshold := Threshold(thresholdField);
    var results := CollectResults(files, mode, threshold);
    var sorted := Sort(results, Precedes);
    SortedResults(results);
    return Results(|files|, sorted, mode, threshold, Or(depthField, "shallow"));
  }

  // ---------------------------------------------------------------- properties

  /** The comparator orders entries totally and consistently. */
  lemma PrecedesOrders()
    ensures Total(Precedes) && Transitive(Precedes)
  {
    forall a, b, c | Precedes(a, b) && Precedes(b, c) ensures Precedes(a, c) {
    }
  }

  /** Sorting the results only reorders them, and orders them as described. */
  lemma SortedResults(results: seq<Entry>)
    ensures var sorted := Sort(results, Precedes);
      multiset(sorted) == multiset(results) && Ranked(sorted)
  {
    PrecedesOrders();
    SortPermutation(results, Precedes);
    SortSorted(results, Precedes);
    var sorted := Sort(results, Precedes);
    forall i, j | 0 <= i < j < |sorted|
      ensures |sorted[j].matchedLines| > 0 ==> |sorted[i].matchedLines| > 0
      ensures (|sorted[i].matchedLines| > 0) == (|sorted[j].matchedLines| > 0) ==> sorted[i].relevance >= sorted[j].relevance
    {
      assert Precedes(sorted[i], sorted[j]);
    }
  }

  /** Every collected entry either reached the threshold or records a thrown error; nothing is made up. */
  lemma {:induction false} CollectedKept(files: seq<FileAnalysis>, k: nat, mode: string, threshold: Option<int>)
    requires k <= |files|
    ensures var c := Collected(files, k, mode, threshold);
      && |c| <= k
      && forall e :: e in c ==> e.location == ErrorLocation || MeetsThreshold(e.relevance, threshold)
  {
    if k > 0 {
      CollectedKept(files, k - 1, mode, threshold);
    }
  }

  /** Each kept file among the first `k` has its own entry, placed after the entries of the kept files before it. */
  lemma {:induction false} CollectedAt(files: seq<FileAnalysis>, k: nat, mode: string, threshold: Option<int>, i: nat)
    requires i < k <= |files| && Kept(files[i], threshold)
    ensures KeptBefore(files, i, threshold) < |Collected(files, k, mode, threshold)|
    ensures Collected(files, k, mode, threshold)[KeptBefore(files, i, threshold)] == EntryFor(files[i], mode)
  {
    var before := Collected(files, k - 1, mode, threshold);
    var c := Collected(files, k, mode, threshold);
    assert c == before || c == before + [EntryFor(files[k - 1], mode)];
    if i < k - 1 {
      CollectedAt(files, k - 1, mode, threshold, i);
    } else {
      CollectedCount(files, i, mode, threshold);
      assert c == before + [EntryFor(files[i], mode)];
    }
  }

  /** Kept files get their entries in file order: a later file's entry comes after an earlier kept file's. */
  lemma {:induction false} KeptBeforeIncreasing(files: seq<FileAnalysis>, i: nat, j: nat, threshold: Option<int>)
    requires i < j <= |files| && Kept(files[i], threshold)
    ensures KeptBefore(files, i, threshold) < KeptBefore(files, j, threshold)
    decreases j
  {
    if i < j - 1 {
      KeptBeforeIncreasing(files, i, j - 1, threshold);
    }
  }

  /** Files whose analysis threw are never filtered out. */
  function Thrown(files: seq<FileAnalysis>, k: nat): nat
    requires k <= |files|
  {
    if k == 0 then 0 else Thrown(files, k - 1) + (if files[k - 1].Threw? then 1 else 0)
  }

  /** The count of collected entries lies between the thrown files and all files; it is all files exactly when each one threw or reached the threshold. */
  lemma {:induction false} CollectedCount(files: seq<FileAnalysis>, k: nat, mode: string, threshold: Option<int>)
    requires k <= |files|
    ensures Thrown(files, k) <= |Collected(files, k, mode, threshold)| <= k
    ensures |Collected(files, k, mode, threshold)| == k <==>
      forall i :: 0 <= i < k ==> files[i].Threw? || MeetsThreshold(files[i].result.Score(), threshold)
    ensures |Collected(files, k, mode, threshold)| == KeptBefore(files, k, threshold)
  {
    if k > 0 {
      CollectedCount(files, k - 1, mode, threshold);
    }
  }

  /** A threshold that does not parse (`NaN`) filters out every file that did not throw. */
  lemma {:induction false} UnparsableThreshold(files: seq<FileAnalysis>, k: nat, mode: string, threshold: Option<int>)
    requires k <= |files| && threshold.None?
    ensures |Collected(files, k, mode, threshold)| == Thrown(files, k)
  {
    if k > 0 {
      UnparsableThreshold(files, k - 1, mode, threshold);
    }
  }

  /** The threshold is `parseInt` of the field, or of `'0'` when the field is absent or empty. */
  lemma ThresholdParses(field: Option<string>)
    ensures Threshold(field) == ParseInt(if Truthy(field) then field.value else "0")
  {
    assert JsString.NatToString(0) == "0";
    ParseIntNatToString(0);
  }

  /** The location and explanation bands agree on high scores and are monotone in the score. */
  lemma LabelsAgree(score: int)
    ensures Location(score) == "很可能在此文件中" <==> RouteExplanation(score) == "内容与搜索高度相关"
    ensures Location(score) == "不太可能在此文件中" <==> score <= 50
  {
  }
}
