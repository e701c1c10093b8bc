/**
 * The scoring rules both analysis pipelines share: when keyword evidence makes the AI
 * call unnecessary (and the score it then gives), the floor that matched rows put under
 * an AI score, and the result an analysis returns.
 */
module Policy {
  import opened Wrappers
  import opened KeywordMatch

  /** `Math.min(a, b)` */
  function Min(a: int, b: int): int {
    if a <= b then a else b
  }

  /**
   * The two "skip the AI call" rules for `n` matched rows, in order: more than 5 rows in
   * exact mode or more than 10 in balanced mode give 70 + min(n, 30); otherwise any row
   * in exact mode gives 50 + min(5n, 50). `None` when neither applies.
   */
  function SkipScore(n: nat, mode: string): (r: Option<int>)
    ensures r.Some? <==> (mode == "exact" && n >= 1) || (mode == "balanced" && n > 10)
    ensures r.Some? ==> 50 < r.value <= 100
    ensures (mode == "exact" && n > 5) || (mode == "balanced" && n > 10) ==> r == Some(70 + Min(n, 30))
    ensures mode == "exact" && 1 <= n <= 5 ==> r == Some(50 + 5 * n)
  {
    if n > 5 && (mode == "exact" || (mode == "balanced" && n > 10)) then Some(70 + Min(n, 30))
    else if mode == "exact" && n > 0 then Some(50 + Min(n * 5, 50))
    else None
  }

  /** The floor for `n` matched rows: 50 + min(2n, 50). */
  function MatchFloor(n: nat): (f: int)
    ensures n > 0 ==> 50 < f <= 100
    ensures n >= 25 ==> f == 100
  {
    50 + Min(n * 2, 50)
  }

  /** With matched rows, an AI score under 50 is replaced by the match floor. */
  function ApplyFloor(n: nat, score: int): (r: int)
    ensures n > 0 ==> r >= 50
    ensures n == 0 || score >= 50 ==> r == score
    ensures 0 <= score <= 100 ==> 0 <= r <= 100
  {
    if n > 0 && score < 50 then MatchFloor(n) else score
  }

  /** The fallback on a timeout (index.js) for `n` matched rows: 50 + min(5n, 50). */
  function TimeoutFallback(n: nat): (f: int)
    ensures n > 0 ==> 50 < f <= 100
    ensures n >= 10 ==> f == 100
  {
    50 + Min(n * 5, 50)
  }

  /** Applying the floor twice is applying it once. */
  lemma ApplyFloorIdempotent(n: nat, score: int)
    ensures ApplyFloor(n, ApplyFloor(n, score)) == ApplyFloor(n, score)
  {
  }

  /**
   * The floor does not hold of every result: a score of 50 or more is kept even when it
   * lies below 50 + min(2n, 50). With 30 matched rows an AI score of 60 stays 60 while
   * the floor is 100.
   */
  lemma FloorOnlyRaisesLowScores()
    ensures ApplyFloor(30, 60) == 60 < MatchFloor(30)
  {
  }

  /**
   * What an analysis returns. `Failure` is `{ score: 0, error }`. `Scored` carries the
   * score, the matched rows (an empty list stands for `null`), the names of the sheets
   * scanned, `totalMatches`, `matchCountExceedsLimit`, `apiSkipped`, `apiWarning` and
   * `relevanceExplanation` (the last three `None` when the field is absent or null).
   */
  datatype AnalysisResult =
    | Failure(error: string)
    | Scored(score: int, matchedLines: seq<MatchedLine>, sheets: seq<string>, totalMatches: string,
             exceedsLimit: bool, apiSkipped: bool, apiWarning: Option<string>, explanation: Option<string>)
  {
    /** The `score` field: 0 for a failure. */
    function Score(): int {
      if Failure? then 0 else score
    }
  }

  /** The result reported when a score was reached, for the scan `s`. */
  function Report(s: ScanResult, score: int, skipped: bool, warning: Option<string>, explanation: Option<string>): AnalysisResult {
    Scored(score, s.matched, s.sheets, TotalMatchesText(|s.matched|, s.exceeded), s.exceeded, skipped, warning, explanation)
  }

  /** A reported result carries the scan: its rows, its sheets, and the count with '+' exactly when the cap was exceeded. */
  predicate Reports(r: AnalysisResult, s: ScanResult) {
    r.Scored? ==>
      && r.matchedLines == s.matched && r.sheets == s.sheets && r.exceedsLimit == s.exceeded
      && r.totalMatches == TotalMatchesText(|s.matched|, s.exceeded)
  }
}
