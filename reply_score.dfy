/**
 * How the first pipeline (server/index.js) turns the AI's free-text reply into a score:
 * `parseInt` of the whole reply, clamped to 0..100 when it is a number; otherwise
 * `extractNumber`, which tries the whole text again, then the first embedded integer
 * within 0..100, then a phrase heuristic, and finally 50.
 */
module ReplyScore {
  import opened Wrappers
  import opened JsString
  import opened JsNumber

  /** `parseInt(m)` of every match, keeping the numbers in 0..100, in order. */
  function ValidScores(matches: seq<string>): (v: seq<int>)
    ensures forall k :: 0 <= k < |v| ==> 0 <= v[k] <= 100
    ensures |v| <= |matches|
  {
    if matches == [] then []
    else
      var n := ParseInt(matches[0]);
      (if n.Some? && 0 <= n.value <= 100 then [n.value] else []) + ValidScores(matches[1..])
  }

  const HighPhrases: seq<string> := ["高度相关", "极高相关", "非常相关"]
  const MediumPhrases: seq<string> := ["中度相关", "相关"]
  const LowPhrases: seq<string> := ["轻微相关", "略微相关"]
  const NegativePhrases: seq<string> := ["无关", "不相关"]

  predicate ContainsAny(text: string, phrases: seq<string>) {
    exists k :: 0 <= k < |phrases| && Contains(text, phrases[k])
  }

  /** The phrase heuristic: the first group with a phrase in the text decides. */
  function PhraseScore(text: string): (r: Option<int>)
    ensures r.Some? ==> 10 <= r.value <= 85
  {
    if ContainsAny(text, HighPhrases) then Some(85)
    else if ContainsAny(text, MediumPhrases) then Some(65)
    else if ContainsAny(text, LowPhrases) then Some(35)
    else if ContainsAny(text, NegativePhrases) then Some(10)
    else None
  }

  /** `extractNumber(text)`: always a score in 0..100. */
  function ExtractNumber(text: string): (r: int)
    ensures 0 <= r <= 100
  {
    var direct := ParseInt(text);
    if direct.Some? && 0 <= direct.value <= 100 then direct.value
    else
      var valid := ValidScores(DigitRuns(text));
      if valid != [] then valid[0]
      else PhraseScore(text).GetOr(50)
  }

  /** `rawContent`: the trimmed message content, or '' when it is missing or empty. */
  function RawContent(content: Option<string>): string {
    if content.Some? && content.value != [] then Trim(content.value) else []
  }

  /** The score read from the reply text before the floor is applied, always in 0..100. */
  function ReplyScore(raw: string): (r: int)
    ensures 0 <= r <= 100
  {
    match ParseInt(raw)
    case Some(v) => Clamp(v, 0, 100)
    case None => ExtractNumber(raw)
  }

  // ---------------------------------------------------------------- properties

  /** Each phrase that contains another is caught by the first group that holds the other. */
  lemma ContainsAnyOf(text: string, phrases: seq<string>, k: nat)
    requires k < |phrases| && Contains(text, phrases[k])
    ensures ContainsAny(text, phrases)
  {
  }

  /** Every phrase of the "slightly" and "not" groups contains 相关 ("relevant") except 无关. */
  lemma RelevantInside(text: string)
    ensures ContainsAny(text, LowPhrases) ==> ContainsAny(text, MediumPhrases)
    ensures Contains(text, "不相关") ==> ContainsAny(text, MediumPhrases)
  {
    var rel := "相关";
    if Contains(text, "轻微相关") {
      ContainsSlice("轻微相关", 2, 4);
      assert "轻微相关"[2..4] == rel;
      ContainsTransitive(text, "轻微相关", rel);
      ContainsAnyOf(text, MediumPhrases, 1);
    } else if Contains(text, "略微相关") {
      ContainsSlice("略微相关", 2, 4);
      assert "略微相关"[2..4] == rel;
      ContainsTransitive(text, "略微相关", rel);
      ContainsAnyOf(text, MediumPhrases, 1);
    }
    if Contains(text, "不相关") {
      ContainsSlice("不相关", 1, 3);
      assert "不相关"[1..3] == rel;
      ContainsTransitive(text, "不相关", rel);
      ContainsAnyOf(text, MediumPhrases, 1);
    }
  }

  /**
   * The heuristic can only give 85, 65 or 10: the 35 branch is unreachable, because
   * every phrase it tests contains 相关, which the 65 branch tests first. For the same
   * reason a reply saying 不相关 ("not relevant") scores 65, not 10.
   */
  lemma PhraseScoreValues(text: string)
    ensures PhraseScore(text) in {None, Some(85), Some(65), Some(10)}
    ensures Contains(text, "不相关") && !ContainsAny(text, HighPhrases) ==> PhraseScore(text) == Some(65)
  {
    RelevantInside(text);
  }

  /** A reply that `parseInt` accepts is clamped: a number within 0..100 is taken as it is. */
  lemma ReplyScoreParsed(raw: string, v: int)
    requires ParseInt(raw) == Some(v)
    ensures ReplyScore(raw) == if v < 0 then 0 else if v > 100 then 100 else v
  {
  }

  /** A reply that is a decimal number up to 100 scores exactly that number. */
  lemma ReplyScoreOfNumber(n: nat)
    requires n <= 100
    ensures ReplyScore(NatToString(n)) == n
  {
    ParseIntNatToString(n);
  }

  /**
   * When `parseInt` rejects the reply, the score is the first embedded integer within
   * 0..100 if there is one, else the phrase heuristic, else 50.
   */
  lemma ReplyScoreUnparsed(raw: string)
    requires ParseInt(raw).None?
    ensures var valid := ValidScores(DigitRuns(raw));
      ReplyScore(raw) == if valid != [] then valid[0] else PhraseScore(raw).GetOr(50)
  {
  }

  /** The embedded integers kept are the digit runs whose decimal value is at most 100. */
  lemma {:induction false} ValidScoresOfRuns(runs: seq<string>)
    requires forall k :: 0 <= k < |runs| ==> runs[k] != [] && AllDigits(runs[k])
    ensures ValidScores(runs) == ValuesUpTo100(runs)
  {
    if runs != [] {
      ParseIntOfRun(runs[0]);
      ValidScoresOfRuns(runs[1..]);
    }
  }

  /** The decimal values of the runs that are at most 100, in order. */
  function ValuesUpTo100(runs: seq<string>): seq<int>
    requires forall k :: 0 <= k < |runs| ==> runs[k] != [] && AllDigits(runs[k])
  {
    if runs == [] then []
    else
      assert AllDigits(runs[0]);
      assert forall i :: 0 <= i < |runs[0]| ==> IsHexDigit(runs[0][i]);
      var v := DigitsValue(runs[0], 10);
      (if v <= 100 then [v] else []) + ValuesUpTo100(runs[1..])
  }

  const ExampleReply: string := "相关度大约是65分左右"

  /** "相关度大约是65分左右" ("relevance is about 65 points") scores 65. */
  lemma ReplyScoreExample(raw: string)
    requires raw == ExampleReply
    ensures ReplyScore(raw) == 65
  {
    ExampleNotParsed();
    ExampleRuns();
    ExampleScores();
    FirstValidScore(raw, ["65"]);
  }

  lemma ExampleScores()
    ensures ValidScores(["65"]) == [65]
  {
    var m := "65";
    ParseIntOfRun(m);
    assert DigitsValue(m, 10) == 65 by {
      assert m[..1] == "6";
    }
    ValidScoresOne(m, 65);
  }

  /** A single match that parses to a score in 0..100 is kept. */
  lemma ValidScoresOne(m: string, v: int)
    requires ParseInt(m) == Some(v) && 0 <= v <= 100
    ensures ValidScores([m]) == [v]
  {
    assert [m][1..] == [];
  }

  /** An unparsed reply whose digit runs give a score in 0..100 scores the first of them. */
  lemma FirstValidScore(raw: string, runs: seq<string>)
    requires ParseInt(raw).None? && DigitRuns(raw) == runs && ValidScores(runs) != []
    ensures ReplyScore(raw) == ValidScores(runs)[0]
  {
  }

  lemma ExampleNotParsed()
    ensures ParseInt(ExampleReply).None?
  {
    var s := ExampleReply;
    assert !IsSpace(s[0]) && !IsDigit(s[0]) && s[0] != '-' && s[0] != '+';
    assert TrimStart(s) == s;
  }

  lemma ExampleRuns()
    ensures DigitRuns(ExampleReply) == ["65"]
  {
    var s := ExampleReply;
    SkipNonDigits(s, 6);
    var t := "65分左右";
    assert s[6..] == t;
    ExampleRunsTail(t);
  }

  lemma ExampleRunsTail(t: string)
    requires t == "65分左右"
    ensures DigitRuns(t) == ["65"]
  {
    var u := "分左右";
    assert t[2..] == u && t[1..] == "5" + u;
    assert DigitPrefix(u, false) == [] by { assert !IsDigit(u[0]); }
    assert DigitPrefix(t, false) == "65" by {
      assert DigitPrefix(t[1..], false) == "5";
    }
    SkipNonDigits(u, 3);
    assert u[3..] == [];
  }
}
