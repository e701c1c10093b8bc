/**
 * The text handed to the AI and the snippet cut from it, shared by both pipelines (the
 * code is the same; only the length budget differs). The text is the matched rows joined
 * with blank lines, or the workbook sample when nothing matched; it is normalized, then
 * used as it is when it fits the budget. A longer text with matches becomes the first
 * 500 characters followed by the leading matched rows that fit in 1000 characters; one
 * without matches becomes its beginning, middle and end.
 */
module Snippet {
  import opened Wrappers
  import opened JsString
  import opened Spreadsheet
  import opened KeywordMatch
  import opened Sorting

  /** Texts shorter than this are refused as too little content. */
  const MinTextLength: nat := 10
  /** `textForAnalysis.substring(0, 500)` */
  const IntroLength: nat := 500
  /** The limit `importantMatches` must stay under (with 10 characters to spare). */
  const ImportantLimit: nat := 1000

  /** The `content` of each matched row. */
  function Contents(ms: seq<MatchedLine>): (cs: seq<string>)
    ensures |cs| == |ms|
    ensures forall k :: 0 <= k < |ms| ==> cs[k] == ms[k].content
  {
    if ms == [] then [] else [ms[0].content] + Contents(ms[1..])
  }

  /** `matchedLines.map(line => line.content).join('\n\n')` */
  function MatchedText(ms: seq<MatchedLine>): string {
    Join(Contents(ms), "\n\n")
  }

  /** The rank of a matched row: 2 when its lower-cased content contains the lower-cased query, else 1. */
  function RankKey(toLower: CaseMap, query: string, m: MatchedLine): int {
    if Contains(toLower(m.content), toLower(query)) then 2 else 1
  }

  /** `[...matchedLines].sort((a, b) => rank(b) - rank(a))`: higher rank first, stable among equals. */
  function Ranked(toLower: CaseMap, query: string, ms: seq<MatchedLine>): seq<MatchedLine> {
    Sort(ms, (a, b) => RankKey(toLower, query, b) - RankKey(toLower, query, a) <= 0)
  }

  /**
   * The loop building `importantMatches` from `ranked` onto `acc`: each row is appended
   * with a blank line while the text, the row and 10 more characters stay under 1000;
   * the first row that does not fit ends the loop.
   */
  function Important(ranked: seq<MatchedLine>, acc: string): string {
    if ranked == [] then acc
    else if |acc| + |ranked[0].content| + 10 < ImportantLimit then Important(ranked[1..], acc + ranked[0].content + "\n\n")
    else acc
  }

  /** The beginning (40% of the budget), a middle window (40%) and the end (20%) of the text, cut to the budget. */
  function ThreeZones(text: string, budget: nat): string {
    var wide := (2 * budget) / 5;
    var narrow := budget / 5;
    var n := |text|;
    var beginning := Substring(text, 0, wide);
    var middle := Substring(text, (n - 2 * narrow) / 2, (n + 2 * narrow) / 2);
    var end := SubstringFrom(text, n - narrow);
    var zones := beginning + "\n\n" + middle + "\n\n" + end;
    if |zones| > budget then Substring(zones, 0, budget) else zones
  }

  /** The snippet for a normalized `text`, the matched rows `ms` and a length budget. */
  function Snippet(toLower: CaseMap, query: string, text: string, ms: seq<MatchedLine>, budget: nat): (r: string)
    ensures |r| <= budget
    ensures |text| <= budget ==> r == text
  {
    if |text| <= budget then text
    else if |ms| > 0 then
      var important := Important(Ranked(toLower, query, ms), []);
      var combined := Substring(text, 0, IntroLength) + "\n\n" + important;
      if |combined| > budget then Substring(combined, 0, budget) else combined
    else ThreeZones(text, budget)
  }

  // ---------------------------------------------------------------- the loop

  /** The loop building `importantMatches`. */
  method ImportantMatches(ranked: seq<MatchedLine>) returns (important: string)
    ensures important == Important(ranked, [])
    ensures |important| < ImportantLimit - 8
  {
    important := [];
    var k := 0;
    while k < |ranked|
      invariant 0 <= k <= |ranked|
      invariant Important(ranked[k..], important) == Important(ranked, [])
      invariant |important| < ImportantLimit - 8
    {
      var content := ranked[k].content;
      assert ranked[k..][1..] == ranked[k + 1..];
      if |important| + |content| + 10 < ImportantLimit {
        important := important + content + "\n\n";
      } else {
        break;
      }
      k := k + 1;
    }
  }

  /** The snippet, built as the source builds it. */
  method BuildSnippet(toLower: CaseMap, query: string, text: string, ms: seq<MatchedLine>, budget: nat) returns (snippet: string)
    ensures snippet == Snippet(toLower, query, text, ms, budget)
  {
    if |text| <= budget {
      snippet := text;
    } else if |ms| > 0 {
      var ranked := Ranked(toLower, query, ms);
      var important := ImportantMatches(ranked);
      var intro := Substring(text, 0, IntroLength);
      snippet := intro + "\n\n" + important;
      if |snippet| > budget {
        snippet := Substring(snippet, 0, budget);
      }
    } else {
      snippet := ThreeZones(text, budget);
    }
  }

  // ---------------------------------------------------------------- properties

  /** `importantMatches` stays under 992 characters: each row is added only when 10 more would still fit under 1000. */
  lemma {:induction false} ImportantBound(ranked: seq<MatchedLine>, acc: string)
    requires |acc| < ImportantLimit - 8
    ensures |Important(ranked, acc)| < ImportantLimit - 8
    ensures acc <= Important(ranked, acc)
  {
    if ranked != [] && |acc| + |ranked[0].content| + 10 < ImportantLimit {
      var next := acc + ranked[0].content + "\n\n";
      ImportantBound(ranked[1..], next);
      assert acc <= next;
    }
  }

  /**
   * With matches, a text longer than a budget of at least 1500 gives the first 500
   * characters, a blank line and `importantMatches`, shorter than 1500 characters: the
   * truncation to the budget never cuts it.
   */
  lemma MatchedSnippet(toLower: CaseMap, query: string, text: string, ms: seq<MatchedLine>, budget: nat)
    requires |text| > budget >= 1500 && |ms| > 0
    ensures var important := Important(Ranked(toLower, query, ms), []);
      && Snippet(toLower, query, text, ms, budget) == text[..IntroLength] + "\n\n" + important
      && |important| < ImportantLimit - 8
      && |Snippet(toLower, query, text, ms, budget)| < 1500
  {
    ImportantBound(Ranked(toLower, query, ms), []);
  }

  /**
   * Without matches, a text longer than the budget (2000, or 3000 in deep mode) gives
   * exactly the budget's length: the zones add up to the budget plus the two blank lines,
   * and the cut removes those four characters from the end.
   */
  lemma ZonesSnippet(text: string, budget: nat)
    requires budget % 5 == 0 && |text| > budget
    ensures var n := |text|;
      && |ThreeZones(text, budget)| == budget
      && ThreeZones(text, budget) ==
         (text[..2 * budget / 5] + "\n\n" + text[(n - 2 * (budget / 5)) / 2..(n + 2 * (budget / 5)) / 2] + "\n\n"
          + text[n - budget / 5..])[..budget]
  {
    var n := |text|;
    var wide := (2 * budget) / 5;
    var narrow := budget / 5;
    ZoneBounds(n, budget);
    var beginning := text[..wide];
    var middle := text[(n - 2 * narrow) / 2..(n + 2 * narrow) / 2];
    var end := text[n - narrow..];
    assert Substring(text, 0, wide) == beginning;
    assert Substring(text, (n - 2 * narrow) / 2, (n + 2 * narrow) / 2) == middle;
    assert SubstringFrom(text, n - narrow) == end;
    var zones := beginning + "\n\n" + middle + "\n\n" + end;
    assert |zones| == budget + 4;
  }

  /** The three windows lie inside a text longer than the budget and add up to it. */
  lemma ZoneBounds(n: nat, budget: nat)
    requires budget % 5 == 0 && n > budget
    ensures 0 <= (2 * budget) / 5 <= n
    ensures 0 <= (n - 2 * (budget / 5)) / 2 <= (n + 2 * (budget / 5)) / 2 <= n
    ensures (n + 2 * (budget / 5)) / 2 - (n - 2 * (budget / 5)) / 2 == 2 * (budget / 5)
    ensures 0 <= n - budget / 5 <= n
    ensures (2 * budget) / 5 + 2 * (budget / 5) + budget / 5 == budget
  {
  }

  /** Without matches and with the text over budget, the snippet is the cut zones. */
  lemma NoMatchSnippet(toLower: CaseMap, query: string, text: string, budget: nat)
    requires budget % 5 == 0 && |text| > budget
    ensures Snippet(toLower, query, text, [], budget) == ThreeZones(text, budget)
    ensures |Snippet(toLower, query, text, [], budget)| == budget
  {
    ZonesSnippet(text, budget);
  }

  /**
   * The ranking changes nothing for rows that contain the query: all of them have rank 2,
   * so the stable sort keeps their order.
   */
  lemma RankedIdentity(toLower: CaseMap, query: string, ms: seq<MatchedLine>)
    requires forall k :: 0 <= k < |ms| ==> Contains(toLower(ms[k].content), toLower(query))
    ensures Ranked(toLower, query, ms) == ms
  {
    var le := (a, b) => RankKey(toLower, query, b) - RankKey(toLower, query, a) <= 0;
    forall i, j | 0 <= i < j < |ms| ensures le(ms[i], ms[j]) {
      assert RankKey(toLower, query, ms[i]) == 2 && RankKey(toLower, query, ms[j]) == 2;
    }
    SortKeepsOrder(ms, le);
  }
}
