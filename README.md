# ExcelAIFinder relevance scoring, modelled in Dafny

ExcelAIFinder takes uploaded spreadsheets and a search query and ranks the files by
how relevant they are to the query. Each file gets a score from 0 to 100. The scoring
of one file is implemented twice:

- `analyzeExcelContent` in `server/index.js` (the first server), and
- `analyzeExcelContent` in `restructure/server/services/excel.js`, which asks the AI
  service `restructure/server/services/ai.js` for its score (the restructured server).

Both pipelines take the same steps. They check the file and the query. They scan every
sheet for rows whose text contains the query, keeping at most 100 rows. They build
the text to analyze: the matched rows, or a sample of the workbook when nothing
matched. They normalize that text and cut a snippet of it to fit a length budget.
Two "skip" rules then score files with enough keyword evidence directly. Otherwise
an AI model is asked, a score is read from its reply, and a floor raises low scores of
files with matched rows. The two pipelines differ in what they check, how they read
the reply, and how they fail. The model keeps each one as written.

Around this core the project also models:

- the upload endpoint's threshold filter, labels and result ordering;
- the `.env` editing of both servers;
- the restructured server's bounded API log and its configuration controller;
- the upload file filters;
- the source listing with front and back page windows that feeds the "program
  material" document;
- project statistics (languages, per-extension counts, frameworks) and the ordered
  file tree of an uploaded project.

**How the model is built.** The modules follow the source:

- Shared string and number semantics: `JsString`, `JsNumber`, `Sorting`.
- The scoring steps, which the two pipelines share textually: `Spreadsheet`,
  `KeywordMatch`, `Sampling`, `Snippet`, `Intake`, `Policy`.
- The pipelines and the route: `ReplyScore` with `LegacyAnalysis`, then `AiService`
  with `ServiceAnalysis`, then `AnalyzeRoute`.
- Also modelled: `DotEnv`, `ApiLog`, `ConfigController`, `UploadFilter`,
  `SourceListing`, `ProjectStats`, `FileTree`.

Code that loops or mutates is a method proved against a specification function. This
covers the scan, the sampling loops, the `importantMatches` loop, `updateEnvVar`, the
log, the environment save/restore, the directory walk, the counting loop and the
framework detection. The function's properties are then proved as lemmas.

Everything outside the program is an input of the model:

- the file-system state and the parsed workbook (`Spreadsheet.FileRead`);
- the settled HTTP request (`Http.Outcome`: the reply body, or the error axios
  rejects with);
- the process environment (`Environment.Env`);
- directory listings (`SourceListing.Entry`, `FileTree.Item`, `ProjectStats.Listed`);
- the clock and the random number in stored file names.

`String.prototype.toLowerCase` is a parameter (`JsString.CaseMap`), so every property
holds for any case mapping.

Notes on what the code does:

- The match-count floor only replaces AI scores below 50. The comment on it
  (`server/index.js:563`, `restructure/server/services/excel.js:307`) promises a
  relevance of at least 50 when rows matched, and the code keeps exactly that promise:
  a score of 50 or more stays as it is, even when it lies under 50 + min(2n, 50).
  `Policy.FloorOnlyRaisesLowScores` gives such a case.
- On a timeout with matched rows the first pipeline falls back to 50 + min(5n, 50).
  The second pipeline gets the AI service's default of 50, which the floor leaves
  alone. `ServiceAnalysis.TimeoutDisagreement` shows the two giving 60 and 50.
- The phrase heuristic of `extractNumber` never returns 35. Every phrase of that
  branch contains 相关, which the branch before it tests. For the same reason a reply
  saying 不相关 ("not relevant") scores 65, not 10 (`ReplyScore.PhraseScoreValues`).
- `restructure/server/services/ai.js:127` reads `config.analysis.analysisTimeout`, but
  `restructure/server/config/default.js:31-38` defines only `timeout`. The request
  therefore has no timeout of its own. The model takes the request's outcome as an
  input, so this changes nothing in it.

## Model

| member | source | states |
|---|---|---|
| JsString.Normalize | server/index.js:284 | `replace(/\s+/g, ' ').trim()` is the words of the text (its maximal runs without white space), in order, joined by single blanks; it never lengthens the text and leaves no white space but single inner blanks |
| JsString.NormalizeIdempotent | restructure/server/services/excel.js:218 | normalizing twice is normalizing once |
| JsString.TrimEmptyIff | server/index.js:135 | `q.trim() === ''` holds exactly when the query is all white space |
| JsString.ContainsIff | server/index.js:200 | `includes` holds exactly when the query occurs at some index of the row text |
| JsString.Substring | server/index.js:313 | `substring(start, end)` is the slice when the bounds lie inside the string, and the whole string when they span it |
| JsString.JoinSplit | server/routes/generate.js:226 | splitting on a character and joining with it again gives the text back |
| JsString.ExtNameOfStem | restructure/server/middleware/upload.js:25 | `path.extname` of a dot-free, slash-free stem followed by an extension is that extension |
| JsString.IndexOfDistinct | server/index.js:267-269 | in a list of distinct sheet names, `indexOf` finds the position of each name |
| JsNumber.ParseIntDefinedIff | server/index.js:538 | `parseInt` is a number exactly when, after white space and an optional sign, a digit follows, or after `0x` a hexadecimal digit |
| JsNumber.ParseIntNatToString | server/index.js:500-503 | `parseInt(String(n)) === n` for every non-negative integer |
| JsNumber.DigitRunsEmptyIff | restructure/server/services/ai.js:157-158 | the digit-run match is null exactly when the text has no digit |
| JsNumber.ParseIntOfRun | server/index.js:509-510 | every match of `/\d+/g` parses to its decimal value, never NaN or negative |
| JsNumber.SkipNonDigits | server/index.js:506 | leading characters that are not digits start no digit run |
| JsNumber.FirstRunOf | restructure/server/services/ai.js:157-158 | a run of digits followed by a non-digit, or by nothing, is the first match of `/\d+/g`, and matching goes on after it |
| Sorting.SortPermutation | server/index.js:772 | the comparator sort only reorders: same elements, as often |
| Sorting.SortSorted | server/index.js:772-778 | with a comparator that orders totally, the sorted result is ordered by it |
| Sorting.SortKeepsOrder | restructure/server/services/excel.js:232-236 | a list already in order (no element has to move) comes back unchanged |
| Sorting.SortStable | server/index.js:772-778 | the sort is stable: for a transitive comparator, the elements that compare equal to any given one come out in their input order (equal matched-ness and relevance keep upload order) |
| Sorting.CodeUnitTotal | server/routes/generate.js:220 | `localeCompare` (as the order of character codes) orders any two strings one way or the other |
| Sorting.CodeUnitTransitive | server/routes/project.js:394 | the name order is transitive |
| Sorting.CodeUnitAntisymmetric | server/routes/generate.js:220 | strings ordered both ways are equal |
| Spreadsheet.MatchCells | server/index.js:184-195 | the matched row has exactly one text per cell, and the k-th text is that of the k-th cell ('' for null) |
| Spreadsheet.SampleCells | server/index.js:234-244 | the sampled row is the texts of the non-null cells, in order (the cell texts of the filtered row), at most one per cell and exactly one per cell when no cell is null |
| Spreadsheet.NonNull | server/index.js:235 | the filter keeps every non-null cell and only those, and keeps a row with no null cell unchanged |
| Spreadsheet.NonNullAppend | server/index.js:235 | the filter keeps order and multiplicity: it distributes over concatenation, drops a lone null cell and keeps any other cell |
| Spreadsheet.DatePart | server/index.js:190 | a date cell shows its ISO time stamp up to the first `T`, or all of it when there is none |
| KeywordMatch.MatchRow | server/index.js:180-207 | a row is recorded exactly when it is non-empty and its cell texts joined with a space, lower-cased, contain the lower-cased query; the entry carries the sheet name, the 1-based row number and the cell texts |
| KeywordMatch.ScanRows | server/index.js:173-208 | the row loop keeps the first rows of the sheet's matches up to the cap, and stops exactly when a row is reached with the cap already met |
| KeywordMatch.ScanSheet | restructure/server/services/excel.js:84-142 | a sheet without row data is skipped; any other sheet is recorded with its row count and its rows scanned |
| KeywordMatch.ScanWorkbook | restructure/server/services/excel.js:77-143 | the scan keeps the first `cap` matching rows of the workbook in sheet order, records the sheets it reached, and raises `matchCountExceedsLimit` exactly when a sheet or row is reached after the cap is met |
| KeywordMatch.Scan | server/index.js:143-209 | the scan as the pipelines run it gives the specified result |
| KeywordMatch.Scanned | server/index.js:143-209 | the scan keeps at most `cap` rows, the first of all matching rows in workbook order |
| KeywordMatch.RowReportedIff | server/index.js:197-207 | before the cap applies, an entry is reported exactly when some sheet with row data has a matching row whose entry it is |
| KeywordMatch.ScannedBounds | server/index.js:127 | at most 100 rows are kept; exactly 100 when the flag is raised; the flag is raised whenever more than 100 rows match; without it every matching row is kept |
| KeywordMatch.ScannedContainQuery | restructure/server/services/excel.js:134 | every kept row contains the lower-cased query in its lower-cased text |
| KeywordMatch.ExceedsBounds | server/index.js:145-147 | the flag is only raised when at least the cap of rows match, and then exactly the cap is kept |
| KeywordMatch.TotalMatchesText | server/index.js:358 | `totalMatches` is the count, ending in `+` exactly when the cap was exceeded |
| Sampling.FirstRows | server/index.js:231 | at most the first 15 rows of a sheet are sampled, a prefix of its rows |
| Sampling.SampleSheetRows | server/index.js:232-257 | the row loop of one sheet gives the specified sample of its first 15 rows |
| Sampling.SampleRowAt | server/index.js:233-256 | one row step agrees with the sheet's specified sample: when it stops, its text is that sample; otherwise sampling on from its text gives the same sample |
| Sampling.SampleWorkbook | restructure/server/services/excel.js:155-209 | the sheet loop gives the specified workbook sample |
| Sampling.RowsSampleStep | server/index.js:252-255 | after a non-empty row, a text over 3000 characters ends the sheet with the note, otherwise sampling goes on |
| Sampling.RowsSampleBound | restructure/server/services/excel.js:186-189 | a sheet's text passes 3000 characters by at most one row sample, a line break and the note |
| Sampling.SheetSampleHeader | restructure/server/services/excel.js:162 | each sheet's sample starts with its `【工作表: name】` header after the text so far |
| Sampling.BookSampleExtends | server/index.js:221-275 | sampling only appends to the text it starts from |
| Sampling.BookSampleHeader | server/index.js:228 | the next sheet with rows puts its header right after the text sampled so far |
| Sampling.BookSampleUnchangedIff | server/index.js:222-226 | sampling adds nothing exactly when no remaining sheet has rows |
| Sampling.UnseenSheetsDistinct | server/index.js:266-273 | with distinct sheet names, the note counts exactly the sheets after the current one |
| Snippet.Snippet | server/index.js:288-333 | the snippet never exceeds the budget and is the text itself when the text fits |
| Snippet.ImportantMatches | server/index.js:303-311 | the `importantMatches` loop gives the specified text, under 992 characters |
| Snippet.BuildSnippet | restructure/server/services/excel.js:226-269 | the snippet as built in place equals the specified snippet |
| Snippet.ImportantBound | restructure/server/services/excel.js:239-246 | `importantMatches` stays under 992 characters and only grows |
| Snippet.MatchedSnippet | server/index.js:313-319 | with matches and a budget of at least 1500, the snippet is the first 500 characters, a blank line and `importantMatches`, under 1500 characters, so the cut never applies |
| Snippet.ZonesSnippet | server/index.js:322-332 | without matches (budget a multiple of 5), the snippet is the first two fifths, the middle two fifths and the last fifth of the budget's length, joined by blank lines and cut to exactly the budget |
| Snippet.NoMatchSnippet | restructure/server/services/excel.js:257-268 | a text over budget without matches gives a snippet of exactly the budget's length |
| Snippet.RankedIdentity | restructure/server/services/excel.js:232-236 | when every row contains the query, the ranking sort leaves the rows in order |
| Intake.Prepare | server/index.js:99-333 | the steps before scoring give the specified result |
| Intake.Preparation | server/index.js:99-333 | a snippet is produced only for a readable workbook with sheets and a non-blank query; it fits the budget and comes with at most 100 rows |
| Intake.PreparationStops | server/index.js:99-137 | each early error comes only when every earlier check passed: missing file, unreadable workbook, no sheets, blank query |
| Intake.PreparationReady | server/index.js:279-281 | a snippet is produced only from text of at least 10 characters, measured before normalizing; it fits the budget and comes with the scan's rows, all containing the query |
| Intake.ScanRanking | restructure/server/services/excel.js:232-255 | ranking the scan's rows changes nothing, so a long text with matches becomes its first 500 characters and the rows in scan order |
| Policy.SkipScore | server/index.js:350-376 | the skip applies exactly in exact mode with a match or balanced mode with over 10; over 5 (exact) or over 10 (balanced) gives 70 + min(n, 30), 1 to 5 in exact mode 50 + 5n; always in 51..100 |
| Policy.MatchFloor | server/index.js:566 | the floor 50 + min(2n, 50) lies in 51..100 with matches, and is 100 from 25 matches |
| Policy.ApplyFloor | restructure/server/services/excel.js:308-312 | with matches the score is at least 50; without matches, or at 50 and above, it is unchanged; it stays within 0..100 |
| Policy.TimeoutFallback | server/index.js:590 | the timeout fallback 50 + min(5n, 50) lies in 51..100 with matches, and is 100 from 10 matches |
| Policy.ApplyFloorIdempotent | server/index.js:564-568 | applying the floor twice is applying it once |
| Policy.FloorOnlyRaisesLowScores | server/index.js:564 | a score of 60 with 30 matches stays 60 though the floor would be 100 |
| ReplyScore.ValidScores | server/index.js:509-510 | the kept embedded integers all lie in 0..100 |
| ReplyScore.RelevantInside | server/index.js:525-530 | a text with a "slightly relevant" phrase, or with 不相关, also contains a "relevant" phrase |
| ReplyScore.PhraseScoreValues | server/index.js:522-531 | the phrase heuristic gives only 85, 65, 10 or nothing; 不相关 without a "highly" phrase gives 65 |
| ReplyScore.PhraseScore | server/index.js:522-531 | a phrase score, when there is one, lies in 10..85 |
| ReplyScore.ExtractNumber | server/index.js:498-536 | `extractNumber` always gives a score in 0..100 |
| ReplyScore.ReplyScore | server/index.js:538-546 | every score read from a reply lies in 0..100 |
| ReplyScore.ReplyScoreParsed | server/index.js:538-540 | a reply that `parseInt` accepts is clamped to 0..100 |
| ReplyScore.ReplyScoreOfNumber | server/index.js:538-540 | a reply that is a number up to 100 scores exactly that number |
| ReplyScore.ReplyScoreUnparsed | server/index.js:500-535 | a reply `parseInt` rejects scores its first embedded integer in 0..100, else the phrase heuristic, else 50 |
| ReplyScore.ValidScoresOfRuns | server/index.js:506-511 | the kept integers are the digit runs whose decimal value is at most 100, in order |
| ReplyScore.ReplyScoreExample | server/index.js:538-545 | "相关度大约是65分左右" scores 65 |
| LegacyAnalysis.ExplanationBand | server/index.js:658-672 | the explanation has one of six bands |
| LegacyAnalysis.ExplanationBandMonotone | server/index.js:659-671 | a higher score never falls in a lower band |
| LegacyAnalysis.ExplanationBandBounds | server/index.js:659-670 | the top band starts at 90, the bottom band lies below 20, the middle band is 60..74 |
| LegacyAnalysis.RelevanceExplanation | server/index.js:658-672 | every explanation starts with `内容与"query"` |
| LegacyAnalysis.AnalyzeExcelContent | server/index.js:87-624 | the first pipeline: an early error, or the configuration check, the skip rules and the answer to the request; the score lies in 0..100, the result reports the scan, and the snippet sent fits 2000 characters |
| LegacyAnalysis.ReplyAnswer | server/index.js:476-581 | the result of a 2xx reply scores within 0..100 and reports the scan |
| LegacyAnalysis.FailureAnswer | server/index.js:582-619 | a rejected request scores the timeout fallback 50 + min(5n, 50) when it timed out with matched rows, else 0; the result reports the scan |
| LegacyAnalysis.Answer | server/index.js:476-619 | every answer to a settled request scores within 0..100 and reports the scan |
| LegacyAnalysis.Conclude | server/index.js:336-581 | every result after the snippet scores within 0..100, reports the scan, and sends the snippet when it sends anything |
| LegacyAnalysis.ConfigCheckedFirst | server/index.js:338-347 | without a usable key or URL the result is an error scoring 0, before any skip rule, and no request is made |
| LegacyAnalysis.SkipRules | server/index.js:350-376 | with the configuration present the skip rules give their scores without a request, marked as skipped; otherwise the request is made |
| LegacyAnalysis.RepliedScore | server/index.js:494-581 | a readable reply gives the score read from it, floored to 50 + min(2n, 50) when under 50 with matches, with the matching explanation |
| LegacyAnalysis.MalformedReply | server/index.js:476-491 | a reply without `choices[0].message` gives 50 + min(2n, 50) with a warning when rows matched, and an error otherwise |
| LegacyAnalysis.FailedRequest | server/index.js:582-619 | a timeout with matches gives 50 + min(5n, 50) with a warning; every other failure is an error: 401, another status, no response, or the request error's message |
| LegacyAnalysis.TimeoutExample | server/index.js:584-597 | a timeout with two matches in semantic mode scores 60 |
| AiService.Classify | restructure/server/services/ai.js:194-211 | failures are classified in order, each kind exactly under its condition: timeout, then status 401, 404 or another status, then no response, then a request error |
| AiService.DefaultScore | restructure/server/services/ai.js:214 | the default score is 0 exactly in exact mode, else 50 |
| AiService.DigitScore | restructure/server/services/ai.js:157-163 | the reply's first digit run clamped to 1..100; none exactly when the reply has no digit |
| AiService.DigitScoreEmbedded | restructure/server/services/ai.js:157-163 | a number with no digit before it and a non-digit, or nothing, after it scores that number clamped to 1..100, wherever it sits in the reply |
| AiService.DigitScoreInText | restructure/server/services/ai.js:157-163 | "评分：85分" scores 85 |
| AiService.TestConnection | restructure/server/services/ai.js:21-83 | without URL or key: failure without a request; success exactly when configured and replied, naming a model; a failure's message comes from its classification |
| AiService.AnalyzeContent | restructure/server/services/ai.js:92-220 | every score returned lies in 0..100; the result carries an error exactly when the configuration is complete and the request failed or reading `choices[0].message.content` threw |
| AiService.MissingConfig | restructure/server/services/ai.js:99-106 | without `API_URL` or `API_KEY`: the mode's default score with a warning, no error, nothing logged |
| AiService.FailedRequest | restructure/server/services/ai.js:188-221 | a failed request gives the mode's default score, the classified warning and the error message, and logs nothing |
| AiService.RepliedWithContent | restructure/server/services/ai.js:153-178 | a reply whose trimmed content has a digit scores `DigitScore` of that content, in 1..100, without a warning; without a digit it scores 50 with a warning; either way it is logged with that score |
| AiService.RepliedWithoutChoices | restructure/server/services/ai.js:170-178 | a reply without choices scores 50 with a format warning and is logged |
| AiService.LoggedIff | restructure/server/services/ai.js:178 | the call is logged only when a reply arrived under a complete configuration, and always when such a reply was read without error |
| AiService.DigitScoreOfNumber | restructure/server/services/ai.js:159-163 | a numeric reply scores its value clamped to 1..100 |
| AiService.DigitScoreClamps | restructure/server/services/ai.js:162-163 | "0" scores 1 and "150" scores 100 |
| ServiceAnalysis.SnippetBudget | restructure/server/services/excel.js:222-224 | the budget is 3000 exactly for a deep analysis, else 2000 |
| ServiceAnalysis.AnalyzeExcelContent | restructure/server/services/excel.js:21-328 | the second pipeline: an early error, or the skip rules and the floored AI score; the score lies in 0..100, the result reports the scan, the snippet sent fits the depth's budget |
| ServiceAnalysis.Settle | restructure/server/services/excel.js:272-322 | every result scores within 0..100, reports the scan, and sends the snippet when it sends anything |
| ServiceAnalysis.SettleRequests | restructure/server/services/excel.js:272-305 | the skip rules come first with no configuration check; otherwise the request goes out exactly when `API_URL` and `API_KEY` are set; a log entry implies a reply |
| ServiceAnalysis.ServiceFloor | restructure/server/services/excel.js:308-322 | without a skip the score is the AI service's, floored to 50 + min(2n, 50) when under 50 with matches; its warning is passed on |
| ServiceAnalysis.UnconfiguredScore | restructure/server/services/ai.js:100-106 | unconfigured and without matches, the file scores 0 in exact mode and 50 otherwise |
| ServiceAnalysis.TimeoutDisagreement | restructure/server/services/excel.js:308-312 | on a timeout with two matches in semantic mode the first pipeline scores 60 and the second 50 |
| AnalyzeRoute.Location | server/index.js:739-741 | `suggestedLocation` of an analysed file is never the error label |
| AnalyzeRoute.NonEmpty | server/index.js:745-747 | `value \|\| null` keeps exactly the non-empty strings |
| AnalyzeRoute.EntryOf | server/index.js:736-750 | an analysed file's entry carries its score and a non-error location, with an error exactly when the analysis failed with a message |
| AnalyzeRoute.ThrownEntry | server/index.js:755-764 | a file whose analysis threw scores 0 with the error label and an error message |
| AnalyzeRoute.RouteExplanation | server/index.js:721-732 | every explanation starts with 内容与搜索, and it is the lowest one exactly for scores up to 20 |
| AnalyzeRoute.Threshold | server/index.js:686 | an absent or empty field gives the threshold 0 |
| AnalyzeRoute.CollectedAt | server/index.js:705-769 | each file that threw, and each analysed file reaching the threshold, has its own entry (the thrown-error entry or the one built from its result), placed after the entries of the kept files before it |
| AnalyzeRoute.KeptBeforeIncreasing | server/index.js:705-769 | the entries of kept files follow file order: a later file's entry comes after an earlier kept file's |
| AnalyzeRoute.Compare | server/index.js:772-778 | the comparator puts `a` first exactly when `a` has matched rows and `b` none, or both are alike in that and `a` is more relevant |
| AnalyzeRoute.AddResult | server/index.js:735-764 | a thrown file is always added; an analysed file is added exactly when it reaches the threshold |
| AnalyzeRoute.CollectResults | server/index.js:705-769 | the loop over the files builds exactly the entries of the kept files, in file order (`Collected`) |
| AnalyzeRoute.UploadAndAnalyze | server/index.js:680-803 | the endpoint: a missing query or no files is a 400 error; otherwise every file is counted, the kept entries are sorted, and the results are ordered |
| AnalyzeRoute.PrecedesOrders | server/index.js:772-778 | the comparator orders totally and transitively |
| AnalyzeRoute.SortedResults | server/index.js:772-778 | sorting only reorders the entries: files with matched rows come first, each group by descending relevance |
| AnalyzeRoute.CollectedKept | server/index.js:735-753 | every collected entry reached the threshold or records a thrown error |
| AnalyzeRoute.CollectedCount | server/index.js:705-769 | the entry count is the number of kept files; it lies between the thrown files and all files, and equals all files exactly when each threw or reached the threshold |
| AnalyzeRoute.UnparsableThreshold | server/index.js:686 | a threshold that does not parse filters out every file that did not throw |
| AnalyzeRoute.ThresholdParses | server/index.js:686 | the threshold is `parseInt` of the field, or of `'0'` when it is absent or empty |
| AnalyzeRoute.LabelsAgree | server/index.js:722-741 | the location says "very likely" exactly when the explanation says "highly relevant", and the lowest location is exactly the scores up to 50 |
| DotEnv.NonBlank | server/index.js:842 | the kept lines are lines of the file, none blank |
| DotEnv.FirstWith | server/index.js:848-853 | the found line is the first starting with `name=`; none found means no line does |
| DotEnv.Updated | server/index.js:845-859 | the updated lines hold `name=value`, and are as many as before or one more |
| DotEnv.EnvFile.constructor | server/index.js:842 | the held lines are the file's non-blank lines |
| DotEnv.EnvFile.Update | server/index.js:845-859 | `updateEnvVar` rewrites the first line starting with `name=` in place, or appends `name=value` |
| DotEnv.SaveConfig | server/index.js:824-883 | a missing URL or key is a 400 error with nothing written; otherwise the updated lines are written with newlines and a final newline, and the environment gets the same values |
| DotEnv.UpdatedFinds | server/index.js:845-859 | after an update the first `name=` line is `name=value`, no other line changes, and the list grows exactly when no line matched |
| DotEnv.UpdatedIdempotent | server/index.js:861-869 | updating twice with the same value is updating once |
| DotEnv.ReadBack | server/index.js:842-873 | the written text reads back as the same lines |
| DotEnv.UpdatedWellFormed | server/index.js:842-859 | lines read from any file, and updated with newline-free values, stay fit to write |
| ApiLog.LastN | restructure/server/utils/logger.js:94-96 | `slice(-50)` keeps the newest 50 entries, a suffix of the list |
| ApiLog.Log.Stored | restructure/server/utils/logger.js:106-119 | `getApiLogs` gives exactly the parsed list when the stored file parses, and `[]` when it is absent, empty or does not parse |
| ApiLog.Log.LogApiResponse | restructure/server/utils/logger.js:69-103 | the stored list becomes the newest 50 after the new entry is appended; an unparsable file or a failed write leaves the file as it was |
| ApiLog.AppendedLog | restructure/server/utils/logger.js:91-96 | after a call: 1 to 50 entries, the new one last, after the newest old ones in order; nothing dropped below 50 |
| ApiLog.LastNAppend | restructure/server/utils/logger.js:94-96 | trimming then appending and trimming equals trimming the whole history |
| ApiLog.ReplayedNewest | restructure/server/utils/logger.js:69-103 | after any number of calls the log holds the newest 50 entries ever appended, in order |
| ConfigController.Lookup | restructure/server/controllers/configController.js:28-31 | a found value is stored under that key |
| ConfigController.Put | restructure/server/controllers/configController.js:63-77 | an assignment keeps the length or appends the key |
| ConfigController.View | restructure/server/controllers/configController.js:24-32 | the shown key is the mask or empty, never the stored key |
| ConfigController.ProcessEnv.Populate | restructure/server/controllers/configController.js:24 | reading the `.env` file adds to the environment each parsed variable it lacks; defined variables keep their values |
| ConfigController.GetApiConfig | restructure/server/controllers/configController.js:21-40 | the reply is the masked view of the parsed settings, and the environment gains the file's variables it lacked |
| ConfigController.PopulatedValues | restructure/server/controllers/configController.js:24 | after reading, a defined variable keeps its value, and an undefined one is defined exactly when the file has it, with the file's value |
| ConfigController.KeyNeverShown | restructure/server/controllers/configController.js:29 | the shown key depends only on whether a key is stored |
| ConfigController.ConfigDefaults | restructure/server/controllers/configController.js:27-32 | without settings: empty URL and key, model DeepSeek-R1, 32768 tokens |
| ConfigController.PutLookup | restructure/server/controllers/configController.js:63-77 | after `obj[key] = value` the key reads as the value, other keys as before, and keys are neither lost nor reordered |
| ConfigController.MergedSettings | restructure/server/controllers/configController.js:62-77 | a given URL (even empty) replaces the stored one and an absent one keeps it; a given key other than the mask replaces the stored key, the mask or an absent key keeps it; a truthy model or max tokens is written, a non-truthy one keeps `API_MODEL` or `API_MAX_TOKENS`; other variables keep their values |
| ConfigController.Merged | restructure/server/controllers/configController.js:62-77 | the merge keeps every entry and adds at most the four named settings |
| ConfigController.PutKeeps | restructure/server/controllers/configController.js:63-77 | an assignment loses no key |
| ConfigController.MergedKeeps | restructure/server/controllers/configController.js:62-77 | the merge keeps every key the file had |
| ConfigController.PutShape | restructure/server/controllers/configController.js:63-77 | an assignment renames no key, and adds its key last only when no entry had it |
| ConfigController.PutUnique | restructure/server/controllers/configController.js:63-77 | an assignment keeps the keys of an object unique |
| ConfigController.MergedUnique | restructure/server/controllers/configController.js:59-77 | the merge of a file's settings never repeats a key |
| ConfigController.LookupFound | restructure/server/controllers/configController.js:28-31 | a key is found exactly when some entry has it |
| ConfigController.ToMapFound | restructure/server/controllers/configController.js:88-90 | a variable is assigned by the `forEach` exactly when some entry has it |
| ConfigController.ToMapLookup | restructure/server/controllers/configController.js:88-90 | with unique keys, the `forEach` assigns each key its entry's value |
| ConfigController.PopulateSuperseded | restructure/server/controllers/configController.js:59-90 | every variable that reading the file added is assigned again by the `forEach`, so the environment ends as the merged settings over the old environment |
| ConfigController.Merge | restructure/server/controllers/configController.js:62-77 | the assignments give the specified merge |
| ConfigController.UpdateApiConfig | restructure/server/controllers/configController.js:47-99 | neither URL nor key is a 400 error with nothing written and the environment unchanged; otherwise the merged `KEY=VALUE` lines are written, no key repeats, and the environment becomes the old one with every merged entry assigned |
| ConfigController.ProcessEnv.Assign | restructure/server/controllers/configController.js:88-90 | every entry is copied to the environment, later entries winning |
| ConfigController.ProcessEnv.Override | restructure/server/controllers/configController.js:115-125 | URL, key unless the mask, and model override the environment when non-empty |
| ConfigController.Overridden | restructure/server/controllers/configController.js:115-125 | a non-empty URL, and a non-empty key other than the mask, are set; no variable other than `API_URL`, `API_KEY` and `API_MODEL` changes |
| ConfigController.ProcessEnv.Restore | restructure/server/controllers/configController.js:131-137 | the saved variables are set back, or deleted when they were undefined |
| ConfigController.TestApiConnection | restructure/server/controllers/configController.js:106-152 | the connection result is the one under the overrides, and the environment afterwards is exactly what it was |
| ConfigController.AgreeOverridden | restructure/server/controllers/configController.js:115-125 | the overrides change no variable other than `API_URL`, `API_KEY` and `API_MODEL` |
| ConfigController.RestoredOriginal | restructure/server/controllers/configController.js:109-137 | restoring the saved variables undoes the overrides exactly |
| UploadFilter.FiltersAgree | server/index.js:37-51 | the two spreadsheet filters decide alike on every file |
| UploadFilter.ExcelRejection | restructure/server/middleware/upload.js:35-49 | a file is rejected exactly when neither its type nor its lower-cased extension is allowed, with the fixed message |
| UploadFilter.OctetStreamAccepted | restructure/server/middleware/upload.js:37 | `application/octet-stream` is accepted whatever the name |
| UploadFilter.UpperCaseExtension | restructure/server/middleware/upload.js:40-41 | `.XLSX` passes with any type when lower-casing maps it to `.xlsx` |
| UploadFilter.TextTypesAccepted | server/routes/project.js:41 | every `text/` type passes the project filter |
| UploadFilter.ProjectRejection | server/routes/project.js:32-46 | a project file is refused exactly when neither its extension nor its type is allowed, and the error names the extension |
| UploadFilter.StoredNameExtension | restructure/server/middleware/upload.js:21-31 | the stored name keeps the original's extension |
| SourceListing.FindSourceFiles | server/routes/generate.js:186-215 | the recursive walk appends the specified files in listing order |
| SourceListing.Visit | server/routes/generate.js:189-213 | one entry: descend into a directory not skipped, or collect a readable source file |
| SourceListing.FoundAppend | server/routes/generate.js:189 | the files of two lists of entries are those of each, in order |
| SourceListing.FoundAreSources | server/routes/generate.js:202 | every collected path has one of the 13 source extensions |
| SourceListing.ExtNameOfJoin | server/routes/generate.js:194 | the extension of a joined path is that of its last name |
| SourceListing.PathOrder | server/routes/generate.js:220 | the path order is total and transitive |
| SourceListing.CollectLines | server/routes/generate.js:223-228 | the loop builds the specified listing |
| SourceListing.ListingLength | server/routes/generate.js:241 | `totalLines` is the sum over files of their lines plus 2 |
| SourceListing.ListingHasBlock | server/routes/generate.js:224-228 | each file's header, lines and blank line sit right after the blocks of the files before it |
| SourceListing.BlockRoundTrip | server/routes/generate.js:226 | a file's text reads back from its block |
| SourceListing.Summaries | server/routes/generate.js:243 | one summary per listed file, in order: the i-th carries the i-th file's path and its number of lines (`content.split('\n').length`) |
| SourceListing.CeilDiv | server/routes/generate.js:231 | `totalPages` is the least page count covering the lines; with 0 lines per page it is Infinity or NaN |
| SourceListing.CutWindows | server/routes/generate.js:232-236 | the slices give the specified windows |
| SourceListing.ExtractSourceCode | server/routes/generate.js:174-245 | the extraction, for the request's options with defaults filled in, returns the specified windows, totals and summaries |
| SourceListing.Resolve | server/routes/generate.js:175-180 | each option the request gives is kept, and each one it leaves out takes its default (3000, 30, 30, 50) |
| SourceListing.NoOptionsWindows | server/routes/generate.js:14 | a request with `options = {}` uses the defaults, 1500 lines in each window |
| SourceListing.Extraction | server/routes/generate.js:174-245 | the two windows together hold no more lines than the listing; the front one at most `frontPages` pages, the back one at most `backPages` pages |
| SourceListing.ExtractionFiles | server/routes/generate.js:217-243 | the listed files are exactly the collected ones, ordered by path; `totalLines` agrees with the summaries |
| SourceListing.WindowsShape | server/routes/generate.js:232-236 | the front window is a prefix of `frontPages` pages, or the whole listing when shorter; the back window is a suffix of at most `backPages` pages; the two do not overlap |
| SourceListing.WindowsCoverShort | server/routes/generate.js:233-236 | a listing that fits both windows is covered exactly, without overlap |
| SourceListing.WindowsLong | server/routes/generate.js:233-236 | a longer listing fills both windows and leaves out the middle |
| ProjectStats.DetectLanguage | server/routes/project.js:291-313 | a language exists exactly for the mapped extensions |
| ProjectStats.LanguageDomain | server/routes/project.js:292-310 | the mapped extensions are the seventeen listed |
| ProjectStats.ListedSourcesHaveLanguage | server/routes/project.js:277 | every extension the source listing collects has a language |
| ProjectStats.NoLanguageForDataFiles | server/routes/project.js:312 | `.json`, `.md` and no extension have no language |
| ProjectStats.Bump | server/routes/project.js:274 | an increment adds one to its key only, adds one to the sum, and adds the key last when it is new |
| ProjectStats.BumpDistinct | server/routes/project.js:279 | increments keep the keys distinct |
| ProjectStats.CountFiles | server/routes/project.js:265-282 | the counting loop gives the specified statistics |
| ProjectStats.Tally | server/routes/project.js:265-281 | `totalFiles` never exceeds the number of listed entries |
| ProjectStats.TallyConsistent | server/routes/project.js:265-281 | `totalFiles` counts the regular files other than `project.json` and `totalSize` is the sum of their sizes; the per-extension counts sum to the file count; the language counts sum to at most it; keys are distinct |
| ProjectStats.TallyPerExtension | server/routes/project.js:273-274 | each extension's count is the number of counted files with that extension |
| ProjectStats.DetectFrameworks | server/routes/project.js:316-355 | the detection gives the specified frameworks |
| ProjectStats.FromDependencies | server/routes/project.js:324-332 | each dependency row adds at most one framework |
| ProjectStats.WithConfigs | server/routes/project.js:346-352 | the configuration loop keeps what was found and adds at most one name per row |
| ProjectStats.Frameworks | server/routes/project.js:316-355 | at most 11 frameworks are detected, one per table row |
| ProjectStats.FromDependenciesMembers | server/routes/project.js:324-332 | a framework comes from the dependencies exactly when its dependency is declared |
| ProjectStats.WithConfigsDistinct | server/routes/project.js:346-352 | the configuration loop adds only absent names |
| ProjectStats.DetectedFrameworks | server/routes/project.js:316-355 | the frameworks have no repetitions, start with the dependency frameworks, and contain a name exactly when a declared dependency or a present configuration file gives it |
| ProjectStats.NoPackageNoDependencies | server/routes/project.js:321-335 | without a readable `package.json` no framework comes from dependencies |
| FileTree.BuildFileTree | server/routes/project.js:358-396 | the recursive build gives the specified tree |
| FileTree.Unsorted | server/routes/project.js:362-387 | a level has at most one node per listed entry |
| FileTree.Tree | server/routes/project.js:358-396 | `buildFileTree` gives at most one node per listed entry |
| FileTree.NodeOrder | server/routes/project.js:389-395 | the comparator orders totally and transitively |
| FileTree.TreeShown | server/routes/project.js:363 | at every depth the tree omits `project.json` and is ordered |
| FileTree.OrderedLevel | server/routes/project.js:391-394 | in a level, directories come before files, and each kind is in name order |
| FileTree.TreeContents | server/routes/project.js:362-387 | a level holds exactly the nodes of its entries other than `project.json` |
| FileTree.UnsortedFrom | server/routes/project.js:362-386 | every node is the node of some listed entry other than `project.json` |

## Left out

- Reading files, directories and `.env` files, and parsing XLSX, JSON and dotenv text: their results are inputs (`FileRead`, `Entry`, `Item`, `Listed`, `PackageJson`, `LogFile`, the parsed settings). Writes are returned as the text written.
- HTTP requests: the model takes the settled outcome as an input (`Http.Outcome`). The prompt texts, `max_tokens`, `temperature`, timeouts and the request payloads are fixed text, and not modelled. The `parseInt` of the token limit is not modelled either.
- Express and multer wiring is not modelled: routing, static serving, health check, `GET /api/config` and `POST /api/test-connection` of `server/index.js`, response status codes other than the 400 errors, and deleting temporary files.
- Outer `catch` blocks that turn an unexpected exception into an error result (`server/index.js:620-623`, `restructure/server/services/excel.js:324-327`, the route's 790-802): the model's operations do not throw. A thrown analysis of one file is an input of the route (`AnalyzeRoute.FileAnalysis.Threw`).
- `analyzeTextSentiment` (`server/index.js:627-655`) is floating-point arithmetic and is never called.
- `localeCompare` is taken as the order of character codes. ICU collation is not modelled.
- String lengths and cuts are counted in Unicode code points, one `char` each; JavaScript counts UTF-16 code units. For text with characters outside the Basic Multilingual Plane (emoji, CJK Extension B), the `length < 10` check, `substring(0, 500)`, the 3000 and 4000 sampling limits and the 2000/3000 snippet budgets therefore measure differently in the model.
- `toLowerCase` is a parameter. Its Unicode case tables are not modelled.
- The latin1-to-UTF-8 re-encoding of uploaded file names is not modelled. `Date.now()` and the random suffix of stored names are parameters.
- The second `maxContentLength` of `server/index.js:383` is declared but never used, so it has no counterpart.
- `null` and missing fields are both `None`. A null `matchedLines` is the empty list, which is how the route reads it (`|| []`).
- AiService.AnalyzeContent: a null `choices[0]`, `message` or `content` is modelled as missing, so the `TypeError` it throws carries "of undefined" where the code says "Cannot read properties of null"; a null `choices[0]` cannot be written at all. Content that is truthy but not a string (a number, an object) makes `.trim()` throw "trim is not a function" (`restructure/server/services/ai.js:154`); the model has only string content.
- LegacyAnalysis.ReplyAnswer: content that is truthy but not a string makes `.trim()` throw at `server/index.js:494`, where the model has only string content and scores it; a null `message` or `content` is read like a missing one, which matches the code's truthiness checks (`server/index.js:475`, `:494`). A null `choices[0]` cannot be written; the code treats it as a malformed reply, as it does a `choices[0]` without `message`.
- `getApiLogs` on a file that parses as JSON but not as a list of entries is not modelled: the stored file is a list, absent, blank or unparsable.
- The log's time stamp is a parameter. The success of its write is an input.
- `extractSourceCode` options that are negative, null or not numbers are not modelled: page counts and lines per page, when given, are natural numbers (a left-out field takes its default). `maxLines` is carried but, as in the source, unused.
- The project upload's zip extraction, the Handlebars and puppeteer rendering of the generated document, and the winston logger setup are not modelled.
- `detectFrameworks` takes `fs.pathExists` on a root file as membership in the set of root entry names. Dependency values count as declared when present and non-empty.
- `ProjectStats.CountFiles`: counts files in the order of the recursive listing given as input. How `fs.readdir` with `recursive: true` orders entries is not modelled.
- A reply whose `data` is null makes `analyzeContent` throw on `response.data.model` (`restructure/server/services/ai.js:184`), and an error response whose `data` is null throws inside the `catch` of `testConnection` (`restructure/server/services/ai.js:72`) or of `analyzeContent` (line 203). Neither is modelled: reply bodies and error responses are always objects (`Http.Body`, `Http.ErrorResponse`).
- A failing `fs.stat` (`server/routes/generate.js:193`, `server/routes/project.js:267`, 366) rejects the walk, the statistics or the tree. It is not modelled: directory entries come with their stat results.
- The parsed `.env` settings are an object, so their keys are distinct. `ConfigController.UpdateApiConfig` requires this of its input (`UniqueKeys`).
- The restructured server's per-file route (fileController.js) is outside this model. Its pipeline is modelled up to the result of `analyzeExcelContent`.
