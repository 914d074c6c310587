# LaunchUp search and bookkeeping core, in Dafny

LaunchUp is a SketchUp plugin. It is a quick launcher: the user types a few letters into a dialog, and the plugin lists the matching toolbar and menu commands, best match first. This project models the deterministic core of that launcher and proves properties of it:

- **Relevance scorer** (`Scorer`, `ScorerSamples`). This is `Scorer.score(abbreviation, string, fuzziness)`, which walks the abbreviation byte by byte through the lower-cased string. The `Scorer.Score` method keeps the source's `while` loop and is proved equal to the functional reference `Scorer.ScoreOf`. The scorer unit tests are worked through the model exactly, using `real` arithmetic.
- **Command index** (`IndexData`, `CommandIndex`, `IndexLookUp`). The Ruby `Index` is a class whose fields `@data`, `@total_track` and the missing-entry counter are updated in place. It covers:
  - `add` and `update`;
  - `get_by_id` and `execute`;
  - `load_tracking`;
  - the `find` → `rank` → `slice` pipeline of `look_up`;
  - the `hash_code` fold.
- **String metrics** (`StringMetrics`), in their Ruby and JavaScript forms:
  - `levenshtein` and `rlevenshtein`;
  - `get_bigrams` and `common_neighbours`;
  - `string_similarity` and `longest_common_substr_length`.
- **Schedulers** (`SchedulerQueue`, `RubyScheduler`, `JsScheduler`). These are the rate limiters of `Index.rb` and `Base.js`. Each holds a queue of single tasks and task groups, and the clock is a parameter.
- **Browser-side helpers** (`Style`, `Serialize`, `Bridge`):
  - `AE.Style`'s class-name and display handling;
  - the `stringify` and `rubify` serialisers;
  - the `AE.Bridge` message-id and callback table.
- **The dialog's own lists** (`LegacyIndex`, `History`, `ComboSelect`):
  - the in-page index (`find`, `rank`, `slice`);
  - the bounded, duplicate-free history of executed commands;
  - the suggestion list's keyboard selection, which skips disabled entries.

Strings that Ruby handles as bytes are `seq<byte>`, and case folding is ASCII only. JavaScript strings are `seq<char>`, except in the JavaScript string metrics (`StringMetrics.JsRelativeLevenshtein`, `StringMetrics.JsBigrams`, `StringMetrics.StringSimilarityOf`, `StringMetrics.StringSimilarity`), which take bytes like their Ruby twins; under the ASCII assumption below the two agree. Host callbacks are parameters of the members that call them:

- a command's proc and validation proc are `validate`, an outcome that either returns a value or raises;
- a regular-expression match with a pattern that is not literal is `regex`, which may raise (a Ruby error, or a JavaScript SyntaxError thrown by `new RegExp`);
- what a scheduled block or function does when called is `raises`, which says whether it raises;
- JavaScript's number-to-text conversion is `numberText`;
- URL encoding is `encode`;
- the in-page index's name-similarity term is `nameScore`, which gives no score when a regular expression built from pieces of the word throws.

Where the code and its documentation disagree, the model follows the code:

- The Ruby `rlevenshtein` (Index.rb:541-550) is documented as lying between 0 for identical strings and 1 for completely different ones. It computes `(max length - distance) / min length`, which is 1 for identical non-empty strings. It also returns 0 when either argument is empty.
- The JavaScript `rlevenshtein` (LaunchUp.js:539-541) computes `(distance - length difference) / max length`, which is 0 for identical strings.
- `execute` is documented to return false for an unknown id. As written it raises instead (see Findings).

## Model

| member | source | states |
|---|---|---|
| Common.At | src/ae_LaunchUp/scorer/scorer.rb:131 | Ruby string indexing gives a value exactly for -len <= i < len, and that value is the element at i modulo the length, so a negative index reads from the back |
| Common.OrOne | src/ae_LaunchUp/Index.rb:398 | `n\|1` is odd and is n or n+1, so the divisor in `find` is never zero |
| Common.LowerByte | src/ae_LaunchUp/scorer/scorer.rb:26-30 | `downcase` on a byte maps A-Z to a-z, fixes every other byte, and never yields a capital |
| Scorer.OtherCase | src/ae_LaunchUp/scorer/scorer.rb:114-121 | the other-case twin exists exactly for ASCII letters, differs from the byte and folds to the same letter |
| Scorer.FirstHit | src/ae_LaunchUp/scorer/scorer.rb:114-121 | the first index at or after k holding the byte in either case; no earlier index does; None when no index does |
| Scorer.NextMatch | src/ae_LaunchUp/scorer/scorer.rb:114-121 | `next_match` never moves back; it lands on the first hit when there is one and stays put otherwise |
| Scorer.ScoreCharRange | src/ae_LaunchUp/scorer/scorer.rb:125-140 | a hit scores 0.5, 0.75, 1.0 or 1.5; a case difference halves the score; after a space or tab a hit scores 1.5 (0.75 with a case difference) and after any other byte 1.0 (0.5); at position 0 the byte read as "before" is the last byte of the string, so the start of the string counts as a word beginning only when the string ends in a space or tab |
| Scorer.Step | src/ae_LaunchUp/scorer/scorer.rb:41-90 | one loop iteration advances the abbreviation by one or two and the string by at least one; without fuzziness a miss costs exactly 1 and takes no fuzzy branch; with fuzziness the total never drops |
| Scorer.Clamp | src/ae_LaunchUp/scorer/scorer.rb:106-107 | the result lies in [0, 1] and is unchanged when already inside |
| Scorer.ScoreOf | src/ae_LaunchUp/scorer/scorer.rb:19-110 | every score lies in [0, 1] |
| Scorer.Advance | src/ae_LaunchUp/scorer/scorer.rb:41-90 | one pass of the `while` body ends in the cursor `Step` gives (the same pass as statements, split out so that `Score` is proved in small steps) |
| Scorer.Score | src/ae_LaunchUp/scorer/scorer.rb:19-110 | the loop implementation equals the reference; the score is in [0, 1]; identical arguments score 1.0; an empty or non-string argument scores 0.0 |
| Scorer.LoopBounds | src/ae_LaunchUp/scorer/scorer.rb:41-90 | the loop never leaves the abbreviation early; without fuzziness it counts no fuzzy step; with fuzziness the total never falls |
| Scorer.PrefixLoop | src/ae_LaunchUp/scorer/scorer.rb:41-90 | a case-exact prefix earns at least one point per byte |
| Scorer.BlendOfHits | src/ae_LaunchUp/scorer/scorer.rb:92-103 | all hits plus an agreeing first byte blend to at least 0.65 |
| Scorer.PrefixScoresHigh | src/ae_LaunchUp/scorer/scorer.rb:19-110 | an abbreviation that starts the string scores at least 0.65 |
| Scorer.MissLoop | src/ae_LaunchUp/scorer/scorer.rb:41-90 | with no byte in common, every remaining abbreviation byte costs exactly 1 |
| Scorer.DisjointScoresZero | src/ae_LaunchUp/scorer/scorer.rb:19-110 | strings with no letter in common, ignoring case, score 0.0 |
| ScorerSamples.LowerTestCap | test/TC_LaunchUp_Scorer.rb:101-119 | downcasing "Test" gives "test" |
| ScorerSamples.ScoreAtBeginning | test/TC_LaunchUp_Scorer.rb:85-97 | score("Test", "Test begin!", 0) is exactly 183/220 |
| ScorerSamples.ScoreAtWordBeginning | test/TC_LaunchUp_Scorer.rb:85-97 | the exact score of "Test" at the start of the second word |
| ScorerSamples.ScoreInsideWord | test/TC_LaunchUp_Scorer.rb:85-97 | the exact score of "Test" inside a word |
| ScorerSamples.ScoreSameCaseCapital | test/TC_LaunchUp_Scorer.rb:101-119 | the exact score of "Test" against "Testing" |
| ScorerSamples.ScoreSameCaseLower | test/TC_LaunchUp_Scorer.rb:101-119 | the exact score of "test" against "testing" |
| ScorerSamples.ScoreCapitalAgainstLower | test/TC_LaunchUp_Scorer.rb:101-119 | the exact score of "Test" against "testing" |
| ScorerSamples.ScoreLowerAgainstCapital | test/TC_LaunchUp_Scorer.rb:101-119 | the exact score of "test" against "Testing" |
| ScorerSamples.ScoreMissingByte | test/TC_LaunchUp_Scorer.rb:55-58 | score("tet", "test") is exactly 53/120 |
| ScorerSamples.ScoreExtraByte | test/TC_LaunchUp_Scorer.rb:61-64 | the exact score of "tesat" against "test" |
| ScorerSamples.ScoreWrongByte | test/TC_LaunchUp_Scorer.rb:67-70 | the exact score of "text" against "test" |
| ScorerSamples.ScoreScattered | test/TC_LaunchUp_Scorer.rb:73-76 | "text" against "three exceptions" scores 0.0 |
| ScorerSamples.PositionOrdering | test/TC_LaunchUp_Scorer.rb:85-97 | a match at the beginning beats one at a word start, which beats one inside a word |
| ScorerSamples.CaseOrdering | test/TC_LaunchUp_Scorer.rb:101-119 | a case difference scores lower than the same case, in all four comparisons of the test |
| ScorerSamples.MistakesTolerated | test/TC_LaunchUp_Scorer.rb:53-81 | a missing, an extra or a wrong byte keeps the score strictly between 0 and 1, and the scattered match scores below the extra-byte one |
| IndexData.Signed | src/ae_LaunchUp/Index.rb:369-376 | a byte read as a signed char lies in [-128, 128) and agrees with it modulo 256 |
| IndexData.HashRange | src/ae_LaunchUp/Index.rb:369-376 | the hash code lies in [0, 99999) |
| IndexData.RunLength | src/ae_LaunchUp/Index.rb:385 | the run of non-white-space at the front is maximal |
| IndexData.Words | src/ae_LaunchUp/Index.rb:385 | the words are non-empty and contain no white space |
| IndexData.Split | src/ae_LaunchUp/Index.rb:385 | `split(/\s+/)`: every non-empty piece is a word, and every word is a piece |
| IndexData.WordsCoverText | src/ae_LaunchUp/Index.rb:385 | the words joined together are the text without its white space |
| IndexData.CountMatches | src/ae_LaunchUp/Index.rb:482-485 | a count of non-overlapping occurrences never covers more than the text |
| IndexData.CountMatchesPositive | src/ae_LaunchUp/Index.rb:482-485 | the count is positive if and only if the word occurs in the text |
| IndexData.ExactMatches | src/ae_LaunchUp/Index.rb:482-485 | a literal word never raises |
| IndexData.ExactMatchesFindsOccurrence | src/ae_LaunchUp/Index.rb:482-485 | a literal word matches if and only if it occurs in the text, ignoring case |
| IndexData.DropSlashBackslash | src/ae_LaunchUp/Index.rb:400 | removing every "/\" pair never lengthens the text |
| IndexData.ScoreText | src/ae_LaunchUp/Index.rb:395-400 | a field's fuzzy score lies in [0, 1] |
| IndexData.KeywordSum | src/ae_LaunchUp/Index.rb:398 | the keyword term is never negative, and is 0 without keywords |
| IndexData.FieldSum | src/ae_LaunchUp/Index.rb:395-400 | a word's field sum is non-negative and includes twice the name score; it can only raise through the keyword regex |
| IndexData.ScanPositiveMeansAllWords | src/ae_LaunchUp/Index.rb:392-405 | for word sums that are never negative, a positive total means every non-empty search word had a positive sum (AND semantics) |
| IndexData.Popularity | src/ae_LaunchUp/Index.rb:435 | the popularity bonus is at most 2.0 and not negative for non-negative counts |
| IndexData.Adjusted | src/ae_LaunchUp/Index.rb:410-428 | the icon triples the score and a validation answering false halves it: without either the score is unchanged, and a non-negative score ends between half and three times itself |
| IndexData.VisitEntry | src/ae_LaunchUp/Index.rb:388-443 | a dropped entry keeps its score; a kept entry's score exceeds 1 plus its popularity; the enabled flag is the validation answer, or unchanged without a validation proc |
| IndexData.Settled | src/ae_LaunchUp/Index.rb:410-436 | after the word scan: it fails exactly when the scan failed; otherwise the entry is kept exactly when the adjusted score exceeds 1.0, and a kept entry's score is the adjusted score plus its popularity; a dropped entry keeps its score; only `:enabled` and `:score` change |
| IndexData.KeptMatchesAllWords | src/ae_LaunchUp/Index.rb:392-432 | a kept entry matched every search word |
| IndexData.FindFrom | src/ae_LaunchUp/Index.rb:383-450 | `find` keeps the data length and returns at most as many results as entries |
| IndexData.FindSpec | src/ae_LaunchUp/Index.rb:383-450 | the same bounds for a search string |
| IndexData.FindResultsKept | src/ae_LaunchUp/Index.rb:432-439 | every result is the updated entry of a kept visit, among the visits `IndexData.Visits` gives each entry on its own |
| IndexData.FindScoresAboveOne | src/ae_LaunchUp/Index.rb:431-439 | every result of a search scored above the threshold: its stored score exceeds 1 plus its popularity |
| IndexData.FindMatchesAllWords | src/ae_LaunchUp/Index.rb:383-450 | every result of a search is an entry that scored on every word |
| IndexData.FindStopsAtFailure | src/ae_LaunchUp/Index.rb:440-443 | an entry that raises ends the scan: it and all later entries are left as they were |
| IndexData.Insert | src/ae_LaunchUp/Index.rb:457-460 | insertion keeps the list sorted by rank key and adds exactly one element |
| IndexData.Rank | src/ae_LaunchUp/Index.rb:457-460 | `rank` is a permutation sorted by descending score, with disabled entries pushed down by 10 |
| IndexData.Slice | src/ae_LaunchUp/Index.rb:468-470 | `slice(0, n)`: a prefix of length min(n, len), or len+n for a negative n, never below 0 |
| CommandIndex.Prepared | src/ae_LaunchUp/Index.rb:148-215 | a hash without proc or name is refused; otherwise the id is the hash code of name + description, and a missing description takes the index's default |
| CommandIndex.MergeLastWins | src/ae_LaunchUp/Index.rb:241-248 | of two `update`s with hashes, built by `CommandIndex.Merge`, the later one wins, so updating twice with the same hash is updating once; the score and the enabled flag survive any number of updates |
| CommandIndex.LastMatch | src/ae_LaunchUp/Index.rb:244 | the last entry with the same id or the same command, or none |
| CommandIndex.UpdatedData | src/ae_LaunchUp/Index.rb:241-248 | `update` never changes the number of entries |
| CommandIndex.UpdateMergesIntoLast | src/ae_LaunchUp/Index.rb:244 | with only nil commands, `update` always picks the last entry (`nil == nil`) |
| CommandIndex.FirstWithId | src/ae_LaunchUp/Index.rb:270 | the first entry with the id, or none |
| CommandIndex.AddKeepsInvariants | src/ae_LaunchUp/Index.rb:148-233 | `add` keeps every id equal to the hash of its entry's name and description, and keeps every command nil |
| CommandIndex.AddGrowsOnlyForNewIds | src/ae_LaunchUp/Index.rb:218-226 | a new id is appended; a known id leaves the length alone and merges into the last entry |
| CommandIndex.AddComplete | src/ae_LaunchUp/Index.rb:218-226 | a complete hash is appended when its id is new, and goes through `update` otherwise |
| CommandIndex.AddAgainOverwritesLast | src/ae_LaunchUp/Index.rb:222-226 | adding A, then B, then A again overwrites B with A |
| CommandIndex.ExecuteSpec | src/ae_LaunchUp/Index.rb:279-299 | the corrected `execute` never changes the number of entries |
| CommandIndex.ExecuteAsWritten | src/ae_LaunchUp/Index.rb:279-299 | `execute` as written can only fail with a NoMethodError |
| CommandIndex.ExecuteUnknownIdRaises | src/ae_LaunchUp/Index.rb:288-298 | an unknown id raises as written, but gives false with nothing changed in the corrected version |
| CommandIndex.ExecuteAgreesWhenFound | src/ae_LaunchUp/Index.rb:279-299 | for a known id the two versions agree |
| CommandIndex.ExecuteCounts | src/ae_LaunchUp/Index.rb:282-287 | a proc that returns, even false, counts one use on its entry and on the total, and nothing else changes; success means neither false nor 1 |
| CommandIndex.TrackingBalances | src/ae_LaunchUp/Index.rb:347-356 | after every entry has gained its own tracking count (`CommandIndex.TrackedData`, `CommandIndex.Tracked`), the total of the tracks has grown exactly by what was loaded |
| CommandIndex.Index.constructor | src/ae_LaunchUp/Index.rb:58-61 | a new index is empty, with zero counters |
| CommandIndex.Index.IndexOfId | src/ae_LaunchUp/Index.rb:270 | the search loop finds the first entry with the id |
| CommandIndex.Index.Update | src/ae_LaunchUp/Index.rb:241-248 | reports whether an entry matched, and merges into the last match |
| CommandIndex.Index.Add | src/ae_LaunchUp/Index.rb:148-233 | rejects a non-command or non-hash argument; counts an incomplete hash as missing; otherwise appends or merges, per the add specification |
| CommandIndex.Index.GetById | src/ae_LaunchUp/Index.rb:268-271 | a non-Fixnum id raises ArgumentError; otherwise gives the first entry with the id, or nil |
| CommandIndex.Index.Execute | src/ae_LaunchUp/Index.rb:279-299 | the new data, total and result are those of the corrected `execute` |
| CommandIndex.Index.LoadTracking | src/ae_LaunchUp/Index.rb:347-356 | the data gains the tracking counts, and the total grows by what was loaded |
| CommandIndex.Index.Find | src/ae_LaunchUp/Index.rb:383-450 | the new data and the results are those of `find` |
| CommandIndex.Index.LookUp | src/ae_LaunchUp/Index.rb:256-261 | a non-string search or non-integer length raises ArgumentError; otherwise the result is `slice(rank(find(search)), length)`, with 10 as the default length |
| CommandIndex.ScanEntries | src/ae_LaunchUp/Index.rb:388-447 | the loop over entries gives the data and results of `find` |
| CommandIndex.FindResumesAfter | src/ae_LaunchUp/Index.rb:388-447 | one more visited entry continues the scan |
| CommandIndex.FindResumesAtEnd | src/ae_LaunchUp/Index.rb:388-447 | a finished scan leaves what was collected |
| CommandIndex.FindResumesAtFailure | src/ae_LaunchUp/Index.rb:440-443 | a raising entry ends the scan with the rest left unchanged |
| CommandIndex.HashCode | src/ae_LaunchUp/Index.rb:369-376 | the byte loop computes the hash code `HashOf`, one byte at a time as `IndexData.HashAppend` folds it in: (128·h + signed byte) mod 99999; the code lies in [0, 99999) |
| CommandIndex.ScoreWords | src/ae_LaunchUp/Index.rb:392-405 | the word loop adds up the word sums, skipping empty words, giving 0 at the first zero sum and failing at the first failed sum |
| CommandIndex.VisitOf | src/ae_LaunchUp/Index.rb:388-447 | one iteration of `find` on an entry |
| CommandIndex.Settle | src/ae_LaunchUp/Index.rb:410-436 | the code after the word loop computes the settled visit (the same code as `Settled`, split out so that `VisitOf` is proved in small steps) |
| IndexLookUp.RunLengthOfWord | src/ae_LaunchUp/Index.rb:385 | a word without white space is one run |
| IndexLookUp.SplitWord | src/ae_LaunchUp/Index.rb:385 | splitting a single word gives that word |
| IndexLookUp.VisitNamedEntry | src/ae_LaunchUp/Index.rb:388-440 | a plain entry whose name is the search word is kept |
| IndexLookUp.VisitUnrelatedEntry | src/ae_LaunchUp/Index.rb:388-440 | a plain entry sharing no letter with the word is dropped |
| IndexLookUp.ResultsCountKept | src/ae_LaunchUp/Index.rb:383-450 | without failures, `find` returns one result per kept entry |
| IndexLookUp.KeptAreNamed | src/ae_LaunchUp/Index.rb:383-450 | in an index of exact names and unrelated names, the kept entries are exactly the exact names |
| IndexLookUp.LookUpCountsExactNames | test/TC_LaunchUp_Index.rb:93-101 | `look_up(word, n)` returns min(n, number of entries named word) results |
| StringMetrics.DistanceCell | src/ae_LaunchUp/Index.rb:516-537 | the dynamic-programming recurrence of the edit distance |
| StringMetrics.Levenshtein | src/ae_LaunchUp/Index.rb:516-537 | the matrix loop computes the edit distance |
| StringMetrics.FillColumn | src/ae_LaunchUp/Index.rb:525-534 | one pass of the inner loop fills column j with the edit distances of the prefixes |
| StringMetrics.DistanceBounds | src/ae_LaunchUp/Index.rb:516-537 | the distance is at least the length difference and at most the longer length |
| StringMetrics.DistanceZeroIffEqual | src/ae_LaunchUp/Index.rb:516-537 | the distance is 0 if and only if the strings are equal |
| StringMetrics.DistanceSymmetric | src/ae_LaunchUp/Index.rb:516-537 | the distance is symmetric |
| StringMetrics.RelativeLevenshtein | src/ae_LaunchUp/Index.rb:547-550 | 0 for an empty argument, in [0, 1] otherwise, and 1 for equal non-empty strings |
| StringMetrics.JsRelativeLevenshtein | src/ae_LaunchUp/js/LaunchUp.js:539-541 | NaN for two empty strings, otherwise in [0, 1], and 0 for equal strings |
| StringMetrics.BigramsOf | src/ae_LaunchUp/Index.rb:557-564 | one lower-cased pair per adjacent position |
| StringMetrics.Bigrams | src/ae_LaunchUp/Index.rb:557-564 | the loop builds exactly those pairs |
| StringMetrics.JsBigrams | src/ae_LaunchUp/js/LaunchUp.js:544-549 | the JavaScript version raises RangeError on the empty string and gives the same pairs otherwise |
| StringMetrics.CountHits | src/ae_LaunchUp/Index.rb:573-585 | the nested loop counts the bigram hits |
| StringMetrics.OccurrencesZero | src/ae_LaunchUp/Index.rb:573-585 | no occurrence if and only if the pair is absent |
| StringMetrics.HitsZeroIffDisjoint | src/ae_LaunchUp/Index.rb:573-585 | no hits if and only if no pair is shared |
| StringMetrics.HitsCoverContained | src/ae_LaunchUp/Index.rb:573-585 | pairs all present in the other list score at least one hit each |
| StringMetrics.CommonNeighboursOf | src/ae_LaunchUp/Index.rb:573-585 | NaN exactly for an empty or two one-byte strings, otherwise a non-negative ratio |
| StringMetrics.CommonNeighbours | src/ae_LaunchUp/Index.rb:573-585 | the method computes that ratio |
| StringMetrics.CommonNeighboursDisjoint | src/ae_LaunchUp/Index.rb:573-585 | strings without a shared pair have ratio 0 |
| StringMetrics.StringSimilarityOf | src/ae_LaunchUp/js/LaunchUp.js:552-565 | raises RangeError exactly for an empty argument, is NaN exactly for two one-byte strings, and is otherwise non-negative |
| StringMetrics.StringSimilarity | src/ae_LaunchUp/js/LaunchUp.js:552-565 | the loops compute that similarity |
| StringMetrics.SimilarToItself | src/ae_LaunchUp/js/LaunchUp.js:552-565 | a string of two or more bytes is at least 1 similar to itself |
| StringMetrics.LongestCommonSubstrLength | src/ae_LaunchUp/Index.rb:594-615 | the loop returns the longest common substring over the shorter length, and 0 for an empty argument |
| StringMetrics.RunIsCommon | src/ae_LaunchUp/Index.rb:594-615 | each table cell is the length of a common run ending there |
| StringMetrics.CommonIsRun | src/ae_LaunchUp/Index.rb:594-615 | every common run ending there is at most the cell |
| StringMetrics.BestRunDominates | src/ae_LaunchUp/Index.rb:594-615 | the running maximum dominates every cell visited |
| StringMetrics.BestRunAttained | src/ae_LaunchUp/Index.rb:594-615 | the running maximum is some cell's value |
| StringMetrics.LongestIsCommon | src/ae_LaunchUp/Index.rb:594-615 | the longest length is attained by a common substring |
| StringMetrics.LongestIsMaximal | src/ae_LaunchUp/Index.rb:594-615 | no common substring is longer |
| StringMetrics.LongestRatioBounds | src/ae_LaunchUp/Index.rb:594-615 | the ratio lies in [0, 1] |
| StringMetrics.LongestRatioContained | src/ae_LaunchUp/Index.rb:594-615 | a string contained in the other has ratio 1 |
| SchedulerQueue.FlattenAppend | src/ae_LaunchUp/Index.rb:668-675 | the tasks of two queues in a row are those of each in turn |
| SchedulerQueue.FirstRaise | src/ae_LaunchUp/Index.rb:669-675 | the position of the first task that raises: every earlier task returns, and the task there raises |
| SchedulerQueue.CalledPart | src/ae_LaunchUp/js/Base.js:139-149 | the tasks a loop calls are a prefix of the group: all of them, or those up to and including the first that raises |
| SchedulerQueue.QueueAppends | src/ae_LaunchUp/Index.rb:642-645 | `queue` appends one item holding the task |
| SchedulerQueue.ReplaceKeepsLength | src/ae_LaunchUp/Index.rb:660-664 | `replace` overwrites the last item, or creates it, leaving the rest |
| RubyScheduler.RunSpec | src/ae_LaunchUp/Index.rb:668-675 | `run` on an empty queue raises NoMethodError and changes nothing; otherwise it removes the first item and calls a prefix of its tasks; it raises exactly when one of them raises; when nothing raises, no task is lost or reordered |
| RubyScheduler.CheckSpec | src/ae_LaunchUp/Index.rb:677-686 | a due check runs one item and raises exactly when a task of it raises; without an exception it moves the time to now + 0.25 and sets a timer, and no task is lost; with one, the time and the timers are left as they were; a check that is not due changes nothing |
| RubyScheduler.Scheduler.constructor | src/ae_LaunchUp/Index.rb:636-640 | a new scheduler is empty and ignores its interval argument |
| RubyScheduler.Scheduler.Queue | src/ae_LaunchUp/Index.rb:642-645 | the state after `queue`, and the exception that escapes from its check |
| RubyScheduler.Scheduler.Add | src/ae_LaunchUp/Index.rb:647-658 | the state after `add`, and the exception that escapes from its check |
| RubyScheduler.Scheduler.Replace | src/ae_LaunchUp/Index.rb:660-664 | the state after `replace`, and the exception that escapes from its check |
| RubyScheduler.Scheduler.Run | src/ae_LaunchUp/Index.rb:668-675 | the loop over the group ends in the state and the exception of `RunSpec` |
| RubyScheduler.Scheduler.Check | src/ae_LaunchUp/Index.rb:677-686 | the state and the exception after `check`, as `CheckSpec` gives them |
| RubyScheduler.Scheduler.FireTimer | src/ae_LaunchUp/Index.rb:684 | a timer firing runs the next item, raising when the queue is empty or a task raises |
| RubyScheduler.GroupedAppends | src/ae_LaunchUp/Index.rb:647-658 | grouping appends the task once, to the last item or to a new one |
| RubyScheduler.AddQueuesTaskTwice | src/ae_LaunchUp/Index.rb:647-658 | `add` puts the block into the queue twice |
| RubyScheduler.FireConserves | src/ae_LaunchUp/Index.rb:668-686 | a timer firing on a non-empty queue whose tasks return loses and invents no task |
| RubyScheduler.RaiseEndsRun | src/ae_LaunchUp/Index.rb:668-675 | when a task of the first item raises, the exception escapes and that task is the last one called |
| RubyScheduler.RaiseSkipsRestOfGroup | src/ae_LaunchUp/Index.rb:668-675 | when a task raises, the tasks after it in its group are neither called nor pending any more |
| RubyScheduler.RateLimited | src/ae_LaunchUp/Index.rb:677-686 | after a due check whose tasks return, nothing is due again within 0.25 s |
| RubyScheduler.RaiseLeavesDue | src/ae_LaunchUp/Index.rb:677-686 | a check whose task raised sets no time stamp and no timer, so any later check is due at once |
| RubyScheduler.AddOnNewSchedulerRunsTwice | src/ae_LaunchUp/Index.rb:647-686 | `add` on a fresh scheduler runs the task at once and again when the timer fires; a task that raises is called once and leaves the second copy pending, with no time stamp and no timer |
| JsScheduler.IntervalOf | src/ae_LaunchUp/js/Base.js:120-123 | the interval is never 0: a falsy argument gives way to the default, and any other is kept |
| JsScheduler.CheckSpec | src/ae_LaunchUp/js/Base.js:139-159 | a due check removes the first item and raises exactly when one of its functions throws; without an exception all of them run, t becomes now + dt and a timer is set, and no task is lost; with one, t and the timers are left as they were; otherwise nothing changes |
| JsScheduler.Scheduler.constructor | src/ae_LaunchUp/js/Base.js:120-123 | a new scheduler is empty, with the given or default interval |
| JsScheduler.Scheduler.Queue | src/ae_LaunchUp/js/Base.js:124-127 | the state after `queue`, and the exception that escapes from its check |
| JsScheduler.Scheduler.Add | src/ae_LaunchUp/js/Base.js:128-133 | the state after `add`, and the exception that escapes from its check |
| JsScheduler.Scheduler.Replace | src/ae_LaunchUp/js/Base.js:134-138 | the state after `replace`, and the exception that escapes from its check |
| JsScheduler.Scheduler.Run | src/ae_LaunchUp/js/Base.js:139-149 | `run` on an empty queue does nothing; otherwise it removes the first item and calls its functions in order up to the first that throws, whose exception escapes |
| JsScheduler.Scheduler.Check | src/ae_LaunchUp/js/Base.js:150-159 | the state and the exception after `check`, as `CheckSpec` gives them |
| JsScheduler.Scheduler.FireTimer | src/ae_LaunchUp/js/Base.js:157 | the state and the exception after a pending timeout fires |
| JsScheduler.AddAppendsOnce | src/ae_LaunchUp/js/Base.js:128-133 | `add` appends the task once, to a trailing group or to a new group |
| JsScheduler.FirstCallRunsAtOnce | src/ae_LaunchUp/js/Base.js:124-159 | the first call on a new scheduler runs immediately, and raises exactly when the function throws |
| JsScheduler.RateLimited | src/ae_LaunchUp/js/Base.js:150-159 | after a due check whose functions return, nothing is due again within the interval |
| JsScheduler.RaiseSkipsRestOfGroup | src/ae_LaunchUp/js/Base.js:139-149 | when a function throws, the functions after it in its group are neither called nor pending any more |
| JsScheduler.RaiseLeavesDue | src/ae_LaunchUp/js/Base.js:150-159 | a check whose function threw sets neither t nor a timer, so a later check is due exactly when items remain |
| Style.WhiteEnd | src/ae_LaunchUp/js/Base.js:193-197 | the end of the white space after a position |
| Style.RemovalAt | src/ae_LaunchUp/js/Base.js:193-197 | a match of the removal pattern ends after where it starts |
| Style.RemoveFrom | src/ae_LaunchUp/js/Base.js:193-197 | removal never lengthens the class name |
| Style.RemoveCopies | src/ae_LaunchUp/js/Base.js:193-197 | text without a match is copied unchanged |
| Style.RemoveWithoutMatch | src/ae_LaunchUp/js/Base.js:193-197 | a class name without the class is left as it is |
| Style.Shown | src/ae_LaunchUp/js/Base.js:200-203 | a visible element is left alone; a hidden one gets a non-empty display, which is "none" only when "none" was saved; the saved display is kept |
| Style.Hidden | src/ae_LaunchUp/js/Base.js:206-211 | `hide` sets "none" and saves the old display once |
| Style.HideIdempotent | src/ae_LaunchUp/js/Base.js:206-211 | hiding twice is hiding once |
| Style.ShowIdempotent | src/ae_LaunchUp/js/Base.js:200-203 | showing twice is showing once |
| Style.HideThenShow | src/ae_LaunchUp/js/Base.js:200-211 | hide then show gives back the display, or "block" for an empty one |
| Style.AppendedClassFound | src/ae_LaunchUp/js/Base.js:177-190 | an appended class is found by `hasClass` |
| Style.Element.constructor | src/ae_LaunchUp/js/Base.js:174-214 | an element with a class name and a display, and nothing saved |
| Style.Element.AddClass | src/ae_LaunchUp/js/Base.js:184-190 | the class name after `addClass`; the display is untouched |
| Style.Element.RemoveClass | src/ae_LaunchUp/js/Base.js:193-197 | the class name after `removeClass`; the display is untouched |
| Style.Element.Show | src/ae_LaunchUp/js/Base.js:200-203 | the appearance after `show` |
| Style.Element.Hide | src/ae_LaunchUp/js/Base.js:206-211 | the appearance after `hide` |
| Style.AddClassIdempotent | src/ae_LaunchUp/js/Base.js:177-190 | after `addClass` the class is present, and a second `addClass` changes nothing |
| Style.WhiteEndInPrefix | src/ae_LaunchUp/js/Base.js:193-197 | appending text after a non-blank end does not move the white-space end inside the prefix |
| Style.NoNewMatchBefore | src/ae_LaunchUp/js/Base.js:193-197 | appending " name" creates no removal match inside the old text |
| Style.NoRemovalNoClass | src/ae_LaunchUp/js/Base.js:177-197 | a class name without a removal match does not have the class |
| Style.RemoveUndoesAdd | src/ae_LaunchUp/js/Base.js:184-197 | `removeClass` undoes an `addClass` of an absent word-character class |
| Serialize.PrefixAllAppend | src/ae_LaunchUp/js/Base.js:329 | one replacement pass distributes over concatenation |
| Serialize.EscapeAppend | src/ae_LaunchUp/js/Base.js:329 | the escape chain distributes over concatenation |
| Serialize.EscapeIsOnePass | src/ae_LaunchUp/js/Base.js:329 | the four replacements equal one left-to-right escaping pass |
| Serialize.UnescapeEscapeOnce | src/ae_LaunchUp/js/Base.js:329 | reading the escaped text back gives the original |
| Serialize.EscapeRoundTrip | src/ae_LaunchUp/js/Base.js:329 | Ruby reads the escaped string back as the original string |
| Serialize.EscapedQuotesArePrefixed | src/ae_LaunchUp/js/Base.js:329 | every double quote and hash in the escaped text is preceded by a backslash |
| Serialize.Rubify | src/ae_LaunchUp/js/Base.js:299-337 | undefined becomes nil; null and functions become ""; strings are quoted; NaN and infinities become Ruby division expressions; arrays are in brackets and objects in braces |
| Serialize.RubifyItems | src/ae_LaunchUp/js/Base.js:307-311 | the array items kept are non-empty and no more than the elements |
| Serialize.RubifyEntries | src/ae_LaunchUp/js/Base.js:314-326 | at most one pair per object entry |
| Serialize.RubifyStringReadsBack | src/ae_LaunchUp/js/Base.js:327-329 | a rubified string is quoted and reads back as the original |
| Serialize.RubifyDropsNull | src/ae_LaunchUp/js/Base.js:302-311 | null and functions vanish from an array |
| Serialize.RubifyKey | src/ae_LaunchUp/js/Base.js:318-323 | a symbol-like key is written `:key`, any other as `:"key"` |
| Serialize.Stringify | src/ae_LaunchUp/js/Base.js:272-296 | undefined exactly for undefined and functions; null gives "{}"; strings are quoted |
| Serialize.StringifyItems | src/ae_LaunchUp/js/Base.js:274-280 | the array items kept are non-empty and no more than the elements |
| Serialize.StringifyEntries | src/ae_LaunchUp/js/Base.js:281-290 | at most one pair per object entry |
| Serialize.StringifyDropsUndefined | src/ae_LaunchUp/js/Base.js:272-296 | undefined vanishes from an array; null is kept as "{}" |
| Bridge.Bridge.constructor | src/ae_LaunchUp/js/Base.js:221-229 | a new bridge has id 0, no callbacks, and a scheduler with a 1 ms interval |
| Bridge.Bridge.CallRuby | src/ae_LaunchUp/js/Base.js:232-247 | returns the current id; registers the callback under it; queues the request of `skp:name@encoded-data#id` |
| Bridge.Bridge.CallbackJS | src/ae_LaunchUp/js/Base.js:250-259 | a waiting callback is called with the data and removed; an unknown id does nothing |
| Bridge.Bridge.Puts | src/ae_LaunchUp/js/Base.js:262-264 | a `puts` message without a callback |
| Bridge.Bridge.Tick | src/ae_LaunchUp/js/Base.js:150-159 | a pending timeout fires, and every message is still requested once, in order |
| Bridge.RequestsReturn | src/ae_LaunchUp/js/Base.js:242 | a group of request functions runs to its end: none of them throws |
| Bridge.RequestQueued | src/ae_LaunchUp/js/Base.js:242 | queuing a request lets no exception escape, loses no pending or sent request, and puts the new one last |
| Bridge.CallRubyKeepsCallbacks | src/ae_LaunchUp/js/Base.js:232-247 | the id is fresh, no waiting callback is overwritten, and the callback waits exactly when one was given |
| Bridge.CallbackKeepsInv | src/ae_LaunchUp/js/Base.js:250-259 | only sent messages have waiting callbacks, before and after an answer |
| Bridge.AnswerReachesCallback | src/ae_LaunchUp/js/Base.js:232-259 | the answer to a message reaches exactly the callback given with it |
| Bridge.AnswerWithoutCallback | src/ae_LaunchUp/js/Base.js:232-259 | an answer to a message sent without a callback calls nothing |
| Bridge.CalledAtMostOnce | src/ae_LaunchUp/js/Base.js:250-259 | a second answer with the same id changes nothing |
| History.History.constructor | src/ae_LaunchUp/js/LaunchUp.js:609-618 | the history starts empty, with the saved id list kept and a missing maximum set to 20 |
| History.History.Add | src/ae_LaunchUp/js/LaunchUp.js:645-708 | the state after `add` |
| History.History.Load | src/ae_LaunchUp/js/LaunchUp.js:629-643 | the state after `load` |
| History.AddKeepsHistory | src/ae_LaunchUp/js/LaunchUp.js:645-708 | `add` keeps the history bounded and duplicate-free, and keeps the id list in step; it changes nothing exactly for a no-history or known entry; otherwise the entry comes first, cut to the maximum |
| History.AddDownKeepsValid | src/ae_LaunchUp/js/LaunchUp.js:636-638 | each step of the `load` loop keeps the history valid |
| History.AddDownOnEmpty | src/ae_LaunchUp/js/LaunchUp.js:636-638 | the loop on an empty history rebuilds the slice of entries in order |
| History.LoadOnEmpty | src/ae_LaunchUp/js/LaunchUp.js:629-643 | on an empty history, `load` shows the first min(n, max) entries in order, with their ids |
| History.LoadKeepsValid | src/ae_LaunchUp/js/LaunchUp.js:629-643 | `load` keeps a valid history valid |
| History.LoadOnShownEntry | src/ae_LaunchUp/js/LaunchUp.js:629-653 | `load` clears the id list but not the entries, so an entry already shown loses its id |
| ComboSelect.NextSelectable | src/ae_LaunchUp/js/LaunchUp.js:266-272 | the step stays in [-1, len], lands on an enabled entry when inside the list, and passes only disabled entries |
| ComboSelect.ComboBox.Select | src/ae_LaunchUp/js/LaunchUp.js:257-279 | the state after `select` |
| ComboSelect.Land | src/ae_LaunchUp/js/LaunchUp.js:266-272 | the skipping loop stops at the first selectable index in the direction of the move, or off the list |
| ComboSelect.SelectLands | src/ae_LaunchUp/js/LaunchUp.js:257-279 | a request out of range keeps the selection; otherwise the selection moves in the requested direction to the first enabled entry or off the list |
| ComboSelect.SelectKeepsSingleMark | src/ae_LaunchUp/js/LaunchUp.js:257-279 | at most the selected entry is highlighted, and the input shows its name or the typed text |
| ComboSelect.DisabledTailSelectsNothing | src/ae_LaunchUp/js/LaunchUp.js:266-272 | moving down onto disabled entries only ends past the end, with the typed text shown |
| LegacyIndex.SplitWhite | src/ae_LaunchUp/js/LaunchUp.js:468 | `split(/\s/)` gives at least one piece, and no piece holds white space |
| LegacyIndex.ExactMatches | src/ae_LaunchUp/js/LaunchUp.js:514-517 | for a literal word 1 exactly when the word occurs ignoring case, and 0 otherwise; for any other word it throws exactly when the engine refuses the pattern |
| LegacyIndex.Rank | src/ae_LaunchUp/js/LaunchUp.js:497-506 | the array is sorted by descending score and is a permutation of its old contents |
| LegacyIndex.Sink | src/ae_LaunchUp/js/LaunchUp.js:497-506 | one insertion step extends the sorted prefix by one element and keeps the array a permutation |
| LegacyIndex.LegacyIndex.Load | src/ae_LaunchUp/js/LaunchUp.js:446-448 | `load` replaces the data |
| LegacyIndex.LegacyIndex.Find | src/ae_LaunchUp/js/LaunchUp.js:466-494 | `find` returns the entries scoring above 0.5, in data order, and stores their new score in the data; when an entry's scoring throws (an `exact_matches` pattern, the `^` pattern of a one-character word, or a pattern of the name term), the SyntaxError escapes and only the entries before it are rescored |
| LegacyIndex.FindBy | src/ae_LaunchUp/js/LaunchUp.js:469-492 | the loop over the entries, for any scoring of one entry, gives the outcome of `FindSpec` and the entries of `Rescored` |
| LegacyIndex.ScoreEntry | src/ae_LaunchUp/js/LaunchUp.js:472-486 | the word loop adds up the word scores of one entry, and stops with no score at the first word that throws |
| LegacyIndex.LegacyIndex.LookUp | src/ae_LaunchUp/js/LaunchUp.js:451-456 | raises exactly when `find` does; otherwise the result is sorted by score, drawn from the found entries, as long as the slice of `max_length`, or 10 when unset (`LegacyIndex.SliceLength`), and no entry left out scores higher than one kept |
| LegacyIndex.TopOfSorted | src/ae_LaunchUp/js/LaunchUp.js:509-511 | a prefix of a sorted list is sorted, and none left out beats one kept |
| LegacyIndex.FindKeepsExactlyKept | src/ae_LaunchUp/js/LaunchUp.js:466-494 | every entry found is a rescored entry above 0.5, and every such entry is found |
| LegacyIndex.FoundStep | src/ae_LaunchUp/js/LaunchUp.js:488-491 | one more entry adds itself, with its new score, to the found ones exactly when it is kept |
| LegacyIndex.Rescore | src/ae_LaunchUp/js/LaunchUp.js:488-491 | only the score changes, and a kept entry carries its new score |
| LegacyIndex.FirstThrowing | src/ae_LaunchUp/js/LaunchUp.js:466-494 | the first entry whose scoring throws: every earlier entry is scored |
| LegacyIndex.RescoredFromParts | src/ae_LaunchUp/js/LaunchUp.js:466-494 | stopping at the first throwing entry with the earlier entries rescored and the rest untouched is the data `find` leaves |
| LegacyIndex.ThrowEndsScore | src/ae_LaunchUp/js/LaunchUp.js:472-486 | once a word throws, the entry's whole score throws |
| LegacyIndex.FindThrowsAtFirstThrowing | src/ae_LaunchUp/js/LaunchUp.js:466-494 | `find` throws exactly when some entry's scoring throws; entries from the first such one on are left as they were; without a throw every entry is rescored |
| LegacyIndex.NameTermThrowEscapes | src/ae_LaunchUp/js/LaunchUp.js:481 | a name term that throws for a word of two or more characters, against an entry with a name, makes `find` throw a SyntaxError |
| LegacyIndex.BlankSearchFindsNothing | src/ae_LaunchUp/js/LaunchUp.js:466-494 | a search of white space only throws nothing and finds nothing |
| LegacyIndex.BlankFindsNone | src/ae_LaunchUp/js/LaunchUp.js:488 | entries that all score 0 are all skipped |
| LegacyIndex.BlankScoresZero | src/ae_LaunchUp/js/LaunchUp.js:473-490 | empty words add nothing to a score and never throw |
| LegacyIndex.SingleCharacterMatchesNameStart | src/ae_LaunchUp/js/LaunchUp.js:476-480 | a one-character word scores only against the start of the name (`LegacyIndex.NameStart`): a literal character scores 1 exactly when it starts the name, case-sensitively; a metacharacter scores what the engine gives `^` plus it, or throws |

## Left out

- Command interception and `UI::Command` access are left out: `Commands.rb`, `Dialog.rb`, the wiring in `LaunchUp.rb`, and the `add(command)` path with its menu and toolbar lookups. The model covers `add(nil, hash)` and counts every other argument as either rejected or incomplete.
- `Index#to_json` is left out, because it is only a JSON dump.
- `exact_match_length` and `exact_beginning_length` are left out, because nothing in `find` calls them.
- Regular-expression matching is modelled only for literal words, in both indexes. A word with a metacharacter goes to the `regex` parameter, which may raise. In `LegacyIndex` a SyntaxError escapes `find` and `look_up`.
- Procs and validation procs, the clock, timers, URL encoding, number formatting and the DOM are all parameters or left out. A timer firing is an explicit step.
- Text is ASCII: there is no Unicode case folding and no multibyte characters.
- The in-page index's `longest_common_substr_length` and `rlevenshtein` name term is the `nameScore` parameter of `LegacyIndex`, including whether one of the patterns `longest_common_substr_length` builds from the word throws. The Ruby versions of both are modelled in `StringMetrics`.
- CommandIndex.Index.LookUp, IndexData.Rank: Ruby's `sort_by` does not fix the order of entries with the same rank key. The model keeps them in input order, so when such entries meet at the slice boundary the source may return another of them than the model does.
- LegacyIndex.Rank: `Array.prototype.sort` is not required to be stable, so the contract does not fix the order of equal scores.
- Style.Element.RemoveClass: the pattern is built from the class name, and names containing regular-expression metacharacters are not modelled. The `\s*` in front of the name takes the whole white-space run before it.
- Style.Element.AddClass, Style.AppendedClassFound, Style.AddClassIdempotent: `hasClass` builds its pattern from the class name, and the model matches the name literally. For a name with a regular-expression metacharacter the source differs: `addClass("a+b")` does not find "a+b" and appends it again, and `addClass("(")` throws a SyntaxError. The callers only pass names made of word characters.
- `Style` operations on a null element are left out, because those calls do nothing.
- The schedulers do not catch an exception from a scheduled block or function. The model follows it: the rest of the group is lost, the time stamp and the timer are not set, and the exception escapes to the caller. What the caller of `queue`, `add` or `replace` or the timer then does is not modelled.
- Bridge.Bridge.CallbackJS catches an exception of the callback. The model treats it as normal completion.
- Bridge.Bridge.CallbackJS and History.History.Load: the `AE.debug` diagnostics are left out. These are the extra `puts` messages sent through the bridge. The model is the behaviour with `AE.debug` off.
- `History` is modelled for its lists only:
  - the list items, `updateStyle`, `show` and `hide` are DOM work;
  - History.History.Add: the `AE.Bridge.updateOptions({history_entries: …})` messages that save the id list to Ruby after each change are not modelled;
  - `Options.history_max_length` is read once, at construction.
- ComboSelect.ComboBox.Select assumes every list item carries an entry, because the list is built from entries.
- `stringify` and `rubify` of a `Date` or another host object are not modelled. `rubify` gives the empty string for such a value, because it tests only for `[object Object]`.
- Object keys are taken in the order given.

## Findings

| source | as written | input that shows it | evidently intended | confidence | as-written member | corrected member |
|---|---|---|---|---|---|---|
| src/ae_LaunchUp/Index.rb:279-299 | for an id with no entry, `raise` goes to `rescue Exception`, which reads `entry[:name]` on nil, and that NoMethodError escapes | `execute(10**9)` on an index without that id | return false, as the doc comment, the older version and TC_LaunchUp_Index.rb:137 say | not executed | CommandIndex.ExecuteAsWritten | CommandIndex.Index.Execute |
