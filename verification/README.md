# Annual usage report: a Dafny model

This project models the annual-report aggregation of the Transtation
translation app, `AnnualReportViewModel.loadAnnualReport`, with its helpers
`findSpecialTimes` and `keyOfMaxValue`. It proves properties of the model.

A load works like this:

- It reads the year's translation history. If the year has none, it reads
  the history since the year's end and sets `shouldLoadLatest`.
- If both are empty, it throws "no data".
- Otherwise it reduces the records to the report's figures:
  - the number of translations and the total source-text length;
  - the earliest and latest time of day, with a night rollover (00:00 to
    05:59 counts as 24:00 to 29:59);
  - usage tables for source language, target language and engine;
  - the most used source and target language;
  - the engines ranked by use.
- Finally the load guard moves from Loading to Success. A view model already
  in Success ignores further loads.

Modules, one per concern of the source file:

- `KotlinInt` (kotlin_int.dfy): the `Int.MIN_VALUE` and `Int.MAX_VALUE`
  sentinels used by the scans.
- `History` (history.dfy): the history record, and the rolled-over time of
  day with its inverse.
- `Frequency` (frequency.dfy): `mutableMapOf` as an association list in
  insertion order (Kotlin's LinkedHashMap), counting by `Increment`, the
  fold `Tally`, and `keyOfMaxValue`.
- `Ranking` (ranking.dfy): the stable descending sort `sortedByDescending`.
- `SpecialTimes` (special_times.dfy): `findSpecialTimes`.
- `AnnualReport` (annual_report.dfy): the view model as an immutable value,
  the single-pass table building, and `loadAnnualReport`.

The model keeps these details of the code:

- The guard has two states, Loading and Success.
- A load that fails with "no data" leaves the state at Loading.
- `shouldLoadLatest` is set before the fallback is known to be non-empty, so
  it is true after a "no data" failure too.
- On success, the LLM result keeps its previous value unless the user is
  signed in and the request returns a result.

## Model

| member | source | states |
|---|---|---|
| History.RolledHour | composeApp/src/commonMain/kotlin/com/funny/translation/translate/ui/thanks/AnnualReportViewModel.kt:141-142 | Hours 00 to 05 become 24 to 29 and later hours stay: the rolled hour lies in 6..29 and is the clock hour modulo 24. |
| History.SecondsOfDay | composeApp/src/commonMain/kotlin/com/funny/translation/translate/ui/thanks/AnnualReportViewModel.kt:140-146 | The rolled-over time of day of any valid clock reading lies between 06:00:00 (21600) and 29:59:59 (107999). |
| History.TimeOfDay | composeApp/src/commonMain/kotlin/com/funny/translation/translate/ui/thanks/AnnualReportViewModel.kt:137-146 | A record's time of day lies in the same range, so it is below `Int.MAX_VALUE` and above `Int.MIN_VALUE`. |
| History.NightRanksAfterDay | composeApp/src/commonMain/kotlin/com/funny/translation/translate/ui/thanks/AnnualReportViewModel.kt:141-146 | Any reading from 00:00:00 to 05:59:59 ranks strictly later than any reading from 06:00:00 to 23:59:59. |
| History.SecondsOfDayOrder | composeApp/src/commonMain/kotlin/com/funny/translation/translate/ui/thanks/AnnualReportViewModel.kt:144-146 | Comparing time-of-day values is the same as comparing (rolled hour, minute, second) lexicographically, in both directions. |
| History.ClockAt | composeApp/src/commonMain/kotlin/com/funny/translation/translate/ui/thanks/AnnualReportViewModel.kt:144-146 | Every value in the range is the time of day of the clock reading `ClockAt` returns. |
| History.SecondsOfDayInjective | composeApp/src/commonMain/kotlin/com/funny/translation/translate/ui/thanks/AnnualReportViewModel.kt:144-146 | Two readings with the same time of day are the same reading, so the ranking is a strict total order on clock readings. |
| History.ClockAtSecondsOfDay | composeApp/src/commonMain/kotlin/com/funny/translation/translate/ui/thanks/AnnualReportViewModel.kt:144-146 | Round trip: reading the clock back from a reading's time of day gives that reading. |
| SpecialTimes.EarliestIndex | composeApp/src/commonMain/kotlin/com/funny/translation/translate/ui/thanks/AnnualReportViewModel.kt:148-151 | On a non-empty list, the reference scan returns a record with the least time of day, before which no record is as early. |
| SpecialTimes.LatestIndex | composeApp/src/commonMain/kotlin/com/funny/translation/translate/ui/thanks/AnnualReportViewModel.kt:152-155 | On a non-empty list, the reference scan returns a record with the greatest time of day, before which no record is as late. |
| SpecialTimes.EarliestIsUnique | composeApp/src/commonMain/kotlin/com/funny/translation/translate/ui/thanks/AnnualReportViewModel.kt:148-151 | Only one position is the first with the least time of day, so the strict comparison decides ties. |
| SpecialTimes.LatestIsUnique | composeApp/src/commonMain/kotlin/com/funny/translation/translate/ui/thanks/AnnualReportViewModel.kt:152-155 | Only one position is the first with the greatest time of day. |
| SpecialTimes.FindSpecialTimes | composeApp/src/commonMain/kotlin/com/funny/translation/translate/ui/thanks/AnnualReportViewModel.kt:130-159 | On a non-empty list the sentinel indices end up valid. The sentinel scan returns the `time` of the first record with the least time of day and of the first record with the greatest one, the same records the reference scans pick. |
| Frequency.Get | composeApp/src/commonMain/kotlin/com/funny/translation/translate/ui/thanks/AnnualReportViewModel.kt:92-97 | `map.get(k, 0)` is 0 for a key the map does not hold. |
| Frequency.Increment | composeApp/src/commonMain/kotlin/com/funny/translation/translate/ui/thanks/AnnualReportViewModel.kt:92-97 | `map[k] = map.get(k, 0) + 1` keeps the key order if `k` is present and appends `k` otherwise. |
| Frequency.IncrementCounts | composeApp/src/commonMain/kotlin/com/funny/translation/translate/ui/thanks/AnnualReportViewModel.kt:92-97 | That update raises the count of `k` and the table total by one and leaves every other count alone. |
| Frequency.Dedup | composeApp/src/commonMain/kotlin/com/funny/translation/translate/ui/thanks/AnnualReportViewModel.kt:87-99 | The reference key order is duplicate-free and holds exactly the elements of the scanned sequence. |
| Frequency.Tally | composeApp/src/commonMain/kotlin/com/funny/translation/translate/ui/thanks/AnnualReportViewModel.kt:87-99 | A scan's table has distinct keys, in first-occurrence order (`Dedup`). |
| Frequency.TallyCounts | composeApp/src/commonMain/kotlin/com/funny/translation/translate/ui/thanks/AnnualReportViewModel.kt:91-99 | In a scan's table every key's count is its number of occurrences in the scanned sequence, and the counts sum to the sequence's length. |
| Frequency.DedupFollowsFirstOccurrence | composeApp/src/commonMain/kotlin/com/funny/translation/translate/ui/thanks/AnnualReportViewModel.kt:87-99 | A table's insertion order is the order of the keys' first occurrences in the scanned sequence. |
| Frequency.GetAt | composeApp/src/commonMain/kotlin/com/funny/translation/translate/ui/thanks/AnnualReportViewModel.kt:107-110 | In a map with distinct keys, `map[key] ?: 0` is the count stored with that key. |
| Frequency.KeyOfMaxValue | composeApp/src/commonMain/kotlin/com/funny/translation/translate/ui/thanks/AnnualReportViewModel.kt:161-171 | An empty map gives -1. Otherwise the result is the key of an entry whose count is at least every count, and every earlier entry's count is strictly smaller: the first key in insertion order wins a tie. |
| Frequency.MaxKeyIsFirstMode | composeApp/src/commonMain/kotlin/com/funny/translation/translate/ui/thanks/AnnualReportViewModel.kt:101-110 | For a table built by a scan, that key occurs in the scanned sequence. Its count is its number of occurrences, and no element occurs more often. Of the elements that occur as often, its first occurrence comes first. |
| Ranking.Insert | composeApp/src/commonMain/kotlin/com/funny/translation/translate/ui/thanks/AnnualReportViewModel.kt:112 | Inserting into a list sorted by count, largest first, keeps it sorted. It adds exactly the new entry. |
| Ranking.InsertKeepsRuns | composeApp/src/commonMain/kotlin/com/funny/translation/translate/ui/thanks/AnnualReportViewModel.kt:112 | The inserted entry goes after every entry with the same count. All other runs of equal counts are unchanged. |
| Ranking.SortByCountDesc | composeApp/src/commonMain/kotlin/com/funny/translation/translate/ui/thanks/AnnualReportViewModel.kt:112-113 | `sortedByDescending { it.second }` returns a permutation of the entries. It is ordered by non-increasing count, and entries with equal counts keep their input order (it is stable). |
| Ranking.RunsDetermineSorted | composeApp/src/commonMain/kotlin/com/funny/translation/translate/ui/thanks/AnnualReportViewModel.kt:112 | Two sorted lists with the same runs of equal counts are equal, so only one list meets the stable-sort contract. |
| AnnualReport.NewViewModel | composeApp/src/commonMain/kotlin/com/funny/translation/translate/ui/thanks/AnnualReportViewModel.kt:49-63 | A new view model is Loading with `shouldLoadLatest` false, so its first load runs, and it holds the restored engine list. All other figures start at zero or empty; `None` stands for the default `LLMAnalyzeResult()` constructed at line 63, not an absent value. |
| AnnualReport.Selection | composeApp/src/commonMain/kotlin/com/funny/translation/translate/ui/thanks/AnnualReportViewModel.kt:74-81 | The records used are the year's when there are any, else the fallback window's. They are empty exactly when both windows are empty. |
| AnnualReport.TotalSourceLength | composeApp/src/commonMain/kotlin/com/funny/translation/translate/ui/thanks/AnnualReportViewModel.kt:86 | `totalTranslateWords`: the total source-text length is zero exactly when every record's text is empty. |
| AnnualReport.TotalSourceLengthAppend | composeApp/src/commonMain/kotlin/com/funny/translation/translate/ui/thanks/AnnualReportViewModel.kt:86 | The total text length of two runs of records is the sum of their totals. |
| AnnualReport.LanguagesAt | composeApp/src/commonMain/kotlin/com/funny/translation/translate/ui/thanks/AnnualReportViewModel.kt:91-95 | The language sequences counted hold record i's source (target) language at position i, one per record. |
| AnnualReport.AllEngineNamesLength | composeApp/src/commonMain/kotlin/com/funny/translation/translate/ui/thanks/AnnualReportViewModel.kt:96-98 | The engine names counted are exactly the names listed, record by record. A record with k names contributes k. |
| AnnualReport.CountEngineNames | composeApp/src/commonMain/kotlin/com/funny/translation/translate/ui/thanks/AnnualReportViewModel.kt:96-98 | The inner loop over one record's engine names extends the engine table's scan by those names. |
| AnnualReport.BuildUsageTables | composeApp/src/commonMain/kotlin/com/funny/translation/translate/ui/thanks/AnnualReportViewModel.kt:87-99 | The single interleaved pass builds the same three tables as separate scans of the source languages, the target languages and the engine names. |
| AnnualReport.UsageTableTotals | composeApp/src/commonMain/kotlin/com/funny/translation/translate/ui/thanks/AnnualReportViewModel.kt:91-99 | The source-language and target-language counts each sum to the record count. The engine counts sum to the number of engine-name entries across the records. |
| AnnualReport.MostCommon | composeApp/src/commonMain/kotlin/com/funny/translation/translate/ui/thanks/AnnualReportViewModel.kt:101-110 | On a non-empty sequence the reported language is its most frequent element. The reported times are that element's number of occurrences, and the first-occurring element wins a tie. |
| AnnualReport.LoadAnnualReport | composeApp/src/commonMain/kotlin/com/funny/translation/translate/ui/thanks/AnnualReportViewModel.kt:67-126 | In Success, a load changes nothing. In Loading with both windows empty, it fails with "no data": only `shouldLoadLatest` becomes true and the state stays Loading. Otherwise it ends in Success and uses the primary records, or the fallback records when the primary window is empty, setting `shouldLoadLatest`. The report then holds the record count, the earliest and latest times, the total text length, both most common languages with their counts, and the stable count ranking of the engine table. The LLM result is replaced only for a signed-in user whose request succeeded. |
| AnnualReport.FirstLoad | composeApp/src/commonMain/kotlin/com/funny/translation/translate/ui/thanks/AnnualReportViewModel.kt:49-126 | The first load of a new view model with both windows empty fails with "no data" and leaves every report figure, including the restored engine list, as constructed. Otherwise it ends in Success with the report summarizing the selected records, and the LLM result stays the default unless a signed-in user's request succeeded. |

## Left out

- The calendar decomposition of epoch milliseconds into hour, minute and second depends on the platform's default time zone. The clock fields are inputs of each record instead.
- The lazily created shared `calendar` behind `START_TIME` and `END_TIME`. The two database queries for those windows become the input sequences `primary` and `fallback`, so the window bounds and the query itself are not modelled.
- `measureTime` and `loadingDuration`, the `Dispatchers.IO` context, and the concurrency they allow. Two overlapping loads could both pass the guard; the model runs loads one at a time.
- The persisted `enginesUsesList` store: its restored value is a parameter of `NewViewModel`, and writing it back is not modelled.
- The remote LLM analysis request (network I/O). Its outcome is an input `remote`, present or absent, and the user id an input `uid`. It never causes a failure.
- `findLanguageById(...).displayText`, a lookup in a language registry that is not part of this model. The most common languages are kept as numeric ids.
- LoadingState values other than Loading and Success. The library type is not part of this model; in the code such a state would pass both guards and change nothing.
- AnnualReport.LoadAnnualReport: `totalTranslateWords` is an unbounded sum. Kotlin's `sumOf` on `Int` would wrap above 2^31 - 1 characters of history.
- SpecialTimes.FindSpecialTimes: requires a non-empty list. On an empty list the code fails with an index error; its only caller excludes that case with the "no data" check.
- The build script, the login view model, the database driver wiring and the app's UI composition hold no part of the aggregation.
