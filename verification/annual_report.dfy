/** `AnnualReportViewModel.loadAnnualReport`: select the year's history (or
    the fallback window), reduce it to the report's figures, and move the
    load guard from Loading to Success. The view model is an immutable value;
    a load returns the next one. */
module AnnualReport {
  import opened History
  import opened Frequency
  import opened Ranking
  import SpecialTimes

  datatype Option<T> = None | Some(value: T)

  /** The load guard. */
  datatype LoadingState = Loading | Success

  /** How a call to `LoadAnnualReport` ends: it returns, or it throws the
      "no data" exception. */
  datatype Completion = Returned | NoData

  /** The remote LLM analysis; its content is opaque to the report. */
  datatype Analysis = Analysis(content: string)

  /** The figures the view model shows. Language winners are kept as ids;
      `None` stands for the initial empty display text. */
  datatype Report = Report(
    totalTranslateTimes: int,
    earliestTime: int,
    latestTime: int,
    totalTranslateWords: int,
    mostCommonSourceLanguage: Option<int>,
    mostCommonTargetLanguage: Option<int>,
    mostCommonSourceLanguageTimes: int,
    mostCommonTargetLanguageTimes: int,
    enginesUsesList: seq<Entry<string>>,
    llmAnalyzeResult: Option<Analysis>)

  datatype ViewModel = ViewModel(
    loadingState: LoadingState,
    shouldLoadLatest: bool,
    report: Report)

  /** A view model as constructed: every figure zero or empty, except the
      engine list, which is restored from persistent storage. `None` stands
      for the default, empty `LLMAnalyzeResult()` the code starts with. A new
      view model is Loading, so its first load is not skipped. */
  function NewViewModel(persistedEngines: seq<Entry<string>>): (vm: ViewModel)
    ensures vm.loadingState == Loading && !vm.shouldLoadLatest
    ensures vm.report.enginesUsesList == persistedEngines
  {
    ViewModel(Loading, false, Report(0, 0, 0, 0, None, None, 0, 0, persistedEngines, None))
  }

  /** Every record's source language, in record order. */
  function SourceLanguages(rs: seq<HistoryRecord>): (ls: seq<int>)
    ensures |ls| == |rs|
  {
    if rs == [] then [] else SourceLanguages(rs[..|rs| - 1]) + [rs[|rs| - 1].sourceLanguageId]
  }

  /** Every record's target language, in record order. */
  function TargetLanguages(rs: seq<HistoryRecord>): (ls: seq<int>)
    ensures |ls| == |rs|
  {
    if rs == [] then [] else TargetLanguages(rs[..|rs| - 1]) + [rs[|rs| - 1].targetLanguageId]
  }

  /** Position `i` of each language projection is record `i`'s language. */
  lemma {:induction false} LanguagesAt(rs: seq<HistoryRecord>)
    ensures forall i :: 0 <= i < |rs| ==> SourceLanguages(rs)[i] == rs[i].sourceLanguageId
    ensures forall i :: 0 <= i < |rs| ==> TargetLanguages(rs)[i] == rs[i].targetLanguageId
  {
    if rs != [] {
      var init := rs[..|rs| - 1];
      LanguagesAt(init);
      assert forall i :: 0 <= i < |init| ==> init[i] == rs[i];
    }
  }

  /** Every engine name of every record, record by record. */
  function AllEngineNames(rs: seq<HistoryRecord>): seq<string>
  {
    if rs == [] then [] else AllEngineNames(rs[..|rs| - 1]) + rs[|rs| - 1].engineNames
  }

  /** How many engine names the records carry in all. */
  function EngineNameCount(rs: seq<HistoryRecord>): nat
  {
    if rs == [] then 0 else |rs[0].engineNames| + EngineNameCount(rs[1..])
  }

  /** `sumOf { it.sourceString.length }`. It is zero exactly when every
      record's source text is empty. */
  function TotalSourceLength(rs: seq<HistoryRecord>): (n: nat)
    ensures n == 0 <==> forall i :: 0 <= i < |rs| ==> rs[i].sourceLength == 0
  {
    if rs == [] then 0 else rs[0].sourceLength + TotalSourceLength(rs[1..])
  }

  /** The text length of two runs of records is the sum of their lengths. */
  lemma {:induction false} TotalSourceLengthAppend(a: seq<HistoryRecord>, b: seq<HistoryRecord>)
    ensures TotalSourceLength(a + b) == TotalSourceLength(a) + TotalSourceLength(b)
  {
    if a == [] {
      assert a + b == b;
    } else {
      assert (a + b)[1..] == a[1..] + b;
      TotalSourceLengthAppend(a[1..], b);
    }
  }

  lemma {:induction false} EngineNameCountAppend(a: seq<HistoryRecord>, b: seq<HistoryRecord>)
    ensures EngineNameCount(a + b) == EngineNameCount(a) + EngineNameCount(b)
  {
    if a == [] {
      assert a + b == b;
    } else {
      assert (a + b)[1..] == a[1..] + b;
      EngineNameCountAppend(a[1..], b);
    }
  }

  /** Each name of each record is one entry of `AllEngineNames`. */
  lemma {:induction false} AllEngineNamesLength(rs: seq<HistoryRecord>)
    ensures |AllEngineNames(rs)| == EngineNameCount(rs)
  {
    if rs != [] {
      var init := rs[..|rs| - 1];
      assert rs == init + [rs[|rs| - 1]];
      AllEngineNamesLength(init);
      EngineNameCountAppend(init, [rs[|rs| - 1]]);
    }
  }

  /** The projections of one more record extend those of the records before it. */
  lemma ProjectionsSnoc(rs: seq<HistoryRecord>, n: nat)
    requires n < |rs|
    ensures SourceLanguages(rs[..n + 1]) == SourceLanguages(rs[..n]) + [rs[n].sourceLanguageId]
    ensures TargetLanguages(rs[..n + 1]) == TargetLanguages(rs[..n]) + [rs[n].targetLanguageId]
    ensures AllEngineNames(rs[..n + 1]) == AllEngineNames(rs[..n]) + rs[n].engineNames
  {
    assert rs[..n + 1][..n] == rs[..n];
  }

  /** The inner loop of `loadAnnualReport`'s pass: count each engine name of one record. */
  method CountEngineNames(engines: Table<string>, ghost before: seq<string>, names: seq<string>)
    returns (counted: Table<string>)
    requires engines == Tally(before)
    ensures counted == Tally(before + names)
  {
    counted := engines;
    assert before + names[..0] == before;
    for m := 0 to |names|
      invariant counted == Tally(before + names[..m])
    {
      TallyOneMore(before, names, m);
      counted := Increment(counted, names[m]);
    }
    assert names[..|names|] == names;
  }

  /** The three usage tables, built in the code's single pass: per record,
      its source language, its target language, then each of its engine
      names in turn. */
  method BuildUsageTables(rs: seq<HistoryRecord>)
    returns (sources: Table<int>, targets: Table<int>, engines: Table<string>)
    ensures sources == Tally(SourceLanguages(rs))
    ensures targets == Tally(TargetLanguages(rs))
    ensures engines == Tally(AllEngineNames(rs))
  {
    sources, targets, engines := [], [], [];
    for n := 0 to |rs|
      invariant sources == Tally(SourceLanguages(rs[..n]))
      invariant targets == Tally(TargetLanguages(rs[..n]))
      invariant engines == Tally(AllEngineNames(rs[..n]))
    {
      var r := rs[n];
      ProjectionsSnoc(rs, n);
      TallySnoc(SourceLanguages(rs[..n]), r.sourceLanguageId);
      TallySnoc(TargetLanguages(rs[..n]), r.targetLanguageId);
      sources := Increment(sources, r.sourceLanguageId);
      targets := Increment(targets, r.targetLanguageId);
      engines := CountEngineNames(engines, AllEngineNames(rs[..n]), r.engineNames);
    }
    assert rs[..|rs|] == rs;
  }

  /** The language tables' counts add up to the number of records, and the
      engine table's to the number of engine names the records carry. */
  lemma UsageTableTotals(rs: seq<HistoryRecord>)
    ensures Total(Tally(SourceLanguages(rs))) == |rs|
    ensures Total(Tally(TargetLanguages(rs))) == |rs|
    ensures Total(Tally(AllEngineNames(rs))) == EngineNameCount(rs)
  {
    TallyCounts(SourceLanguages(rs));
    TallyCounts(TargetLanguages(rs));
    TallyCounts(AllEngineNames(rs));
    AllEngineNamesLength(rs);
  }

  /** `top` is the most frequent element of `ls`, `times` its number of
      occurrences, and no element as frequent occurs before it. */
  ghost predicate IsMostCommon(ls: seq<int>, top: Option<int>, times: int)
  {
    && top.Some?
    && top.value in ls
    && times == multiset(ls)[top.value]
    && (forall x :: multiset(ls)[x] <= times)
    && (forall x :: x in ls && x != top.value && multiset(ls)[x] == times ==>
          FirstIndex(ls, top.value) < FirstIndex(ls, x))
  }

  /** What the report's local figures say about the selected records `rs`. */
  ghost predicate Summarizes(report: Report, rs: seq<HistoryRecord>)
  {
    var engines := Tally(AllEngineNames(rs));
    && report.totalTranslateTimes == |rs|
    && rs != []
    && report.earliestTime == rs[SpecialTimes.EarliestIndex(rs)].time
    && report.latestTime == rs[SpecialTimes.LatestIndex(rs)].time
    && report.totalTranslateWords == TotalSourceLength(rs)
    && IsMostCommon(SourceLanguages(rs), report.mostCommonSourceLanguage, report.mostCommonSourceLanguageTimes)
    && IsMostCommon(TargetLanguages(rs), report.mostCommonTargetLanguage, report.mostCommonTargetLanguageTimes)
    && SortedByCountDesc(report.enginesUsesList)
    && multiset(report.enginesUsesList) == multiset(engines)
    && (forall c :: WithCount(report.enginesUsesList, c) == WithCount(engines, c))
  }

  /** The records a load works on: the year's, or when there are none the
      fallback window's. */
  function Selection(primary: seq<HistoryRecord>, fallback: seq<HistoryRecord>): (rs: seq<HistoryRecord>)
    ensures rs == [] <==> primary == [] && fallback == []
    ensures rs == primary || rs == fallback
    ensures primary != [] ==> rs == primary
  {
    if primary != [] then primary else fallback
  }

  /** The winner of a language table and its count, as `loadAnnualReport` reads them:
      `keyOfMaxValue()` and then `map[key] ?: 0`. */
  method MostCommon(ghost ls: seq<int>, table: Table<int>) returns (top: Option<int>, times: int)
    requires ls != [] && table == Tally(ls)
    ensures IsMostCommon(ls, top, times)
  {
    var key := KeyOfMaxValue(table);
    ghost var i :| IsFirstMax(table, i) && table[i].key == key;
    MaxKeyIsFirstMode(ls, i);
    top, times := Some(key), Get(table, key);
  }

  /** `loadAnnualReport`. `primary` and `fallback` are what the history
      database returns for the year and for the time since its end; `uid` is
      the signed-in user's id and `remote` the outcome of the LLM analysis
      request (None when it fails). */
  method LoadAnnualReport(vm: ViewModel, primary: seq<HistoryRecord>, fallback: seq<HistoryRecord>,
                          uid: int, remote: Option<Analysis>)
    returns (next: ViewModel, completion: Completion)
    ensures vm.loadingState == Success ==> next == vm && completion == Returned
    ensures vm.loadingState == Loading && primary == [] && fallback == [] ==>
      completion == NoData && next == vm.(shouldLoadLatest := true)
    ensures vm.loadingState == Loading && (primary != [] || fallback != []) ==>
      && completion == Returned
      && next.loadingState == Success
      && next.shouldLoadLatest == (vm.shouldLoadLatest || primary == [])
      && Summarizes(next.report, Selection(primary, fallback))
      && next.report.llmAnalyzeResult == (if uid > 0 && remote.Some? then remote else vm.report.llmAnalyzeResult)
  {
    if vm.loadingState == Success {
      return vm, Returned;
    }
    var shouldLoadLatest := vm.shouldLoadLatest;
    var allHistories := primary;
    if allHistories == [] {
      allHistories := fallback;
      shouldLoadLatest := true;
    }
    if allHistories == [] {
      return vm.(shouldLoadLatest := shouldLoadLatest), NoData;
    }
    var earliest, latest := SpecialTimes.FindSpecialTimes(allHistories);
    var sources, targets, engines := BuildUsageTables(allHistories);
    var sourceTop, sourceTimes := MostCommon(SourceLanguages(allHistories), sources);
    var targetTop, targetTimes := MostCommon(TargetLanguages(allHistories), targets);
    var ranking := SortByCountDesc(engines);
    var llm := vm.report.llmAnalyzeResult;
    if uid > 0 && remote.Some? {
      llm := remote;
    }
    var report := Report(|allHistories|, earliest, latest, TotalSourceLength(allHistories),
                         sourceTop, targetTop, sourceTimes, targetTimes, ranking, llm);
    next := ViewModel(Success, shouldLoadLatest, report);
    completion := Returned;
  }

  /** The first load of a newly constructed view model. With no history in
      either window it fails and the restored engine list and every other
      figure stay as constructed; otherwise the report summarizes the selected
      records and the LLM result is the remote one only for a signed-in user. */
  method FirstLoad(persistedEngines: seq<Entry<string>>, primary: seq<HistoryRecord>,
                   fallback: seq<HistoryRecord>, uid: int, remote: Option<Analysis>)
    returns (next: ViewModel, completion: Completion)
    ensures primary == [] && fallback == [] ==>
      && completion == NoData
      && next.loadingState == Loading
      && next.shouldLoadLatest
      && next.report == NewViewModel(persistedEngines).report
    ensures primary != [] || fallback != [] ==>
      && completion == Returned
      && next.loadingState == Success
      && next.shouldLoadLatest == (primary == [])
      && Summarizes(next.report, Selection(primary, fallback))
      && next.report.llmAnalyzeResult == (if uid > 0 && remote.Some? then remote else None)
  {
    next, completion := LoadAnnualReport(NewViewModel(persistedEngines), primary, fallback, uid, remote);
  }
}
