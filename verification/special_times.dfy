/** `findSpecialTimes`: the earliest and the latest time of day at which the
    user translated, under the night-rollover rule. */
module SpecialTimes {
  import opened History
  import KotlinInt

  /** Among the first `n` records, record `i` has the smallest time of day,
      and every record before it a strictly larger one. */
  predicate IsEarliestAmong(rs: seq<HistoryRecord>, n: int, i: int)
  {
    && 0 <= i < n <= |rs|
    && (forall j :: 0 <= j < n ==> TimeOfDay(rs[i]) <= TimeOfDay(rs[j]))
    && (forall j :: 0 <= j < i ==> TimeOfDay(rs[j]) > TimeOfDay(rs[i]))
  }

  /** Among the first `n` records, record `i` has the largest time of day,
      and every record before it a strictly smaller one. */
  predicate IsLatestAmong(rs: seq<HistoryRecord>, n: int, i: int)
  {
    && 0 <= i < n <= |rs|
    && (forall j :: 0 <= j < n ==> TimeOfDay(rs[j]) <= TimeOfDay(rs[i]))
    && (forall j :: 0 <= j < i ==> TimeOfDay(rs[j]) < TimeOfDay(rs[i]))
  }

  predicate IsEarliestAt(rs: seq<HistoryRecord>, i: int)
  {
    IsEarliestAmong(rs, |rs|, i)
  }

  predicate IsLatestAt(rs: seq<HistoryRecord>, i: int)
  {
    IsLatestAmong(rs, |rs|, i)
  }

  /** Two records can not both be the first with the least time of day. */
  lemma EarliestIsUnique(rs: seq<HistoryRecord>, i: int, k: int)
    requires IsEarliestAt(rs, i) && IsEarliestAt(rs, k)
    ensures i == k
  {
    var ti, tk := TimeOfDay(rs[i]), TimeOfDay(rs[k]);
  }

  lemma LatestIsUnique(rs: seq<HistoryRecord>, i: int, k: int)
    requires IsLatestAt(rs, i) && IsLatestAt(rs, k)
    ensures i == k
  {
    var ti, tk := TimeOfDay(rs[i]), TimeOfDay(rs[k]);
  }

  /** The position of the first record with the least time of day, as a
      reference fold over the records. */
  function EarliestIndex(rs: seq<HistoryRecord>): (i: nat)
    requires |rs| > 0
    ensures IsEarliestAt(rs, i)
  {
    if |rs| == 1 then 0
    else
      var e := EarliestIndex(rs[..|rs| - 1]);
      assert forall j :: 0 <= j < |rs| - 1 ==> rs[..|rs| - 1][j] == rs[j];
      if TimeOfDay(rs[|rs| - 1]) < TimeOfDay(rs[e]) then |rs| - 1 else e
  }

  /** The position of the first record with the greatest time of day. */
  function LatestIndex(rs: seq<HistoryRecord>): (i: nat)
    requires |rs| > 0
    ensures IsLatestAt(rs, i)
  {
    if |rs| == 1 then 0
    else
      var l := LatestIndex(rs[..|rs| - 1]);
      assert forall j :: 0 <= j < |rs| - 1 ==> rs[..|rs| - 1][j] == rs[j];
      if TimeOfDay(rs[|rs| - 1]) > TimeOfDay(rs[l]) then |rs| - 1 else l
  }

  /** One pass with strict comparisons against `Int.MAX_VALUE` and
      `Int.MIN_VALUE` sentinels; the result is the `time` stamps of the first
      record with the least and of the first with the greatest time of day.
      The only caller reaches it with a non-empty list: on an empty one both
      indices stay -1 and the final lookups fail. */
  method FindSpecialTimes(rs: seq<HistoryRecord>) returns (earliest: int, latest: int)
    requires |rs| > 0
    ensures earliest == rs[EarliestIndex(rs)].time
    ensures latest == rs[LatestIndex(rs)].time
  {
    var earliestTimeOfDay := KotlinInt.MaxValue;
    var earliestTimeIndex := -1;
    var latestTimeOfDay := KotlinInt.MinValue;
    var latestTimeIndex := -1;
    for index := 0 to |rs|
      invariant index == 0 ==> earliestTimeIndex == -1 && earliestTimeOfDay == KotlinInt.MaxValue
      invariant index == 0 ==> latestTimeIndex == -1 && latestTimeOfDay == KotlinInt.MinValue
      invariant index > 0 ==> IsEarliestAmong(rs, index, earliestTimeIndex)
      invariant index > 0 ==> earliestTimeOfDay == TimeOfDay(rs[earliestTimeIndex])
      invariant index > 0 ==> IsLatestAmong(rs, index, latestTimeIndex)
      invariant index > 0 ==> latestTimeOfDay == TimeOfDay(rs[latestTimeIndex])
    {
      var t := SecondsOfDay(rs[index].hour, rs[index].minute, rs[index].second);
      if t < earliestTimeOfDay {
        earliestTimeOfDay := t;
        earliestTimeIndex := index;
      }
      if t > latestTimeOfDay {
        latestTimeOfDay := t;
        latestTimeIndex := index;
      }
    }
    EarliestIsUnique(rs, earliestTimeIndex, EarliestIndex(rs));
    LatestIsUnique(rs, latestTimeIndex, LatestIndex(rs));
    return rs[earliestTimeIndex].time, rs[latestTimeIndex].time;
  }
}
