/** The global aggregates rebuilt from the daily ledgers on every run: the
    all-time check-in total and the seven-day histogram of the summary. */
module Aggregate {
  import opened Types

  /** The sum, over the given days, of each ledger's effective count. */
  function SumEffective(days: seq<Day>, data: map<Day, Ledger>): nat
    requires forall i :: 0 <= i < |days| ==> days[i] in data
  {
    if days == [] then 0
    else SumEffective(days[..|days| - 1], data) + Effective(data[days[|days| - 1]])
  }

  /** The effective count of today's ledger, 0 when it is not listed. */
  function TodayCount(df: DailyFiles, today: Day): nat
  {
    if today in df.data then Effective(df.data[today]) else 0
  }

  /** The value calculateTotalCheckIns returns: the sum of the effective
      counts, raised to today's effective count when that is larger. */
  function TotalCheckIns(df: DailyFiles, today: Day): (t: int)
    requires forall i :: 0 <= i < |df.days| ==> df.days[i] in df.data
    ensures t >= SumEffective(df.days, df.data) && t >= TodayCount(df, today)
    ensures t == SumEffective(df.days, df.data) || t == TodayCount(df, today)
  {
    var total := SumEffective(df.days, df.data);
    var c := TodayCount(df, today);
    if c > 0 && total < c then c else total
  }

  function SumSeq(s: seq<nat>): nat
  {
    if s == [] then 0 else SumSeq(s[..|s| - 1]) + s[|s| - 1]
  }

  /** Every listed ledger adds at least its own effective count. */
  lemma {:induction false} SumEffectiveAtLeast(days: seq<Day>, data: map<Day, Ledger>, i: nat)
    requires forall k :: 0 <= k < |days| ==> days[k] in data
    requires i < |days|
    ensures SumEffective(days, data) >= Effective(data[days[i]])
    decreases |days|
  {
    if i < |days| - 1 {
      var d' := days[..|days| - 1];
      assert d'[i] == days[i];
      SumEffectiveAtLeast(d', data, i);
    }
  }

  /** Today's ledger is one of the summands, so the raise to today's count
      never changes the total of a well-formed listing. */
  lemma TotalNotRaised(df: DailyFiles, today: Day)
    requires WellFormed(df)
    ensures TotalCheckIns(df, today) == SumEffective(df.days, df.data)
  {
    if today in df.data {
      var i :| 0 <= i < |df.days| && df.days[i] == today;
      SumEffectiveAtLeast(df.days, df.data, i);
    }
  }

  /** The per-file counts collected by the first loop add up to its running
      total, so the comparison of the two never corrects anything. */
  lemma {:induction false} IndividualCountsAgree(days: seq<Day>, data: map<Day, Ledger>, counts: seq<nat>)
    requires forall k :: 0 <= k < |days| ==> days[k] in data
    requires |counts| == |days|
    requires forall k :: 0 <= k < |days| ==> counts[k] == Effective(data[days[k]])
    ensures SumSeq(counts) == SumEffective(days, data)
    decreases |days|
  {
    if days != [] {
      var d' := days[..|days| - 1];
      var c' := counts[..|counts| - 1];
      assert forall k :: 0 <= k < |d'| ==> d'[k] == days[k] && c'[k] == counts[k];
      IndividualCountsAgree(d', data, c');
    }
  }

  /** When every ledger's count agrees with its user list the total is the
      number of (day, address) check-ins. */
  function SumUsers(days: seq<Day>, data: map<Day, Ledger>): nat
    requires forall i :: 0 <= i < |days| ==> days[i] in data
  {
    if days == [] then 0
    else SumUsers(days[..|days| - 1], data) + |data[days[|days| - 1]].users|
  }

  lemma {:induction false} ConsistentTotal(days: seq<Day>, data: map<Day, Ledger>)
    requires forall i :: 0 <= i < |days| ==> days[i] in data
    ensures SumEffective(days, data) >= SumUsers(days, data)
    ensures (forall i :: 0 <= i < |days| ==> data[days[i]].count <= |data[days[i]].users|) ==>
      SumEffective(days, data) == SumUsers(days, data)
    decreases |days|
  {
    if days != [] {
      var d' := days[..|days| - 1];
      assert forall i :: 0 <= i < |d'| ==> d'[i] == days[i];
      ConsistentTotal(d', data);
    }
  }

  /** calculateTotalCheckIns: a first loop accumulates the running total,
      today's count and the per-file counts; a second sums the per-file
      counts; the total is replaced by that sum if they differ and then
      raised to today's count. The per-file counts are kept in file order
      (the object keyed by file name has one entry per file). */
  method CalculateTotalCheckIns(df: DailyFiles, today: Day) returns (total: int)
    requires forall i :: 0 <= i < |df.days| ==> df.days[i] in df.data
    requires forall d :: d in df.data ==> d in df.days
    ensures total == TotalCheckIns(df, today)
  {
    var totalCheckIns := 0;
    var individualCounts: seq<nat> := [];
    var checkInsToday := 0;
    for i := 0 to |df.days|
      invariant totalCheckIns == SumEffective(df.days[..i], df.data)
      invariant |individualCounts| == i
      invariant forall k :: 0 <= k < i ==> individualCounts[k] == Effective(df.data[df.days[k]])
      invariant checkInsToday == if today in df.days[..i] then Effective(df.data[today]) else 0
    {
      assert df.days[..i + 1][..i] == df.days[..i];
      assert df.days[..i + 1] == df.days[..i] + [df.days[i]];
      var file := df.days[i];
      var fileCount := df.data[file].count;
      var userCount := |df.data[file].users|;
      if file == today {
        checkInsToday := Max(fileCount, userCount);
      }
      if fileCount != userCount {
        var actualCount := Max(fileCount, userCount);
        individualCounts := individualCounts + [actualCount];
        totalCheckIns := totalCheckIns + actualCount;
      } else {
        individualCounts := individualCounts + [fileCount];
        totalCheckIns := totalCheckIns + fileCount;
      }
    }
    assert df.days[..|df.days|] == df.days;
    var sum := 0;
    for j := 0 to |individualCounts|
      invariant sum == SumSeq(individualCounts[..j])
    {
      assert individualCounts[..j + 1][..j] == individualCounts[..j];
      sum := sum + individualCounts[j];
    }
    assert individualCounts[..|individualCounts|] == individualCounts;
    IndividualCountsAgree(df.days, df.data, individualCounts);
    if sum != totalCheckIns {
      totalCheckIns := sum;
    }
    assert checkInsToday == TodayCount(df, today) by {
      assert today in df.days <==> today in df.data by {
        if today in df.days {
          var i :| 0 <= i < |df.days| && df.days[i] == today;
        }
      }
    }
    if checkInsToday > 0 && totalCheckIns < checkInsToday {
      totalCheckIns := checkInsToday;
    }
    total := totalCheckIns;
  }

  /** The days the summary's histogram covers: today and the six before. */
  predicate InWindow(today: Day, k: Day)
  {
    today - 7 < k <= today
  }

  /** The histogram after the loop that fills lastSevenDays: today has
      today's count, each of the six previous days its ledger's effective
      count or 0, and keys from earlier runs stay as they were. */
  ghost predicate Window(w: map<Day, int>, window0: map<Day, int>, todayCount: int, df: DailyFiles, today: Day)
  {
    && (forall k :: k in w <==> k in window0 || InWindow(today, k))
    && today in w && w[today] == todayCount
    && (forall k :: InWindow(today, k) && k != today && k in w ==>
         w[k] == if k in df.data then Effective(df.data[k]) else 0)
    && (forall k :: k in window0 && !InWindow(today, k) && k in w ==> w[k] == window0[k])
  }

  /** The histogram is determined by the previous one, today's count and
      the listing. */
  lemma WindowUnique(w1: map<Day, int>, w2: map<Day, int>, window0: map<Day, int>, todayCount: int, df: DailyFiles, today: Day)
    requires Window(w1, window0, todayCount, df, today) && Window(w2, window0, todayCount, df, today)
    ensures w1 == w2
  {
    forall k | k in w1 ensures k in w2 && w1[k] == w2[k] {
      if InWindow(today, k) && k != today {
      } else if !InWindow(today, k) {
      }
    }
    assert forall k :: k in w2 ==> k in w1;
  }

  /** The loop that fills lastSevenDays. */
  method SevenDayWindow(window0: map<Day, int>, todayCount: int, df: DailyFiles, today: Day)
    returns (w: map<Day, int>)
    ensures Window(w, window0, todayCount, df, today)
  {
    w := window0;
    for i := 0 to 7
      invariant forall k :: k in w <==> k in window0 || today - i < k <= today
      invariant i > 0 ==> w[today] == todayCount
      invariant forall k :: today - i < k < today ==>
        w[k] == if k in df.data then Effective(df.data[k]) else 0
      invariant forall k :: k in window0 && !(today - i < k <= today) ==> w[k] == window0[k]
    {
      var dateKey := today - i;
      if i == 0 {
        w := w[dateKey := todayCount];
      } else if dateKey in df.data {
        var fileCount := df.data[dateKey].count;
        var userCount := |df.data[dateKey].users|;
        w := w[dateKey := Max(fileCount, userCount)];
      } else {
        w := w[dateKey := 0];
      }
    }
  }

  /** The drift report: a positive stored total that differs from the
      recomputed one by more than LARGE_DIFF_THRESHOLD. */
  predicate Drift(prevTotal: int, actual: int)
  {
    prevTotal > 0 && Abs(prevTotal - actual) > LARGE_DIFF_THRESHOLD
  }
}
