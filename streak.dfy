/** The streak calculator: replays one address's history across all daily
    ledgers (in file order) and corrects the stored streak record from it. */
module Streak {
  import opened Types
  import opened Calendar

  /** The counters of the replay loop. */
  datatype ReplayState = ReplayState(total: nat, months: map<YearMonth, nat>, streak: nat, last: Option<Day>)

  const ReplayStart: ReplayState := ReplayState(0, map[], 0, None)

  /** What one ledger does to the counters: a ledger listing the address
      counts one check-in in the day's month; the streak starts at 1, grows
      after a one-day gap, restarts after a longer gap and stays on a zero
      gap. */
  function ReplayStep(st: ReplayState, d: Day, l: Ledger, u: Address): ReplayState
  {
    if u in l.users then
      var ym := MonthOf(d);
      var months := st.months[ym := (if ym in st.months then st.months[ym] else 0) + 1];
      var streak :=
        match st.last
        case None => 1
        case Some(p) =>
          var diffDays := Abs(d - p);
          if diffDays == 1 then st.streak + 1
          else if diffDays > 1 then 1
          else st.streak;
      ReplayState(st.total + 1, months, streak, Some(d))
    else st
  }

  /** The counters after the ledgers of the given days, in order. */
  function Replay(days: seq<Day>, data: map<Day, Ledger>, u: Address): ReplayState
    requires forall i :: 0 <= i < |days| ==> days[i] in data
  {
    if days == [] then ReplayStart
    else ReplayStep(Replay(days[..|days| - 1], data, u), days[|days| - 1], data[days[|days| - 1]], u)
  }

  /** The days, in order, whose ledger lists the address. */
  function HitDays(days: seq<Day>, data: map<Day, Ledger>, u: Address): seq<Day>
    requires forall i :: 0 <= i < |days| ==> days[i] in data
  {
    if days == [] then []
    else
      HitDays(days[..|days| - 1], data, u) +
        (if u in data[days[|days| - 1]].users then [days[|days| - 1]] else [])
  }

  /** The loop over dailyFilesData in updateUserStreak. */
  method ReplayHistory(u: Address, df: DailyFiles) returns (total: nat, months: map<YearMonth, nat>, streak: nat)
    requires forall i :: 0 <= i < |df.days| ==> df.days[i] in df.data
    ensures Replay(df.days, df.data, u) == ReplayState(total, months, streak, Replay(df.days, df.data, u).last)
  {
    total, months, streak := 0, map[], 0;
    var last: Option<Day> := None;
    for i := 0 to |df.days|
      invariant ReplayState(total, months, streak, last) == Replay(df.days[..i], df.data, u)
    {
      var d := df.days[i];
      assert df.days[..i + 1] == df.days[..i] + [d];
      SnocUnfold(df.days[..i], d, df.data, u);
      ghost var before := ReplayState(total, months, streak, last);
      var dailyData := df.data[d];
      if u in dailyData.users {
        total := total + 1;
        var ym := MonthOf(d);
        if ym !in months {
          months := months[ym := 0];
        }
        months := months[ym := months[ym] + 1];
        match last {
          case None =>
            streak := 1;
          case Some(p) =>
            var diffDays := Abs(d - p);
            if diffDays == 1 {
              streak := streak + 1;
            } else if diffDays > 1 {
              streak := 1;
            }
        }
        last := Some(d);
      }
      assert ReplayState(total, months, streak, last) == ReplayStep(before, d, dailyData, u);
    }
    assert df.days[..|df.days|] == df.days;
  }

  /** The stored record corrected by the replay: total, current streak and
      months are replaced by the replayed values, the last check-in is
      today, a stored maximum above the total or above 30 is reset to the
      replayed streak, and the maximum is raised to the replayed streak. */
  function Corrected(stored: StreakRecord, r: ReplayState, today: Day): (rec: StreakRecord)
    ensures rec.totalCheckIns == r.total && rec.currentStreak == r.streak
    ensures rec.months == r.months && rec.lastCheckIn == Some(today)
    ensures stored.maxStreak > r.total || stored.maxStreak > MAX_STREAK_DAYS ==> rec.maxStreak == r.streak
    ensures !(stored.maxStreak > r.total || stored.maxStreak > MAX_STREAK_DAYS) ==>
      rec.maxStreak == Max(stored.maxStreak, r.streak)
    ensures rec.maxStreak >= rec.currentStreak
    ensures r.streak <= r.total ==> rec.maxStreak <= r.total
  {
    var maxStreak := if stored.maxStreak > r.total || stored.maxStreak > MAX_STREAK_DAYS then r.streak else stored.maxStreak;
    StreakRecord(r.streak, if r.streak > maxStreak then r.streak else maxStreak, Some(today), r.total, r.months)
  }

  // ---------------------------------------------------------------------
  // Total and streak

  predicate Consecutive(h: seq<Day>)
  {
    forall i :: 0 <= i < |h| - 1 ==> h[i + 1] == h[i] + 1
  }

  lemma {:induction false} HitDaysFacts(days: seq<Day>, data: map<Day, Ledger>, u: Address)
    requires forall i :: 0 <= i < |days| ==> days[i] in data
    ensures forall x :: x in HitDays(days, data, u) ==> x in days
    ensures |HitDays(days, data, u)| <= |days|
    decreases |days|
  {
    if days != [] {
      HitDaysFacts(days[..|days| - 1], data, u);
    }
  }

  /** The replay counts the ledgers that list the address and its last
      check-in is the latest of them. */
  lemma {:induction false} ReplayCountsHits(days: seq<Day>, data: map<Day, Ledger>, u: Address)
    requires forall i :: 0 <= i < |days| ==> days[i] in data
    ensures var h := HitDays(days, data, u); var r := Replay(days, data, u);
      r.total == |h| && r.last == (if h == [] then None else Some(h[|h| - 1]))
    decreases |days|
  {
    if days != [] {
      ReplayCountsHits(days[..|days| - 1], data, u);
    }
  }

  /** k is the length of the run of consecutive days that ends at the last
      element of h: the last k days are consecutive and the one before them,
      if any, is more than a day earlier. */
  ghost predicate TrailingRun(h: seq<Day>, k: nat)
  {
    && (h == [] ==> k == 0)
    && (h != [] ==> 1 <= k <= |h| && Consecutive(h[|h| - k..]) && (k < |h| ==> h[|h| - k] > h[|h| - k - 1] + 1))
  }

  lemma TrailingRunStep(h: seq<Day>, k: nat, d: Day)
    requires TrailingRun(h, k)
    requires h != [] ==> h[|h| - 1] < d
    ensures TrailingRun(h + [d], if h == [] then 1 else if d - h[|h| - 1] == 1 then k + 1 else 1)
  {
    var h2 := h + [d];
    if h != [] && d - h[|h| - 1] == 1 {
      assert h2[|h2| - (k + 1)..] == h[|h| - k..] + [d];
    }
  }

  /** One more ledger at the end of the history: the hit days gain that day
      when it lists the address, and the counters take one step. */
  lemma SnocUnfold(d': seq<Day>, d: Day, data: map<Day, Ledger>, u: Address)
    requires forall i :: 0 <= i < |d'| ==> d'[i] in data
    requires d in data
    ensures HitDays(d' + [d], data, u) == HitDays(d', data, u) + (if u in data[d].users then [d] else [])
    ensures Replay(d' + [d], data, u) == ReplayStep(Replay(d', data, u), d, data[d], u)
  {
    assert (d' + [d])[..|d'|] == d';
  }

  /** A later check-in extends the trailing run when it is the next day and
      starts a new one otherwise; a ledger without the address changes
      neither. */
  lemma TrailingRunReplayStep(h: seq<Day>, r: ReplayState, d: Day, l: Ledger, u: Address)
    requires TrailingRun(h, r.streak)
    requires r.last == if h == [] then None else Some(h[|h| - 1])
    requires h != [] ==> h[|h| - 1] < d
    ensures TrailingRun(h + (if u in l.users then [d] else []), ReplayStep(r, d, l, u).streak)
  {
    if u in l.users {
      TrailingRunStep(h, r.streak, d);
    } else {
      assert h + [] == h;
    }
  }

  lemma TrailingRunSnoc(d': seq<Day>, d: Day, data: map<Day, Ledger>, u: Address)
    requires forall i :: 0 <= i < |d'| ==> d'[i] in data
    requires d in data
    requires forall x :: x in d' ==> x < d
    requires TrailingRun(HitDays(d', data, u), Replay(d', data, u).streak)
    ensures TrailingRun(HitDays(d' + [d], data, u), Replay(d' + [d], data, u).streak)
  {
    SnocUnfold(d', d, data, u);
    var h' := HitDays(d', data, u);
    ReplayCountsHits(d', data, u);
    HitDaysFacts(d', data, u);
    if h' != [] {
      assert h'[|h'| - 1] in h';
    }
    TrailingRunReplayStep(h', Replay(d', data, u), d, data[d], u);
  }

  /** currentStreak is the length of the run of consecutive calendar days
      that ends at the latest check-in. */
  lemma {:induction false} StreakIsTrailingRun(days: seq<Day>, data: map<Day, Ledger>, u: Address)
    requires forall i :: 0 <= i < |days| ==> days[i] in data
    requires StrictlyIncreasing(days)
    ensures TrailingRun(HitDays(days, data, u), Replay(days, data, u).streak)
    decreases |days|
  {
    if days != [] {
      var d' := days[..|days| - 1];
      var d := days[|days| - 1];
      assert days == d' + [d];
      PrefixIncreasing(d', d);
      assert forall i :: 0 <= i < |d'| ==> d'[i] in data by {
        forall i | 0 <= i < |d'| ensures d'[i] in data {
          assert d'[i] == days[i];
        }
      }
      StreakIsTrailingRun(d', data, u);
      TrailingRunSnoc(d', d, data, u);
    }
  }

  /** The replayed streak never exceeds the replayed total. */
  lemma StreakWithinTotal(days: seq<Day>, data: map<Day, Ledger>, u: Address)
    requires forall i :: 0 <= i < |days| ==> days[i] in data
    requires StrictlyIncreasing(days)
    ensures Replay(days, data, u).streak <= Replay(days, data, u).total
  {
    StreakIsTrailingRun(days, data, u);
    ReplayCountsHits(days, data, u);
  }

  /** The days among the given ones whose ledger lists the address. */
  ghost function HitSet(days: seq<Day>, data: map<Day, Ledger>, u: Address): set<Day>
  {
    set x | x in days && x in data && u in data[x].users
  }

  lemma HitSetSnoc(d': seq<Day>, d: Day, data: map<Day, Ledger>, u: Address)
    requires d in data
    ensures HitSet(d' + [d], data, u) == HitSet(d', data, u) + (if u in data[d].users then {d} else {})
  {
    assert forall x :: x in d' + [d] <==> x in d' || x == d;
  }

  lemma {:induction false} HitSetSize(days: seq<Day>, data: map<Day, Ledger>, u: Address)
    requires forall i :: 0 <= i < |days| ==> days[i] in data
    requires StrictlyIncreasing(days)
    ensures |HitDays(days, data, u)| == |HitSet(days, data, u)|
    decreases |days|
  {
    if days != [] {
      var d' := days[..|days| - 1];
      var d := days[|days| - 1];
      assert days == d' + [d];
      PrefixIncreasing(d', d);
      assert forall i :: 0 <= i < |d'| ==> d'[i] in data by {
        forall i | 0 <= i < |d'| ensures d'[i] in data {
          assert d'[i] == days[i];
        }
      }
      HitSetSize(d', data, u);
      SnocUnfold(d', d, data, u);
      HitSetSnoc(d', d, data, u);
      assert d !in HitSet(d', data, u);
    }
  }

  /** The replayed total is the number of daily ledgers that list the
      address. */
  lemma TotalIsLedgerCount(df: DailyFiles, u: Address)
    requires WellFormed(df)
    ensures Replay(df.days, df.data, u).total == |set d | d in df.data && u in df.data[d].users|
  {
    ReplayCountsHits(df.days, df.data, u);
    HitSetSize(df.days, df.data, u);
    forall x ensures x in HitSet(df.days, df.data, u) <==> x in df.data && u in df.data[x].users {
      if x in df.days {
        var i :| 0 <= i < |df.days| && df.days[i] == x;
      }
    }
    assert HitSet(df.days, df.data, u) == set d | d in df.data && u in df.data[d].users;
  }

  // ---------------------------------------------------------------------
  // Months

  /** The sum of the values of a month map. */
  ghost function SumValues(m: map<YearMonth, nat>): nat
    decreases |m|
  {
    if m == map[] then 0
    else
      var k :| k in m;
      m[k] + SumValues(m - {k})
  }

  lemma {:induction false} SumValuesRemove(m: map<YearMonth, nat>, k: YearMonth)
    requires k in m
    ensures SumValues(m) == m[k] + SumValues(m - {k})
    decreases |m|
  {
    var j :| j in m && SumValues(m) == m[j] + SumValues(m - {j});
    if j != k {
      assert |m - {j}| == |m| - 1;
      SumValuesRemove(m - {j}, k);
      assert |m - {k}| == |m| - 1;
      SumValuesRemove(m - {k}, j);
      assert m - {j} - {k} == m - {k} - {j};
    }
  }

  lemma SumValuesIncrement(m: map<YearMonth, nat>, k: YearMonth)
    ensures SumValues(m[k := (if k in m then m[k] else 0) + 1]) == SumValues(m) + 1
  {
    var m' := m[k := (if k in m then m[k] else 0) + 1];
    SumValuesRemove(m', k);
    if k in m {
      SumValuesRemove(m, k);
      assert m' - {k} == m - {k};
    } else {
      assert m' - {k} == m;
    }
  }

  /** The monthly counts add up to the total. */
  lemma {:induction false} MonthsSumToTotal(days: seq<Day>, data: map<Day, Ledger>, u: Address)
    requires forall i :: 0 <= i < |days| ==> days[i] in data
    ensures SumValues(Replay(days, data, u).months) == Replay(days, data, u).total
    decreases |days|
  {
    if days != [] {
      var d' := days[..|days| - 1];
      MonthsSumToTotal(d', data, u);
      SumValuesIncrement(Replay(d', data, u).months, MonthOf(days[|days| - 1]));
    }
  }

  /** The number of days of h in the month ym. */
  ghost function MonthCount(h: seq<Day>, ym: YearMonth): nat
  {
    if h == [] then 0
    else MonthCount(h[..|h| - 1], ym) + (if MonthOf(h[|h| - 1]) == ym then 1 else 0)
  }

  /** The months map m is keyed by the months of the days h and counts
      them, at the month ym. */
  ghost predicate MonthsAgree(m: map<YearMonth, nat>, h: seq<Day>, ym: YearMonth)
  {
    && (ym in m <==> exists x :: x in h && MonthOf(x) == ym)
    && (ym in m ==> m[ym] == MonthCount(h, ym))
    && (ym !in m ==> MonthCount(h, ym) == 0)
  }

  /** A ledger listing the address adds one to the month of its day; any
      other ledger changes nothing. */
  lemma ReplayStepMonths(st: ReplayState, d: Day, l: Ledger, u: Address)
    ensures u in l.users ==>
      ReplayStep(st, d, l, u).months == st.months[MonthOf(d) := (if MonthOf(d) in st.months then st.months[MonthOf(d)] else 0) + 1]
    ensures u !in l.users ==> ReplayStep(st, d, l, u) == st
  {
  }

  /** One check-in day added to the months map keeps it in agreement. */
  lemma MonthsStep(m: map<YearMonth, nat>, h: seq<Day>, d: Day, ym: YearMonth)
    requires MonthsAgree(m, h, ym)
    ensures MonthsAgree(m[MonthOf(d) := (if MonthOf(d) in m then m[MonthOf(d)] else 0) + 1], h + [d], ym)
  {
    var h2 := h + [d];
    assert h2[..|h2| - 1] == h;
    assert forall x :: x in h2 <==> x in h || x == d;
    if MonthOf(d) == ym {
      assert d in h2;
    }
  }

  lemma {:induction false} MonthsAgreeReplay(days: seq<Day>, data: map<Day, Ledger>, u: Address, ym: YearMonth)
    requires forall i :: 0 <= i < |days| ==> days[i] in data
    ensures MonthsAgree(Replay(days, data, u).months, HitDays(days, data, u), ym)
    decreases |days|
  {
    if days != [] {
      var d' := days[..|days| - 1];
      var d := days[|days| - 1];
      assert days == d' + [d];
      MonthsAgreeReplay(d', data, u, ym);
      SnocUnfold(d', d, data, u);
      var st, h' := Replay(d', data, u), HitDays(d', data, u);
      ReplayStepMonths(st, d, data[d], u);
      assert Replay(days, data, u) == ReplayStep(st, d, data[d], u);
      if u in data[d].users {
        assert HitDays(days, data, u) == h' + [d];
        MonthsStep(st.months, h', d, ym);
      } else {
        assert HitDays(days, data, u) == h' + [] == h';
      }
    }
  }

  /** The months map is keyed by the "YYYY-MM" of the check-in days: a month
      is a key exactly when a day listing the address falls in it, and its
      value is the number of such days. */
  lemma MonthsCountHits(days: seq<Day>, data: map<Day, Ledger>, u: Address, ym: YearMonth)
    requires forall i :: 0 <= i < |days| ==> days[i] in data
    ensures var m := Replay(days, data, u).months; var h := HitDays(days, data, u);
      && (ym in m <==> exists d :: d in h && MonthOf(d) == ym)
      && (ym in m ==> m[ym] == MonthCount(h, ym))
      && (ym !in m ==> MonthCount(h, ym) == 0)
  {
    MonthsAgreeReplay(days, data, u, ym);
  }

  // ---------------------------------------------------------------------
  // The stored record

  /** With a well-formed history the corrected maximum never exceeds the
      total and is at least the current streak. */
  lemma CorrectedWithinTotal(stored: StreakRecord, df: DailyFiles, u: Address, today: Day)
    requires WellFormed(df)
    ensures var rec := Corrected(stored, Replay(df.days, df.data, u), today);
      rec.currentStreak <= rec.maxStreak <= rec.totalCheckIns
  {
    StreakWithinTotal(df.days, df.data, u);
  }

  /** The 30-day ceiling only resets a stored maximum: whatever the stored
      record, a replayed streak above 30 days becomes the maximum. */
  lemma CeilingNotEnforced(stored: StreakRecord, df: DailyFiles, u: Address, today: Day)
    requires forall i :: 0 <= i < |df.days| ==> df.days[i] in df.data
    requires Replay(df.days, df.data, u).streak > MAX_STREAK_DAYS
    ensures Corrected(stored, Replay(df.days, df.data, u), today).maxStreak == Replay(df.days, df.data, u).streak
  {
  }

  /** The n consecutive days from d0. */
  function DaysFrom(d0: Day, n: nat): (s: seq<Day>)
    ensures |s| == n && forall i :: 0 <= i < n ==> s[i] == d0 + i
  {
    if n == 0 then [] else DaysFrom(d0, n - 1) + [d0 + n - 1]
  }

  /** The same ledger on each of the n consecutive days from d0. */
  function LedgersFrom(d0: Day, n: nat, l: Ledger): (m: map<Day, Ledger>)
    ensures forall d :: d in m <==> d0 <= d < d0 + n
    ensures forall d :: d in m ==> m[d] == l
  {
    if n == 0 then map[] else LedgersFrom(d0, n - 1, l)[d0 + n - 1 := l]
  }

  /** A ledger listing the address on each of n consecutive days gives a
      streak of n. */
  lemma {:induction false} ConsecutiveStreak(d0: Day, n: nat, data: map<Day, Ledger>, u: Address)
    requires forall d :: d0 <= d < d0 + n ==> d in data && u in data[d].users
    ensures forall i :: 0 <= i < n ==> DaysFrom(d0, n)[i] in data
    ensures Replay(DaysFrom(d0, n), data, u).streak == n
    ensures Replay(DaysFrom(d0, n), data, u).last == if n == 0 then None else Some(d0 + n - 1)
    decreases n
  {
    if n > 0 {
      ConsecutiveStreak(d0, n - 1, data, u);
      assert DaysFrom(d0, n)[..n - 1] == DaysFrom(d0, n - 1);
    }
  }

  /** Thirty-one consecutive check-ins form a well-formed listing whose
      corrected maximum streak is 31, above the 30-day ceiling. */
  lemma ThirtyOneDaysExceedCeiling(stored: StreakRecord, d0: Day, u: Address, today: Day)
    ensures var df := DailyFiles(DaysFrom(d0, 31), LedgersFrom(d0, 31, Ledger(1, [u])));
      WellFormed(df) && Corrected(stored, Replay(df.days, df.data, u), today).maxStreak == 31
  {
    var df := DailyFiles(DaysFrom(d0, 31), LedgersFrom(d0, 31, Ledger(1, [u])));
    ConsecutiveStreak(d0, 31, df.data, u);
    forall d | d in df.data ensures d in df.days {
      assert df.days[d - d0] == d;
    }
    CeilingNotEnforced(stored, df, u, today);
  }

  /** Check-ins on two consecutive days give a streak of 2; a two-day gap
      restarts it at 1. */
  lemma StreakContinuity(d: Day, u: Address)
    ensures var data := map[d := Ledger(1, [u]), d + 1 := Ledger(1, [u]), d + 2 := Ledger(1, [u])];
      Replay([d, d + 1], data, u).streak == 2 && Replay([d, d + 2], data, u).streak == 1
  {
    var data := map[d := Ledger(1, [u]), d + 1 := Ledger(1, [u]), d + 2 := Ledger(1, [u])];
    SnocUnfold([], d, data, u);
    assert [] + [d] == [d];
    var r1 := Replay([d], data, u);
    assert r1.streak == 1 && r1.last == Some(d);
    SnocUnfold([d], d + 1, data, u);
    SnocUnfold([d], d + 2, data, u);
    assert [d] + [d + 1] == [d, d + 1] && [d] + [d + 2] == [d, d + 2];
  }

  /** A corrupt streak file (read as the fresh record) is rebuilt from a
      history of three check-ins with a two-day gap after the first: total
      3 and a current streak of only the trailing two days. */
  lemma RebuildFromCorruptRecord(d: Day, u: Address, today: Day)
    ensures var data := map[d := Ledger(1, [u]), d + 2 := Ledger(1, [u]), d + 3 := Ledger(1, [u])];
      var rec := Corrected(FreshRecord, Replay([d, d + 2, d + 3], data, u), today);
      rec.totalCheckIns == 3 && rec.currentStreak == 2 && rec.maxStreak == 2
  {
    var data := map[d := Ledger(1, [u]), d + 2 := Ledger(1, [u]), d + 3 := Ledger(1, [u])];
    var days := [d, d + 2, d + 3];
    assert days[..2] == [d, d + 2] && days[..2][..1] == [d] && [d][..0] == [];
    assert HitDays([d], data, u) == [d];
    assert HitDays([d, d + 2], data, u) == [d, d + 2];
    assert HitDays(days, data, u) == days;
    StreakIsTrailingRun(days, data, u);
    ReplayCountsHits(days, data, u);
    assert days[1..] == [d + 2, d + 3];
  }
}
