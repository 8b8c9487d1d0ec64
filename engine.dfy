/** One run of the reconciliation script: read the previous snapshot,
    build the new leaderboard, infer the day's check-ins, replay every
    checked-in address's history, rebuild the aggregates and write
    everything back through the store. */
module Engine {
  import opened Types
  import opened Calendar
  import opened FileStore
  import opened Leaderboard
  import opened Inference
  import opened Streak
  import opened Aggregate

  // ---------------------------------------------------------------------
  // readAllDailyStats

  /** The days of the ledger files in the daily directory. */
  function ListedDays(files: map<Path, FileContent>): set<Day>
  {
    set p | p in files && p.DailyFile? :: p.day
  }

  /** A daily file's ledger as the listing reads it: a file that does not
      parse counts as the empty ledger. */
  function LedgerOf(doc: Option<Doc>): Ledger
  {
    match doc
    case Some(LedgerDoc(l)) => l
    case _ => EmptyLedger
  }

  /** df is the listing of the daily directory: every ledger file once, in
      chronological order, each with the ledger it holds. */
  ghost predicate Listing(files: map<Path, FileContent>, df: DailyFiles)
  {
    && WellFormed(df)
    && (forall d :: d in df.data <==> DailyFile(d) in files)
    && (forall d :: d in df.data ==> df.data[d] == LedgerOf(files[DailyFile(d)].doc))
  }

  /** The directory determines its listing. */
  lemma ListingUnique(files: map<Path, FileContent>, df1: DailyFiles, df2: DailyFiles)
    requires Listing(files, df1) && Listing(files, df2)
    ensures df1 == df2
  {
    forall x ensures x in df1.days <==> x in df2.days {
      if x in df1.days {
        var i :| 0 <= i < |df1.days| && df1.days[i] == x;
      }
      if x in df2.days {
        var i :| 0 <= i < |df2.days| && df2.days[i] == x;
      }
    }
    SortedUnique(df1.days, df2.days);
    forall d ensures d in df1.data <==> d in df2.data {
      assert d in df1.data <==> DailyFile(d) in files;
      assert d in df2.data <==> DailyFile(d) in files;
    }
    forall d | d in df1.data ensures df1.data[d] == df2.data[d] {
      assert df1.data[d] == LedgerOf(files[DailyFile(d)].doc);
    }
    assert df1.data == df2.data;
  }

  /** readAllDailyStats: list the daily directory, sort the file names and
      parse every file directly (no cache, no size limit). The names are
      "YYYY-MM-DD.json", so sorting them sorts the days; the listing is built
      by repeatedly taking the earliest day not yet read. */
  method ReadAllDailyStats(store: FileStore.Store) returns (df: DailyFiles)
    ensures Listing(store.files, df)
  {
    var files := store.files;
    var remaining := ListedDays(files);
    assert forall d :: d in remaining <==> DailyFile(d) in files by {
      forall d | DailyFile(d) in files ensures d in remaining {
        var p := DailyFile(d);
        assert p in files && p.DailyFile? && p.day == d;
      }
    }
    var days: seq<Day> := [];
    var data: map<Day, Ledger> := map[];
    while remaining != {}
      invariant StrictlyIncreasing(days)
      invariant forall i, x :: 0 <= i < |days| && x in remaining ==> days[i] < x
      invariant forall i :: 0 <= i < |days| ==> days[i] in data
      invariant forall d :: d in data ==> d in days
      invariant forall d :: DailyFile(d) in files <==> d in remaining || d in data
      invariant forall d :: d in remaining ==> d !in data
      invariant forall d :: d in data ==> DailyFile(d) in files && data[d] == LedgerOf(files[DailyFile(d)].doc)
      decreases |remaining|
    {
      SetHasMin(remaining);
      var m :| m in remaining && forall x :: x in remaining ==> m <= x;
      var ledger := LedgerOf(files[DailyFile(m)].doc);
      assert forall i :: 0 <= i < |days| ==> days[i] < m;
      days := days + [m];
      data := data[m := ledger];
      remaining := remaining - {m};
    }
    df := DailyFiles(days, data);
  }

  // ---------------------------------------------------------------------
  // updateUserStreak

  /** The record read for a user: a file that holds no streak record reads
      as the fresh record. */
  function StoredRecord(d: Doc): StreakRecord
  {
    if d.StreakDoc? then d.record else FreshRecord
  }

  /** updateUserStreak: nothing for an address not listed today; otherwise
      read the stored record, replay the history, correct the record field
      by field in the order of the source and write it back. Returns the
      written maximum; the record read and the record written are reported
      alongside. */
  method UpdateUserStreak(store: FileStore.Store, u: Address, todayStats: Ledger, df: DailyFiles, today: Day)
    returns (maxStreak: int, ghost stored: StreakRecord, ghost rec: StreakRecord)
    requires WellFormed(df)
    modifies store`files, store`writes, store`cache
    ensures u !in todayStats.users ==>
      maxStreak == 0 && store.files == old(store.files) && store.cache == old(store.cache) && store.writes == old(store.writes)
    ensures u in todayStats.users ==>
      var path := UserStreakPath(u);
      && stored == StoredRecord(ReadJSONValue(old(store.cache), old(store.files), path, StreakDoc(FreshRecord)))
      && rec == Corrected(stored, Replay(df.days, df.data, u), today)
      && maxStreak == rec.maxStreak
      && store.cache == CacheAfterRead(old(store.cache), old(store.files), path)
      && store.writes == old(store.writes) + 1
      && store.files == AfterWrite(old(store.files), path, StreakDoc(rec), store.behaviour(old(store.writes)))
  {
    if u !in todayStats.users {
      return 0, FreshRecord, FreshRecord;
    }
    var userStreakPath := UserStreakPath(u);
    var doc := store.ReadJSON(userStreakPath, StreakDoc(FreshRecord));
    var userStreak := StoredRecord(doc);
    stored := userStreak;
    var userTotalCheckIns, userCheckInMonths, userRealStreak := ReplayHistory(u, df);
    if userStreak.totalCheckIns != userTotalCheckIns {
      userStreak := userStreak.(totalCheckIns := userTotalCheckIns);
    }
    if userStreak.maxStreak > userTotalCheckIns || userStreak.maxStreak > MAX_STREAK_DAYS {
      userStreak := userStreak.(maxStreak := userRealStreak);
    }
    if userStreak.currentStreak > userTotalCheckIns {
      userStreak := userStreak.(currentStreak := userRealStreak);
    }
    userStreak := userStreak.(months := userCheckInMonths);
    userStreak := userStreak.(lastCheckIn := Some(today));
    if userStreak.currentStreak != userRealStreak {
      userStreak := userStreak.(currentStreak := userRealStreak);
    }
    if userRealStreak > userStreak.maxStreak {
      userStreak := userStreak.(maxStreak := userRealStreak);
    }
    var ok := store.SafeWrite(userStreakPath, StreakDoc(userStreak));
    rec := userStreak;
    maxStreak := userStreak.maxStreak;
  }

  // ---------------------------------------------------------------------
  // Batches of writes

  /** The cache keeps every entry it had. */
  ghost predicate CacheGrows(c0: map<Path, Doc>, c1: map<Path, Doc>)
  {
    forall q :: q in c0 ==> q in c1 && c1[q] == c0[q]
  }

  /** Equal files at a path read equally. */
  lemma ReadSame(c0: map<Path, Doc>, c1: map<Path, Doc>, f0: map<Path, FileContent>, f1: map<Path, FileContent>, p: Path, d: Doc)
    requires p in c0 <==> p in c1
    requires p in c0 ==> c0[p] == c1[p]
    requires Get(f0, p) == Get(f1, p)
    ensures ReadJSONValue(c0, f0, p, d) == ReadJSONValue(c1, f1, p, d)
  {
    assert Loadable(f0, p) == Loadable(f1, p);
  }

  /** The successive versions of yesterday's ledger, written as they arise. */
  function YesterdayLog(day: Day, ls: seq<Ledger>): (ws: seq<Write>)
    ensures |ws| == |ls|
    ensures forall k :: 0 <= k < |ls| ==> ws[k] == Write(DailyFile(day), LedgerDoc(ls[k]))
  {
    seq(|ls|, k requires 0 <= k < |ls| => Write(DailyFile(day), LedgerDoc(ls[k])))
  }

  /** The streak records written, one per listed address, in order. */
  function StreakLog(users: seq<Address>, recs: seq<StreakRecord>): (ws: seq<Write>)
    requires |users| == |recs|
    ensures |ws| == |users|
    ensures forall k :: 0 <= k < |users| ==> ws[k] == Write(UserStreakPath(users[k]), StreakDoc(recs[k]))
  {
    seq(|users|, k requires 0 <= k < |users| => Write(UserStreakPath(users[k]), StreakDoc(recs[k])))
  }

  /** Performs the writes in order. */
  method WriteBatch(store: FileStore.Store, ws: seq<Write>)
    modifies store`files, store`writes
    ensures store.files == ApplyWrites(old(store.files), ws, store.behaviour, old(store.writes))
    ensures store.writes == old(store.writes) + |ws|
  {
    for i := 0 to |ws|
      invariant store.files == ApplyWrites(old(store.files), ws[..i], store.behaviour, old(store.writes))
      invariant store.writes == old(store.writes) + i
    {
      assert ws[..i + 1] == ws[..i] + [ws[i]];
      ApplyWritesSnoc(old(store.files), ws[..i], ws[i], store.behaviour, old(store.writes));
      var ok := store.SafeWrite(ws[i].path, ws[i].doc);
    }
    assert ws[..|ws|] == ws;
  }

  /** Neither the cache nor the files changed at p. */
  ghost predicate Untouched(c0: map<Path, Doc>, c1: map<Path, Doc>, f0: map<Path, FileContent>, f1: map<Path, FileContent>, p: Path)
  {
    && (p in c1 <==> p in c0)
    && (p in c1 ==> c1[p] == c0[p])
    && Get(f1, p) == Get(f0, p)
  }

  /** Reading and writing one user's file leaves another user's file alone. */
  lemma UntouchedStep(c0: map<Path, Doc>, c1: map<Path, Doc>, f0: map<Path, FileContent>, f1: map<Path, FileContent>,
                      path: Path, doc: Doc, b: WriteBehaviour, q: Path)
    requires Untouched(c0, c1, f0, f1, q)
    requires q != path && q.UserFile?
    ensures Untouched(c0, CacheAfterRead(c1, f1, path), f0, AfterWrite(f1, path, doc, b), q)
  {
    AfterWriteEffects(f1, path, doc, b);
  }

  /** The records read so far are the ones the files held at the start. */
  ghost predicate ReadsAtStart(c0: map<Path, Doc>, f0: map<Path, FileContent>, users: seq<Address>, stored: seq<StreakRecord>)
  {
    && |stored| <= |users|
    && forall k :: 0 <= k < |stored| ==>
      stored[k] == StoredRecord(ReadJSONValue(c0, f0, UserStreakPath(users[k]), StreakDoc(FreshRecord)))
  }

  /** The files of the addresses from i on are as they were at the start. */
  ghost predicate RestUntouched(c0: map<Path, Doc>, c1: map<Path, Doc>, f0: map<Path, FileContent>, f1: map<Path, FileContent>,
                                users: seq<Address>, i: nat)
  {
    forall k :: i <= k < |users| ==> Untouched(c0, c1, f0, f1, UserStreakPath(users[k]))
  }

  /** One pass of the streak loop over distinct addresses: the record read
      is the one the file held at the start, and the later addresses' files
      stay untouched. */
  lemma DistinctStep(c0: map<Path, Doc>, c1: map<Path, Doc>, f0: map<Path, FileContent>, f1: map<Path, FileContent>,
                     users: seq<Address>, stored: seq<StreakRecord>, s: StreakRecord, doc: Doc, b: WriteBehaviour)
    requires Distinct(users) && |stored| < |users|
    requires ReadsAtStart(c0, f0, users, stored) && RestUntouched(c0, c1, f0, f1, users, |stored|)
    requires s == StoredRecord(ReadJSONValue(c1, f1, UserStreakPath(users[|stored|]), StreakDoc(FreshRecord)))
    ensures ReadsAtStart(c0, f0, users, stored + [s])
    ensures var p := UserStreakPath(users[|stored|]);
      RestUntouched(c0, CacheAfterRead(c1, f1, p), f0, AfterWrite(f1, p, doc, b), users, |stored| + 1)
  {
    var i := |stored|;
    var p := UserStreakPath(users[i]);
    ReadSame(c1, c0, f1, f0, p, StreakDoc(FreshRecord));
    forall k | i < k < |users|
      ensures Untouched(c0, CacheAfterRead(c1, f1, p), f0, AfterWrite(f1, p, doc, b), UserStreakPath(users[k]))
    {
      assert users[k] != users[i];
      UntouchedStep(c0, c1, f0, f1, p, doc, b, UserStreakPath(users[k]));
    }
  }

  lemma StreakLogAppend(users: seq<Address>, recs: seq<StreakRecord>, i: nat, r: StreakRecord)
    requires i < |users| && |recs| == i
    ensures StreakLog(users[..i + 1], recs + [r]) == StreakLog(users[..i], recs) + [Write(UserStreakPath(users[i]), StreakDoc(r))]
  {
  }

  /** Writing the next record extends the batch of streak writes by one. */
  lemma StreakLogStep(f0: map<Path, FileContent>, users: seq<Address>, recs: seq<StreakRecord>, i: nat, r: StreakRecord,
                      behaviour: nat -> WriteBehaviour, n0: nat, f1: map<Path, FileContent>)
    requires i < |users| && |recs| == i
    requires f1 == ApplyWrites(f0, StreakLog(users[..i], recs), behaviour, n0)
    ensures AfterWrite(f1, UserStreakPath(users[i]), StreakDoc(r), behaviour(n0 + i))
      == ApplyWrites(f0, StreakLog(users[..i + 1], recs + [r]), behaviour, n0)
  {
    var w := Write(UserStreakPath(users[i]), StreakDoc(r));
    StreakLogAppend(users, recs, i, r);
    ApplyWritesSnoc(f0, StreakLog(users[..i], recs), w, behaviour, n0);
  }

  /** A read adds at most the path read to the cache. */
  lemma CacheAfterReadGrows(c: map<Path, Doc>, f: map<Path, FileContent>, p: Path)
    ensures CacheGrows(c, CacheAfterRead(c, f, p))
    ensures forall q :: q in CacheAfterRead(c, f, p) && q !in c ==> q == p
  {
  }

  /** The records' corrections: each written record is the stored one
      corrected by the replay of that address's history. */
  ghost predicate RecordsCorrected(users: seq<Address>, stored: seq<StreakRecord>, recs: seq<StreakRecord>, df: DailyFiles, today: Day)
    requires WellFormed(df)
  {
    && |stored| == |recs| <= |users|
    && forall k :: 0 <= k < |recs| ==> recs[k] == Corrected(stored[k], Replay(df.days, df.data, users[k]), today)
  }

  /** What one call of updateUserStreak inside the loop does, stated
      against the state at the start of the loop: c1, f1 before the call and
      c2, f2 after it. */
  lemma StreakStepFacts(users: seq<Address>, i: nat, stored: seq<StreakRecord>, recs: seq<StreakRecord>,
                        s: StreakRecord, r: StreakRecord, df: DailyFiles, today: Day,
                        c0: map<Path, Doc>, f0: map<Path, FileContent>, n0: nat, behaviour: nat -> WriteBehaviour,
                        c1: map<Path, Doc>, f1: map<Path, FileContent>, c2: map<Path, Doc>, f2: map<Path, FileContent>)
    requires WellFormed(df) && i < |users| && Distinct(users)
    requires RecordsCorrected(users, stored, recs, df, today) && |recs| == i
    requires ReadsAtStart(c0, f0, users, stored) && RestUntouched(c0, c1, f0, f1, users, i)
    requires f1 == ApplyWrites(f0, StreakLog(users[..i], recs), behaviour, n0)
    requires s == StoredRecord(ReadJSONValue(c1, f1, UserStreakPath(users[i]), StreakDoc(FreshRecord)))
    requires r == Corrected(s, Replay(df.days, df.data, users[i]), today)
    requires c2 == CacheAfterRead(c1, f1, UserStreakPath(users[i]))
    requires f2 == AfterWrite(f1, UserStreakPath(users[i]), StreakDoc(r), behaviour(n0 + i))
    ensures RecordsCorrected(users, stored + [s], recs + [r], df, today)
    ensures ReadsAtStart(c0, f0, users, stored + [s]) && RestUntouched(c0, c2, f0, f2, users, i + 1)
    ensures f2 == ApplyWrites(f0, StreakLog(users[..i + 1], recs + [r]), behaviour, n0)
    ensures CacheGrows(c1, c2)
    ensures forall q :: q in c2 && q !in c1 ==> q == UserStreakPath(users[i])
  {
    var path := UserStreakPath(users[i]);
    DistinctStep(c0, c1, f0, f1, users, stored, s, StreakDoc(r), behaviour(n0 + i));
    StreakLogStep(f0, users, recs, i, r, behaviour, n0, f1);
    CacheAfterReadGrows(c1, f1, path);
    RecordsCorrectedStep(users, i, stored, recs, s, r, df, today);
  }

  /** The record of the i-th address extends the corrections by one. */
  lemma RecordsCorrectedStep(users: seq<Address>, i: nat, stored: seq<StreakRecord>, recs: seq<StreakRecord>,
                             s: StreakRecord, r: StreakRecord, df: DailyFiles, today: Day)
    requires WellFormed(df) && i < |users|
    requires RecordsCorrected(users, stored, recs, df, today) && |recs| == i
    requires r == Corrected(s, Replay(df.days, df.data, users[i]), today)
    ensures RecordsCorrected(users, stored + [s], recs + [r], df, today)
  {
    assert forall k :: 0 <= k < i ==> (recs + [r])[k] == recs[k] && (stored + [s])[k] == stored[k];
  }

  /** One call of updateUserStreak inside the loop. */
  method StreakStep(store: FileStore.Store, todayStats: Ledger, df: DailyFiles, today: Day, i: nat,
                    ghost c0: map<Path, Doc>, ghost f0: map<Path, FileContent>, ghost n0: nat,
                    ghost stored: seq<StreakRecord>, ghost recs: seq<StreakRecord>)
    returns (result: int, ghost s: StreakRecord, ghost r: StreakRecord)
    requires WellFormed(df) && i < |todayStats.users| && Distinct(todayStats.users)
    requires RecordsCorrected(todayStats.users, stored, recs, df, today) && |recs| == i
    requires ReadsAtStart(c0, f0, todayStats.users, stored) && RestUntouched(c0, store.cache, f0, store.files, todayStats.users, i)
    requires store.files == ApplyWrites(f0, StreakLog(todayStats.users[..i], recs), store.behaviour, n0)
    requires store.writes == n0 + i
    modifies store`files, store`writes, store`cache
    ensures RecordsCorrected(todayStats.users, stored + [s], recs + [r], df, today)
    ensures result == r.maxStreak
    ensures ReadsAtStart(c0, f0, todayStats.users, stored + [s]) && RestUntouched(c0, store.cache, f0, store.files, todayStats.users, i + 1)
    ensures store.files == ApplyWrites(f0, StreakLog(todayStats.users[..i + 1], recs + [r]), store.behaviour, n0)
    ensures store.writes == n0 + i + 1
    ensures CacheGrows(old(store.cache), store.cache)
    ensures forall q :: q in store.cache && q !in old(store.cache) ==> q == UserStreakPath(todayStats.users[i])
  {
    var u := todayStats.users[i];
    ghost var files1, cache1 := store.files, store.cache;
    assert u in todayStats.users;
    result, s, r := UpdateUserStreak(store, u, todayStats, df, today);
    StreakStepFacts(todayStats.users, i, stored, recs, s, r, df, today, c0, f0, n0, store.behaviour,
                    cache1, files1, store.cache, store.files);
  }

  /** The loop of updateUserStreak calls over today's listed addresses. */
  method StreakLoop(store: FileStore.Store, todayStats: Ledger, df: DailyFiles, today: Day)
    returns (maxStreakUpdated: int, ghost stored: seq<StreakRecord>, ghost recs: seq<StreakRecord>)
    requires WellFormed(df) && Distinct(todayStats.users)
    modifies store`files, store`writes, store`cache
    ensures |stored| == |recs| == |todayStats.users|
    ensures forall k :: 0 <= k < |recs| ==>
      recs[k] == Corrected(stored[k], Replay(df.days, df.data, todayStats.users[k]), today)
    ensures forall k :: 0 <= k < |stored| ==>
      stored[k] == StoredRecord(ReadJSONValue(old(store.cache), old(store.files), UserStreakPath(todayStats.users[k]), StreakDoc(FreshRecord)))
    ensures store.files == ApplyWrites(old(store.files), StreakLog(todayStats.users, recs), store.behaviour, old(store.writes))
    ensures store.writes == old(store.writes) + |recs|
    ensures CacheGrows(old(store.cache), store.cache)
    ensures forall q :: q in store.cache && q !in old(store.cache) ==> q.UserFile?
  {
    var users := todayStats.users;
    maxStreakUpdated := 0;
    stored, recs := [], [];
    for i := 0 to |users|
      invariant |recs| == i
      invariant RecordsCorrected(users, stored, recs, df, today)
      invariant ReadsAtStart(old(store.cache), old(store.files), users, stored)
      invariant RestUntouched(old(store.cache), store.cache, old(store.files), store.files, users, i)
      invariant store.files == ApplyWrites(old(store.files), StreakLog(users[..i], recs), store.behaviour, old(store.writes))
      invariant store.writes == old(store.writes) + i
      invariant CacheGrows(old(store.cache), store.cache)
      invariant forall q :: q in store.cache && q !in old(store.cache) ==> q.UserFile?
    {
      var result, s, r := StreakStep(store, todayStats, df, today, i, old(store.cache), old(store.files), old(store.writes), stored, recs);
      if result > maxStreakUpdated {
        maxStreakUpdated := result;
      }
      stored, recs := stored + [s], recs + [r];
    }
    assert users[..|users|] == users;
  }

  // ---------------------------------------------------------------------
  // updateCheckInStats

  /** A ledger file as a direct read (`existsSync` and `JSON.parse`) gives
      it: a missing or unparsable file is the empty ledger. */
  function DirectLedger(files: map<Path, FileContent>, p: Path): Ledger
  {
    LedgerOf(DirectRead(files, p))
  }

  /** Today's ledger after the comparison: count is the number of listed
      users. */
  function TodayLedgerOf(st: InferState): (l: Ledger)
    ensures l.users == st.today && l.count == |st.today|
  {
    Ledger(|st.today|, st.today)
  }

  /** The daily writes of the check-in stage: every new version of
      yesterday's ledger, then today's ledger. */
  function DailyWrites(today: Day, st: InferState): (ws: seq<Write>)
    ensures |ws| == |st.written| + 1
    ensures forall k :: 0 <= k < |st.written| ==> ws[k] == Write(DailyFile(today - 1), LedgerDoc(st.written[k]))
    ensures ws[|st.written|] == Write(DailyFile(today), LedgerDoc(TodayLedgerOf(st)))
  {
    YesterdayLog(today - 1, st.written) + [Write(DailyFile(today), LedgerDoc(TodayLedgerOf(st)))]
  }

  /** The first part of updateCheckInStats: list the daily directory, read
      today's ledger (cached) and yesterday's (directly), build the previous
      table, compare it with the fetched one, and write the new versions of
      yesterday's ledger and then today's. The comparison reads no file, so
      performing the writes of yesterday's ledger after it, in the order in
      which they arose, leaves the same files. */
  method ReadAndInfer(store: FileStore.Store, current: seq<Entry>, prevData: seq<Entry>, today: Day)
    returns (df: DailyFiles, todayLedger: Ledger, ghost today0: Ledger, ghost yesterday0: Ledger, ghost inferred: InferState)
    modifies store`files, store`writes, store`cache
    ensures Listing(old(store.files), df)
    ensures today0 == LedgerOf(Some(ReadJSONValue(old(store.cache), old(store.files), DailyFile(today), LedgerDoc(EmptyLedger))))
    ensures yesterday0 == DirectLedger(old(store.files), DailyFile(today - 1))
    ensures inferred == Run(PrevMapOf(prevData), InferState(today0.users, yesterday0, []), current)
    ensures todayLedger == TodayLedgerOf(inferred)
    ensures store.cache == CacheAfterRead(old(store.cache), old(store.files), DailyFile(today))
    ensures store.files == ApplyWrites(old(store.files), DailyWrites(today, inferred), store.behaviour, old(store.writes))
    ensures store.writes == old(store.writes) + |inferred.written| + 1
  {
    df := ReadAllDailyStats(store);
    var dailyStatsPath := DailyFile(today);
    var doc := store.ReadJSON(dailyStatsPath, LedgerDoc(EmptyLedger));
    var todayStats := LedgerOf(Some(doc));
    today0 := todayStats;
    var prevUserMap := BuildPrevMap(prevData);
    var yesterdayStatsPath := DailyFile(today - 1);
    var yesterdayStats := LedgerOf(DirectRead(store.files, yesterdayStatsPath));
    yesterday0 := yesterdayStats;
    var yesterdayLedger, written;
    todayLedger, yesterdayLedger, written := Infer(current, prevUserMap, todayStats, yesterdayStats);
    inferred := Run(prevUserMap, InferState(todayStats.users, yesterdayStats, []), current);
    ghost var f0, n0 := store.files, store.writes;
    var log := YesterdayLog(today - 1, written);
    WriteBatch(store, log);
    var w := Write(dailyStatsPath, LedgerDoc(todayLedger));
    var ok := store.SafeWrite(w.path, w.doc);
    ApplyWritesSnoc(f0, log, w, store.behaviour, n0);
  }

  /** The two ledgers the stage reads list each address once when the
      store's ledgers do. */
  lemma LedgersReadDistinct(c0: map<Path, Doc>, f0: map<Path, FileContent>, today: Day)
    requires FilesDistinct(f0) && CacheDistinct(c0)
    ensures Distinct(LedgerOf(Some(ReadJSONValue(c0, f0, DailyFile(today), LedgerDoc(EmptyLedger)))).users)
    ensures Distinct(DirectLedger(f0, DailyFile(today - 1)).users)
  {
    ReadDistinct(c0, f0, DailyFile(today), LedgerDoc(EmptyLedger));
    ReadDistinct(c0, f0, DailyFile(today - 1), LedgerDoc(EmptyLedger));
  }

  /** What the daily writes leave behind: today's file holds today's
      ledger, and yesterday's file the last version of yesterday's ledger,
      each when its write succeeded; every other path is as it was. */
  lemma DailyWritesLeaveLedgers(files: map<Path, FileContent>, today: Day, st: InferState,
                                behaviour: nat -> WriteBehaviour, n: nat)
    ensures var ws := DailyWrites(today, st); var w := |st.written|;
      var f := ApplyWrites(files, ws, behaviour, n);
      && (Succeeds(ApplyWrites(files, ws[..w], behaviour, n), DailyFile(today), behaviour(n + w)) ==>
           Get(f, DailyFile(today)) == Some(FileContent(behaviour(n + w).size, Some(LedgerDoc(TodayLedgerOf(st))))))
      && (w > 0 && Succeeds(ApplyWrites(files, ws[..w - 1], behaviour, n), DailyFile(today - 1), behaviour(n + w - 1)) ==>
           Get(f, DailyFile(today - 1)) == Some(FileContent(behaviour(n + w - 1).size, Some(LedgerDoc(st.written[w - 1])))))
      && (forall q: Path :: !q.DailyFile? && !q.Tmp? && !q.Bak? ==> Get(f, q) == Get(files, q))
  {
    var ws := DailyWrites(today, st);
    var w := |st.written|;
    if Succeeds(ApplyWrites(files, ws[..w], behaviour, n), DailyFile(today), behaviour(n + w)) {
      ApplyWritesLastAt(files, ws, behaviour, n, w);
    }
    if w > 0 && Succeeds(ApplyWrites(files, ws[..w - 1], behaviour, n), DailyFile(today - 1), behaviour(n + w - 1)) {
      ApplyWritesLastAt(files, ws, behaviour, n, w - 1);
    }
    forall q: Path | !q.DailyFile? && !q.Tmp? && !q.Bak?
      ensures Get(ApplyWrites(files, ws, behaviour, n), q) == Get(files, q)
    {
      ApplyWritesFrame(files, ws, behaviour, n, q);
    }
  }

  /** Each streak write that succeeded leaves its record in that address's
      file at the end of the loop: the other addresses' files are other
      paths. */
  lemma StreakLogLeavesRecords(files: map<Path, FileContent>, users: seq<Address>, recs: seq<StreakRecord>,
                               behaviour: nat -> WriteBehaviour, n: nat, k: nat)
    requires Distinct(users) && |recs| == |users| && k < |users|
    requires Succeeds(ApplyWrites(files, StreakLog(users, recs)[..k], behaviour, n), UserStreakPath(users[k]), behaviour(n + k))
    ensures Get(ApplyWrites(files, StreakLog(users, recs), behaviour, n), UserStreakPath(users[k]))
      == Some(FileContent(behaviour(n + k).size, Some(StreakDoc(recs[k]))))
  {
    var ws := StreakLog(users, recs);
    forall j | k < j < |ws|
      ensures ws[k].path != ws[j].path && ws[k].path != Tmp(ws[j].path) && ws[k].path != Bak(ws[j].path)
    {
      UserStreakPathInjective(users[k], users[j]);
    }
    ApplyWritesLastAt(files, ws, behaviour, n, k);
  }

  /** Every ledger the stage writes lists each address once, when the
      comparison's lists do. */
  lemma CheckInWritesDistinct(today: Day, r: Report)
    requires r.Reconciled? ==> |r.streaks| == |r.inferred.today|
    requires r.Reconciled? ==> Distinct(r.inferred.today)
    requires r.Reconciled? ==> forall k :: 0 <= k < |r.inferred.written| ==> Distinct(r.inferred.written[k].users)
    ensures forall k :: 0 <= k < |CheckInWrites(today, r)| ==> DocDistinct(CheckInWrites(today, r)[k].doc)
  {
    if r.Reconciled? {
      var dw := DailyWrites(today, r.inferred);
      var sl := StreakLog(r.inferred.today, r.streaks);
      var sw := SummaryWrites(r.summary, r.compat);
      assert CheckInWrites(today, r) == dw + sl + sw;
      assert forall k :: 0 <= k < |dw| ==> DocDistinct(dw[k].doc);
    }
  }

  /** `dailyFilesData[today] = { ...todayStats }` when today's file was
      listed; yesterday's entry is not refreshed. */
  function Patch(df: DailyFiles, today: Day, l: Ledger): (r: DailyFiles)
    ensures r.days == df.days
    ensures forall d :: d in r.data <==> d in df.data
    ensures forall d :: d in df.data ==> r.data[d] == if d == today then l else df.data[d]
  {
    if today in df.data then DailyFiles(df.days, df.data[today := l]) else df
  }

  lemma PatchWellFormed(df: DailyFiles, today: Day, l: Ledger)
    requires WellFormed(df)
    ensures WellFormed(Patch(df, today, l))
  {
  }

  /** The summary that stands in for a missing or unreadable summary file. */
  function DefaultSummary(now: Timestamp): Summary
  {
    Summary(now, 0, 0, 0, 0, map[])
  }

  /** The summary read: a document of another kind reads as the default. */
  function SummaryOf(d: Doc, now: Timestamp): Summary
  {
    if d.SummaryDoc? then d.summary else DefaultSummary(now)
  }

  /** `prevSummary.totalCheckIns || 0` from a direct read of the summary
      file: 0 when the file is missing, unparsable or not a summary. */
  function PrevTotal(read: Option<Doc>): int
  {
    if read.Some? && read.value.SummaryDoc? then read.value.summary.totalCheckIns else 0
  }

  /** The summary fields updateCheckInStats recomputes, given the summary
      read, today's ledger, the patched listing, the highest maximum streak
      written and the summary file as a direct read sees it. The raise of
      maxStreak is overwritten by the pin to 1. */
  method RefreshSummary(s0: Summary, totalUsers: int, todayLedger: Ledger, daily: DailyFiles,
                        maxStreakUpdated: int, now: Timestamp, today: Day, prevRead: Option<Doc>)
    returns (summary: Summary, prevTotal: int, drift: bool)
    requires WellFormed(daily)
    ensures prevTotal == PrevTotal(prevRead)
    ensures Window(summary.lastSevenDays, s0.lastSevenDays, todayLedger.count, daily, today)
    ensures summary == Summary(now, totalUsers, todayLedger.count, TotalCheckIns(daily, today), 1, summary.lastSevenDays)
    ensures drift == Drift(prevTotal, TotalCheckIns(daily, today))
  {
    var summaryStats := s0;
    summaryStats := summaryStats.(totalUsers := totalUsers);
    summaryStats := summaryStats.(checkInsToday := todayLedger.count);
    summaryStats := summaryStats.(lastUpdate := now);
    if maxStreakUpdated > summaryStats.maxStreak {
      summaryStats := summaryStats.(maxStreak := maxStreakUpdated);
    }
    var lastSevenDays := SevenDayWindow(summaryStats.lastSevenDays, todayLedger.count, daily, today);
    summaryStats := summaryStats.(lastSevenDays := lastSevenDays);
    var prevTotalCheckIns := 0;
    match prevRead {
      case Some(SummaryDoc(prevSummary)) =>
        prevTotalCheckIns := prevSummary.totalCheckIns;
      case _ =>
    }
    prevTotal := prevTotalCheckIns;
    var actualTotalCheckIns := CalculateTotalCheckIns(daily, today);
    drift := Drift(prevTotalCheckIns, actualTotalCheckIns);
    summaryStats := summaryStats.(totalCheckIns := actualTotalCheckIns);
    summaryStats := summaryStats.(maxStreak := 1);
    summary := summaryStats;
  }

  /** The summary and compatibility writes that close the check-in stage. */
  function SummaryWrites(summary: Summary, compat: Compat): seq<Write>
  {
    [Write(SummaryFile, SummaryDoc(summary)), Write(CompatFile, CompatDoc(compat))]
  }

  /** The last part of updateCheckInStats: read the summary (cached),
      refresh it, write it, then write the compatibility file. */
  method SummaryStage(store: FileStore.Store, current: seq<Entry>, todayLedger: Ledger, daily: DailyFiles,
                      maxStreakUpdated: int, now: Timestamp, today: Day)
    returns (stats: CheckInStats, ghost summary0: Summary, ghost prevTotal: int, ghost drift: bool,
             ghost summary: Summary, ghost compat: Compat)
    requires WellFormed(daily)
    modifies store`files, store`writes, store`cache
    ensures summary0 == SummaryOf(ReadJSONValue(old(store.cache), old(store.files), SummaryFile, SummaryDoc(DefaultSummary(now))), now)
    ensures prevTotal == PrevTotal(DirectRead(old(store.files), SummaryFile))
    ensures Window(summary.lastSevenDays, summary0.lastSevenDays, todayLedger.count, daily, today)
    ensures summary == Summary(now, |current|, todayLedger.count, TotalCheckIns(daily, today), 1, summary.lastSevenDays)
    ensures drift == Drift(prevTotal, TotalCheckIns(daily, today))
    ensures compat == Compat(CompatStats(TotalCheckIns(daily, today), 1, todayLedger.count, now), map[today := todayLedger])
    ensures stats == CheckInStats(todayLedger.count, TotalCheckIns(daily, today), 1)
    ensures store.cache == CacheAfterRead(old(store.cache), old(store.files), SummaryFile)
    ensures store.files == ApplyWrites(old(store.files), SummaryWrites(summary, compat), store.behaviour, old(store.writes))
    ensures store.writes == old(store.writes) + 2
  {
    ghost var f0, n0 := store.files, store.writes;
    var doc := store.ReadJSON(SummaryFile, SummaryDoc(DefaultSummary(now)));
    var summaryStats := SummaryOf(doc, now);
    summary0 := summaryStats;
    var prevTotalCheckIns;
    summaryStats, prevTotalCheckIns, drift := RefreshSummary(summaryStats, |current|, todayLedger, daily,
                                                            maxStreakUpdated, now, today, DirectRead(store.files, SummaryFile));
    prevTotal := prevTotalCheckIns;
    summary := summaryStats;
    var ok := store.SafeWrite(SummaryFile, SummaryDoc(summaryStats));
    var compatData := Compat(
      CompatStats(summaryStats.totalCheckIns, summaryStats.maxStreak, summaryStats.checkInsToday, summaryStats.lastUpdate),
      map[today := Ledger(todayLedger.count, todayLedger.users)]);
    compat := compatData;
    ok := store.SafeWrite(CompatFile, CompatDoc(compatData));
    stats := CheckInStats(todayLedger.count, summaryStats.totalCheckIns, summaryStats.maxStreak);
    ghost var w0, w1 := Write(SummaryFile, SummaryDoc(summary)), Write(CompatFile, CompatDoc(compat));
    ApplyWritesSingle(f0, w0, store.behaviour, n0);
    ApplyWritesSnoc(f0, [w0], w1, store.behaviour, n0);
  }

  /** What one run of updateCheckInStats reports: Skipped when there is no
      previous table, otherwise the values it read and computed, in order. */
  datatype Report =
    | Skipped
    | Reconciled(
        listing: DailyFiles,          // readAllDailyStats
        today0: Ledger,               // today's ledger as read
        yesterday0: Ledger,           // yesterday's ledger as read
        inferred: InferState,         // after the comparison with the previous table
        daily: DailyFiles,            // the listing with today's ledger patched in
        stored: seq<StreakRecord>,    // the streak records read, per listed address
        streaks: seq<StreakRecord>,   // the streak records written
        summary0: Summary,            // the summary read
        prevTotal: int,               // the total of the summary on disk
        drift: bool,                  // whether the drift warning is printed
        summary: Summary,             // the summary written
        compat: Compat)               // the compatibility file written

  /** Every write of the stage, in order. */
  function CheckInWrites(today: Day, r: Report): (ws: seq<Write>)
    requires r.Reconciled? ==> |r.streaks| == |r.inferred.today|
    ensures |ws| == if r.Skipped? then 0 else |r.inferred.written| + 1 + |r.streaks| + 2
  {
    if r.Skipped? then []
    else DailyWrites(today, r.inferred) + StreakLog(r.inferred.today, r.streaks) + SummaryWrites(r.summary, r.compat)
  }

  /** The report of a run that found a previous table: each value is the one
      the source computes from the files and the cache at the start of the
      stage, the fetched rows and the previous rows. */
  ghost predicate Reconciles(c0: map<Path, Doc>, f0: map<Path, FileContent>, current: seq<Entry>, prevData: seq<Entry>,
                             now: Timestamp, stats: CheckInStats, r: Report)
  {
    && r.Reconciled?
    && DailyStageReports(c0, f0, current, prevData, DayOf(now), r)
    && StreakStageReports(c0, f0, DayOf(now), r)
    && SummaryStageReports(c0, f0, current, now, stats, r)
  }

  /** The listing, the two ledgers read, the comparison and the patch. */
  ghost predicate DailyStageReports(c0: map<Path, Doc>, f0: map<Path, FileContent>, current: seq<Entry>, prevData: seq<Entry>,
                                    today: Day, r: Report)
    requires r.Reconciled?
  {
    && Listing(f0, r.listing)
    && r.today0 == LedgerOf(Some(ReadJSONValue(c0, f0, DailyFile(today), LedgerDoc(EmptyLedger))))
    && r.yesterday0 == DirectLedger(f0, DailyFile(today - 1))
    && r.inferred == Run(PrevMapOf(prevData), InferState(r.today0.users, r.yesterday0, []), current)
    && r.daily == Patch(r.listing, today, TodayLedgerOf(r.inferred))
    && WellFormed(r.daily)
  }

  /** The streak records read and written, one per address listed today. */
  ghost predicate StreakStageReports(c0: map<Path, Doc>, f0: map<Path, FileContent>, today: Day, r: Report)
    requires r.Reconciled? && WellFormed(r.daily)
  {
    var users := TodayLedgerOf(r.inferred).users;
    && |r.stored| == |r.streaks| == |users|
    && (forall k :: 0 <= k < |r.streaks| ==>
         r.streaks[k] == Corrected(r.stored[k], Replay(r.daily.days, r.daily.data, users[k]), today))
    && Distinct(users)
    && (forall k :: 0 <= k < |r.stored| ==>
         r.stored[k] == StoredRecord(ReadJSONValue(c0, f0, UserStreakPath(users[k]), StreakDoc(FreshRecord))))
  }

  /** The summary read and written, the drift report, the compatibility
      file and the statistics returned. */
  ghost predicate SummaryStageReports(c0: map<Path, Doc>, f0: map<Path, FileContent>, current: seq<Entry>,
                                      now: Timestamp, stats: CheckInStats, r: Report)
    requires r.Reconciled? && WellFormed(r.daily)
  {
    var today := DayOf(now);
    var l := TodayLedgerOf(r.inferred);
    && r.summary0 == SummaryOf(ReadJSONValue(c0, f0, SummaryFile, SummaryDoc(DefaultSummary(now))), now)
    && r.prevTotal == PrevTotal(DirectRead(f0, SummaryFile))
    && Window(r.summary.lastSevenDays, r.summary0.lastSevenDays, l.count, r.daily, today)
    && r.summary == Summary(now, |current|, l.count, TotalCheckIns(r.daily, today), 1, r.summary.lastSevenDays)
    && r.drift == Drift(r.prevTotal, TotalCheckIns(r.daily, today))
    && r.compat == Compat(CompatStats(TotalCheckIns(r.daily, today), 1, l.count, now), map[today := l])
    && stats == CheckInStats(l.count, TotalCheckIns(r.daily, today), 1)
  }

  /** A path that no write of a batch names, nor a sibling of one, reads the
      same after the batch, through a cache that agrees at that path. */
  lemma ReadAcrossBatch(c0: map<Path, Doc>, c1: map<Path, Doc>, f0: map<Path, FileContent>, ws: seq<Write>,
                        behaviour: nat -> WriteBehaviour, n: nat, q: Path, d: Doc)
    requires q in c1 <==> q in c0
    requires q in c1 ==> c1[q] == c0[q]
    requires forall k :: 0 <= k < |ws| ==> q != ws[k].path && q != Tmp(ws[k].path) && q != Bak(ws[k].path)
    ensures ReadJSONValue(c1, ApplyWrites(f0, ws, behaviour, n), q, d) == ReadJSONValue(c0, f0, q, d)
    ensures DirectRead(ApplyWrites(f0, ws, behaviour, n), q) == DirectRead(f0, q)
  {
    ApplyWritesFrame(f0, ws, behaviour, n, q);
    ReadSame(c1, c0, ApplyWrites(f0, ws, behaviour, n), f0, q, d);
  }

  /** The daily writes and the read of today's ledger leave every streak
      file and the summary as the stage found them. */
  lemma DailyStageSpares(c0: map<Path, Doc>, f0: map<Path, FileContent>, today: Day, st: InferState,
                         behaviour: nat -> WriteBehaviour, n0: nat, q: Path, d: Doc)
    requires q.UserFile? || q == SummaryFile
    ensures var c1 := CacheAfterRead(c0, f0, DailyFile(today));
      var f1 := ApplyWrites(f0, DailyWrites(today, st), behaviour, n0);
      ReadJSONValue(c1, f1, q, d) == ReadJSONValue(c0, f0, q, d) && DirectRead(f1, q) == DirectRead(f0, q)
  {
    ReadAcrossBatch(c0, CacheAfterRead(c0, f0, DailyFile(today)), f0, DailyWrites(today, st), behaviour, n0, q, d);
  }

  /** The streak writes leave the summary as they found it. */
  lemma StreakStageSpares(c1: map<Path, Doc>, c2: map<Path, Doc>, f1: map<Path, FileContent>, users: seq<Address>,
                          recs: seq<StreakRecord>, behaviour: nat -> WriteBehaviour, n1: nat, d: Doc)
    requires |users| == |recs|
    requires CacheGrows(c1, c2) && forall q :: q in c2 && q !in c1 ==> q.UserFile?
    ensures var f2 := ApplyWrites(f1, StreakLog(users, recs), behaviour, n1);
      ReadJSONValue(c2, f2, SummaryFile, d) == ReadJSONValue(c1, f1, SummaryFile, d)
      && DirectRead(f2, SummaryFile) == DirectRead(f1, SummaryFile)
  {
    ReadAcrossBatch(c1, c2, f1, StreakLog(users, recs), behaviour, n1, SummaryFile, d);
  }

  /** ApplyWritesAppend with the position of the second batch named. */
  lemma ApplyWritesAppendAt(files: map<Path, FileContent>, a: seq<Write>, b: seq<Write>, behaviour: nat -> WriteBehaviour,
                            n: nat, m: nat)
    requires m == n + |a|
    ensures ApplyWrites(files, a + b, behaviour, n) == ApplyWrites(ApplyWrites(files, a, behaviour, n), b, behaviour, m)
  {
    ApplyWritesAppend(files, a, b, behaviour, n);
  }

  /** The three batches of the stage make up its writes. */
  lemma CheckInWritesCompose(f0: map<Path, FileContent>, today: Day, r: Report, behaviour: nat -> WriteBehaviour, n0: nat,
                             users: seq<Address>, f1: map<Path, FileContent>, n1: nat, f2: map<Path, FileContent>, n2: nat,
                             f3: map<Path, FileContent>)
    requires r.Reconciled? && users == r.inferred.today && |r.streaks| == |users|
    requires n1 == n0 + |r.inferred.written| + 1 && n2 == n1 + |users|
    requires f1 == ApplyWrites(f0, DailyWrites(today, r.inferred), behaviour, n0)
    requires f2 == ApplyWrites(f1, StreakLog(users, r.streaks), behaviour, n1)
    requires f3 == ApplyWrites(f2, SummaryWrites(r.summary, r.compat), behaviour, n2)
    ensures f3 == ApplyWrites(f0, CheckInWrites(today, r), behaviour, n0)
  {
    var dw := DailyWrites(today, r.inferred);
    var sl := StreakLog(users, r.streaks);
    var sw := SummaryWrites(r.summary, r.compat);
    assert CheckInWrites(today, r) == dw + sl + sw;
    ApplyWritesAppendAt(f0, dw, sl, behaviour, n0, n1);
    ApplyWritesAppendAt(f0, dw + sl, sw, behaviour, n0, n2);
  }

  /** The reads of the later stages see the files and the cache of the
      start of the stage at the paths they read: c0, f0 before it, c1, f1
      after the daily stage and c2, f2 after the streak loop. */
  lemma StagesReadAtStart(c0: map<Path, Doc>, f0: map<Path, FileContent>, n0: nat, behaviour: nat -> WriteBehaviour,
                          today: Day, st: InferState, users: seq<Address>, recs: seq<StreakRecord>, d: Doc,
                          c1: map<Path, Doc>, f1: map<Path, FileContent>, n1: nat, c2: map<Path, Doc>, f2: map<Path, FileContent>)
    requires c1 == CacheAfterRead(c0, f0, DailyFile(today))
    requires f1 == ApplyWrites(f0, DailyWrites(today, st), behaviour, n0)
    requires users == st.today && |recs| == |users| && n1 == n0 + |st.written| + 1
    requires f2 == ApplyWrites(f1, StreakLog(users, recs), behaviour, n1)
    requires CacheGrows(c1, c2) && forall q :: q in c2 && q !in c1 ==> q.UserFile?
    ensures forall k :: 0 <= k < |st.today| ==>
      ReadJSONValue(c1, f1, UserStreakPath(st.today[k]), StreakDoc(FreshRecord))
        == ReadJSONValue(c0, f0, UserStreakPath(st.today[k]), StreakDoc(FreshRecord))
    ensures ReadJSONValue(c2, f2, SummaryFile, d) == ReadJSONValue(c0, f0, SummaryFile, d)
    ensures DirectRead(f2, SummaryFile) == DirectRead(f0, SummaryFile)
  {
    forall k | 0 <= k < |st.today|
      ensures ReadJSONValue(c1, f1, UserStreakPath(st.today[k]), StreakDoc(FreshRecord))
        == ReadJSONValue(c0, f0, UserStreakPath(st.today[k]), StreakDoc(FreshRecord))
    {
      DailyStageSpares(c0, f0, today, st, behaviour, n0, UserStreakPath(st.today[k]), StreakDoc(FreshRecord));
    }
    DailyStageSpares(c0, f0, today, st, behaviour, n0, SummaryFile, d);
    StreakStageSpares(c1, c2, f1, users, recs, behaviour, n1, d);
  }

  /** The cache of the stage only grows, by today's ledger, the summary and
      streak files. */
  lemma StagesCache(c0: map<Path, Doc>, f0: map<Path, FileContent>, today: Day,
                    c1: map<Path, Doc>, c2: map<Path, Doc>, f2: map<Path, FileContent>, c3: map<Path, Doc>)
    requires c1 == CacheAfterRead(c0, f0, DailyFile(today))
    requires CacheGrows(c1, c2) && forall q :: q in c2 && q !in c1 ==> q.UserFile?
    requires c3 == CacheAfterRead(c2, f2, SummaryFile)
    ensures CacheGrows(c0, c3)
    ensures forall q :: q in c3 && q !in c0 ==> q == DailyFile(today) || q == SummaryFile || q.UserFile?
  {
    CacheAfterReadGrows(c0, f0, DailyFile(today));
    CacheAfterReadGrows(c2, f2, SummaryFile);
  }

  /** The three stages, each stated against the state it starts from,
      make up the stage as a whole, stated against the state at its start:
      c0, f0, n0 before it, c1, f1, n1 after the daily stage, c2, f2, n2
      after the streak loop and c3, f3 after the summary stage. */
  lemma ReconcileFacts(c0: map<Path, Doc>, f0: map<Path, FileContent>, n0: nat, behaviour: nat -> WriteBehaviour,
                       current: seq<Entry>, prevData: seq<Entry>, now: Timestamp, today: Day,
                       r: Report, stats: CheckInStats, todayLedger: Ledger,
                       c1: map<Path, Doc>, f1: map<Path, FileContent>, n1: nat,
                       c2: map<Path, Doc>, f2: map<Path, FileContent>, n2: nat,
                       c3: map<Path, Doc>, f3: map<Path, FileContent>)
    requires today == DayOf(now) && r.Reconciled?
    // the daily stage
    requires Listing(f0, r.listing)
    requires r.today0 == LedgerOf(Some(ReadJSONValue(c0, f0, DailyFile(today), LedgerDoc(EmptyLedger))))
    requires r.yesterday0 == DirectLedger(f0, DailyFile(today - 1))
    requires r.inferred == Run(PrevMapOf(prevData), InferState(r.today0.users, r.yesterday0, []), current)
    requires todayLedger == TodayLedgerOf(r.inferred)
    requires c1 == CacheAfterRead(c0, f0, DailyFile(today))
    requires f1 == ApplyWrites(f0, DailyWrites(today, r.inferred), behaviour, n0)
    requires n1 == n0 + |r.inferred.written| + 1
    // the patch
    requires r.daily == Patch(r.listing, today, todayLedger) && WellFormed(r.daily)
    // the streak loop
    requires |r.stored| == |r.streaks| == |todayLedger.users|
    requires forall k :: 0 <= k < |r.streaks| ==>
      r.streaks[k] == Corrected(r.stored[k], Replay(r.daily.days, r.daily.data, todayLedger.users[k]), today)
    requires Distinct(todayLedger.users)
    requires forall k :: 0 <= k < |r.stored| ==>
      r.stored[k] == StoredRecord(ReadJSONValue(c1, f1, UserStreakPath(todayLedger.users[k]), StreakDoc(FreshRecord)))
    requires f2 == ApplyWrites(f1, StreakLog(todayLedger.users, r.streaks), behaviour, n1)
    requires n2 == n1 + |r.streaks|
    requires CacheGrows(c1, c2) && forall q :: q in c2 && q !in c1 ==> q.UserFile?
    // the summary stage
    requires r.summary0 == SummaryOf(ReadJSONValue(c2, f2, SummaryFile, SummaryDoc(DefaultSummary(now))), now)
    requires r.prevTotal == PrevTotal(DirectRead(f2, SummaryFile))
    requires Window(r.summary.lastSevenDays, r.summary0.lastSevenDays, todayLedger.count, r.daily, today)
    requires r.summary == Summary(now, |current|, todayLedger.count, TotalCheckIns(r.daily, today), 1, r.summary.lastSevenDays)
    requires r.drift == Drift(r.prevTotal, TotalCheckIns(r.daily, today))
    requires r.compat == Compat(CompatStats(TotalCheckIns(r.daily, today), 1, todayLedger.count, now), map[today := todayLedger])
    requires stats == CheckInStats(todayLedger.count, TotalCheckIns(r.daily, today), 1)
    requires c3 == CacheAfterRead(c2, f2, SummaryFile)
    requires f3 == ApplyWrites(f2, SummaryWrites(r.summary, r.compat), behaviour, n2)
    ensures Reconciles(c0, f0, current, prevData, now, stats, r)
  {
    StagesReadAtStart(c0, f0, n0, behaviour, today, r.inferred, todayLedger.users, r.streaks, SummaryDoc(DefaultSummary(now)),
                      c1, f1, n1, c2, f2);
    assert DailyStageReports(c0, f0, current, prevData, today, r);
    assert StreakStageReports(c0, f0, today, r);
    assert SummaryStageReports(c0, f0, current, now, stats, r);
  }

  /** updateCheckInStats: nothing is read or written without a previous
      table; otherwise the daily stage, the patch of the listing, the streak
      loop and the summary stage, in this order. */
  method UpdateCheckInStats(store: FileStore.Store, current: seq<Entry>, previous: Doc, now: Timestamp)
    returns (stats: CheckInStats, ghost report: Report)
    requires FilesDistinct(store.files) && CacheDistinct(store.cache)
    modifies store`files, store`writes, store`cache
    ensures !(previous.LeaderboardDoc? && previous.data.Some?) ==>
      stats == CheckInStats(0, 0, 0) && report == Skipped && store.cache == old(store.cache)
    ensures previous.LeaderboardDoc? && previous.data.Some? ==>
      Reconciles(old(store.cache), old(store.files), current, previous.data.value, now, stats, report)
    ensures report.Reconciled? ==> |report.streaks| == |report.inferred.today|
    ensures store.files == ApplyWrites(old(store.files), CheckInWrites(DayOf(now), report), store.behaviour, old(store.writes))
    ensures store.writes == old(store.writes) + |CheckInWrites(DayOf(now), report)|
    ensures FilesDistinct(store.files)
    ensures CacheGrows(old(store.cache), store.cache)
    ensures forall q :: q in store.cache && q !in old(store.cache) ==>
      q == DailyFile(DayOf(now)) || q == SummaryFile || q.UserFile?
  {
    if !(previous.LeaderboardDoc? && previous.data.Some?) {
      return CheckInStats(0, 0, 0), Skipped;
    }
    var today := DayOf(now);
    ghost var c0, f0, n0 := store.cache, store.files, store.writes;
    var df, todayLedger, today0, yesterday0, inferred := ReadAndInfer(store, current, previous.data.value, today);
    ghost var c1, f1, n1 := store.cache, store.files, store.writes;
    LedgersReadDistinct(c0, f0, today);
    RunDistinct(PrevMapOf(previous.data.value), InferState(today0.users, yesterday0, []), current);
    var dailyFilesData := Patch(df, today, todayLedger);
    PatchWellFormed(df, today, todayLedger);
    var maxStreakUpdated, stored, streaks := StreakLoop(store, todayLedger, dailyFilesData, today);
    ghost var c2, f2, n2 := store.cache, store.files, store.writes;
    ghost var summary0, prevTotal, drift, summary, compat;
    stats, summary0, prevTotal, drift, summary, compat :=
      SummaryStage(store, current, todayLedger, dailyFilesData, maxStreakUpdated, now, today);
    report := Reconciled(df, today0, yesterday0, inferred, dailyFilesData, stored, streaks,
                         summary0, prevTotal, drift, summary, compat);
    ReconcileFacts(c0, f0, n0, store.behaviour, current, previous.data.value, now, today, report, stats, todayLedger,
                   c1, f1, n1, c2, f2, n2, store.cache, store.files);
    StagesCache(c0, f0, today, c1, c2, f2, store.cache);
    CheckInWritesCompose(f0, today, report, store.behaviour, n0, todayLedger.users, f1, n1, f2, n2, store.files);
    CheckInWritesDistinct(today, report);
    ApplyWritesDistinct(f0, CheckInWrites(today, report), store.behaviour, n0);
  }

  // ---------------------------------------------------------------------
  // What a reconciled report promises

  /** The j-th write of a reconciled stage: the versions of yesterday's
      ledger, today's ledger, one record per address listed today, the
      summary and the compatibility file. */
  function StageWrite(today: Day, r: Report, j: nat): (wr: Write)
    requires r.Reconciled? && |r.streaks| == |r.inferred.today|
    ensures !wr.path.Tmp? && !wr.path.Bak?
  {
    var w, m := |r.inferred.written|, |r.streaks|;
    if j < w then Write(DailyFile(today - 1), LedgerDoc(r.inferred.written[j]))
    else if j == w then Write(DailyFile(today), LedgerDoc(TodayLedgerOf(r.inferred)))
    else if j <= w + m then Write(UserStreakPath(r.inferred.today[j - w - 1]), StreakDoc(r.streaks[j - w - 1]))
    else if j == w + m + 1 then Write(SummaryFile, SummaryDoc(r.summary))
    else Write(CompatFile, CompatDoc(r.compat))
  }

  /** The writes of a reconciled stage, one position at a time. */
  lemma CheckInWriteAt(today: Day, r: Report, j: nat)
    requires r.Reconciled? && |r.streaks| == |r.inferred.today|
    requires j < |CheckInWrites(today, r)|
    ensures CheckInWrites(today, r)[j] == StageWrite(today, r, j)
  {
    var dw := DailyWrites(today, r.inferred);
    var sl := StreakLog(r.inferred.today, r.streaks);
    var sw := SummaryWrites(r.summary, r.compat);
    var ws := CheckInWrites(today, r);
    assert ws == dw + sl + sw;
    if j < |dw| {
      assert ws[j] == dw[j];
    } else if j < |dw| + |sl| {
      assert ws[j] == sl[j - |dw|];
    } else {
      assert ws[j] == sw[j - |dw| - |sl|];
    }
  }

  /** What the daily part of the stage leaves at the end of the whole
      stage: yesterday's last version and today's ledger, each when its own
      write succeeded. */
  lemma CheckInLeavesLedgers(files: map<Path, FileContent>, today: Day, r: Report, behaviour: nat -> WriteBehaviour, n: nat)
    requires r.Reconciled? && |r.streaks| == |r.inferred.today| && Distinct(r.inferred.today)
    ensures var ws := CheckInWrites(today, r); var w := |r.inferred.written|;
      var f := ApplyWrites(files, ws, behaviour, n);
      && (w > 0 && Succeeds(ApplyWrites(files, ws[..w - 1], behaviour, n), DailyFile(today - 1), behaviour(n + w - 1)) ==>
           Get(f, DailyFile(today - 1)) == Some(FileContent(behaviour(n + w - 1).size, Some(LedgerDoc(r.inferred.written[w - 1])))))
      && (Succeeds(ApplyWrites(files, ws[..w], behaviour, n), DailyFile(today), behaviour(n + w)) ==>
           Get(f, DailyFile(today)) == Some(FileContent(behaviour(n + w).size, Some(LedgerDoc(TodayLedgerOf(r.inferred))))))
  {
    var ws := CheckInWrites(today, r);
    var w := |r.inferred.written|;
    if w > 0 && Succeeds(ApplyWrites(files, ws[..w - 1], behaviour, n), DailyFile(today - 1), behaviour(n + w - 1)) {
      CheckInWriteAt(today, r, w - 1);
      CheckInWritesLeaveAt(files, today, r, behaviour, n, w - 1);
    }
    if Succeeds(ApplyWrites(files, ws[..w], behaviour, n), DailyFile(today), behaviour(n + w)) {
      CheckInWriteAt(today, r, w);
      CheckInWritesLeaveAt(files, today, r, behaviour, n, w);
    }
  }

  /** The record of the k-th address listed today is in its file at the
      end of the whole stage when its write succeeded. */
  lemma CheckInLeavesRecord(files: map<Path, FileContent>, today: Day, r: Report, behaviour: nat -> WriteBehaviour, n: nat, k: nat)
    requires r.Reconciled? && |r.streaks| == |r.inferred.today| && Distinct(r.inferred.today) && k < |r.streaks|
    requires var ws := CheckInWrites(today, r); var i := |r.inferred.written| + 1 + k;
      Succeeds(ApplyWrites(files, ws[..i], behaviour, n), UserStreakPath(r.inferred.today[k]), behaviour(n + i))
    ensures var ws := CheckInWrites(today, r); var i := |r.inferred.written| + 1 + k;
      Get(ApplyWrites(files, ws, behaviour, n), UserStreakPath(r.inferred.today[k]))
        == Some(FileContent(behaviour(n + i).size, Some(StreakDoc(r.streaks[k]))))
  {
    var i := |r.inferred.written| + 1 + k;
    CheckInWriteAt(today, r, i);
    assert i - |r.inferred.written| - 1 == k;
    CheckInWritesLeaveAt(files, today, r, behaviour, n, i);
  }

  /** The summary holds what the stage wrote at its end when that write
      succeeded. */
  lemma CheckInLeavesSummary(files: map<Path, FileContent>, today: Day, r: Report, behaviour: nat -> WriteBehaviour, n: nat)
    requires r.Reconciled? && |r.streaks| == |r.inferred.today| && Distinct(r.inferred.today)
    requires var i := |r.inferred.written| + 1 + |r.streaks|;
      Succeeds(ApplyWrites(files, CheckInWrites(today, r)[..i], behaviour, n), SummaryFile, behaviour(n + i))
    ensures var i := |r.inferred.written| + 1 + |r.streaks|;
      Get(ApplyWrites(files, CheckInWrites(today, r), behaviour, n), SummaryFile)
        == Some(FileContent(behaviour(n + i).size, Some(SummaryDoc(r.summary))))
  {
    var i := |r.inferred.written| + 1 + |r.streaks|;
    CheckInWriteAt(today, r, i);
    CheckInWritesLeaveAt(files, today, r, behaviour, n, i);
  }

  /** The compatibility file holds what the stage wrote last when that
      write succeeded. */
  lemma CheckInLeavesCompat(files: map<Path, FileContent>, today: Day, r: Report, behaviour: nat -> WriteBehaviour, n: nat)
    requires r.Reconciled? && |r.streaks| == |r.inferred.today| && Distinct(r.inferred.today)
    requires var i := |r.inferred.written| + 2 + |r.streaks|;
      Succeeds(ApplyWrites(files, CheckInWrites(today, r)[..i], behaviour, n), CompatFile, behaviour(n + i))
    ensures var i := |r.inferred.written| + 2 + |r.streaks|;
      Get(ApplyWrites(files, CheckInWrites(today, r), behaviour, n), CompatFile)
        == Some(FileContent(behaviour(n + i).size, Some(CompatDoc(r.compat))))
  {
    var i := |r.inferred.written| + 2 + |r.streaks|;
    CheckInWriteAt(today, r, i);
    CheckInWritesLeaveAt(files, today, r, behaviour, n, i);
  }

  /** Later writes of the stage name other paths than the i-th, from
      yesterday's last version on. */
  lemma StagePathsDiffer(today: Day, r: Report, i: nat, j: nat)
    requires r.Reconciled? && |r.streaks| == |r.inferred.today| && Distinct(r.inferred.today)
    requires |r.inferred.written| <= i + 1 && i < j < |r.inferred.written| + |r.streaks| + 3
    ensures StageWrite(today, r, i).path != StageWrite(today, r, j).path
  {
    var w, m := |r.inferred.written|, |r.streaks|;
    if w < i <= w + m && j <= w + m {
      UserStreakPathInjective(r.inferred.today[i - w - 1], r.inferred.today[j - w - 1]);
    } else if w < i <= w + m {
      UserStreakPathInjective(r.inferred.today[i - w - 1], r.inferred.today[i - w - 1]);
    } else if i < w && j <= w + m && w < j {
      UserStreakPathInjective(r.inferred.today[j - w - 1], r.inferred.today[j - w - 1]);
    } else if i == w && w < j <= w + m {
      UserStreakPathInjective(r.inferred.today[j - w - 1], r.inferred.today[j - w - 1]);
    }
  }

  /** A write of the stage from yesterday's last version on that
      succeeded is still in place at the end of the stage. */
  lemma CheckInWritesLeaveAt(files: map<Path, FileContent>, today: Day, r: Report, behaviour: nat -> WriteBehaviour, n: nat, i: nat)
    requires r.Reconciled? && |r.streaks| == |r.inferred.today| && Distinct(r.inferred.today)
    requires |r.inferred.written| <= i + 1 < |CheckInWrites(today, r)| + 1
    requires Succeeds(ApplyWrites(files, CheckInWrites(today, r)[..i], behaviour, n), CheckInWrites(today, r)[i].path, behaviour(n + i))
    ensures var ws := CheckInWrites(today, r);
      Get(ApplyWrites(files, ws, behaviour, n), ws[i].path) == Some(FileContent(behaviour(n + i).size, Some(ws[i].doc)))
  {
    var ws := CheckInWrites(today, r);
    CheckInWriteAt(today, r, i);
    forall j | i < j < |ws|
      ensures ws[i].path != ws[j].path && ws[i].path != Tmp(ws[j].path) && ws[i].path != Bak(ws[j].path)
    {
      CheckInWriteAt(today, r, j);
      StagePathsDiffer(today, r, i, j);
    }
    ApplyWritesLastAt(files, ws, behaviour, n, i);
  }

  /** The statistics handed back: today's count is the number of addresses
      listed for today, the total is the plain sum of the effective counts
      of the patched listing (today's raise never applies) and the maximum
      streak is the constant 1; the summary, the compatibility file and the
      statistics agree on the total. */
  lemma ReconciledStats(c0: map<Path, Doc>, f0: map<Path, FileContent>, current: seq<Entry>, prevData: seq<Entry>,
                        now: Timestamp, stats: CheckInStats, r: Report)
    requires Reconciles(c0, f0, current, prevData, now, stats, r)
    ensures stats.checkInsToday == |r.inferred.today|
    ensures stats.totalCheckIns == SumEffective(r.daily.days, r.daily.data)
    ensures stats.maxStreak == 1 && r.summary.maxStreak == 1
    ensures r.summary.totalCheckIns == r.compat.stats.totalCheckIns == stats.totalCheckIns
    ensures r.drift <==> r.prevTotal > 0 && Abs(r.prevTotal - stats.totalCheckIns) > LARGE_DIFF_THRESHOLD
  {
    TotalNotRaised(r.daily, DayOf(now));
  }

  /** The addresses listed for today: those of today's ledger as read and
      those whose counter in the fetched table is positive and above the
      previous one; without duplicates. */
  lemma ReconciledToday(c0: map<Path, Doc>, f0: map<Path, FileContent>, current: seq<Entry>, prevData: seq<Entry>,
                        now: Timestamp, stats: CheckInStats, r: Report, u: Address)
    requires Reconciles(c0, f0, current, prevData, now, stats, r)
    ensures u in r.inferred.today <==>
      u in r.today0.users || exists i :: 0 <= i < |current| && Increased(PrevMapOf(prevData), current[i]) && Key(current[i]) == u
    ensures Distinct(r.inferred.today)
    ensures r.today0.users <= r.inferred.today
  {
    var st0 := InferState(r.today0.users, r.yesterday0, []);
    RunTodayMembers(PrevMapOf(prevData), st0, current, u);
    RunTodayGrows(PrevMapOf(prevData), st0, current);
  }

  /** Yesterday's ledger: an address is added exactly when its counter
      jumped by more than five, and the last version written is the final
      ledger, whose count is its number of addresses. */
  lemma ReconciledYesterday(c0: map<Path, Doc>, f0: map<Path, FileContent>, current: seq<Entry>, prevData: seq<Entry>,
                            now: Timestamp, stats: CheckInStats, r: Report, u: Address)
    requires Reconciles(c0, f0, current, prevData, now, stats, r)
    ensures u in r.inferred.yesterday.users <==>
      u in r.yesterday0.users || exists i :: 0 <= i < |current| && Jumped(PrevMapOf(prevData), current[i]) && Key(current[i]) == u
    ensures r.inferred.written == [] ==> r.inferred.yesterday == r.yesterday0
    ensures r.inferred.written != [] ==>
      r.inferred.yesterday.count == |r.inferred.yesterday.users|
      && CheckInWrites(DayOf(now), r)[|r.inferred.written| - 1] == Write(DailyFile(DayOf(now) - 1), LedgerDoc(r.inferred.yesterday))
  {
    var prev, st0 := PrevMapOf(prevData), InferState(r.today0.users, r.yesterday0, []);
    assert r.inferred == Run(prev, st0, current);
    RunYesterdayMembers(prev, st0, current, u);
    RunYesterdayCount(prev, st0, current);
  }

  /** Yesterday's ledger is written only for an address that jumped and is
      missing from it; every version written counts its own addresses. */
  lemma ReconciledYesterdayWrites(c0: map<Path, Doc>, f0: map<Path, FileContent>, current: seq<Entry>, prevData: seq<Entry>,
                                  now: Timestamp, stats: CheckInStats, r: Report)
    requires Reconciles(c0, f0, current, prevData, now, stats, r)
    ensures (forall i :: 0 <= i < |current| ==>
               !(Jumped(PrevMapOf(prevData), current[i]) && Key(current[i]) !in r.yesterday0.users)) ==>
      r.inferred.written == [] && r.inferred.yesterday == r.yesterday0
    ensures forall k :: 0 <= k < |r.inferred.written| ==> r.inferred.written[k].count == |r.inferred.written[k].users|
  {
    var prev, st0 := PrevMapOf(prevData), InferState(r.today0.users, r.yesterday0, []);
    assert r.inferred == Run(prev, st0, current);
    RunWrittenCounts(prev, st0, current);
    if forall i :: 0 <= i < |current| ==> !(Jumped(prev, current[i]) && Key(current[i]) !in r.yesterday0.users) {
      RunNoJumpNoWrite(prev, st0, current);
    }
  }

  /** Every streak record written is stamped with today, its current streak
      is at most its maximum, which is at most its total, and its total is
      the number of listed days whose ledger has the address. */
  lemma ReconciledStreaks(c0: map<Path, Doc>, f0: map<Path, FileContent>, current: seq<Entry>, prevData: seq<Entry>,
                          now: Timestamp, stats: CheckInStats, r: Report, k: nat)
    requires Reconciles(c0, f0, current, prevData, now, stats, r)
    requires k < |r.streaks|
    ensures r.streaks[k].lastCheckIn == Some(DayOf(now))
    ensures r.streaks[k].currentStreak <= r.streaks[k].maxStreak <= r.streaks[k].totalCheckIns
    ensures r.streaks[k].totalCheckIns == |set d | d in r.daily.data && r.inferred.today[k] in r.daily.data[d].users|
  {
    var u := r.inferred.today[k];
    CorrectedWithinTotal(r.stored[k], r.daily, u, DayOf(now));
    TotalIsLedgerCount(r.daily, u);
  }

  /** The files and the cache at the start of the stage determine its
      report. */
  lemma ReconcilesUnique(c0: map<Path, Doc>, f0: map<Path, FileContent>, current: seq<Entry>, prevData: seq<Entry>,
                         now: Timestamp, stats1: CheckInStats, r1: Report, stats2: CheckInStats, r2: Report)
    requires Reconciles(c0, f0, current, prevData, now, stats1, r1)
    requires Reconciles(c0, f0, current, prevData, now, stats2, r2)
    ensures r1 == r2 && stats1 == stats2
  {
    ListingUnique(f0, r1.listing, r2.listing);
    assert r1.inferred == r2.inferred;
    assert r1.daily == r2.daily;
    assert r1.stored == r2.stored;
    assert r1.streaks == r2.streaks;
    WindowUnique(r1.summary.lastSevenDays, r2.summary.lastSevenDays, r1.summary0.lastSevenDays,
                 |r1.inferred.today|, r1.daily, DayOf(now));
  }
}
