/** The script's entry point: read the previous snapshot, build the new
    table from the fetched arrays, open today's ledger on a new day, run the
    check-in stage, write the snapshot and re-write the compatibility
    file's total. */
module Script {
  import opened Types
  import opened Calendar
  import opened FileStore
  import opened Leaderboard
  import opened Engine

  /** The two arrays the contract call returns; None when the call failed
      on every attempt. */
  datatype Fetched = Fetched(addresses: seq<string>, clicks: seq<int>)

  /** The previous snapshot was written on another day than today. */
  predicate NewDay(prev: Doc, today: Day)
  {
    prev.LeaderboardDoc? && prev.lastUpdate.Some? && DayOf(prev.lastUpdate.value) != today
  }

  /** On a new day an empty ledger is written for today, unless a file for
      today already exists. */
  function NewDayWrites(prev: Doc, today: Day, files: map<Path, FileContent>): (ws: seq<Write>)
    ensures ws != [] <==> NewDay(prev, today) && DailyFile(today) !in files
    ensures ws != [] ==> ws == [Write(DailyFile(today), LedgerDoc(EmptyLedger))]
  {
    if NewDay(prev, today) && DailyFile(today) !in files then [Write(DailyFile(today), LedgerDoc(EmptyLedger))] else []
  }

  /** The new snapshot: the table, its size, the check-in statistics and
      their total. */
  function Snapshot(now: Timestamp, rows: seq<Entry>, stats: CheckInStats): (d: Doc)
    ensures d.LeaderboardDoc? && d.lastUpdate == Some(now) && d.data == Some(rows)
    ensures d.totalUsers == |rows| && d.checkIns == stats && d.totalCheckIns == stats.totalCheckIns
  {
    LeaderboardDoc(Some(now), Some(rows), |rows|, stats, stats.totalCheckIns)
  }

  /** The re-write of the compatibility file: only when it reads as a
      compatibility document, with its total replaced and nothing else
      changed. */
  function CompatRewrite(read: Doc, total: int): (ws: seq<Write>)
    ensures ws != [] <==> read.CompatDoc?
    ensures |ws| <= 1
    ensures ws != [] ==>
      && ws[0].path == CompatFile && ws[0].doc.CompatDoc?
      && ws[0].doc.compat.stats.totalCheckIns == total
      && ws[0].doc.compat.stats.(totalCheckIns := read.compat.stats.totalCheckIns) == read.compat.stats
      && ws[0].doc.compat.dailyData == read.compat.dailyData
  {
    if read.CompatDoc? then
      [Write(CompatFile, CompatDoc(read.compat.(stats := read.compat.stats.(totalCheckIns := total))))]
    else []
  }

  /** The writes after the check-in stage: the snapshot, then the
      compatibility re-write. */
  function FinalWrites(now: Timestamp, rows: seq<Entry>, stats: CheckInStats, compatRead: Doc): (ws: seq<Write>)
    ensures |ws| >= 1 && ws[0] == Write(LeaderboardFile, Snapshot(now, rows, stats))
    ensures ws[1..] == CompatRewrite(compatRead, stats.totalCheckIns)
  {
    [Write(LeaderboardFile, Snapshot(now, rows, stats))] + CompatRewrite(compatRead, stats.totalCheckIns)
  }

  /** The new-day block of main: on a new day, when no file for today
      exists, write an empty ledger for today. */
  method OpenDay(store: FileStore.Store, prev: Doc, today: Day)
    modifies store`files, store`writes
    ensures store.files == ApplyWrites(old(store.files), NewDayWrites(prev, today, old(store.files)), store.behaviour, old(store.writes))
    ensures store.writes == old(store.writes) + |NewDayWrites(prev, today, old(store.files))|
  {
    if NewDay(prev, today) && DailyFile(today) !in store.files {
      ghost var f0, n0 := store.files, store.writes;
      var w := Write(DailyFile(today), LedgerDoc(EmptyLedger));
      var ok := store.SafeWrite(w.path, w.doc);
      ApplyWritesSingle(f0, w, store.behaviour, n0);
    }
  }

  /** The new-day block runs once per day: after it wrote nothing, or its
      write succeeded, running it again writes nothing, and the check-in
      stage then finds an empty ledger for today. */
  lemma OpenDayOnce(prev: Doc, today: Day, files: map<Path, FileContent>, behaviour: nat -> WriteBehaviour, n: nat)
    ensures var ws := NewDayWrites(prev, today, files);
      var f := ApplyWrites(files, ws, behaviour, n);
      && (ws == [] || Succeeds(files, DailyFile(today), behaviour(n)) ==> NewDayWrites(prev, today, f) == [])
      && (ws != [] && Succeeds(files, DailyFile(today), behaviour(n)) ==>
           Get(f, DailyFile(today)) == Some(FileContent(behaviour(n).size, Some(LedgerDoc(EmptyLedger)))))
  {
    var ws := NewDayWrites(prev, today, files);
    if ws != [] {
      ApplyWritesSingle(files, ws[0], behaviour, n);
      AfterWriteEffects(files, DailyFile(today), LedgerDoc(EmptyLedger), behaviour(n));
    }
  }

  /** The snapshot written successfully within the size limit is what the
      next run reads first, with its cache empty: the table written, and a
      new day exactly when the next run falls on another day. */
  lemma NextRunReadsSnapshot(files: map<Path, FileContent>, now: Timestamp, rows: seq<Entry>, stats: CheckInStats,
                             compatRead: Doc, behaviour: nat -> WriteBehaviour, n: nat, later: Timestamp)
    requires Succeeds(files, LeaderboardFile, behaviour(n)) && behaviour(n).size <= MAX_FILE_SIZE
    ensures var f := ApplyWrites(files, FinalWrites(now, rows, stats, compatRead), behaviour, n);
      var d := ReadJSONValue(map[], f, LeaderboardFile, NullDoc);
      && d == Snapshot(now, rows, stats)
      && d.data == Some(rows) && d.totalCheckIns == stats.totalCheckIns
      && (NewDay(d, DayOf(later)) <==> DayOf(later) != DayOf(now))
  {
    var ws := FinalWrites(now, rows, stats, compatRead);
    assert ws[..0] == [];
    ApplyWritesLastAt(files, ws, behaviour, n, 0);
  }

  /** The end of main: write the new snapshot, read the compatibility file
      back through the cache and, when it reads as a compatibility
      document, write it again with the total of this run. fl is the files
      after the snapshot write. */
  method Publish(store: FileStore.Store, table: seq<Entry>, stats: CheckInStats, now: Timestamp)
    returns (ghost fl: map<Path, FileContent>, ghost compatRead: Doc)
    modifies store`files, store`writes, store`cache
    ensures fl == AfterWrite(old(store.files), LeaderboardFile, Snapshot(now, table, stats), store.behaviour(old(store.writes)))
    ensures compatRead == ReadJSONValue(old(store.cache), fl, CompatFile, NullDoc)
    ensures store.cache == CacheAfterRead(old(store.cache), fl, CompatFile)
    ensures store.files == ApplyWrites(old(store.files), FinalWrites(now, table, stats, compatRead), store.behaviour, old(store.writes))
    ensures store.writes == old(store.writes) + |FinalWrites(now, table, stats, compatRead)|
  {
    ghost var f0, n0 := store.files, store.writes;
    var snapshot := Write(LeaderboardFile, Snapshot(now, table, stats));
    var ok := store.SafeWrite(snapshot.path, snapshot.doc);
    fl := store.files;
    ApplyWritesSingle(f0, snapshot, store.behaviour, n0);
    var checkinStatsData := store.ReadJSON(CompatFile, NullDoc);
    compatRead := checkinStatsData;
    var rewrite := CompatRewrite(checkinStatsData, stats.totalCheckIns);
    if checkinStatsData.CompatDoc? {
      ok := store.SafeWrite(rewrite[0].path, rewrite[0].doc);
      ApplyWritesSnoc(f0, [snapshot], rewrite[0], store.behaviour, n0);
      assert rewrite == [rewrite[0]];
    }
    assert FinalWrites(now, table, stats, compatRead) == [snapshot] + rewrite;
  }

  /** main after the table is built: the new-day block, the check-in stage
      against the snapshot read at the start, the new snapshot and the
      compatibility re-write. fs is the files the check-in stage starts
      from, fl the files the compatibility file is read from. */
  method Reconcile(store: FileStore.Store, table: seq<Entry>, prev: Doc, now: Timestamp)
    returns (stats: CheckInStats, ghost report: Report, ghost fs: map<Path, FileContent>, ghost fl: map<Path, FileContent>,
             ghost compatRead: Doc)
    requires FilesDistinct(store.files) && CacheDistinct(store.cache)
    modifies store`files, store`writes, store`cache
    ensures fs == ApplyWrites(old(store.files), NewDayWrites(prev, DayOf(now), old(store.files)), store.behaviour, old(store.writes))
    ensures prev.LeaderboardDoc? && prev.data.Some? ==> Reconciles(old(store.cache), fs, table, prev.data.value, now, stats, report)
    ensures !(prev.LeaderboardDoc? && prev.data.Some?) ==> stats == CheckInStats(0, 0, 0) && report == Skipped
    ensures report.Reconciled? ==> |report.streaks| == |report.inferred.today|
    ensures fl == ApplyWrites(old(store.files),
                              NewDayWrites(prev, DayOf(now), old(store.files)) + CheckInWrites(DayOf(now), report)
                                + [Write(LeaderboardFile, Snapshot(now, table, stats))],
                              store.behaviour, old(store.writes))
    ensures CompatFile !in old(store.cache) ==> compatRead == ReadJSONValue(map[], fl, CompatFile, NullDoc)
    ensures store.files == ApplyWrites(old(store.files),
                                       NewDayWrites(prev, DayOf(now), old(store.files)) + CheckInWrites(DayOf(now), report)
                                         + FinalWrites(now, table, stats, compatRead),
                                       store.behaviour, old(store.writes))
    ensures store.writes == old(store.writes) + |NewDayWrites(prev, DayOf(now), old(store.files))|
      + |CheckInWrites(DayOf(now), report)| + |FinalWrites(now, table, stats, compatRead)|
    ensures FilesDistinct(store.files)
  {
    var today := DayOf(now);
    ghost var c0, f0, n0 := store.cache, store.files, store.writes;
    OpenDay(store, prev, today);
    fs := store.files;
    ApplyWritesDistinct(f0, NewDayWrites(prev, today, f0), store.behaviour, n0);
    ghost var n1 := store.writes;
    stats, report := UpdateCheckInStats(store, table, prev, now);
    ghost var c2, f2, n2 := store.cache, store.files, store.writes;
    fl, compatRead := Publish(store, table, stats, now);
    CompatReadFresh(c0, c2, fl, today);
    SnapshotStep(f0, NewDayWrites(prev, today, f0), CheckInWrites(today, report), Write(LeaderboardFile, Snapshot(now, table, stats)),
                 store.behaviour, n0, fs, n1, f2, n2, fl);
    ScriptWrites(f0, NewDayWrites(prev, today, f0), CheckInWrites(today, report), FinalWrites(now, table, stats, compatRead),
                 store.behaviour, n0, fs, n1, f2, n2, store.files);
    ApplyWritesDistinct(f2, FinalWrites(now, table, stats, compatRead), store.behaviour, n2);
  }

  /** main: a fetch failure or a table that cannot be built ends the run
      with exit code 1 before anything is written; otherwise Reconcile runs
      and the run ends with exit code 0. A run starts with an empty cache;
      the cache the rest of the run starts from holds the snapshot read. */
  method RunOnce(store: FileStore.Store, fetched: Option<Fetched>, now: Timestamp)
    returns (exitCode: int, ghost prev: Doc, ghost rows: seq<Entry>, ghost stats: CheckInStats, ghost report: Report,
             ghost fs: map<Path, FileContent>, ghost fl: map<Path, FileContent>, ghost compatRead: Doc)
    requires store.cache == map[] && FilesDistinct(store.files)
    modifies store`files, store`writes, store`cache
    ensures prev == ReadJSONValue(map[], old(store.files), LeaderboardFile, NullDoc)
    ensures exitCode == 0 <==> fetched.Some? && |fetched.value.addresses| <= |fetched.value.clicks|
    ensures exitCode == 0 || exitCode == 1
    ensures exitCode == 1 ==> store.files == old(store.files) && store.writes == old(store.writes)
    ensures exitCode == 0 ==> rows == SortDesc(BuildEntries(fetched.value.addresses, fetched.value.clicks).value)
    ensures exitCode == 0 ==>
      fs == ApplyWrites(old(store.files), NewDayWrites(prev, DayOf(now), old(store.files)), store.behaviour, old(store.writes))
    ensures exitCode == 0 && prev.LeaderboardDoc? && prev.data.Some? ==>
      Reconciles(CacheAfterRead(map[], old(store.files), LeaderboardFile), fs, rows, prev.data.value, now, stats, report)
    ensures exitCode == 0 && !(prev.LeaderboardDoc? && prev.data.Some?) ==> stats == CheckInStats(0, 0, 0) && report == Skipped
    ensures exitCode == 0 ==> report.Reconciled? ==> |report.streaks| == |report.inferred.today|
    ensures exitCode == 0 ==>
      fl == ApplyWrites(old(store.files),
                        NewDayWrites(prev, DayOf(now), old(store.files)) + CheckInWrites(DayOf(now), report)
                          + [Write(LeaderboardFile, Snapshot(now, rows, stats))],
                        store.behaviour, old(store.writes))
    ensures exitCode == 0 ==> compatRead == ReadJSONValue(map[], fl, CompatFile, NullDoc)
    ensures exitCode == 0 ==>
      store.files == ApplyWrites(old(store.files),
                                 NewDayWrites(prev, DayOf(now), old(store.files)) + CheckInWrites(DayOf(now), report)
                                   + FinalWrites(now, rows, stats, compatRead),
                                 store.behaviour, old(store.writes))
    ensures exitCode == 0 ==>
      store.writes == old(store.writes) + |NewDayWrites(prev, DayOf(now), old(store.files))|
        + |CheckInWrites(DayOf(now), report)| + |FinalWrites(now, rows, stats, compatRead)|
    ensures FilesDistinct(store.files)
  {
    ReadDistinct(map[], store.files, LeaderboardFile, NullDoc);
    var previousData := store.ReadJSON(LeaderboardFile, NullDoc);
    prev := previousData;
    if fetched.None? {
      return 1, prev, [], CheckInStats(0, 0, 0), Skipped, store.files, store.files, NullDoc;
    }
    var result := BuildLeaderboard(fetched.value.addresses, fetched.value.clicks);
    if result.None? {
      return 1, prev, [], CheckInStats(0, 0, 0), Skipped, store.files, store.files, NullDoc;
    }
    var table := result.value;
    rows := table;
    var checkInStats;
    checkInStats, report, fs, fl, compatRead := Reconcile(store, table, previousData, now);
    stats := checkInStats;
    exitCode := 0;
  }

  /** The compatibility file is not in the cache when it is read, unless it
      was there when the stage began: the check-in stage caches only
      ledgers, streak files and the summary. */
  lemma CompatReadFresh(c0: map<Path, Doc>, c2: map<Path, Doc>, fl: map<Path, FileContent>, today: Day)
    requires CacheGrows(c0, c2)
    requires forall q :: q in c2 && q !in c0 ==> q == DailyFile(today) || q == SummaryFile || q.UserFile?
    ensures CompatFile !in c0 ==> ReadJSONValue(c2, fl, CompatFile, NullDoc) == ReadJSONValue(map[], fl, CompatFile, NullDoc)
  {
  }

  /** The snapshot write extends the writes before it by one. */
  lemma SnapshotStep(f0: map<Path, FileContent>, nd: seq<Write>, ck: seq<Write>, w: Write, behaviour: nat -> WriteBehaviour,
                     n0: nat, fs: map<Path, FileContent>, n1: nat, f2: map<Path, FileContent>, n2: nat, fl: map<Path, FileContent>)
    requires fs == ApplyWrites(f0, nd, behaviour, n0) && n1 == n0 + |nd|
    requires f2 == ApplyWrites(fs, ck, behaviour, n1) && n2 == n1 + |ck|
    requires fl == AfterWrite(f2, w.path, w.doc, behaviour(n2))
    ensures fl == ApplyWrites(f0, nd + ck + [w], behaviour, n0)
  {
    ApplyWritesAppendAt(f0, nd, ck, behaviour, n0, n1);
    ApplyWritesSnoc(f0, nd + ck, w, behaviour, n0);
  }

  /** The batches of the run make up its writes. */
  lemma ScriptWrites(f0: map<Path, FileContent>, nd: seq<Write>, ck: seq<Write>, fin: seq<Write>,
                     behaviour: nat -> WriteBehaviour, n0: nat, fs: map<Path, FileContent>, n1: nat,
                     f2: map<Path, FileContent>, n2: nat, f3: map<Path, FileContent>)
    requires fs == ApplyWrites(f0, nd, behaviour, n0) && n1 == n0 + |nd|
    requires f2 == ApplyWrites(fs, ck, behaviour, n1) && n2 == n1 + |ck|
    requires f3 == ApplyWrites(f2, fin, behaviour, n2)
    ensures f3 == ApplyWrites(f0, nd + ck + fin, behaviour, n0)
  {
    ApplyWritesAppendAt(f0, nd, ck, behaviour, n0, n1);
    ApplyWritesAppendAt(f0, nd + ck, fin, behaviour, n0, n2);
  }

  /** A compatibility file written successfully and small enough to parse
      survives the snapshot write, and the re-write then puts back the very
      document that was written, when its total already was the run's. */
  lemma RewriteRestoresCompat(f: map<Path, FileContent>, compat: Compat, b: WriteBehaviour, snapshot: Doc,
                              b2: WriteBehaviour, total: int)
    requires Succeeds(f, CompatFile, b) && b.size <= MAX_FILE_SIZE
    requires compat.stats.totalCheckIns == total
    ensures var fl := AfterWrite(AfterWrite(f, CompatFile, CompatDoc(compat), b), LeaderboardFile, snapshot, b2);
      CompatRewrite(ReadJSONValue(map[], fl, CompatFile, NullDoc), total) == [Write(CompatFile, CompatDoc(compat))]
  {
    var f1 := AfterWrite(f, CompatFile, CompatDoc(compat), b);
    AfterWriteEffects(f, CompatFile, CompatDoc(compat), b);
    AfterWriteEffects(f1, LeaderboardFile, snapshot, b2);
  }

  /** The same, for a batch given as the writes before the compatibility
      write. */
  lemma RewriteAfterLastWrite(f0: map<Path, FileContent>, pre: seq<Write>, compat: Compat, sw: Write,
                              behaviour: nat -> WriteBehaviour, n0: nat, total: int)
    requires sw.path == LeaderboardFile && compat.stats.totalCheckIns == total
    requires var k := n0 + |pre|;
      Succeeds(ApplyWrites(f0, pre, behaviour, n0), CompatFile, behaviour(k)) && behaviour(k).size <= MAX_FILE_SIZE
    ensures var fl := ApplyWrites(f0, pre + [Write(CompatFile, CompatDoc(compat))] + [sw], behaviour, n0);
      CompatRewrite(ReadJSONValue(map[], fl, CompatFile, NullDoc), total) == [Write(CompatFile, CompatDoc(compat))]
  {
    var cw := Write(CompatFile, CompatDoc(compat));
    var k := n0 + |pre|;
    var fa := ApplyWrites(f0, pre, behaviour, n0);
    ApplyWritesSnoc(f0, pre, cw, behaviour, n0);
    var fb := AfterWrite(fa, CompatFile, CompatDoc(compat), behaviour(k));
    ApplyWritesSnoc(f0, pre + [cw], sw, behaviour, n0);
    assert ApplyWrites(f0, pre + [cw] + [sw], behaviour, n0) == AfterWrite(fb, LeaderboardFile, sw.doc, behaviour(k + 1));
    RewriteRestoresCompat(fa, compat, behaviour(k), sw.doc, behaviour(k + 1), total);
  }

  /** A batch that ends with a successful compatibility write, followed by
      the snapshot write, leaves the compatibility document for the
      re-write to put back unchanged. */
  lemma RewriteAfterBatch(f0: map<Path, FileContent>, nd: seq<Write>, ck: seq<Write>, compat: Compat, sw: Write,
                          behaviour: nat -> WriteBehaviour, n0: nat, total: int)
    requires ck != [] && ck[|ck| - 1] == Write(CompatFile, CompatDoc(compat)) && sw.path == LeaderboardFile
    requires compat.stats.totalCheckIns == total
    requires var k := n0 + |nd| + |ck| - 1;
      Succeeds(ApplyWrites(f0, nd + ck[..|ck| - 1], behaviour, n0), CompatFile, behaviour(k)) && behaviour(k).size <= MAX_FILE_SIZE
    ensures var fl := ApplyWrites(f0, nd + ck + [sw], behaviour, n0);
      CompatRewrite(ReadJSONValue(map[], fl, CompatFile, NullDoc), total) == [Write(CompatFile, CompatDoc(compat))]
  {
    var pre := nd + ck[..|ck| - 1];
    assert nd + ck + [sw] == pre + [Write(CompatFile, CompatDoc(compat))] + [sw];
    RewriteAfterLastWrite(f0, pre, compat, sw, behaviour, n0, total);
  }

  /** In a reconciled run whose compatibility write succeeded, the final
      re-write of the compatibility file changes nothing: it writes the
      document the check-in stage wrote (whose total is the statistics'
      total, by ReconciledStats). */
  lemma RunRewritesSameCompat(current: seq<Entry>, now: Timestamp, stats: CheckInStats, r: Report,
                              f0: map<Path, FileContent>, nd: seq<Write>, behaviour: nat -> WriteBehaviour, n0: nat)
    requires r.Reconciled? && |r.streaks| == |r.inferred.today|
    requires r.compat.stats.totalCheckIns == stats.totalCheckIns
    requires var ck := CheckInWrites(DayOf(now), r);
      var k := n0 + |nd| + |ck| - 1;
      Succeeds(ApplyWrites(f0, nd + ck[..|ck| - 1], behaviour, n0), CompatFile, behaviour(k)) && behaviour(k).size <= MAX_FILE_SIZE
    ensures var ck := CheckInWrites(DayOf(now), r);
      var fl := ApplyWrites(f0, nd + ck + [Write(LeaderboardFile, Snapshot(now, current, stats))], behaviour, n0);
      CompatRewrite(ReadJSONValue(map[], fl, CompatFile, NullDoc), stats.totalCheckIns) == [Write(CompatFile, CompatDoc(r.compat))]
  {
    var ck := CheckInWrites(DayOf(now), r);
    assert ck[|ck| - 1] == Write(CompatFile, CompatDoc(r.compat));
    RewriteAfterBatch(f0, nd, ck, r.compat, Write(LeaderboardFile, Snapshot(now, current, stats)), behaviour, n0,
                      stats.totalCheckIns);
  }

  /** Without a previous snapshot the statistics are zero, so the re-write
      of an existing compatibility file resets its total to 0. */
  lemma SkippedRunZeroesCompat(read: Doc)
    requires read.CompatDoc?
    ensures CompatRewrite(read, CheckInStats(0, 0, 0).totalCheckIns)[0].doc.compat.stats.totalCheckIns == 0
  {
  }
}
