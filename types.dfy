/** Values shared by every stage of one reconciliation run of the leaderboard
    script: the fetched table, the per-day ledgers, the per-user streak
    records, the summary artifacts and the paths of the flat-file store. */
module Types {

  datatype Option<T> = None | Some(value: T)

  /** An account address as a string ("0xAbC..."); the engine lower-cases it. */
  type Address = string
  /** A calendar day: the number of days since 1970-01-01 (UTC). */
  type Day = int
  /** A wall-clock instant in milliseconds since the epoch. */
  type Timestamp = int

  const MS_PER_DAY: int := 86400000
  /** Files larger than this are not parsed by the cached reader (50 MB). */
  const MAX_FILE_SIZE: int := 50 * 1024 * 1024
  /** Stored maximum streaks above this are treated as corrupt. */
  const MAX_STREAK_DAYS: int := 30
  /** Drift between the stored and the recomputed total that is reported. */
  const LARGE_DIFF_THRESHOLD: int := 10
  /** A click jump larger than this also credits the user to yesterday. */
  const YESTERDAY_JUMP: int := 5

  function Max(a: int, b: int): int { if a >= b then a else b }
  function Abs(a: int): nat { if a >= 0 then a else -a }

  /** One row of the fetched leaderboard table. */
  datatype Entry = Entry(user: string, clicks: int)

  /** A daily ledger file: a stored count and the checked-in addresses, in
      the order in which they were added to the JSON object. */
  datatype Ledger = Ledger(count: int, users: seq<Address>)

  /** The value that stands in for a missing or unreadable ledger file. */
  const EmptyLedger: Ledger := Ledger(0, [])

  predicate Distinct(s: seq<Address>)
  {
    forall i, j :: 0 <= i < j < |s| ==> s[i] != s[j]
  }

  /** The check-in count a ledger is credited with when counts and user sets
      disagree: the larger of the two. */
  function Effective(l: Ledger): (n: nat)
    ensures n >= |l.users| && n >= l.count
    ensures n == l.count || n == |l.users|
  {
    Max(l.count, |l.users|)
  }

  /** The key of a per-user monthly counter ("YYYY-MM"). */
  datatype YearMonth = YearMonth(year: int, month: int)

  /** A per-user streak file. */
  datatype StreakRecord = StreakRecord(
    currentStreak: int,
    maxStreak: int,
    lastCheckIn: Option<Day>,
    totalCheckIns: int,
    months: map<YearMonth, int>)

  /** The record that stands in for a missing or unreadable streak file. */
  const FreshRecord: StreakRecord := StreakRecord(0, 0, None, 0, map[])

  /** The statistics the check-in stage hands back to the run. */
  datatype CheckInStats = CheckInStats(checkInsToday: int, totalCheckIns: int, maxStreak: int)

  /** The global summary file. */
  datatype Summary = Summary(
    lastUpdate: Timestamp,
    totalUsers: int,
    checkInsToday: int,
    totalCheckIns: int,
    maxStreak: int,
    lastSevenDays: map<Day, int>)

  /** The legacy compatibility file: a copy of some summary values and the
      day's ledger (its user object turned into a list). */
  datatype CompatStats = CompatStats(totalCheckIns: int, maxStreak: int, checkInsToday: int, lastUpdate: Timestamp)
  datatype Compat = Compat(stats: CompatStats, dailyData: map<Day, Ledger>)

  /** The parsed content of a JSON file of the store. */
  datatype Doc =
    | LeaderboardDoc(lastUpdate: Option<Timestamp>, data: Option<seq<Entry>>,
                     totalUsers: int, checkIns: CheckInStats, totalCheckIns: int)
    | LedgerDoc(ledger: Ledger)
    | StreakDoc(record: StreakRecord)
    | SummaryDoc(summary: Summary)
    | CompatDoc(compat: Compat)
    | NullDoc

  /** The files of the store. A per-user file lives in a directory named by
      a two-character shard of the address; `Tmp` and `Bak` are the ".tmp"
      and ".bak" siblings of a path. */
  datatype Path =
    | LeaderboardFile
    | SummaryFile
    | CompatFile
    | DailyFile(day: Day)
    | UserFile(shard: string, user: Address)
    | Tmp(target: Path)
    | Bak(target: Path)

  /** The ledger files as the run reads them: the days of the files in
      sorted (that is, chronological) order and the ledger of each. */
  datatype DailyFiles = DailyFiles(days: seq<Day>, data: map<Day, Ledger>)

  predicate StrictlyIncreasing(s: seq<Day>)
  {
    forall i, j :: 0 <= i < j < |s| ==> s[i] < s[j]
  }

  ghost predicate WellFormed(df: DailyFiles)
  {
    && StrictlyIncreasing(df.days)
    && (forall i :: 0 <= i < |df.days| ==> df.days[i] in df.data)
    && (forall d :: d in df.data ==> d in df.days)
  }

  lemma {:induction false} HasMinFrom(s: set<Day>, x: Day)
    requires x in s
    ensures exists m :: m in s && forall y :: y in s ==> m <= y
    decreases |s|
  {
    if !(forall y :: y in s ==> x <= y) {
      var y :| y in s && y < x;
      HasMinFrom(s - {x}, y);
      var m :| m in s - {x} && forall z :: z in s - {x} ==> m <= z;
      forall z | z in s ensures m <= z {
        if z != x { assert z in s - {x}; }
      }
    }
  }

  /** A non-empty finite set of days has a least element. */
  lemma SetHasMin(s: set<Day>)
    requires s != {}
    ensures exists m :: m in s && forall y :: y in s ==> m <= y
  {
    assert (forall y :: y !in s) ==> s == {};
    var x :| x in s;
    HasMinFrom(s, x);
  }

  lemma FirstIn(s: seq<Day>)
    ensures s != [] ==> s[0] in s
  {
  }

  /** Dropping the last element of a strictly increasing sequence keeps it
      strictly increasing, and every earlier element is below the last. */
  lemma PrefixIncreasing(d': seq<Day>, d: Day)
    requires StrictlyIncreasing(d' + [d])
    ensures StrictlyIncreasing(d')
    ensures forall x :: x in d' ==> x < d
  {
    var days := d' + [d];
    forall i, j | 0 <= i < j < |d'| ensures d'[i] < d'[j] {
      assert d'[i] == days[i] && d'[j] == days[j];
    }
    forall x | x in d' ensures x < d {
      var k :| 0 <= k < |d'| && d'[k] == x;
      assert days[k] == x && days[|d'|] == d;
    }
  }

  /** Two strictly increasing sequences with the same elements are equal. */
  lemma {:induction false} SortedUnique(a: seq<Day>, b: seq<Day>)
    requires StrictlyIncreasing(a) && StrictlyIncreasing(b)
    requires forall x :: x in a <==> x in b
    ensures a == b
    decreases |a|
  {
    if a == [] || b == [] {
      FirstIn(a);
      FirstIn(b);
    } else {
      var a', ma := a[..|a| - 1], a[|a| - 1];
      var b', mb := b[..|b| - 1], b[|b| - 1];
      assert a == a' + [ma] && b == b' + [mb];
      PrefixIncreasing(a', ma);
      PrefixIncreasing(b', mb);
      assert ma in b && mb in a;
      assert ma == mb;
      forall x ensures x in a' <==> x in b' {
        assert x in a <==> x in a' || x == ma;
        assert x in b <==> x in b' || x == mb;
      }
      SortedUnique(a', b');
    }
  }

  function LowerChar(c: char): char
  {
    if 'A' <= c <= 'Z' then (c as int + 32) as char else c
  }

  /** Lower-casing of an address (ASCII letters only). */
  function Lower(s: string): (r: string)
    ensures |r| == |s|
    ensures forall i :: 0 <= i < |s| ==> r[i] == LowerChar(s[i])
    ensures forall i :: 0 <= i < |s| ==> !('A' <= r[i] <= 'Z')
  {
    if s == [] then [] else [LowerChar(s[0])] + Lower(s[1..])
  }

  /** `s.substring(2, 4)`: the two characters after the "0x" prefix, clamped
      to the string's length. */
  function Shard(s: string): (r: string)
    ensures |s| >= 4 ==> r == s[2..4]
    ensures |s| < 4 ==> r == s[if |s| < 2 then |s| else 2..]
    ensures |r| <= 2
  {
    var lo := if |s| < 2 then |s| else 2;
    var hi := if |s| < 4 then |s| else 4;
    s[lo..hi]
  }

  /** The path of a user's streak file. */
  function UserStreakPath(u: Address): Path
  {
    UserFile(Shard(u), u)
  }

  /** Two addresses of full length share a shard directory exactly when
      their third and fourth characters agree. */
  lemma SameShard(u: string, v: string)
    requires |u| >= 4 && |v| >= 4
    ensures Shard(u) == Shard(v) <==> u[2] == v[2] && u[3] == v[3]
  {
    if Shard(u) == Shard(v) {
      assert u[2] == Shard(u)[0] && v[2] == Shard(v)[0];
      assert u[3] == Shard(u)[1] && v[3] == Shard(v)[1];
    } else {
      assert Shard(u) == [u[2], u[3]] && Shard(v) == [v[2], v[3]];
    }
  }

  /** Different addresses have different streak files, even when they
      share a shard, and a streak file is none of the fixed files. */
  lemma UserStreakPathInjective(u: Address, v: Address)
    ensures UserStreakPath(u) == UserStreakPath(v) <==> u == v
    ensures UserStreakPath(u) != LeaderboardFile && UserStreakPath(u) != SummaryFile && UserStreakPath(u) != CompatFile
    ensures !UserStreakPath(u).DailyFile? && !UserStreakPath(u).Tmp? && !UserStreakPath(u).Bak?
  {
  }
}
