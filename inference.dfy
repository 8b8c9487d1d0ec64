/** Check-in inference: compares the fetched table with the previous
    snapshot's table and records, per address, whether today's fetch shows a
    check-in (and, on a large jump, one for yesterday as well). */
module Inference {
  import opened Types

  /** The lower-cased address of a row. */
  function Key(e: Entry): Address
  {
    Lower(e.user)
  }

  /** The previous table as a map; a later row for the same lower-cased
      address overwrites an earlier one. */
  function PrevMapOf(data: seq<Entry>): map<Address, int>
  {
    if data == [] then map[]
    else PrevMapOf(data[..|data| - 1])[Key(data[|data| - 1]) := data[|data| - 1].clicks]
  }

  /** `prevUserMap[u] || 0`: a missing previous entry counts as 0 clicks. */
  function PrevClicks(prev: map<Address, int>, u: Address): int
  {
    if u in prev then prev[u] else 0
  }

  /** The row shows a positive, increased counter. */
  predicate Increased(prev: map<Address, int>, e: Entry)
  {
    e.clicks > 0 && e.clicks > PrevClicks(prev, Key(e))
  }

  /** The row's counter jumped by more than YESTERDAY_JUMP. */
  predicate Jumped(prev: map<Address, int>, e: Entry)
  {
    e.clicks > 0 && e.clicks - PrevClicks(prev, Key(e)) > YESTERDAY_JUMP
  }

  /** The in-memory state of the comparison: today's user list, yesterday's
      ledger and every version of yesterday's ledger written so far. */
  datatype InferState = InferState(today: seq<Address>, yesterday: Ledger, written: seq<Ledger>)

  /** What one row of the fetched table does to the state. */
  function Step(prev: map<Address, int>, st: InferState, e: Entry): InferState
  {
    var u := Key(e);
    var p := PrevClicks(prev, u);
    var c := e.clicks;
    if c <= 0 then st
    else
      var today1 := if c > p && u !in st.today then st.today + [u] else st.today;
      if u !in st.yesterday.users && c - p > YESTERDAY_JUMP then
        if u !in today1 then InferState(today1 + [u], st.yesterday, st.written)
        else
          var users := st.yesterday.users + [u];
          var y := Ledger(|users|, users);
          InferState(today1, y, st.written + [y])
      else InferState(today1, st.yesterday, st.written)
  }

  /** The state after the rows of s, in order. */
  function Run(prev: map<Address, int>, st0: InferState, s: seq<Entry>): InferState
  {
    if s == [] then st0 else Step(prev, Run(prev, st0, s[..|s| - 1]), s[|s| - 1])
  }

  /** Building prevUserMap with the forEach over the previous rows. */
  method BuildPrevMap(data: seq<Entry>) returns (m: map<Address, int>)
    ensures m == PrevMapOf(data)
  {
    m := map[];
    for i := 0 to |data|
      invariant m == PrevMapOf(data[..i])
    {
      assert data[..i + 1][..i] == data[..i];
      m := m[Key(data[i]) := data[i].clicks];
    }
    assert data[..|data|] == data;
  }

  /** The forEach over the fetched table. Today's count is reset first and
      set to the number of listed users afterwards. */
  method Infer(current: seq<Entry>, prev: map<Address, int>, today0: Ledger, yesterday0: Ledger)
    returns (today: Ledger, yesterday: Ledger, written: seq<Ledger>)
    ensures var st := Run(prev, InferState(today0.users, yesterday0, []), current);
      today == Ledger(|st.today|, st.today) && yesterday == st.yesterday && written == st.written
  {
    var users := today0.users;
    today := today0.(count := 0);
    yesterday, written := yesterday0, [];
    for i := 0 to |current|
      invariant InferState(users, yesterday, written) == Run(prev, InferState(today0.users, yesterday0, []), current[..i])
    {
      assert current[..i + 1][..i] == current[..i];
      var u := Lower(current[i].user);
      var prevClicks := PrevClicks(prev, u);
      var currentClicks := current[i].clicks;
      if currentClicks > 0 {
        var hasIncreased := currentClicks > prevClicks;
        var clicksIncreased := currentClicks - prevClicks;
        if hasIncreased && u !in users {
          users := users + [u];
        }
        if u !in yesterday.users && clicksIncreased > YESTERDAY_JUMP {
          if u !in users {
            users := users + [u];
          } else {
            var yUsers := yesterday.users + [u];
            yesterday := Ledger(|yUsers|, yUsers);
            written := written + [yesterday];
          }
        }
      }
    }
    assert current[..|current|] == current;
    today := Ledger(|users|, users);
  }

  // ---------------------------------------------------------------------
  // The previous table

  lemma {:induction false} PrevMapKeys(data: seq<Entry>, k: Address)
    ensures k in PrevMapOf(data) <==> exists i :: 0 <= i < |data| && Key(data[i]) == k
    decreases |data|
  {
    if data != [] {
      var d' := data[..|data| - 1];
      PrevMapKeys(d', k);
      if k in PrevMapOf(d') {
        var i :| 0 <= i < |d'| && Key(d'[i]) == k;
        assert data[i] == d'[i];
      }
      if exists i :: 0 <= i < |data| && Key(data[i]) == k {
        var i :| 0 <= i < |data| && Key(data[i]) == k;
        if i < |d'| { assert d'[i] == data[i]; }
      }
    }
  }

  /** The map holds the clicks of the last row for each address. */
  lemma {:induction false} PrevMapLastWins(data: seq<Entry>, i: nat)
    requires i < |data|
    requires forall j :: i < j < |data| ==> Key(data[j]) != Key(data[i])
    ensures Key(data[i]) in PrevMapOf(data) && PrevMapOf(data)[Key(data[i])] == data[i].clicks
    decreases |data|
  {
    if i < |data| - 1 {
      var d' := data[..|data| - 1];
      assert d'[i] == data[i];
      PrevMapLastWins(d', i);
    }
  }

  // ---------------------------------------------------------------------
  // One row

  /** The "assign to today" arm of the large-jump branch cannot run: a jump
      is an increase, which has already listed the user for today. */
  lemma JumpImpliesListedToday(prev: map<Address, int>, st: InferState, e: Entry)
    requires Jumped(prev, e)
    ensures Key(e) in Step(prev, st, e).today
    ensures Increased(prev, e)
  {
  }

  lemma StepToday(prev: map<Address, int>, st: InferState, e: Entry, u: Address)
    ensures st.today <= Step(prev, st, e).today
    ensures u in Step(prev, st, e).today <==> u in st.today || (Increased(prev, e) && Key(e) == u)
  {
  }

  lemma StepYesterday(prev: map<Address, int>, st: InferState, e: Entry, u: Address)
    ensures u in Step(prev, st, e).yesterday.users <==>
      u in st.yesterday.users || (Jumped(prev, e) && Key(e) == u)
    ensures st.yesterday.users <= Step(prev, st, e).yesterday.users
  {
  }

  // ---------------------------------------------------------------------
  // The whole table

  /** No address is ever removed from today's list. */
  lemma {:induction false} RunTodayGrows(prev: map<Address, int>, st0: InferState, s: seq<Entry>)
    ensures st0.today <= Run(prev, st0, s).today
    ensures st0.yesterday.users <= Run(prev, st0, s).yesterday.users
    ensures st0.written <= Run(prev, st0, s).written
    decreases |s|
  {
    if s != [] {
      var s' := s[..|s| - 1];
      RunTodayGrows(prev, st0, s');
      var st := Run(prev, st0, s');
      StepToday(prev, st, s[|s| - 1], "");
      StepYesterday(prev, st, s[|s| - 1], "");
    }
  }

  /** After the comparison an address is listed for today exactly when it
      was listed before or some row shows its counter positive and
      increased. */
  lemma {:induction false} RunTodayMembers(prev: map<Address, int>, st0: InferState, s: seq<Entry>, u: Address)
    ensures u in Run(prev, st0, s).today <==>
      u in st0.today || exists i :: 0 <= i < |s| && Increased(prev, s[i]) && Key(s[i]) == u
    decreases |s|
  {
    if s != [] {
      var s' := s[..|s| - 1];
      RunTodayMembers(prev, st0, s', u);
      StepToday(prev, Run(prev, st0, s'), s[|s| - 1], u);
      if exists i :: 0 <= i < |s'| && Increased(prev, s'[i]) && Key(s'[i]) == u {
        var i :| 0 <= i < |s'| && Increased(prev, s'[i]) && Key(s'[i]) == u;
        assert s[i] == s'[i];
      }
      if exists i :: 0 <= i < |s| && Increased(prev, s[i]) && Key(s[i]) == u {
        var i :| 0 <= i < |s| && Increased(prev, s[i]) && Key(s[i]) == u;
        if i < |s'| { assert s'[i] == s[i]; }
      }
    }
  }

  /** After the comparison an address is listed for yesterday exactly when
      it was listed before or some row shows a jump of more than five. */
  lemma {:induction false} RunYesterdayMembers(prev: map<Address, int>, st0: InferState, s: seq<Entry>, u: Address)
    ensures u in Run(prev, st0, s).yesterday.users <==>
      u in st0.yesterday.users || exists i :: 0 <= i < |s| && Jumped(prev, s[i]) && Key(s[i]) == u
    decreases |s|
  {
    if s != [] {
      var s' := s[..|s| - 1];
      RunYesterdayMembers(prev, st0, s', u);
      StepYesterday(prev, Run(prev, st0, s'), s[|s| - 1], u);
      if exists i :: 0 <= i < |s'| && Jumped(prev, s'[i]) && Key(s'[i]) == u {
        var i :| 0 <= i < |s'| && Jumped(prev, s'[i]) && Key(s'[i]) == u;
        assert s[i] == s'[i];
      }
      if exists i :: 0 <= i < |s| && Jumped(prev, s[i]) && Key(s[i]) == u {
        var i :| 0 <= i < |s| && Jumped(prev, s[i]) && Key(s[i]) == u;
        if i < |s'| { assert s'[i] == s[i]; }
      }
    }
  }

  /** Listing keeps the user lists free of duplicates, so a count equal to
      the list's length is the number of distinct addresses; so is every
      version of yesterday's ledger written. */
  lemma {:induction false} RunDistinct(prev: map<Address, int>, st0: InferState, s: seq<Entry>)
    requires Distinct(st0.today) && Distinct(st0.yesterday.users)
    requires forall k :: 0 <= k < |st0.written| ==> Distinct(st0.written[k].users)
    ensures var st := Run(prev, st0, s);
      && Distinct(st.today) && Distinct(st.yesterday.users)
      && forall k :: 0 <= k < |st.written| ==> Distinct(st.written[k].users)
    decreases |s|
  {
    if s != [] {
      RunDistinct(prev, st0, s[..|s| - 1]);
    }
  }

  /** Yesterday's ledger either keeps its stored value or, once an address
      was added to it, carries count == |users|, and the last version
      written is the final one. */
  lemma {:induction false} RunYesterdayCount(prev: map<Address, int>, st0: InferState, s: seq<Entry>)
    requires st0.written == []
    ensures var st := Run(prev, st0, s);
      (st.written == [] ==> st.yesterday == st0.yesterday) &&
      (st.written != [] ==> st.yesterday.count == |st.yesterday.users| && st.written[|st.written| - 1] == st.yesterday)
    decreases |s|
  {
    if s != [] {
      RunYesterdayCount(prev, st0, s[..|s| - 1]);
      RunTodayGrows(prev, st0, s[..|s| - 1]);
    }
  }

  /** Every version of yesterday's ledger has its count equal to its
      number of users. */
  predicate CountsMatch(ls: seq<Ledger>)
  {
    forall k :: 0 <= k < |ls| ==> ls[k].count == |ls[k].users|
  }

  /** Each version of yesterday's ledger is written with
      `count = Object.keys(users).length`, so whichever of them is left on
      disk has its count equal to its users. */
  lemma {:induction false} RunWrittenCounts(prev: map<Address, int>, st0: InferState, s: seq<Entry>)
    requires CountsMatch(st0.written)
    ensures CountsMatch(Run(prev, st0, s).written)
    decreases |s|
  {
    if s != [] {
      RunWrittenCounts(prev, st0, s[..|s| - 1]);
    }
  }

  /** Without a jump of more than five for an address missing from
      yesterday's ledger, yesterday's ledger is neither changed nor
      written. */
  lemma {:induction false} RunNoJumpNoWrite(prev: map<Address, int>, st0: InferState, s: seq<Entry>)
    requires forall i :: 0 <= i < |s| ==> !(Jumped(prev, s[i]) && Key(s[i]) !in st0.yesterday.users)
    ensures Run(prev, st0, s).written == st0.written && Run(prev, st0, s).yesterday == st0.yesterday
    decreases |s|
  {
    if s != [] {
      var s' := s[..|s| - 1];
      assert forall i :: 0 <= i < |s'| ==> s'[i] == s[i];
      RunNoJumpNoWrite(prev, st0, s');
      assert !(Jumped(prev, s[|s| - 1]) && Key(s[|s| - 1]) !in st0.yesterday.users);
    }
  }

  /** Rows whose counter is not positive or did not increase change nothing. */
  lemma {:induction false} RunIdle(prev: map<Address, int>, st0: InferState, s: seq<Entry>)
    requires forall i :: 0 <= i < |s| ==> !Increased(prev, s[i])
    ensures Run(prev, st0, s) == st0
    decreases |s|
  {
    if s != [] {
      var s' := s[..|s| - 1];
      assert forall i :: 0 <= i < |s'| ==> s'[i] == s[i];
      RunIdle(prev, st0, s');
      assert !Increased(prev, s[|s| - 1]);
    }
  }

  /** Comparing a table with itself (addresses distinct once lower-cased)
      infers no check-in at all. */
  lemma SecondRunIsIdle(s: seq<Entry>, st0: InferState)
    requires forall i, j :: 0 <= i < j < |s| ==> Key(s[i]) != Key(s[j])
    ensures Run(PrevMapOf(s), st0, s) == st0
  {
    forall i | 0 <= i < |s|
      ensures !Increased(PrevMapOf(s), s[i])
    {
      PrevMapLastWins(s, i);
    }
    RunIdle(PrevMapOf(s), st0, s);
  }

  /** A counter going from 5 to 8 with empty ledgers lists the user for
      today only: one check-in, not three. */
  lemma ScenarioSmallIncrease()
    ensures var prev := PrevMapOf([Entry("0xA", 5)]);
      Run(prev, InferState([], EmptyLedger, []), [Entry("0xA", 8)]) ==
        InferState(["0xa"], EmptyLedger, [])
  {
    assert Lower("0xA") == "0xa";
    assert [Entry("0xA", 8)][..0] == [];
    assert [Entry("0xA", 5)][..0] == [];
  }

  /** A counter going from 5 to 20 lists the user for today and for
      yesterday, each ledger gaining one address. */
  lemma ScenarioLargeIncrease()
    ensures var prev := PrevMapOf([Entry("0xA", 5)]);
      Run(prev, InferState([], EmptyLedger, []), [Entry("0xA", 20)]) ==
        InferState(["0xa"], Ledger(1, ["0xa"]), [Ledger(1, ["0xa"])])
  {
    assert Lower("0xA") == "0xa";
    assert [Entry("0xA", 20)][..0] == [];
    assert [Entry("0xA", 5)][..0] == [];
  }
}
