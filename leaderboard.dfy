/** The leaderboard snapshot: the fetched address and click arrays zipped
    into rows, then sorted by clicks, most first, keeping the fetched order
    among equal click counts (a stable sort). */
module Leaderboard {
  import opened Types

  /** Zips the index-aligned arrays returned by the contract. A click array
      shorter than the address array makes the row construction throw
      (`clicksArray[i]` is undefined), which aborts the run: None. */
  function BuildEntries(addrs: seq<string>, clicks: seq<int>): (r: Option<seq<Entry>>)
    ensures r.Some? <==> |addrs| <= |clicks|
    ensures r.Some? ==> |r.value| == |addrs|
    ensures r.Some? ==> forall i :: 0 <= i < |addrs| ==> r.value[i].user == addrs[i] && r.value[i].clicks == clicks[i]
  {
    if |addrs| <= |clicks| then
      Some(seq(|addrs|, i requires 0 <= i < |addrs| => Entry(addrs[i], clicks[i])))
    else
      None
  }

  predicate NonIncreasing(s: seq<Entry>)
  {
    forall i, j :: 0 <= i < j < |s| ==> s[i].clicks >= s[j].clicks
  }

  /** The rows with a given click count, in order. */
  function WithClicks(s: seq<Entry>, c: int): seq<Entry>
  {
    if s == [] then []
    else WithClicks(s[..|s| - 1], c) + (if s[|s| - 1].clicks == c then [s[|s| - 1]] else [])
  }

  /** Places x after every row of t with at least as many clicks. */
  function Insert(t: seq<Entry>, x: Entry): seq<Entry>
  {
    if t == [] || t[|t| - 1].clicks >= x.clicks then t + [x]
    else Insert(t[..|t| - 1], x) + [t[|t| - 1]]
  }

  /** The stable descending sort `result.sort((a, b) => b.clicks - a.clicks)`
      computes, written as an insertion sort. A stable sort's result is
      unique, so the algorithm the runtime uses does not matter. */
  function SortDesc(s: seq<Entry>): seq<Entry>
  {
    if s == [] then [] else Insert(SortDesc(s[..|s| - 1]), s[|s| - 1])
  }

  lemma {:induction false} WithClicksAppend(a: seq<Entry>, b: seq<Entry>, c: int)
    ensures WithClicks(a + b, c) == WithClicks(a, c) + WithClicks(b, c)
    decreases |b|
  {
    if b == [] {
      assert a + b == a;
    } else {
      var b' := b[..|b| - 1];
      assert (a + b)[..|a + b| - 1] == a + b';
      WithClicksAppend(a, b', c);
    }
  }

  lemma {:induction false} InsertMultiset(t: seq<Entry>, x: Entry)
    ensures multiset(Insert(t, x)) == multiset(t) + multiset{x}
    decreases |t|
  {
    if t == [] || t[|t| - 1].clicks >= x.clicks {
    } else {
      var t' := t[..|t| - 1];
      InsertMultiset(t', x);
      assert t == t' + [t[|t| - 1]];
    }
  }

  lemma {:induction false} InsertSorted(t: seq<Entry>, x: Entry)
    requires NonIncreasing(t)
    ensures NonIncreasing(Insert(t, x))
    decreases |t|
  {
    if t == [] || t[|t| - 1].clicks >= x.clicks {
    } else {
      var t' := t[..|t| - 1];
      var l := t[|t| - 1];
      InsertSorted(t', x);
      InsertMultiset(t', x);
      var r := Insert(t', x);
      forall k | 0 <= k < |r|
        ensures r[k].clicks >= l.clicks
      {
        assert r[k] in multiset(r);
        assert r[k] in multiset(t') || r[k] == x;
        if r[k] != x {
          var m :| 0 <= m < |t'| && t'[m] == r[k];
          assert t[m] == t'[m];
        }
      }
    }
  }

  lemma WithClicksSnoc(s: seq<Entry>, l: Entry, c: int)
    ensures WithClicks(s + [l], c) == WithClicks(s, c) + (if l.clicks == c then [l] else [])
  {
    assert (s + [l])[..|s|] == s;
  }

  lemma InsertSnoc(t: seq<Entry>, l: Entry, x: Entry)
    ensures Insert(t + [l], x) == if l.clicks >= x.clicks then t + [l] + [x] else Insert(t, x) + [l]
  {
    assert (t + [l])[..|t|] == t;
  }

  lemma {:induction false} InsertWithClicks(t: seq<Entry>, x: Entry, c: int)
    ensures WithClicks(Insert(t, x), c) == WithClicks(t, c) + (if x.clicks == c then [x] else [])
    decreases |t|
  {
    if t == [] {
      WithClicksSnoc([], x, c);
      assert [] + [x] == [x];
    } else {
      var t' := t[..|t| - 1];
      var l := t[|t| - 1];
      assert t == t' + [l];
      InsertSnoc(t', l, x);
      if l.clicks >= x.clicks {
        WithClicksSnoc(t, x, c);
      } else {
        InsertWithClicks(t', x, c);
        WithClicksSnoc(Insert(t', x), l, c);
        WithClicksSnoc(t', l, c);
        var w := WithClicks(t', c);
        var xs := if x.clicks == c then [x] else [];
        var ls := if l.clicks == c then [l] else [];
        assert xs == [] || ls == [];
        assert w + xs + ls == w + ls + xs;
      }
    }
  }

  lemma {:induction false} InsertAt(t: seq<Entry>, x: Entry, j: nat)
    requires j <= |t|
    requires forall k :: j <= k < |t| ==> t[k].clicks < x.clicks
    requires j == 0 || t[j - 1].clicks >= x.clicks
    ensures Insert(t, x) == t[..j] + [x] + t[j..]
    decreases |t|
  {
    if j == |t| {
      assert t[..j] == t && t[j..] == [];
    } else {
      var t' := t[..|t| - 1];
      assert t'[..j] == t[..j];
      InsertAt(t', x, j);
      assert t[j..] == t'[j..] + [t[|t| - 1]];
    }
  }

  /** The leaderboard has the fetched rows, each once. */
  lemma {:induction false} SortDescPermutes(s: seq<Entry>)
    ensures multiset(SortDesc(s)) == multiset(s)
    ensures |SortDesc(s)| == |s|
    decreases |s|
  {
    if s != [] {
      var s' := s[..|s| - 1];
      SortDescPermutes(s');
      InsertMultiset(SortDesc(s'), s[|s| - 1]);
      assert s == s' + [s[|s| - 1]];
    }
  }

  /** The leaderboard is ordered by clicks, most first. */
  lemma {:induction false} SortDescSorted(s: seq<Entry>)
    ensures NonIncreasing(SortDesc(s))
    decreases |s|
  {
    if s != [] {
      SortDescSorted(s[..|s| - 1]);
      InsertSorted(SortDesc(s[..|s| - 1]), s[|s| - 1]);
    }
  }

  /** Rows with equal clicks keep their fetched order. */
  lemma {:induction false} SortDescStable(s: seq<Entry>, c: int)
    ensures WithClicks(SortDesc(s), c) == WithClicks(s, c)
    decreases |s|
  {
    if s != [] {
      var s' := s[..|s| - 1];
      SortDescStable(s', c);
      InsertWithClicks(SortDesc(s'), s[|s| - 1], c);
    }
  }

  /** The array after one step of the in-place sort, as a sequence: the
      rows before j stay, the row taken from i sits at j and the rows from j
      to i - 1 move up by one. */
  lemma ShiftedIsInsert(before: seq<Entry>, after: seq<Entry>, i: nat, j: nat)
    requires j <= i < |before| == |after|
    requires forall k :: 0 <= k < j ==> after[k] == before[k]
    requires after[j] == before[i]
    requires forall k :: j < k <= i ==> after[k] == before[k - 1]
    requires forall k :: i < k < |before| ==> after[k] == before[k]
    requires forall k :: j <= k < i ==> before[k].clicks < before[i].clicks
    requires j == 0 || before[j - 1].clicks >= before[i].clicks
    ensures after[..i + 1] == Insert(before[..i], before[i])
    ensures after[i + 1..] == before[i + 1..]
  {
    var t := before[..i];
    InsertAt(t, before[i], j);
    var inserted := t[..j] + [before[i]] + t[j..];
    assert forall k :: 0 <= k <= i ==> after[k] == inserted[k];
    assert after[..i + 1] == inserted;
  }

  /** One step of the in-place sort: moves a[i] left past the rows with
      fewer clicks. */
  method InsertLast(a: array<Entry>, i: nat)
    requires i < a.Length
    modifies a
    ensures a[..i + 1] == Insert(old(a[..i]), old(a[i]))
    ensures a[i + 1..] == old(a[i + 1..])
  {
    ghost var before := a[..];
    var x := a[i];
    var j := i;
    while j > 0 && a[j - 1].clicks < x.clicks
      invariant 0 <= j <= i
      invariant forall k :: 0 <= k < j ==> a[k] == before[k]
      invariant forall k :: j < k <= i ==> a[k] == before[k - 1]
      invariant forall k :: j <= k < i ==> before[k].clicks < x.clicks
      invariant forall k :: i < k < a.Length ==> a[k] == before[k]
    {
      a[j] := a[j - 1];
      j := j - 1;
    }
    a[j] := x;
    ShiftedIsInsert(before, a[..], i, j);
  }

  /** `result.sort(...)`, in place on the array of rows. */
  method SortByClicks(a: array<Entry>)
    modifies a
    ensures a[..] == SortDesc(old(a[..]))
  {
    ghost var orig := a[..];
    var i := 0;
    while i < a.Length
      invariant 0 <= i <= a.Length
      invariant a[..i] == SortDesc(orig[..i])
      invariant a[i..] == orig[i..]
    {
      InsertLast(a, i);
      assert orig[..i + 1][..i] == orig[..i];
      assert orig[..i + 1] == orig[..i] + [orig[i]];
      i := i + 1;
    }
    assert orig[..a.Length] == orig;
  }

  /** The rows of the snapshot: the zipped arrays, sorted in place. */
  method BuildLeaderboard(addrs: seq<string>, clicks: seq<int>) returns (r: Option<seq<Entry>>)
    ensures r.Some? <==> |addrs| <= |clicks|
    ensures r.Some? ==> r.value == SortDesc(BuildEntries(addrs, clicks).value)
  {
    var rows := BuildEntries(addrs, clicks);
    if rows.None? {
      return None;
    }
    var a := new Entry[|rows.value|](i requires 0 <= i < |rows.value| => rows.value[i]);
    assert a[..] == rows.value;
    SortByClicks(a);
    r := Some(a[..]);
  }
}
