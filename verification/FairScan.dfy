/**
  The fairness cursor of the ready scan.  Ready rows are read in fingerprint order after the
  persisted cursor, a page at a time, wrapping when the tail is empty; a tick visits a prefix of the
  page and moves the cursor to the last row it visited.
 */
module FairScan {
  import opened Collections
  import opened ProposerWorld

  const LIMIT: nat := 100

  ghost predicate Ascending(s: seq<Fp>) {
    forall i, j :: 0 <= i < j < |s| ==> s[i] < s[j]
  }

  /** The first LIMIT ready rows above `after`. */
  ghost predicate IsPage(ready: set<Fp>, after: int, page: seq<Fp>) {
    && Ascending(page)
    && (forall x :: x in page ==> x in ready && x > after)
    && (forall x :: x in ready && x > after && x !in page ==> |page| == LIMIT && page[LIMIT - 1] < x)
  }

  predicate Tail(ready: set<Fp>, cursor: int) {
    exists x :: x in ready && x > cursor
  }

  ghost predicate IsBatch(ready: set<Fp>, cursor: int, batch: seq<Fp>) {
    IsPage(ready, if Tail(ready, cursor) then cursor else -1, batch)
  }

  /** What one tick does to the cursor: it stops somewhere in the batch, but not before the first row. */
  ghost predicate Visits(ready: set<Fp>, cursor: int, batch: seq<Fp>, seen: seq<Fp>, next: int) {
    && IsBatch(ready, cursor, batch)
    && |seen| <= |batch| && seen == batch[..|seen|]
    && (batch != [] ==> seen != [])
    && next == if seen == [] then cursor else seen[|seen| - 1]
  }

  function Least(s: set<Fp>): (m: Fp)
    requires s != {}
    ensures m in s && forall x :: x in s ==> m <= x
  {
    LeastExists(s);
    var m :| m in s && forall x :: x in s ==> m <= x;
    m
  }

  lemma LeastExists(s: set<Fp>)
    requires s != {}
    ensures exists m :: m in s && forall x :: x in s ==> m <= x
  {
    var x :| x in s;
    LeastBelow(s, x);
  }

  lemma LeastBelow(s: set<Fp>, x: Fp)
    requires x in s
    ensures exists m :: m in s && forall y :: y in s ==> m <= y
    decreases x
  {
    if y :| y in s && y < x {
      LeastBelow(s, y);
    } else {
      assert x in s && forall y :: y in s ==> x <= y;
    }
  }

  /** list_ready_candidates: the `limit` least members in order. */
  function LeastFirst(s: set<Fp>, limit: nat): (page: seq<Fp>)
    ensures Ascending(page) && (forall x :: x in page ==> x in s)
    ensures forall x :: x in s && x !in page ==> |page| == limit && (limit > 0 ==> page[limit - 1] < x)
    decreases limit
  {
    if s == {} || limit == 0 then []
    else
      var m := Least(s);
      var rest := LeastFirst(s - {m}, limit - 1);
      LeastAhead(s, m, rest, limit);
      [m] + rest
  }

  lemma LeastAhead(s: set<Fp>, m: Fp, rest: seq<Fp>, limit: nat)
    requires m in s && limit > 0 && (forall x :: x in s ==> m <= x) && Ascending(rest) && (forall x :: x in rest ==> x in s - {m})
    requires forall x :: x in s - {m} && x !in rest ==> |rest| == limit - 1 && (limit > 1 ==> rest[limit - 2] < x)
    ensures Ascending([m] + rest) && forall x :: x in [m] + rest ==> x in s
    ensures forall x :: x in s && x !in [m] + rest ==> |[m] + rest| == limit && ([m] + rest)[limit - 1] < x
  {
    var page := [m] + rest;
    forall i, j | 0 <= i < j < |page|
      ensures page[i] < page[j]
    {
      assert page[j] == rest[j - 1] && rest[j - 1] in rest;
    }
    forall x | x in s && x !in page
      ensures |page| == limit && page[limit - 1] < x
    {
      assert x != page[0] && x in s - {m} && x !in rest;
    }
  }

  method ListReady(ready: set<Fp>, cursor: int) returns (batch: seq<Fp>)
    ensures IsBatch(ready, cursor, batch)
  {
    var tail := set x | x in ready && x > cursor;
    batch := LeastFirst(tail, LIMIT);
    assert forall x :: x in ready && x > cursor ==> x in tail;
    if batch == [] {
      batch := LeastFirst(ready, LIMIT);
    } else {
      assert batch[0] in tail;
    }
  }

  /** The ready rows from the cursor up to `r`, in cyclic order. */
  function Ahead(ready: set<Fp>, cursor: int, r: Fp): set<Fp> {
    set x | x in ready && (if cursor < r then cursor < x <= r else x > cursor || x <= r)
  }

  lemma RowIsAhead(ready: set<Fp>, cursor: int, r: Fp)
    requires r in ready
    ensures |Ahead(ready, cursor, r)| >= 1
  {
    assert r in Ahead(ready, cursor, r);
  }

  /** A tick that does not reach `r` passes at least one row before it and never passes `r`. */
  lemma CloserToRow(ready: set<Fp>, cursor: int, batch: seq<Fp>, seen: seq<Fp>, next: int, later: set<Fp>, r: Fp)
    requires Visits(ready, cursor, batch, seen, next) && r in ready && r !in seen && later <= ready
    ensures |Ahead(later, next, r)| < |Ahead(ready, cursor, r)|
  {
    var from := if Tail(ready, cursor) then cursor else -1;
    assert batch != [] by {
      assert Tail(ready, cursor) || r > from;
    }
    assert seen[0] == batch[0] && next == batch[|seen| - 1];
    assert batch[0] in batch;
    if from < r {
      assert forall j :: 0 <= j < |seen| ==> batch[j] == seen[j] && seen[j] in seen;
      if r in batch {
        var k :| 0 <= k < |batch| && batch[k] == r;
        assert |seen| - 1 < k;
      }
    }
    assert Ahead(later, next, r) <= Ahead(ready, cursor, r) - {seen[0]};
    assert seen[0] in Ahead(ready, cursor, r);
    SubsetSize(Ahead(later, next, r), Ahead(ready, cursor, r) - {seen[0]});
  }

  datatype Scan = Scan(ready: set<Fp>, cursor: int, batch: seq<Fp>, seen: seq<Fp>)

  /** Consecutive ticks in which ready rows only leave. */
  ghost predicate Ticks(ts: seq<Scan>) {
    && (forall t :: 0 <= t < |ts| ==>
         exists next :: Visits(ts[t].ready, ts[t].cursor, ts[t].batch, ts[t].seen, next)
                     && (t + 1 < |ts| ==> next == ts[t + 1].cursor))
    && (forall t :: 0 <= t < |ts| - 1 ==> ts[t + 1].ready <= ts[t].ready)
  }

  lemma {:induction false} StillAhead(ts: seq<Scan>, r: Fp, k: nat)
    requires Ticks(ts) && k < |ts|
    requires forall t :: 0 <= t < |ts| ==> r in ts[t].ready
    requires forall t :: 0 <= t < k ==> r !in ts[t].seen
    ensures |Ahead(ts[k].ready, ts[k].cursor, r)| + k <= |ts[0].ready|
  {
    if k == 0 {
      SubsetSize(Ahead(ts[0].ready, ts[0].cursor, r), ts[0].ready);
    } else {
      var s := ts[k - 1];
      StillAhead(ts, r, k - 1);
      assert ts[k - 1 + 1].ready <= s.ready;
      CloserToRow(s.ready, s.cursor, s.batch, s.seen, ts[k].cursor, ts[k].ready, r);
    }
  }

  /** Fair scan: a row that stays ready is visited within as many ticks as there were ready rows. */
  lemma FairlyVisited(ts: seq<Scan>, r: Fp)
    requires Ticks(ts) && |ts| >= 1 && |ts| == |ts[0].ready|
    requires forall t :: 0 <= t < |ts| ==> r in ts[t].ready
    ensures exists t :: 0 <= t < |ts| && r in ts[t].seen
  {
    if forall t :: 0 <= t < |ts| ==> r !in ts[t].seen {
      var k := |ts| - 1;
      StillAhead(ts, r, k);
      var s := ts[k];
      var next :| Visits(s.ready, s.cursor, s.batch, s.seen, next);
      RowIsAhead(s.ready, next, r);
      CloserToRow(s.ready, s.cursor, s.batch, s.seen, next, s.ready, r);
    }
  }
}
