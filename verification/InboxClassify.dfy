/**
  Classification in the inbox assistant: reading the model's answer out of arbitrary text, spreading the
  rows over the pulled threads, drafting, and laying the items out on the brief.
 */
module InboxClassify {
  import opened Options
  import opened Collections

  datatype Category = JobReply | WaitingOnMe | NeedsYou | Fyi | Noise | Suspicious | Unclassified

  /** The categories a model may answer with. */
  predicate Answerable(c: Category) { !c.Suspicious? && !c.Unclassified? }

  /** A row as the model wrote it: anything may be missing or unknown. */
  datatype Claim = Claim(thread: Option<nat>, category: Option<Category>, worthy: bool)

  datatype Answer = Answer(category: Category, worthy: bool)

  type Rows = map<nat, Answer>

  // ---- _validate_rows ----------------------------------------------------------------------------

  /** The claim names a thread that was sent and a known category. */
  predicate Valid(c: Claim, known: set<nat>) {
    c.thread.Some? && c.thread.value in known && c.category.Some? && Answerable(c.category.value)
  }

  /** The first valid claim for a thread counts. */
  ghost predicate FirstFor(claims: seq<Claim>, known: set<nat>, t: nat, i: nat) {
    && i < |claims| && Valid(claims[i], known) && claims[i].thread == Some(t)
    && forall j :: 0 <= j < i ==> !(Valid(claims[j], known) && claims[j].thread == Some(t))
  }

  function ValidRows(claims: seq<Claim>, known: set<nat>): (rows: Rows)
    ensures rows.Keys <= known && forall t :: t in rows ==> Answerable(rows[t].category)
  {
    if claims == [] then map[]
    else
      var rows, c := ValidRows(claims[..|claims| - 1], known), claims[|claims| - 1];
      if Valid(c, known) && c.thread.value !in rows then rows[c.thread.value := Answer(c.category.value, c.worthy)] else rows
  }

  /** What the rows are: for each thread its first valid claim, and nothing else. */
  lemma {:induction false} RowsAreFirstClaims(claims: seq<Claim>, known: set<nat>, t: nat)
    ensures t in ValidRows(claims, known) <==> exists i: nat :: FirstFor(claims, known, t, i)
    ensures forall i: nat :: FirstFor(claims, known, t, i) ==>
              t in ValidRows(claims, known) && ValidRows(claims, known)[t] == Answer(claims[i].category.value, claims[i].worthy)
  {
    if claims != [] {
      var n := |claims| - 1;
      var init := claims[..n];
      RowsAreFirstClaims(init, known, t);
      FirstInPrefix(claims, known, t);
      if t in ValidRows(init, known) {
        var i: nat :| FirstFor(init, known, t, i);
        assert FirstFor(claims, known, t, i);
      } else if Valid(claims[n], known) && claims[n].thread == Some(t) {
        assert FirstFor(claims, known, t, n) by {
          forall j | 0 <= j < n
            ensures !(Valid(claims[j], known) && claims[j].thread == Some(t))
          {
            if Valid(init[j], known) && init[j].thread == Some(t) {
              FirstExists(init, known, t, j);
            }
          }
        }
      }
    }
  }

  lemma FirstInPrefix(claims: seq<Claim>, known: set<nat>, t: nat)
    requires claims != []
    ensures forall i: nat :: i < |claims| - 1 ==>
              (FirstFor(claims, known, t, i) <==> FirstFor(claims[..|claims| - 1], known, t, i))
  {
  }

  lemma {:induction false} FirstExists(claims: seq<Claim>, known: set<nat>, t: nat, j: nat)
    requires j < |claims| && Valid(claims[j], known) && claims[j].thread == Some(t)
    ensures exists i: nat :: i <= j && FirstFor(claims, known, t, i)
    decreases j
  {
    if i :| 0 <= i < j && Valid(claims[i], known) && claims[i].thread == Some(t) {
      FirstExists(claims, known, t, i);
    } else {
      assert FirstFor(claims, known, t, j);
    }
  }

  method ValidateRows(claims: seq<Claim>, known: set<nat>) returns (rows: Rows)
    ensures rows == ValidRows(claims, known)
  {
    rows := map[];
    for n := 0 to |claims|
      invariant rows == ValidRows(claims[..n], known)
    {
      var c := claims[n];
      assert claims[..n + 1][..n] == claims[..n];
      if Valid(c, known) && c.thread.value !in rows {
        rows := rows[c.thread.value := Answer(c.category.value, c.worthy)];
      }
    }
    assert claims[..|claims|] == claims;
  }

  // ---- parse_classification ----------------------------------------------------------------------

  const MAX_SCANNED: nat := 2000
  const MAX_CANDIDATES: nat := 50

  /** What a JSON decoder finds at a '[': a list and where it ends, some other value, or nothing. */
  datatype Decoded = List(claims: seq<Claim>, end: nat) | NotList | Malformed

  type Decoder = (string, nat) -> Decoded

  function NextBracket(raw: string, pos: nat): (i: nat)
    ensures i >= pos && (i < |raw| ==> raw[i] == '[')
    ensures forall k :: pos <= k < i && k < |raw| ==> raw[k] != '['
    decreases |raw| - pos
  {
    if pos < |raw| && raw[pos] != '[' then NextBracket(raw, pos + 1) else pos
  }

  predicate AllAnswerable(rows: Rows) { forall t :: t in rows ==> Answerable(rows[t].category) }

  /** The valid rows of the array at s, if there is one. */
  function RowsAt(raw: string, known: set<nat>, decode: Decoder, s: nat): (rows: Rows)
    ensures rows.Keys <= known && AllAnswerable(rows)
  {
    var d := decode(raw, s);
    if d.List? then ValidRows(d.claims, known) else map[]
  }

  /** `best` is the row set of the first stop with the most rows, if any stop has rows. */
  ghost predicate Largest(raw: string, known: set<nat>, decode: Decoder, stops: seq<nat>, best: Option<Rows>) {
    && (best.None? ==> forall s :: s in stops ==> RowsAt(raw, known, decode, s) == map[])
    && (best.Some? ==>
          && best.value != map[] && (exists j: nat :: FirstBest(raw, known, decode, stops, best.value, j))
          && forall s :: s in stops ==> |RowsAt(raw, known, decode, s)| <= |best.value|)
  }

  ghost predicate FirstBest(raw: string, known: set<nat>, decode: Decoder, stops: seq<nat>, rows: Rows, j: nat) {
    && j < |stops| && rows == RowsAt(raw, known, decode, stops[j])
    && forall i: nat :: i < j ==> |RowsAt(raw, known, decode, stops[i])| < |rows|
  }

  function Lists(raw: string, decode: Decoder, stops: seq<nat>): nat {
    if stops == [] then 0
    else Lists(raw, decode, stops[..|stops| - 1]) + if decode(raw, stops[|stops| - 1]).List? then 1 else 0
  }

  /** Within budget. */
  predicate Affordable(raw: string, decode: Decoder, stops: seq<nat>) {
    |stops| < MAX_SCANNED && Lists(raw, decode, stops) < MAX_CANDIDATES
  }

  /** Where the scan may go on after a stop: behind the array, if it gave rows. */
  function SkipTo(raw: string, known: set<nat>, decode: Decoder, s: nat): nat {
    if RowsAt(raw, known, decode, s) != map[] then decode(raw, s).end else 0
  }

  function GoOn(raw: string, known: set<nat>, decode: Decoder, i: nat): nat {
    if SkipTo(raw, known, decode, i) > i + 1 then SkipTo(raw, known, decode, i) else i + 1
  }

  /** No array that gave rows reaches beyond `pos`. */
  ghost predicate Passed(raw: string, known: set<nat>, decode: Decoder, stops: seq<nat>, pos: nat) {
    forall i :: 0 <= i < |stops| ==> SkipTo(raw, known, decode, stops[i]) <= pos
  }

  /** The scan went strictly forward over brackets and never into an array that gave rows, and every bracket before
      `pos` was a stop or lies in such an array. */
  ghost predicate Swept(raw: string, known: set<nat>, decode: Decoder, stops: seq<nat>, pos: nat) {
    && (forall i :: 0 <= i < |stops| ==> stops[i] < |raw| && stops[i] < pos && raw[stops[i]] == '[')
    && (forall i, j :: 0 <= i < j < |stops| ==> stops[i] < stops[j] && SkipTo(raw, known, decode, stops[i]) <= stops[j])
    && (forall k :: 0 <= k < pos && k < |raw| && raw[k] == '[' ==> k in stops || Inside(raw, known, decode, stops, k))
  }

  ghost predicate Inside(raw: string, known: set<nat>, decode: Decoder, stops: seq<nat>, k: nat) {
    exists s :: s in stops && s < k && RowsAt(raw, known, decode, s) != map[] && k < decode(raw, s).end
  }

  /** What the scan returns after it swept up to `pos` with these stops: the first complete answer at once; an
      incomplete one, or none, when the whole text was swept within budget; none when the budget was spent without
      a complete answer. */
  ghost predicate Outcome(raw: string, known: set<nat>, decode: Decoder, stops: seq<nat>, pos: nat, best: Option<Rows>) {
    && Swept(raw, known, decode, stops, pos)
    && if best.Some? && |best.value| == |known| then
         best.value != map[] && stops != [] && FirstBest(raw, known, decode, stops, best.value, |stops| - 1)
       else if Affordable(raw, decode, stops) then
         pos == |raw| && Largest(raw, known, decode, stops, best)
       else
         best.None? && NoneComplete(raw, known, decode, stops)
  }

  ghost predicate NoneComplete(raw: string, known: set<nat>, decode: Decoder, stops: seq<nat>) {
    forall s :: s in stops ==> RowsAt(raw, known, decode, s) == map[] || |RowsAt(raw, known, decode, s)| < |known|
  }

  function Better(best: Option<Rows>, rows: Rows): Option<Rows> {
    if rows != map[] && (best.None? || |rows| > |best.value|) then Some(rows) else best
  }

  /** Between two stops: nothing complete was found yet. */
  ghost predicate Scanning(raw: string, known: set<nat>, decode: Decoder, stops: seq<nat>, pos: nat, best: Option<Rows>) {
    && Largest(raw, known, decode, stops, best) && Swept(raw, known, decode, stops, pos) && Passed(raw, known, decode, stops, pos)
    && (best.Some? ==> best.value.Keys <= known && AllAnswerable(best.value) && |best.value| < |known|)
  }

  lemma {:induction false} NextStop(raw: string, known: set<nat>, decode: Decoder, stops: seq<nat>, pos: nat, best: Option<Rows>)
    requires Scanning(raw, known, decode, stops, pos, best) && NextBracket(raw, pos) < |raw|
    ensures var i := NextBracket(raw, pos);
            var next, rows := Better(best, RowsAt(raw, known, decode, i)), RowsAt(raw, known, decode, i);
            && Lists(raw, decode, stops + [i]) == Lists(raw, decode, stops) + (if decode(raw, i).List? then 1 else 0)
            && if next.Some? && |next.value| == |known| then next == Some(rows) && Outcome(raw, known, decode, stops + [i], i + 1, next)
               else Scanning(raw, known, decode, stops + [i], GoOn(raw, known, decode, i), next)
  {
    var i := NextBracket(raw, pos);
    StopCompares(raw, known, decode, stops, i, best);
    StopSweeps(raw, known, decode, stops, pos, i);
    RowsFit(RowsAt(raw, known, decode, i), known);
  }

  /** The best-candidate scan. */
  method ParseClassification(raw: string, known: set<nat>, decode: Decoder) returns (best: Option<Rows>)
    ensures exists stops: seq<nat>, pos: nat :: Outcome(raw, known, decode, stops, pos, best)
    ensures best.Some? ==> best.value.Keys <= known && AllAnswerable(best.value)
  {
    best := None;
    ghost var stops: seq<nat> := [];
    var pos: nat, scanned, candidates := 0, 0, 0;
    while scanned < MAX_SCANNED && candidates < MAX_CANDIDATES
      invariant scanned == |stops| && candidates == Lists(raw, decode, stops)
      invariant Scanning(raw, known, decode, stops, pos, best)
      decreases MAX_SCANNED - scanned
    {
      var i := NextBracket(raw, pos);
      if i >= |raw| {
        TextSwept(raw, known, decode, stops, pos, best);
        return;
      }
      NextStop(raw, known, decode, stops, pos, best);
      var list;
      best, pos, list := Look(raw, known, decode, i, best);
      scanned, stops := scanned + 1, stops + [i];
      if list {
        candidates := candidates + 1;
      }
      if best.Some? && |best.value| == |known| {
        return;
      }
    }
    BudgetSpent(raw, known, decode, stops, pos, best);
    best := None;
  }

  /** One bracket: whether a list is there, the better of its rows and the best so far, and where to go on. */
  method Look(raw: string, known: set<nat>, decode: Decoder, i: nat, best: Option<Rows>) returns (next: Option<Rows>, pos: nat, list: bool)
    ensures list == decode(raw, i).List? && next == Better(best, RowsAt(raw, known, decode, i)) && pos == GoOn(raw, known, decode, i)
  {
    var cand := decode(raw, i);
    next, pos, list := best, i + 1, cand.List?;
    if list {
      var rows := ValidateRows(cand.claims, known);
      if rows != map[] {
        if best.None? || |rows| > |best.value| {
          next := Some(rows);
        }
        pos := if cand.end > i + 1 then cand.end else i + 1;
      }
    }
  }

  lemma BudgetSpent(raw: string, known: set<nat>, decode: Decoder, stops: seq<nat>, pos: nat, best: Option<Rows>)
    requires Scanning(raw, known, decode, stops, pos, best) && !Affordable(raw, decode, stops)
    ensures Outcome(raw, known, decode, stops, pos, None)
  {
  }

  lemma TextSwept(raw: string, known: set<nat>, decode: Decoder, stops: seq<nat>, pos: nat, best: Option<Rows>)
    requires Swept(raw, known, decode, stops, pos) && NextBracket(raw, pos) >= |raw| && Affordable(raw, decode, stops)
    requires Largest(raw, known, decode, stops, best) && (best.Some? ==> |best.value| < |known|)
    ensures Outcome(raw, known, decode, stops, |raw|, best)
  {
    assert Swept(raw, known, decode, stops, |raw|);
  }

  lemma RowsFit(rows: Rows, known: set<nat>)
    requires rows.Keys <= known
    ensures |rows| <= |known|
  {
    SubsetSize(rows.Keys, known);
  }

  /** After the next bracket the sweep goes on behind it, or behind an array with rows found there. */
  lemma StopSweeps(raw: string, known: set<nat>, decode: Decoder, stops: seq<nat>, pos: nat, i: nat)
    requires Swept(raw, known, decode, stops, pos) && i == NextBracket(raw, pos) && i < |raw|
    requires Passed(raw, known, decode, stops, pos)
    ensures Swept(raw, known, decode, stops + [i], i + 1) && Swept(raw, known, decode, stops + [i], GoOn(raw, known, decode, i))
    ensures Passed(raw, known, decode, stops + [i], GoOn(raw, known, decode, i))
    ensures Lists(raw, decode, stops + [i]) == Lists(raw, decode, stops) + (if decode(raw, i).List? then 1 else 0)
  {
    assert (stops + [i])[..|stops|] == stops;
    SweepsTo(raw, known, decode, stops, pos, i, i + 1);
    SweepsTo(raw, known, decode, stops, pos, i, GoOn(raw, known, decode, i));
  }

  lemma SweepsTo(raw: string, known: set<nat>, decode: Decoder, stops: seq<nat>, pos: nat, i: nat, to: nat)
    requires Swept(raw, known, decode, stops, pos) && i == NextBracket(raw, pos) && i < |raw|
    requires Passed(raw, known, decode, stops, pos)
    requires to == i + 1 || (RowsAt(raw, known, decode, i) != map[] && i + 1 < to == decode(raw, i).end)
    ensures Swept(raw, known, decode, stops + [i], to)
  {
    var stops1 := stops + [i];
    forall k | 0 <= k < to && k < |raw| && raw[k] == '['
      ensures k in stops1 || Inside(raw, known, decode, stops1, k)
    {
      if k < pos {
        assert k in stops || Inside(raw, known, decode, stops, k);
        if k !in stops {
          var s :| s in stops && s < k && RowsAt(raw, known, decode, s) != map[] && k < decode(raw, s).end;
          assert s in stops1;
        }
      } else if k > i {
        assert i in stops1;
      }
    }
  }

  lemma StopCompares(raw: string, known: set<nat>, decode: Decoder, stops: seq<nat>, i: nat, best: Option<Rows>)
    requires Largest(raw, known, decode, stops, best)
    ensures var rows := RowsAt(raw, known, decode, i);
            Largest(raw, known, decode, stops + [i], if rows != map[] && (best.None? || |rows| > |best.value|) then Some(rows) else best)
    ensures var rows := RowsAt(raw, known, decode, i);
            rows != map[] && (best.None? || |rows| > |best.value|) ==> FirstBest(raw, known, decode, stops + [i], rows, |stops|)
  {
    var rows, stops1 := RowsAt(raw, known, decode, i), stops + [i];
    assert forall s :: s in stops1 <==> s in stops || s == i;
    if rows != map[] && (best.None? || |rows| > |best.value|) {
      forall k: nat | k < |stops|
        ensures |RowsAt(raw, known, decode, stops1[k])| < |rows|
      {
        assert stops1[k] in stops;
      }
      assert FirstBest(raw, known, decode, stops1, rows, |stops|);
    } else if best.Some? {
      var j: nat :| FirstBest(raw, known, decode, stops, best.value, j);
      assert FirstBest(raw, known, decode, stops1, best.value, j);
    }
  }
}
