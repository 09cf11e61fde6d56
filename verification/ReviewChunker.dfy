/**
  The review chunker: which stretch of an unreviewed range one dispatch should cover, under a budget of
  changed lines and a budget of patch bytes, when every measurement may fail and failures are retried.
 */
module ReviewChunker {
  import opened Options
  import opened Collections

  type Sha = nat

  const MAX_REVIEW_LINES: nat := 1500
  const MAX_REVIEW_BYTES: nat := 262144
  const CHUNK_WALK_CAP: nat := 200

  /** What git answers when base..commit is measured for the n-th time; None is a failed call. */
  type Gauge = (Sha, nat) -> Option<nat>

  /** The first answer among the first `tries` attempts. */
  function Known(g: Gauge, c: Sha, tries: nat): (r: Option<nat>)
    ensures r.Some? ==> exists k: nat :: k < tries && g(c, k) == r
    ensures r.None? ==> forall k: nat :: k < tries ==> g(c, k).None?
  {
    if tries == 0 then None
    else if Known(g, c, tries - 1).Some? then Known(g, c, tries - 1)
    else g(c, tries - 1)
  }

  lemma KnownEarly(g: Gauge, c: Sha)
    ensures Known(g, c, 1) == g(c, 0)
    ensures Known(g, c, 2) == if g(c, 0).Some? then g(c, 0) else g(c, 1)
  {
  }

  /** A per-tick memo dictionary: an answer is cached, a failure is not.  `asked` counts the calls to git. */
  class Memo {
    const gauge: Gauge
    var known: map<Sha, nat>
    var asked: map<Sha, nat>

    function Tries(c: Sha): nat
      reads this
    {
      if c in asked then asked[c] else 0
    }

    function Cached(c: Sha): Option<nat>
      reads this
    {
      if c in known then Some(known[c]) else None
    }

    ghost predicate Valid()
      reads this
    {
      forall c: Sha :: Cached(c) == Known(gauge, c, Tries(c))
    }

    constructor (g: Gauge)
      ensures Valid() && gauge == g && forall c: Sha :: Tries(c) == 0
    {
      gauge, known, asked := g, map[], map[];
    }

    method Get(c: Sha) returns (r: Option<nat>)
      requires Valid()
      modifies this
      ensures Valid()
      ensures Tries(c) == if Known(gauge, c, old(Tries(c))).Some? then old(Tries(c)) else old(Tries(c)) + 1
      ensures r == Known(gauge, c, Tries(c))
      ensures forall x: Sha :: x != c ==> Tries(x) == old(Tries(x))
    {
      assert Cached(c) == Known(gauge, c, Tries(c));
      if c in known {
        return Some(known[c]);
      }
      r := gauge(c, Tries(c));
      asked := asked[c := Tries(c) + 1];
      if r.Some? {
        known := known[c := r.value];
      }
      forall x: Sha
        ensures Cached(x) == Known(gauge, x, Tries(x))
      {
        assert x != c ==> old(Cached(x)) == Known(gauge, x, old(Tries(x)));
      }
    }
  }

  /** The verdict; -1 stands for a size nobody knows. */
  datatype Choice =
    | Dispatch(sha: Sha, lines: int, bytes: int)
    | Advance(sha: Sha, lines: int, bytes: int)
    | Defer(sha: Sha, lines: int, bytes: int)

  predicate Fits(lines: int, bytes: int) {
    lines <= MAX_REVIEW_LINES && bytes <= MAX_REVIEW_BYTES
  }

  // ---- what the verdict means, in terms of the first and second measurement of each commit ---------

  datatype Range = Range(head: Sha, walk: Option<seq<Sha>>, lines: Gauge, bytes: Gauge)

  predicate Is(o: Option<nat>, n: int) { o.Some? && o.value == n }

  predicate Measured(q: Range, c: Sha, n: int, b: int) {
    Is(q.lines(c, 0), n) && Is(q.bytes(c, 0), b)
  }

  /** Measured at the first attempt, and within both budgets. */
  predicate SeenToFit(q: Range, c: Sha) {
    q.lines(c, 0).Some? && q.bytes(c, 0).Some? && Fits(q.lines(c, 0).value, q.bytes(c, 0).value)
  }

  /** The whole range is known to break a budget. */
  predicate TooBig(q: Range) {
    q.lines(q.head, 0).Some? && !SeenToFit(q, q.head)
    && (q.bytes(q.head, 0).Some? || q.lines(q.head, 0).value > MAX_REVIEW_LINES)
  }

  /** The i-th commit of the walk is a dispatchable proper prefix. */
  predicate Candidate(q: Range, i: nat)
    requires q.walk.Some? && i < |q.walk.value|
  {
    var c := q.walk.value[i];
    i < CHUNK_WALK_CAP && c != q.head && SeenToFit(q, c) && q.bytes(c, 0) != Some(0)
  }

  ghost predicate NoCandidateFrom(q: Range, i: int)
    requires q.walk.Some?
  {
    forall j: nat :: i <= j < |q.walk.value| ==> !Candidate(q, j)
  }

  /** The walk tried to measure the bytes of its first commit. */
  predicate BytesTried(q: Range, first: Sha) {
    first == q.head || (q.lines(first, 0).Some? && q.lines(first, 0).value <= MAX_REVIEW_LINES)
  }

  /** The sizes the fallback on the first commit works with: a failed measurement is repeated once. */
  function FirstLines(q: Range, first: Sha): Option<nat> {
    Known(q.lines, first, 2)
  }

  function FirstBytes(q: Range, first: Sha): Option<nat> {
    Known(q.bytes, first, if BytesTried(q, first) then 2 else 1)
  }

  predicate CanAdvance(q: Range)
    requires q.walk.Some?
  {
    var w := q.walk.value;
    w == [] || (FirstLines(q, w[0]).Some? && FirstBytes(q, w[0]).Some?)
  }

  /** The chunker's whole contract. */
  ghost predicate Chosen(q: Range, r: Choice) {
    match r
    case Dispatch(c, n, b) =>
      Measured(q, c, n, b) && Fits(n, b) &&
      if c == q.head then true
      else TooBig(q) && q.walk.Some? && exists i: nat ::
             i < |q.walk.value| && q.walk.value[i] == c && Candidate(q, i) && NoCandidateFrom(q, i + 1)
    case Advance(c, n, b) =>
      TooBig(q) && q.walk.Some? && NoCandidateFrom(q, 0) && CanAdvance(q) &&
      if q.walk.value == [] then
        c == q.head && Is(q.lines(c, 0), n) && (if b == -1 then q.bytes(c, 0).None? else Is(q.bytes(c, 0), b))
      else
        c == q.walk.value[0] &&
        if FirstBytes(q, c) == Some(0) then n == b == 0 else Is(FirstLines(q, c), n) && Is(FirstBytes(q, c), b)
    case Defer(_, _, _) =>
      !SeenToFit(q, q.head)
      && (TooBig(q) && q.walk.Some? ==> NoCandidateFrom(q, 0) && !CanAdvance(q))
  }

  /** _choose_review_target. */
  method ChooseReviewTarget(q: Range) returns (r: Choice)
    requires q.walk.Some? ==> NoDup(q.walk.value)
    ensures Chosen(q, r)
  {
    var dl := new Memo(q.lines);
    var db := new Memo(q.bytes);
    var total_l := dl.Get(q.head);
    if total_l.None? {
      return Defer(q.head, -1, -1);
    }
    var total_b := db.Get(q.head);
    if total_b.Some? && Fits(total_l.value, total_b.value) {
      return Dispatch(q.head, total_l.value, total_b.value);
    }
    if total_b.None? && total_l.value <= MAX_REVIEW_LINES {
      return Defer(q.head, total_l.value, -1);
    }
    if q.walk.None? {
      return Defer(q.head, -1, -1);
    }
    var commits := q.walk.value;
    if commits == [] {
      return Advance(q.head, total_l.value, if total_b.None? then -1 else total_b.value);
    }
    var best;
    ghost var at;
    best, at := Walk(q, dl, db);
    BestIsChosen(q, at, best);
    if best.Some? {
      return best.value;
    }
    r := FallBack(q, dl, db);
  }

  /** No prefix can be dispatched: skip the first commit, unless its size is still unknown. */
  method FallBack(q: Range, dl: Memo, db: Memo) returns (r: Choice)
    requires q.walk.Some? && q.walk.value != [] && TooBig(q) && NoCandidateFrom(q, 0)
    requires dl != db && dl.Valid() && db.Valid() && dl.gauge == q.lines && db.gauge == q.bytes
    requires dl.Tries(q.walk.value[0]) == 1 && db.Tries(q.walk.value[0]) == if BytesTried(q, q.walk.value[0]) then 1 else 0
    modifies dl, db
    ensures Chosen(q, r)
  {
    var first := q.walk.value[0];
    var n_first := dl.Get(first);
    var b_first := db.Get(first);
    KnownEarly(q.lines, first);
    KnownEarly(q.bytes, first);
    if n_first.None? || b_first.None? {
      return Defer(first, -1, -1);
    }
    if b_first.value == 0 {
      return Advance(first, 0, 0);
    }
    return Advance(first, n_first.value, b_first.value);
  }

  /** How many commits the walk looks at. */
  function Reach(q: Range): (n: nat)
    requires q.walk.Some?
    ensures n <= |q.walk.value| && n <= CHUNK_WALK_CAP && (n == |q.walk.value| || n == CHUNK_WALK_CAP)
  {
    if |q.walk.value| <= CHUNK_WALK_CAP then |q.walk.value| else CHUNK_WALK_CAP
  }

  predicate IsCandidate(q: Range, i: nat, d: Choice)
    requires q.walk.Some? && i < |q.walk.value|
  {
    d.Dispatch? && d.sha == q.walk.value[i] && Candidate(q, i) && Measured(q, d.sha, d.lines, d.bytes)
  }

  /** How often each commit has been measured when the walk stands before its i-th commit. */
  ghost predicate Measurements(q: Range, dl: Memo, db: Memo, i: nat)
    requires q.walk.Some? && i <= |q.walk.value|
    reads dl, db
  {
    && dl.Tries(q.head) == 1 && db.Tries(q.head) == 1
    && forall j: nat :: j < |q.walk.value| && q.walk.value[j] != q.head ==>
         var c := q.walk.value[j];
         dl.Tries(c) == (if j < i then 1 else 0) && db.Tries(c) == (if j < i && BytesTried(q, c) then 1 else 0)
  }

  /** `best` is the last candidate among the first `n` commits. */
  ghost predicate BestOf(q: Range, n: nat, at: nat, best: Option<Choice>)
    requires q.walk.Some? && n <= |q.walk.value|
  {
    && (best.Some? ==> at < n && IsCandidate(q, at, best.value))
    && forall j: nat :: j < n && (best.Some? ==> at < j) ==> !Candidate(q, j)
  }

  lemma BestIsChosen(q: Range, at: nat, best: Option<Choice>)
    requires q.walk.Some? && TooBig(q) && BestOf(q, Reach(q), at, best)
    ensures if best.Some? then Chosen(q, best.value) else NoCandidateFrom(q, 0)
  {
    if best.Some? {
      assert q.walk.value[at] == best.value.sha && NoCandidateFrom(q, at + 1);
    }
  }

  /** The walk: every prefix within the cap is measured, and the last one that fits wins. */
  method Walk(q: Range, dl: Memo, db: Memo) returns (best: Option<Choice>, ghost at: nat)
    requires q.walk.Some? && NoDup(q.walk.value) && dl != db
    requires dl.Valid() && db.Valid() && dl.gauge == q.lines && db.gauge == q.bytes
    requires Measurements(q, dl, db, 0)
    modifies dl, db
    ensures BestOf(q, Reach(q), at, best)
    ensures dl.Valid() && db.Valid() && Measurements(q, dl, db, Reach(q))
  {
    best, at := None, 0;
    for i := 0 to Reach(q)
      invariant dl.Valid() && db.Valid() && Measurements(q, dl, db, i)
      invariant BestOf(q, i, at, best)
    {
      if q.walk.value[i] != q.head {
        var found := Measure(q, dl, db, i);
        if found.Some? {
          best, at := found, i;
        }
      }
    }
  }

  /** One stop of the walk: bytes are measured only when the lines fit. */
  method Measure(q: Range, dl: Memo, db: Memo, i: nat) returns (found: Option<Choice>)
    requires q.walk.Some? && i < Reach(q) && NoDup(q.walk.value) && q.walk.value[i] != q.head && dl != db
    requires dl.Valid() && db.Valid() && dl.gauge == q.lines && db.gauge == q.bytes
    requires Measurements(q, dl, db, i)
    modifies dl, db
    ensures found.Some? <==> Candidate(q, i)
    ensures found.Some? ==> IsCandidate(q, i, found.value)
    ensures dl.Valid() && db.Valid() && Measurements(q, dl, db, i + 1)
  {
    var c := q.walk.value[i];
    KnownEarly(q.lines, c);
    KnownEarly(q.bytes, c);
    var n := dl.Get(c);
    if n.None? || n.value > MAX_REVIEW_LINES {
      return None;
    }
    var b := db.Get(c);
    if b.None? || b.value == 0 || b.value > MAX_REVIEW_BYTES {
      return None;
    }
    return Some(Dispatch(c, n.value, b.value));
  }

  /** The contract leaves no choice: apart from the numbers a deferral quotes, the verdict is determined. */
  lemma VerdictIsDetermined(q: Range, r1: Choice, r2: Choice)
    requires (q.walk.Some? ==> NoDup(q.walk.value)) && Chosen(q, r1) && Chosen(q, r2)
    ensures r1 == r2 || (r1.Defer? && r2.Defer?)
  {
    if r1.Dispatch? && r2.Dispatch? && r1.sha != q.head && r2.sha != q.head {
      var i: nat :| i < |q.walk.value| && q.walk.value[i] == r1.sha && Candidate(q, i) && NoCandidateFrom(q, i + 1);
      var j: nat :| j < |q.walk.value| && q.walk.value[j] == r2.sha && Candidate(q, j) && NoCandidateFrom(q, j + 1);
      assert i == j;
    }
  }

  // ---- what the verdict is worth -------------------------------------------------------------------

  /** A measurement that succeeds is right. */
  ghost predicate Truthful(q: Range, lines: Sha -> nat, bytes: Sha -> nat) {
    forall c: Sha, k: nat ::
      && (q.lines(c, k).Some? ==> q.lines(c, k).value == lines(c))
      && (q.bytes(c, k).Some? ==> q.bytes(c, k).value == bytes(c))
  }

  /** An advance is right when the range it skips is over a budget, or empty. */
  predicate MaySkip(lines: nat, bytes: nat) {
    !Fits(lines, bytes) || bytes == 0
  }

  /** The walk could not measure its first commit, which is not the whole range. */
  predicate FirstUnmeasured(q: Range) {
    q.walk.Some? && q.walk.value != [] && q.walk.value[0] != q.head &&
    var first := q.walk.value[0];
    q.lines(first, 0).None? || (q.lines(first, 0).value <= MAX_REVIEW_LINES && q.bytes(first, 0).None?)
  }

  /** A range is skipped rightly, except exactly when the first commit could not be measured in the walk,
      was measured when the fallback asked again, and then turned out to be reviewable. */
  lemma AdvanceExactly(q: Range, r: Choice, lines: Sha -> nat, bytes: Sha -> nat)
    requires Truthful(q, lines, bytes) && Chosen(q, r) && r.Advance?
    ensures MaySkip(lines(r.sha), bytes(r.sha)) <==>
            !(FirstUnmeasured(q) && Fits(lines(q.walk.value[0]), bytes(q.walk.value[0])) && bytes(q.walk.value[0]) > 0)
    ensures r.bytes != 0 ==>
              r.lines == lines(r.sha) && (r.bytes == bytes(r.sha) || (r.bytes == -1 && r.lines > MAX_REVIEW_LINES))
    ensures r.bytes == 0 ==> bytes(r.sha) == 0
  {
    if q.walk.value != [] {
      var first := q.walk.value[0];
      KnownEarly(q.lines, first);
      KnownEarly(q.bytes, first);
      assert !Candidate(q, 0);
    }
  }

  /** Sizing is stable when a measurement that fails keeps failing within the tick. */
  ghost predicate Stable(q: Range) {
    forall c: Sha :: (q.lines(c, 0).None? ==> q.lines(c, 1).None?) && (q.bytes(c, 0).None? ==> q.bytes(c, 1).None?)
  }

  /** Under stable sizing nothing reviewable is ever skipped. */
  lemma StableAdvance(q: Range, r: Choice, lines: Sha -> nat, bytes: Sha -> nat)
    requires Truthful(q, lines, bytes) && Stable(q) && Chosen(q, r) && r.Advance?
    ensures MaySkip(lines(r.sha), bytes(r.sha))
  {
    AdvanceExactly(q, r, lines, bytes);
    if FirstUnmeasured(q) {
      KnownEarly(q.lines, q.walk.value[0]);
      KnownEarly(q.bytes, q.walk.value[0]);
    }
  }

  /** When nothing fails, the verdict is the whole range if it fits, else the last non-empty fitting prefix of
      the first CHUNK_WALK_CAP commits, else a skip of the first commit. */
  lemma WhenNothingFails(q: Range, r: Choice, lines: Sha -> nat, bytes: Sha -> nat)
    requires Truthful(q, lines, bytes) && Chosen(q, r) && q.walk.Some?
    requires forall c: Sha :: q.lines(c, 0).Some? && q.bytes(c, 0).Some?
    ensures !r.Defer?
    ensures r.Dispatch? && r.sha == q.head <==> Fits(lines(q.head), bytes(q.head))
    ensures r.Dispatch? && r.sha != q.head ==>
              exists i: nat :: i < Reach(q) && q.walk.value[i] == r.sha && Reviewable(q, lines, bytes, i)
                && forall j: nat :: i < j < Reach(q) ==> !Reviewable(q, lines, bytes, j)
    ensures r.Advance? <==> !Fits(lines(q.head), bytes(q.head)) && forall j: nat :: j < Reach(q) ==>
              !Reviewable(q, lines, bytes, j)
  {
    if q.walk.value != [] {
      KnownEarly(q.lines, q.walk.value[0]);
      KnownEarly(q.bytes, q.walk.value[0]);
    }
    forall j: nat | j < Reach(q)
      ensures Reviewable(q, lines, bytes, j) <==> Candidate(q, j)
    {
    }
  }

  predicate Reviewable(q: Range, lines: Sha -> nat, bytes: Sha -> nat, i: nat)
    requires q.walk.Some? && i < Reach(q)
  {
    var c := q.walk.value[i];
    c != q.head && Fits(lines(c), bytes(c)) && bytes(c) > 0
  }

  /** The exception is real: a small commit is skipped when its first measurement fails and the second works. */
  lemma HealedSizingSkips() returns (q: Range, r: Choice, lines: Sha -> nat, bytes: Sha -> nat)
    ensures Truthful(q, lines, bytes) && Chosen(q, r) && r == Advance(1, 10, 400)
    ensures Fits(lines(1), bytes(1)) && bytes(1) > 0
  {
    lines := c => if c == 1 then 10 else 5000;
    bytes := c => if c == 1 then 400 else 90000;
    q := Range(2, Some([1, 2]),
               (c: Sha, k: nat) => if c == 1 && k == 0 then None else Some(if c == 1 then 10 else 5000),
               (c: Sha, k: nat) => Some(if c == 1 then 400 else 90000));
    r := Advance(1, 10, 400);
    KnownEarly(q.lines, 1);
    KnownEarly(q.bytes, 1);
  }
}
