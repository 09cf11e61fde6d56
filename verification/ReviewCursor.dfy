/**
  The review cursor: a level-triggered reconciler over a ledger row, review workers that deliver or die on
  their own time, and a human.  Commits are numbered in the order in which the watched branch gained them,
  and the history only grows.
 */
module ReviewCursor {
  import opened Options
  import opened Collections
  import opened ReviewChunker

  const MAX_ATTEMPTS: nat := 3
  const MAX_DISPATCH_PER_TICK: nat := 3

  // ---- the ledger verbs ----------------------------------------------------------------------------

  datatype State = Baseline | Dispatching | Blocked | Settled

  /** The cursor row; `stale`: the pending claim is older than PENDING_STALE. */
  datatype Row = Row(baseline: Sha, reviewed: Sha, pending: Option<Sha>, state: State, attempts: nat, stale: bool)

  /** claim_dispatch: idle, blocked on another commit, or a dead dispatch. */
  predicate CanClaim(r: Row, t: Sha) {
    r.reviewed != t && !(r.state.Blocked? && r.pending == Some(t))
    && (r.pending.None? || r.state.Blocked? || r.stale)
  }

  function Claimed(r: Row, t: Sha): Row {
    r.(pending := Some(t), state := Dispatching, attempts := if r.pending == Some(t) then r.attempts + 1 else 1, stale := false)
  }

  predicate CanRelease(r: Row, t: Sha) { r.pending == Some(t) && r.state.Dispatching? }

  predicate CanForgive(r: Row, t: Sha) { r.pending == Some(t) && (r.state.Dispatching? || r.state.Blocked?) }

  function Forgiven(r: Row): Row {
    r.(stale := true, attempts := if r.attempts > 0 then r.attempts - 1 else 0, state := Dispatching)
  }

  predicate CanBlock(r: Row, t: Sha) { r.pending == Some(t) && r.attempts >= MAX_ATTEMPTS && r.state.Dispatching? }

  /** advance_cursor and skip_to. */
  function MovedTo(r: Row, t: Sha): Row {
    r.(reviewed := t, pending := None, state := Settled, attempts := 0, stale := false)
  }

  /** A forgiven attempt does not count: the next claim of the same target leaves the count where it was. */
  lemma ForgiveRefunds(r: Row, t: Sha)
    requires CanForgive(r, t) && r.reviewed != t
    ensures CanClaim(Forgiven(r), t)
    ensures Claimed(Forgiven(r), t) == r.(pending := Some(t), state := Dispatching, stale := false, attempts := if r.attempts > 0 then r.attempts else 1)
  {
  }

  /** One claim at a time: nothing can be claimed until the claim is given up, goes stale, or is moved over; and each
      further claim of the same target counts. */
  lemma ClaimFences(r: Row, t: Sha, u: Sha)
    requires CanClaim(r, t)
    ensures var c := Claimed(r, t);
            && !CanClaim(c, u) && c.pending == Some(t) && c.reviewed == r.reviewed && CanRelease(c, t)
            && (CanClaim(c.(stale := true), u) <==> u != r.reviewed)
            && Claimed(c.(stale := true), t).attempts == c.attempts + 1
            && (u != t ==> Claimed(c.(stale := true), u).attempts == 1)
  {
  }

  /** Three failed dispatches block a target that was new: it cannot be claimed again, any other can. */
  lemma ThreeStrikes(r: Row, t: Sha, u: Sha)
    requires r.pending != Some(t) && r.reviewed != t && u != r.reviewed
    ensures var one := Claimed(r, t);
            var two := Claimed(one.(stale := true), t);
            var three := Claimed(two.(stale := true), t);
            && one.attempts == 1 && two.attempts == 2 && three.attempts == MAX_ATTEMPTS
            && !CanBlock(one, t) && !CanBlock(two, t) && CanBlock(three, t)
            && var blocked := three.(state := Blocked, stale := true);
               (CanClaim(blocked, u) <==> u != t) && (u != t ==> Claimed(blocked, u).attempts == 1)
  {
  }

  /** A move leaves nothing pending: whatever comes next may be claimed, and starts a new count. */
  lemma MoveResets(r: Row, t: Sha, u: Sha)
    ensures var m := MovedTo(r, t);
            m.reviewed == t && m.pending.None? && m.attempts == 0 && m.baseline == r.baseline
            && (CanClaim(m, u) <==> u != t) && Claimed(m, u).attempts == 1
  {
  }

  // ---- the world -----------------------------------------------------------------------------------

  datatype Review = Review(base: Sha, target: Sha)

  /** Why the cursor moved: a delivered review that began at `base`, a range without a net diff, a range
      reported to the human, or a range whose measurement failed and then healed within the tick. */
  datatype Cause = Delivery(base: Sha) | EmptyDiff | Flagged | Healed

  datatype Link = Link(from: Sha, to: Sha, cause: Cause)

  /**
    tip        the newest commit
    sent       reviews a worker was started for;  delivered: those whose verdict reached the inbox
    done       done markers, each with the base of the review that left it
    transient  transient-abort markers
    alerts     ranges durably reported as skipped without review
    healed     reviewable ranges whose measurement failed and then worked within one tick
    links      the moves of the cursor
   */
  datatype World = World(tip: Sha, row: Option<Row>, sent: set<Review>, delivered: set<Review>, done: map<Sha, Sha>,
                         transient: set<Sha>, alerts: set<Review>, healed: set<Review>, links: seq<Link>)

  /** The true sizes of diffs. */
  datatype Diffs = Diffs(lines: (Sha, Sha) -> nat, bytes: (Sha, Sha) -> nat)

  predicate WithinBudget(d: Diffs, v: Review) {
    Fits(d.lines(v.base, v.target), d.bytes(v.base, v.target))
  }

  datatype Action =
    | Push(tip: Sha) | Deliver(v: Review) | Abort(t: Sha) | Prune(t: Sha) | Age | HumanClears
    | Seed(head: Sha) | Claim(t: Sha) | Release(t: Sha) | Consume(t: Sha) | Forgive(t: Sha) | Block(t: Sha)
    | Send(v: Review) | Alert(v: Review) | Notice(v: Review) | MoveTo(l: Link)

  /** Actions of the remote, the workers, the clock and the human. */
  predicate Outside(a: Action) {
    a.Push? || a.Deliver? || a.Abort? || a.Prune? || a.Age? || a.HumanClears?
  }

  /** What a move of the cursor rests on at the moment it is made. */
  predicate Grounds(d: Diffs, w: World, l: Link) {
    match l.cause
    case Delivery(b) => w.row.Some? && w.row.value.pending == Some(l.to) && Review(b, l.to) in w.delivered
    case EmptyDiff => d.bytes(l.from, l.to) == 0
    case Flagged => Review(l.from, l.to) in w.alerts && !WithinBudget(d, Review(l.from, l.to))
    case Healed => Review(l.from, l.to) in w.healed
  }

  predicate Enabled(d: Diffs, w: World, a: Action) {
    match a
    case Push(tip) => w.tip <= tip
    case Deliver(v) => v in w.sent
    case Abort(_) => true
    case Prune(_) => true
    case Age => true
    case HumanClears => w.row.Some?
    case Seed(head) => w.row.None? && head <= w.tip
    case Claim(t) =>
      w.row.Some? && CanClaim(w.row.value, t) && w.row.value.reviewed < t <= w.tip
      && (w.row.value.pending == Some(t) ==> w.row.value.attempts < MAX_ATTEMPTS)
    case Release(t) => w.row.Some? && CanRelease(w.row.value, t)
    case Consume(t) => t in w.transient
    case Forgive(t) => w.row.Some? && CanForgive(w.row.value, t)
    case Block(t) => w.row.Some? && CanBlock(w.row.value, t)
    case Send(v) => w.row.Some? && v.base == w.row.value.reviewed && v.base < v.target <= w.tip && WithinBudget(d, v)
    case Alert(_) => true
    case Notice(v) => WithinBudget(d, v) && d.bytes(v.base, v.target) > 0
    case MoveTo(l) => w.row.Some? && l.from == w.row.value.reviewed && l.from < l.to <= w.tip && Grounds(d, w, l)
  }

  function Do(d: Diffs, w: World, a: Action): World
    requires Enabled(d, w, a)
  {
    match a
    case Push(tip) => w.(tip := tip)
    case Deliver(v) => w.(delivered := w.delivered + {v}, done := w.done[v.target := v.base])
    case Abort(t) => w.(transient := w.transient + {t})
    case Prune(t) => w.(done := w.done - {t}, transient := w.transient - {t})
    case Age => if w.row.Some? then w.(row := Some(w.row.value.(stale := true))) else w
    case HumanClears => w.(row := Some(w.row.value.(pending := None, state := Settled, attempts := 0)))
    case Seed(head) => w.(row := Some(Row(head, head, None, Baseline, 0, false)))
    case Claim(t) => w.(row := Some(Claimed(w.row.value, t)))
    case Release(_) => w.(row := Some(w.row.value.(stale := true)))
    case Consume(t) => w.(transient := w.transient - {t})
    case Forgive(_) => w.(row := Some(Forgiven(w.row.value)))
    case Block(_) => w.(row := Some(w.row.value.(state := Blocked)))
    case Send(v) => w.(sent := w.sent + {v})
    case Alert(v) => w.(alerts := w.alerts + {v})
    case Notice(v) => w.(healed := w.healed + {v})
    case MoveTo(l) => w.(row := Some(MovedTo(w.row.value, l.to)), links := w.links + [l])
  }

  // ---- the invariant -------------------------------------------------------------------------------

  /** A link is accounted for: by a delivered review within both budgets that began at or before the link's
      start, by an empty net diff, by an alert for an over-budget range, or by a healed measurement. */
  ghost predicate Accounted(d: Diffs, w: World, l: Link) {
    && l.from < l.to
    && match l.cause
       case Delivery(b) => b <= l.from && Review(b, l.to) in w.delivered && WithinBudget(d, Review(b, l.to))
       case EmptyDiff => d.bytes(l.from, l.to) == 0
       case Flagged => Review(l.from, l.to) in w.alerts && !WithinBudget(d, Review(l.from, l.to))
       case Healed => Review(l.from, l.to) in w.healed
  }

  function Stop(baseline: Sha, links: seq<Link>, i: nat): Sha
    requires i <= |links|
  {
    if i == 0 then baseline else links[i - 1].to
  }

  predicate Joined(baseline: Sha, links: seq<Link>, i: nat)
    requires i < |links|
  {
    links[i].from == Stop(baseline, links, i)
  }

  /** The links lead from the baseline to the cursor without a gap. */
  ghost predicate Contiguous(r: Row, links: seq<Link>) {
    && r.reviewed == Stop(r.baseline, links, |links|)
    && forall i: nat :: i < |links| ==> Joined(r.baseline, links, i)
  }

  ghost predicate SentRightly(d: Diffs, w: World, v: Review) {
    w.row.Some? && v.base <= w.row.value.reviewed && v.base < v.target && WithinBudget(d, v)
  }

  ghost predicate RowOk(w: World) {
    if w.row.None? then w.links == []
    else
      var r := w.row.value;
      Contiguous(r, w.links) && r.reviewed <= w.tip && r.attempts <= MAX_ATTEMPTS
      && (r.pending.Some? ==> r.reviewed < r.pending.value <= w.tip)
  }

  ghost predicate Inv(d: Diffs, w: World) {
    && RowOk(w)
    && (forall i: nat :: i < |w.links| ==> Accounted(d, w, w.links[i]))
    && (forall v :: v in w.sent ==> SentRightly(d, w, v))
    && (forall v :: v in w.delivered ==> v in w.sent)
    && (forall t :: t in w.done ==> Review(w.done[t], t) in w.delivered)
  }

  lemma StepKeepsInv(d: Diffs, w: World, a: Action)
    requires Inv(d, w) && Enabled(d, w, a)
    ensures Inv(d, Do(d, w, a))
  {
    var w1 := Do(d, w, a);
    forall v | v in w1.sent
      ensures SentRightly(d, w1, v)
    {
      assert v in w.sent ==> SentRightly(d, w, v);
    }
    if a.MoveTo? {
      MoveKeepsLinks(d, w, a.l);
    } else {
      forall i: nat | i < |w1.links|
        ensures Accounted(d, w1, w1.links[i])
      {
        assert Accounted(d, w, w.links[i]);
      }
    }
  }

  lemma MoveKeepsLinks(d: Diffs, w: World, l: Link)
    requires Inv(d, w) && Enabled(d, w, MoveTo(l))
    ensures var w1 := Do(d, w, MoveTo(l));
            RowOk(w1) && forall i: nat :: i < |w1.links| ==> Accounted(d, w1, w1.links[i])
  {
    var w1 := Do(d, w, MoveTo(l));
    forall i: nat | i < |w1.links|
      ensures Accounted(d, w1, w1.links[i]) && Joined(w1.row.value.baseline, w1.links, i)
    {
      if i < |w.links| {
        assert w1.links[i] == w.links[i] && Accounted(d, w, w.links[i]) && Joined(w.row.value.baseline, w.links, i);
      } else if l.cause.Delivery? {
        assert Review(l.cause.base, l.to) in w.sent;
        assert SentRightly(d, w, Review(l.cause.base, l.to));
      }
    }
  }

  // ---- runs ----------------------------------------------------------------------------------------

  ghost predicate Run(d: Diffs, ws: seq<World>, acts: seq<Action>) {
    && |ws| == |acts| + 1
    && forall i: nat :: i < |acts| ==> Enabled(d, ws[i], acts[i]) && ws[i + 1] == Do(d, ws[i], acts[i])
  }

  const START: World := World(0, None, {}, {}, map[], {}, {}, {}, [])

  lemma {:induction false} RunKeepsInv(d: Diffs, ws: seq<World>, acts: seq<Action>, i: nat)
    requires Run(d, ws, acts) && ws[0] == START && i < |ws|
    ensures Inv(d, ws[i])
  {
    if i > 0 {
      RunKeepsInv(d, ws, acts, i - 1);
      var w1 := ws[i - 1 + 1];
      assert w1 == Do(d, ws[i - 1], acts[i - 1]);
      StepKeepsInv(d, ws[i - 1], acts[i - 1]);
    }
  }

  /** Cursor coverage: at every moment of every run, each commit between the baseline and the cursor lies in
      exactly one link of the chain, and that link is accounted for. */
  lemma CommitIsCovered(d: Diffs, ws: seq<World>, acts: seq<Action>, n: nat, p: Sha) returns (i: nat)
    requires Run(d, ws, acts) && ws[0] == START && n < |ws|
    requires ws[n].row.Some? && ws[n].row.value.baseline < p <= ws[n].row.value.reviewed
    ensures i < |ws[n].links| && ws[n].links[i].from < p <= ws[n].links[i].to && Accounted(d, ws[n], ws[n].links[i])
    ensures ws[n].healed == {} ==> !ws[n].links[i].cause.Healed?
    ensures forall j: nat :: j < |ws[n].links| && j != i ==> !(ws[n].links[j].from < p <= ws[n].links[j].to)
  {
    var w := ws[n];
    RunKeepsInv(d, ws, acts, n);
    i := |w.links| - 1;
    while p <= w.links[i].from
      invariant i < |w.links| && p <= w.links[i].to
    {
      assert Joined(w.row.value.baseline, w.links, i);
      i := i - 1;
    }
    forall j: nat | j < |w.links| && j != i
      ensures !(w.links[j].from < p <= w.links[j].to)
    {
      StopsRise(d, w, if i < j then i + 1 else j + 1, if i < j then j else i);
      assert Joined(w.row.value.baseline, w.links, i);
      assert Joined(w.row.value.baseline, w.links, j);
    }
  }

  lemma {:induction false} StopsRise(d: Diffs, w: World, i: nat, j: nat)
    requires Inv(d, w) && w.row.Some? && i <= j <= |w.links|
    ensures Stop(w.row.value.baseline, w.links, i) <= Stop(w.row.value.baseline, w.links, j)
    decreases j
  {
    if i < j {
      StopsRise(d, w, i, j - 1);
      assert Accounted(d, w, w.links[j - 1]);
      assert Joined(w.row.value.baseline, w.links, j - 1);
    }
  }

  /** Nothing that happened is undone: records only grow, the chain is only extended, the cursor never moves back. */
  ghost predicate Onward(w0: World, w1: World) {
    && w0.tip <= w1.tip
    && (forall v :: v in w0.sent ==> v in w1.sent)
    && (forall v :: v in w0.delivered ==> v in w1.delivered)
    && (forall v :: v in w0.alerts ==> v in w1.alerts)
    && |w0.links| <= |w1.links| && (forall i: nat :: i < |w0.links| ==> w1.links[i] == w0.links[i])
    && (w0.row.Some? ==>
          w1.row.Some? && w1.row.value.baseline == w0.row.value.baseline && w0.row.value.reviewed <= w1.row.value.reviewed)
  }

  lemma StepIsOnward(d: Diffs, w0: World, w: World, a: Action)
    requires Onward(w0, w) && Enabled(d, w, a)
    ensures Onward(w0, Do(d, w, a))
  {
  }

  // ---- one tick on one repository ------------------------------------------------------------------

  /** The parts of git that can fail or vary within a tick: which measurements are lost, whether the commit
      list can be read, and which commits lie on the first-parent line. */
  datatype Git = Git(lostLines: (Sha, nat) -> bool, lostBytes: (Sha, nat) -> bool, listFails: bool, onLine: Sha -> bool)

  ghost predicate StableGit(g: Git) {
    forall c: Sha :: (g.lostLines(c, 0) ==> g.lostLines(c, 1)) && (g.lostBytes(c, 0) ==> g.lostBytes(c, 1))
  }

  /** rev-list --first-parent --reverse base..head. */
  function FirstParents(g: Git, base: Sha, head: Sha): (s: seq<Sha>)
    ensures NoDup(s) && forall i: nat :: i < |s| ==> base < s[i] <= head
  {
    if head <= base then []
    else FirstParents(g, base, head - 1) + (if g.onLine(head) then [head] else [])
  }

  function RangeOf(d: Diffs, g: Git, base: Sha, head: Sha): Range {
    Range(head, if g.listFails then None else Some(FirstParents(g, base, head)),
          (c: Sha, k: nat) => if g.lostLines(c, k) then None else Some(d.lines(base, c)),
          (c: Sha, k: nat) => if g.lostBytes(c, k) then None else Some(d.bytes(base, c)))
  }

  lemma ChoiceIsInRange(d: Diffs, g: Git, base: Sha, head: Sha, r: Choice)
    requires base < head && Chosen(RangeOf(d, g, base, head), r) && !r.Defer?
    ensures base < r.sha <= head
  {
  }

  lemma DispatchIsSound(d: Diffs, g: Git, base: Sha, head: Sha, r: Choice)
    requires Chosen(RangeOf(d, g, base, head), r) && r.Dispatch?
    ensures WithinBudget(d, Review(base, r.sha))
  {
    assert Measured(RangeOf(d, g, base, head), r.sha, r.lines, r.bytes);
  }

  /** A skip reported to the human is over a budget; a silent one is empty, or the healed case. */
  lemma AdvanceIsSound(d: Diffs, g: Git, base: Sha, head: Sha, r: Choice)
    requires Chosen(RangeOf(d, g, base, head), r) && r.Advance?
    ensures Oversized(r) ==> !WithinBudget(d, Review(base, r.sha))
    ensures !Oversized(r) && r.bytes == 0 ==> d.bytes(base, r.sha) == 0
    ensures !Oversized(r) && r.bytes != 0 ==>
              WithinBudget(d, Review(base, r.sha)) && d.bytes(base, r.sha) > 0 && !StableGit(g)
  {
    var q := RangeOf(d, g, base, head);
    var lines, bytes := (c: Sha) => d.lines(base, c), (c: Sha) => d.bytes(base, c);
    assert Truthful(q, lines, bytes);
    AdvanceExactly(q, r, lines, bytes);
    if StableGit(g) {
      assert Stable(q);
      StableAdvance(q, r, lines, bytes);
    }
  }

  predicate Oversized(r: Choice) {
    r.lines > MAX_REVIEW_LINES || r.bytes > MAX_REVIEW_BYTES || r.bytes < 0
  }

  function SkipCause(r: Choice): Cause {
    if Oversized(r) then Flagged else if r.bytes == 0 then EmptyDiff else Healed
  }

  /** What others may do to the row: nothing, let it age, or clear the claim. */
  predicate Drifted(r0: Option<Row>, r1: Option<Row>) {
    && (r0.Some? <==> r1.Some?)
    && (r0.Some? ==>
          && r1.value.reviewed == r0.value.reviewed
          && (r1.value.pending.None?
              || (r1.value.pending == r0.value.pending && r1.value.state == r0.value.state && r1.value.attempts == r0.value.attempts)))
  }

  /** What can go wrong in a tick: the cursor update, the removal of a marker, the fetch, a write of the pinned row, the
      lookup of the base, the emptiness test, the alert, the daily budget, the start of the worker, its report. */
  datatype Luck = Luck(settles: bool, unlinks: bool, fetched: bool, pinned: bool, present: bool, quiet: bool,
                       written: bool, dayLeft: bool, unlinksAgain: bool, started: bool, reported: bool)

  const GOOD: Luck := Luck(true, true, true, true, true, true, true, true, true, true, true)

  // ---- what a tick does when nobody interferes -------------------------------------------------------

  /** A delivered review moves the cursor; a transient abort is forgiven. */
  function AfterSettling(w: World, luck: Luck): World {
    if w.row.None? || w.row.value.pending.None? then w
    else
      var t := w.row.value.pending.value;
      if t in w.done then
        if luck.settles then Moved(w, t, Delivery(w.done[t])) else w
      else if t in w.transient && luck.unlinks then Pardon(w, t)
      else w
  }

  function Moved(w: World, t: Sha, cause: Cause): World
    requires w.row.Some?
  {
    w.(row := Some(MovedTo(w.row.value, t)), links := w.links + [Link(w.row.value.reviewed, t, cause)])
  }

  /** The marker is consumed, and the attempt refunded if the claim is still that of the target. */
  function Pardon(w: World, t: Sha): World
    requires w.row.Some?
  {
    w.(transient := w.transient - {t}, row := if CanForgive(w.row.value, t) then Some(Forgiven(w.row.value)) else w.row)
  }

  /** The ceiling stops the target, unless its last abort is forgiven now. */
  predicate AtCeiling(r: Row, t: Sha) { r.pending == Some(t) && r.attempts >= MAX_ATTEMPTS && !r.state.Blocked? }

  predicate Pardoned(w: World, t: Sha, luck: Luck)
    requires w.row.Some?
  {
    t in w.transient && luck.unlinksAgain && CanForgive(w.row.value, t)
  }

  predicate Open(w: World, t: Sha, luck: Luck)
    requires w.row.Some?
  {
    AtCeiling(w.row.value, t) ==> Pardoned(w, t, luck)
  }

  function AtClaim(w: World, t: Sha, luck: Luck): World
    requires w.row.Some?
  {
    if !AtCeiling(w.row.value, t) then w
    else
      var v := if t in w.transient && luck.unlinksAgain then Pardon(w, t) else w;
      if !Pardoned(w, t, luck) && CanBlock(w.row.value, t) then v.(row := Some(w.row.value.(state := Blocked))) else v
  }

  /** The target is claimed. */
  predicate Dispatches(w: World, t: Sha, luck: Luck, spent: nat)
    requires w.row.Some?
  {
    Open(w, t, luck) && spent < MAX_DISPATCH_PER_TICK && luck.dayLeft && CanClaim(AtClaim(w, t, luck).row.value, t)
  }

  /** After the claim, the worker; a dispatch that failed is given up at once. */
  function Dispatched(w: World, t: Sha, luck: Luck, spent: nat): World
    requires w.row.Some?
  {
    var v := AtClaim(w, t, luck);
    if Dispatches(w, t, luck, spent) then ClaimedAndTriggered(v, t, luck) else v
  }

  function ClaimedAndTriggered(w: World, t: Sha, luck: Luck): World
    requires w.row.Some?
  {
    if CanClaim(w.row.value, t) then Triggered(w.(row := Some(Claimed(w.row.value, t))), t, luck) else w
  }

  function Triggered(w: World, t: Sha, luck: Luck): World
    requires w.row.Some?
  {
    w.(sent := if luck.pinned && luck.started then w.sent + {Review(w.row.value.reviewed, t)} else w.sent,
       row := if luck.pinned && luck.started && luck.reported then w.row else Some(w.row.value.(stale := true)))
  }

  /** An oversized range is reported first, a healed measurement noted; then the cursor moves. */
  function Skipped(w: World, choice: Choice, luck: Luck): World
    requires choice.Advance? && w.row.Some?
  {
    if Oversized(choice) && !luck.written then w
    else
      var w1 := Reported(w, w.row.value.reviewed, choice);
      if luck.pinned then Moved(w1, choice.sha, SkipCause(choice)) else w1
  }

  function Reported(w: World, base: Sha, choice: Choice): World
    requires choice.Advance?
  {
    if Oversized(choice) then w.(alerts := w.alerts + {Review(base, choice.sha)})
    else if choice.bytes != 0 then w.(healed := w.healed + {Review(base, choice.sha)})
    else w
  }

  /** A choice is made: there is something new, it can be measured, and it is not known to be empty. */
  predicate Chooses(d: Diffs, w: World, luck: Luck) {
    && luck.fetched && w.row.Some? && w.tip != w.row.value.reviewed && luck.present
    && !(d.bytes(w.row.value.reviewed, w.tip) == 0 && luck.quiet)
  }

  /** What a choice leads to. */
  function Obeyed(w: World, choice: Choice, luck: Luck, spent: nat): World
    requires w.row.Some?
  {
    if choice.Advance? then Skipped(w, choice, luck)
    else if choice.Dispatch? then Dispatched(w, choice.sha, luck, spent)
    else w
  }

  /** The settled row against the remote. */
  function Reconciled(d: Diffs, w: World, luck: Luck, choice: Option<Choice>, spent: nat): World
    requires choice.Some? <==> Chooses(d, w, luck)
  {
    if choice.Some? then Obeyed(w, choice.value, luck, spent)
    else if !luck.fetched || !luck.pinned then w
    else if w.row.None? then w.(row := Some(Row(w.tip, w.tip, None, Baseline, 0, false)))
    else if w.tip != w.row.value.reviewed && luck.present then Moved(w, w.tip, EmptyDiff)
    else w
  }

  /** Spent by this tick. */
  predicate Counts(d: Diffs, w: World, luck: Luck, choice: Option<Choice>, spent: nat)
    requires choice.Some? <==> Chooses(d, w, luck)
  {
    && choice.Some? && choice.value.Dispatch? && Dispatches(w, choice.value.sha, luck, spent)
    && luck.pinned && luck.started && luck.reported
  }

  ghost predicate Worked(d: Diffs, g: Git, luck: Luck, w0: World, choice: Option<Choice>, spent: nat, w1: World, used: nat) {
    && (choice.Some? <==> Chooses(d, w0, luck))
    && (choice.Some? ==> Chosen(RangeOf(d, g, w0.row.value.reviewed, w0.tip), choice.value))
    && w1 == Reconciled(d, w0, luck, choice, spent)
    && used == spent + if Counts(d, w0, luck, choice, spent) then 1 else 0
  }

  /** The ordinary tick: a target that was never tried, or a dead attempt at it, is claimed and its review started,
      whatever was spent before as long as it is within the limit. */
  lemma OrdinaryDispatch(w: World, t: Sha, spent: nat)
    requires w.row.Some? && spent < MAX_DISPATCH_PER_TICK && w.row.value.reviewed != t
    requires || w.row.value.pending.None?
             || (w.row.value.stale && (w.row.value.pending == Some(t) ==> w.row.value.attempts < MAX_ATTEMPTS && !w.row.value.state.Blocked?))
    ensures var w1, r := Dispatched(w, t, GOOD, spent), w.row.value;
            && w1 == w.(row := w1.row, sent := w.sent + {Review(r.reviewed, t)})
            && w1.row == Some(Row(r.baseline, r.reviewed, Some(t), Dispatching, if r.pending == Some(t) then r.attempts + 1 else 1, false))
  {
  }

  /** What the tick is for: new commits that fit, measured without trouble, with nothing pending and budget left, are
      claimed and their review started, and that is counted. */
  lemma NewCommitsAreReviewed(d: Diffs, g: Git, w: World, choice: Option<Choice>, spent: nat, w1: World, used: nat)
    requires Worked(d, g, GOOD, w, choice, spent, w1, used) && spent < MAX_DISPATCH_PER_TICK
    requires w.row.Some? && w.row.value.pending.None? && w.row.value.reviewed < w.tip
    requires WithinBudget(d, Review(w.row.value.reviewed, w.tip)) && d.bytes(w.row.value.reviewed, w.tip) > 0
    requires !g.lostLines(w.tip, 0) && !g.lostBytes(w.tip, 0)
    ensures w1.sent == w.sent + {Review(w.row.value.reviewed, w.tip)} && used == spent + 1
    ensures w1.row.Some? && w1.row.value.pending == Some(w.tip) && w1.row.value.attempts == 1 && w1.row.value.state.Dispatching?
  {
    var q := RangeOf(d, g, w.row.value.reviewed, w.tip);
    assert SeenToFit(q, q.head);
    assert choice.value.Dispatch? && choice.value.sha == w.tip;
    OrdinaryDispatch(w, w.tip, spent);
  }

  /** A target at the ceiling is blocked instead; with a transient abort on record it is tried once more. */
  lemma CeilingDispatch(w: World, t: Sha, spent: nat)
    requires w.row.Some? && spent < MAX_DISPATCH_PER_TICK && w.row.value.reviewed != t
    requires w.row.value.pending == Some(t) && w.row.value.state.Dispatching? && w.row.value.attempts >= MAX_ATTEMPTS
    ensures var w1, r := Dispatched(w, t, GOOD, spent), w.row.value;
            w1 == if t in w.transient then w.(transient := w.transient - {t}, sent := w.sent + {Review(r.reviewed, t)}, row := Some(r.(stale := false)))
                  else w.(row := Some(r.(state := Blocked)))
  {
  }

  class Controller {
    const d: Diffs
    /** The k-th chance for others to act: true when they do not. */
    const fate: nat -> bool
    /** Nobody else acts; no code can ask. */
    ghost const alone: bool
    var drawn: nat
    var w: World
    ghost var worlds: seq<World>   // every world since the start, one per action
    ghost var acts: seq<Action>
    ghost var since: World         // the world when the tick began

    ghost predicate Valid()
      reads this
    {
      && Run(d, worlds, acts) && worlds[0] == START && worlds[|acts|] == w && Inv(d, w) && Onward(since, w)
      && (alone ==> forall k: nat :: fate(k))
    }

    constructor (diffs: Diffs, fate: nat -> bool)
      ensures Valid() && d == diffs && w == START && (alone <==> forall k: nat :: fate(k))
    {
      this.fate, drawn := fate, 0;
      alone := forall k: nat :: fate(k);
      d, w, worlds, acts, since := diffs, START, [START], [], START;
    }

    /** Nothing else assigns the world, so every moment of a tick, and every crash, is a moment of a run. */
    method Act(a: Action)
      requires Valid() && Enabled(d, w, a)
      modifies `w, `worlds, `acts
      ensures Valid() && w == Do(d, old(w), a) && worlds == old(worlds) + [w] && acts == old(acts) + [a]
    {
      StepKeepsInv(d, w, a);
      StepIsOnward(d, since, w, a);
      w := Do(d, w, a);
      worlds, acts := worlds + [w], acts + [a];
    }

    /** The remote, the workers, the clock and the human act. */
    method Interfere()
      requires Valid()
      modifies `w, `worlds, `acts, `drawn
      ensures alone ==> w == old(w)
      ensures Valid() && Drifted(old(w.row), w.row) && w.tip >= old(w.tip)
      ensures w.sent == old(w.sent) && w.alerts == old(w.alerts) && w.healed == old(w.healed) && w.links == old(w.links)
    {
      var quiet := fate(drawn);
      drawn := drawn + 1;
      var k: nat := *;
      while !quiet && k > 0
        invariant alone ==> w == old(w)
        invariant Valid() && Drifted(old(w.row), w.row) && w.tip >= old(w.tip)
        invariant w.sent == old(w.sent) && w.alerts == old(w.alerts) && w.healed == old(w.healed) && w.links == old(w.links)
        decreases k
      {
        k := k - 1;
        var what: nat, n: Sha, v: Review := *, *, *;
        var a := if what == 0 then Push(n) else if what == 1 then Deliver(v) else if what == 2 then Abort(n)
                 else if what == 3 then Prune(n) else if what == 4 then Age else HumanClears;
        if Enabled(d, w, a) {
          Act(a);
        }
      }
    }

    /** _try_forgive_transient: consume the marker first, then refund the attempt. */
    method TryForgive(t: Sha, unlinks: bool) returns (forgiven: bool)
      requires Valid()
      modifies `w, `worlds, `acts
      ensures Valid() && w.tip >= old(w.tip) && w.sent == old(w.sent) && w.alerts == old(w.alerts)
      ensures w.healed == old(w.healed) && w.links == old(w.links)
      ensures w.transient == if unlinks then old(w.transient) - {t} else old(w.transient)
      ensures forgiven <==> t in old(w.transient) && unlinks && old(w.row).Some? && CanForgive(old(w.row).value, t)
      ensures w.row == if forgiven then Some(Forgiven(old(w.row).value)) else old(w.row)
      ensures old(w.row).Some? && t in old(w.transient) && unlinks ==> w == Pardon(old(w), t)
      ensures t !in old(w.transient) || !unlinks ==> w == old(w)
    {
      if t !in w.transient || !unlinks {
        return false;
      }
      Act(Consume(t));
      if w.row.None? || !CanForgive(w.row.value, t) {
        return false;
      }
      Act(Forgive(t));
      return true;
    }

    /** The advance pass and the transient-abort pass. */
    method Settle(luck: Luck) returns (cur: Option<Row>)
      requires Valid()
      modifies `w, `worlds, `acts, `drawn
      ensures alone ==> cur == w.row && w == AfterSettling(old(w), luck)
      ensures Valid() && Drifted(cur, w.row) && w.alerts == old(w.alerts) && w.healed == old(w.healed)
      ensures cur.Some? ==> cur.value.reviewed <= w.tip && cur.value.attempts <= MAX_ATTEMPTS
      ensures w.links == old(w.links)
        || (old(w.row).Some? && old(w.row.value.pending).Some?
            && exists b :: w.links == old(w.links) + [Link(old(w.row.value.reviewed), old(w.row.value.pending.value), Delivery(b))])
    {
      cur := w.row;
      Interfere();
      if cur.Some? && cur.value.pending.Some? {
        var ps := cur.value.pending.value;
        if ps in w.done {
          var base := w.done[ps];
          assert Review(base, ps) in w.delivered;
          if luck.settles && w.row.value.pending == Some(ps) {
            Act(MoveTo(Link(w.row.value.reviewed, ps, Delivery(base))));
          }
          cur := w.row;
        }
      }
      if cur.Some? && cur.value.pending.Some? && cur.value.pending.value !in w.done {
        var forgiven := TryForgive(cur.value.pending.value, luck.unlinks);
        if forgiven {
          cur := w.row;
        }
      }
    }

    /** process_repo.  `mid` is the world after the row was settled. */
    method ProcessRepo(g: Git, luck: Luck, spent: nat) returns (used: nat, choice: Option<Choice>, ghost mid: World)
      requires Valid()
      modifies this
      ensures Valid() && Onward(old(w), w)
      ensures spent <= used && (used == spent || used == spent + 1 <= MAX_DISPATCH_PER_TICK)
      ensures StableGit(g) ==> w.healed == old(w.healed)
      ensures alone ==> mid == AfterSettling(old(w), luck) && Worked(d, g, luck, mid, choice, spent, w, used)
    {
      since, used, choice := w, spent, None;
      var cur := Settle(luck);
      mid := w;
      Interfere();
      if cur.None? || !luck.fetched {
        if luck.fetched && luck.pinned {
          Act(Seed(w.tip));
        }
        return;
      }
      used, choice := Reconcile(g, luck, cur.value, spent);
    }

    /** The row against the remote. */
    method Reconcile(g: Git, luck: Luck, cur: Row, spent: nat) returns (used: nat, choice: Option<Choice>)
      requires Valid() && Drifted(Some(cur), w.row) && cur.reviewed <= w.tip && cur.attempts <= MAX_ATTEMPTS && luck.fetched
      modifies `w, `worlds, `acts, `drawn
      ensures Valid() && spent <= used && (used == spent || used == spent + 1 <= MAX_DISPATCH_PER_TICK)
      ensures StableGit(g) ==> w.healed == old(w.healed)
      ensures alone && old(w.row) == Some(cur) ==> Worked(d, g, luck, old(w), choice, spent, w, used)
    {
      used, choice := spent, None;
      var base, head := cur.reviewed, w.tip;
      if head == base || !luck.present {
        return;
      }
      if d.bytes(base, head) == 0 && luck.quiet {
        if luck.pinned {
          Act(MoveTo(Link(base, head, EmptyDiff)));
        }
        return;
      }
      var chosen := ChooseReviewTarget(RangeOf(d, g, base, head));
      choice := Some(chosen);
      used := Obey(g, luck, cur, head, chosen, spent);
    }

    method Obey(g: Git, luck: Luck, cur: Row, head: Sha, choice: Choice, spent: nat) returns (used: nat)
      requires Valid() && Drifted(Some(cur), w.row) && cur.reviewed < head <= w.tip && cur.attempts <= MAX_ATTEMPTS
      requires Chosen(RangeOf(d, g, cur.reviewed, head), choice)
      modifies `w, `worlds, `acts, `drawn
      ensures Valid() && spent <= used && (used == spent || used == spent + 1 <= MAX_DISPATCH_PER_TICK)
      ensures StableGit(g) ==> w.healed == old(w.healed)
      ensures alone && old(w.row) == Some(cur) ==> w == Obeyed(old(w), choice, luck, spent)
      ensures alone && old(w.row) == Some(cur) ==>
                (used > spent <==> choice.Dispatch? && Dispatches(old(w), choice.sha, luck, spent) && luck.pinned && luck.started && luck.reported)
    {
      used := spent;
      if choice.Advance? {
        var _ := Skip(g, cur.reviewed, head, choice, luck);
      } else if choice.Dispatch? {
        ChoiceIsInRange(d, g, cur.reviewed, head, choice);
        DispatchIsSound(d, g, cur.reviewed, head, choice);
        var sent := DispatchReview(cur, choice.sha, spent, luck);
        if sent {
          used := spent + 1;
        }
      }
    }

    /** Past an unreviewable range: the alert is written first, and without it the cursor stays. */
    method Skip(g: Git, base: Sha, head: Sha, choice: Choice, luck: Luck) returns (moved: bool)
      requires Valid() && w.row.Some? && w.row.value.reviewed == base < head <= w.tip
      requires choice.Advance? && Chosen(RangeOf(d, g, base, head), choice)
      modifies `w, `worlds, `acts, `drawn
      ensures alone ==> w == Skipped(old(w), choice, luck)
      ensures Valid() && (StableGit(g) ==> w.healed == old(w.healed)) && w.sent == old(w.sent) && w.row.Some?
      ensures if moved then w.links == old(w.links) + [Link(base, choice.sha, SkipCause(choice))] && w.row.value.reviewed == choice.sha
              else w.links == old(w.links) && w.row.value.reviewed == base
    {
      moved := false;
      ChoiceIsInRange(d, g, base, head, choice);
      AdvanceIsSound(d, g, base, head, choice);
      if Oversized(choice) && !luck.written {
        return;
      }
      Report(base, choice);
      Interfere();
      if luck.pinned {
        Act(MoveTo(Link(base, choice.sha, SkipCause(choice))));
        moved := true;
      }
    }

    /** The alert for an oversized range; the record of a healed measurement. */
    method Report(base: Sha, choice: Choice)
      requires Valid() && choice.Advance?
      requires !Oversized(choice) && choice.bytes != 0 ==>
                 WithinBudget(d, Review(base, choice.sha)) && d.bytes(base, choice.sha) > 0
      modifies `w, `worlds, `acts
      ensures Valid() && w == Reported(old(w), base, choice)
    {
      if Oversized(choice) {
        Act(Alert(Review(base, choice.sha)));
      } else if choice.bytes != 0 {
        Act(Notice(Review(base, choice.sha)));
      }
    }

    /** The attempts ceiling, the dispatch budgets, the claim, and the trigger. */
    method DispatchReview(cur: Row, target: Sha, spent: nat, luck: Luck) returns (sent: bool)
      requires Valid() && Drifted(Some(cur), w.row) && cur.reviewed < target <= w.tip && cur.attempts <= MAX_ATTEMPTS
      requires WithinBudget(d, Review(cur.reviewed, target))
      modifies `w, `worlds, `acts, `drawn
      ensures Valid() && w.healed == old(w.healed) && w.links == old(w.links)
      ensures alone && old(w.row) == Some(cur) ==> w == Dispatched(old(w), target, luck, spent)
      ensures alone && old(w.row) == Some(cur) ==>
                (sent <==> Dispatches(old(w), target, luck, spent) && luck.pinned && luck.started && luck.reported)
      ensures sent ==> spent < MAX_DISPATCH_PER_TICK && Review(cur.reviewed, target) in w.sent
    {
      sent := false;
      var open := Ceiling(cur, target, luck);
      if !open || spent >= MAX_DISPATCH_PER_TICK || !luck.dayLeft {
        return;
      }
      sent := ClaimAndTrigger(cur.reviewed, target, luck);
    }

    method ClaimAndTrigger(base: Sha, target: Sha, luck: Luck) returns (sent: bool)
      requires Valid() && w.row.Some? && w.row.value.reviewed == base < target <= w.tip && WithinBudget(d, Review(base, target))
      requires w.row.value.pending == Some(target) && !w.row.value.state.Blocked? ==> w.row.value.attempts < MAX_ATTEMPTS
      modifies `w, `worlds, `acts, `drawn
      ensures Valid() && w.healed == old(w.healed) && w.links == old(w.links) && (sent ==> Review(base, target) in w.sent)
      ensures alone ==> w == ClaimedAndTriggered(old(w), target, luck)
      ensures alone ==> (sent <==> CanClaim(old(w.row).value, target) && luck.pinned && luck.started && luck.reported)
    {
      sent := false;
      Interfere();
      if CanClaim(w.row.value, target) {
        Act(Claim(target));
        sent := Trigger(base, target, luck);
      }
    }

    /** The ceiling: a target that failed MAX_ATTEMPTS times is blocked, unless its last abort is forgiven now. */
    method Ceiling(cur: Row, target: Sha, luck: Luck) returns (open: bool)
      requires Valid() && Drifted(Some(cur), w.row) && cur.attempts <= MAX_ATTEMPTS
      modifies `w, `worlds, `acts
      ensures Valid() && w.tip >= old(w.tip) && w.sent == old(w.sent) && w.healed == old(w.healed) && w.links == old(w.links)
      ensures w.row.Some? && w.row.value.reviewed == cur.reviewed
      ensures open && w.row.value.pending == Some(target) && !w.row.value.state.Blocked? ==>
                w.row.value.attempts < MAX_ATTEMPTS
      ensures old(w.row) == Some(cur) ==> w == AtClaim(old(w), target, luck) && (open <==> Open(old(w), target, luck))
      ensures !open && old(w.row.value.pending) == Some(target) && old(w.row.value.state).Dispatching? ==>
                w.row.value.state.Blocked?
    {
      open := true;
      if cur.pending == Some(target) && cur.attempts >= MAX_ATTEMPTS && !cur.state.Blocked? {
        open := TryForgive(target, luck.unlinksAgain);
        if !open && CanBlock(w.row.value, target) {
          Act(Block(target));
        }
      }
    }

    /** A started worker may outlive a trigger that reported failure. */
    method Trigger(base: Sha, target: Sha, luck: Luck) returns (ok: bool)
      requires Valid() && w.row.Some? && w.row.value.reviewed == base < target <= w.tip && WithinBudget(d, Review(base, target))
      modifies `w, `worlds, `acts, `drawn
      ensures ok <==> luck.pinned && luck.started && luck.reported
      ensures alone && CanRelease(old(w.row).value, target) ==> w == Triggered(old(w), target, luck)
      ensures Valid() && w.healed == old(w.healed) && w.links == old(w.links) && (ok ==> Review(base, target) in w.sent)
    {
      Interfere();
      if luck.pinned && luck.started {
        Act(Send(Review(base, target)));
      }
      ok := luck.pinned && luck.started && luck.reported;
      Interfere();
      if !ok && CanRelease(w.row.value, target) {
        Act(Release(target));
      }
    }
  }
}
