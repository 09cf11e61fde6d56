/**
  The durable world the proposer drives, and every atomic change it can undergo.

  A tick is a sequence of these changes.  The process may die between any two of them, so what
  is proved about every chain of steps is proved about every run of ticks with crashes anywhere.
  A fingerprint stands for its candidate row, its branch `skill/auto/<slug>` and its repository
  (one scope per repository, one ticker).
 */
module ProposerWorld {
  import opened Collections

  type Fp = nat

  // `Idle` gathers the ledger states the proposer never acts on:
  // new, accumulating, promoted, declined, stale.
  datatype Row = Idle | Ready | Proposing | Proposed(pr: nat)

  /** No pull request and no branch was read; the branch was read at somebody else's commit; our pull request was
      closed by us and its branch left behind. */
  datatype Evidence = SeenAbsent | SeenForeign | ClosedByUs

  /**
    rows      the ledger's capture_candidate table
    branches  the bot's branches present on the remote
    open      the open bot pull requests, by branch, with their numbers
    suspects  the entries of the write-ahead suspects file (still there when it is damaged)
    damaged   the file cannot be parsed at the moment
    handed    dropped through an arm that asks the human for a disposition
    refunded  entries whose MAX_OPEN slot was given back while they may still sit in the file
    excess    refunded entries whose stranded branch was turned into a pull request while every slot was in use
    evidence  why the proposer holds that nothing of an entry needs tracking any more
    cap       MAX_OPEN
   */
  datatype World = World(
    rows: map<Fp, Row>, branches: set<Fp>, open: map<Fp, nat>, nextPr: nat,
    suspects: seq<Fp>, damaged: bool,
    handed: set<Fp>, refunded: set<Fp>, excess: set<Fp>, evidence: map<Fp, Evidence>, cap: nat)

  function RowOf(w: World, fp: Fp): Row {
    if fp in w.rows then w.rows[fp] else Idle
  }

  predicate InFlightRow(r: Row) {
    r.Proposing? || r.Proposed?
  }

  /** What count_open_proposals counts and list_inflight_fingerprints lists. */
  function InFlight(w: World): set<Fp> {
    set fp | fp in w.rows && InFlightRow(w.rows[fp])
  }

  /** `fp` is, or can still become, an open bot pull request on the proposer's account. */
  predicate HoldsSlot(w: World, fp: Fp) {
    && fp !in w.handed
    && (fp in w.open || (fp in w.suspects && fp !in w.refunded))
  }

  function Slots(w: World): set<Fp> {
    (set fp | fp in w.open && HoldsSlot(w, fp)) + (set fp | fp in w.suspects && HoldsSlot(w, fp))
  }

  ghost predicate OpenHasBranch(w: World) {
    forall fp :: fp in w.open ==> fp in w.branches
  }

  ghost predicate ExcessIsRefunded(w: World) {
    forall fp :: fp in w.excess ==> fp in w.refunded
  }

  /** The pull requests that took no free slot when they were opened. */
  function Over(w: World): set<Fp> {
    set fp | fp in w.open && fp in w.excess && fp !in w.handed
  }

  /** An open pull request is known to the ledger, to the suspects file or to the human. */
  ghost predicate Accounted(w: World, fp: Fp)
    requires fp in w.open
  {
    RowOf(w, fp) == Proposed(w.open[fp]) || fp in w.suspects || fp in w.handed
  }

  ghost predicate Inv(w: World) {
    && (forall fp :: fp in w.open ==> Accounted(w, fp))
    && (forall fp :: fp in w.open && RowOf(w, fp).Proposed? ==> RowOf(w, fp).pr == w.open[fp])
    && OpenHasBranch(w) && ExcessIsRefunded(w)
    && NoDup(w.suspects)
    && |Slots(w)| <= w.cap + |Over(w)|
  }

  // ---- what other parties may do at any moment -------------------------------------------------

  ghost predicate SubOpen(open: map<Fp, nat>, open0: map<Fp, nat>) {
    forall fp :: fp in open ==> fp in open0 && open[fp] == open0[fp]
  }

  /** Rows may be readied, retired or reaped by others; only the ticker moves a row into or out of
      `Proposed`, or into `Proposing`. */
  ghost predicate RowsDrift(w0: World, w1: World) {
    && (forall fp :: RowOf(w0, fp).Proposed? || RowOf(w1, fp).Proposed? ==> RowOf(w0, fp) == RowOf(w1, fp))
    && (forall fp :: RowOf(w1, fp).Proposing? ==> RowOf(w0, fp).Proposing?)
  }

  /** Humans merge and close pull requests, delete branches (which closes their pull request) and
      push to any branch name; a delayed push of ours lands; the suspects file rots or is repaired. */
  ghost predicate Drift(w0: World, w1: World) {
    && RowsDrift(w0, w1)
    && SubOpen(w1.open, w0.open) && OpenHasBranch(w1)
    && w1.nextPr >= w0.nextPr
    && w1 == w0.(rows := w1.rows, branches := w1.branches, open := w1.open,
                 nextPr := w1.nextPr, damaged := w1.damaged)
  }

  // ---- the steps -------------------------------------------------------------------------------

  datatype Action =
    | Outside
    | Claim(fp: Fp)
    | Mark(fp: Fp, pr: nat)
    | Release(fp: Fp)
    | Resolve(fp: Fp)
    | Push(fp: Fp)
    | OpenPr(fp: Fp)
    | ClosePr(fp: Fp)
    | Intend(fp: Fp)
    | Witness(fp: Fp, e: Evidence)
    | Rewrite(kept: seq<Fp>)
    | Refund(fp: Fp)
    | HandOver(fp: Fp)

  function SetRow(w: World, fp: Fp, r: Row): World {
    w.(rows := w.rows[fp := r])
  }

  function WithIntent(w: World, fp: Fp): World {
    w.(suspects := if fp in w.suspects then w.suspects else w.suspects + [fp],
       refunded := w.refunded - {fp}, handed := w.handed - {fp}, excess := w.excess - {fp},
       evidence := w.evidence - {fp})
  }

  /** The pull request of a refunded entry while every slot is in use. */
  predicate TakesNoSlot(w: World, fp: Fp) {
    fp in w.refunded && fp !in w.handed && |Slots(w)| >= w.cap
  }

  function WithPr(w: World, fp: Fp): World {
    w.(open := w.open[fp := w.nextPr], nextPr := w.nextPr + 1, evidence := w.evidence - {fp},
       excess := if TakesNoSlot(w, fp) then w.excess + {fp} else w.excess - {fp})
  }

  /** Our close: the branch stays. */
  function Closed(w: World, fp: Fp): World {
    w.(open := w.open - {fp}, evidence := w.evidence[fp := ClosedByUs])
  }

  /** A read that says so: no branch, or a branch at somebody else's commit. */
  predicate CanWitness(w: World, fp: Fp, e: Evidence) {
    fp !in w.open && match e case SeenAbsent => fp !in w.branches case SeenForeign => fp in w.branches case ClosedByUs => false
  }

  /** An entry leaves the file only when its class is tracked, when it was handed over, or on evidence. */
  ghost predicate MayDrop(w: World, fp: Fp) {
    RowOf(w, fp).Proposed? || fp in w.handed || (fp !in w.open && fp in w.evidence)
  }

  ghost predicate Step(w0: World, a: Action, w1: World) {
    match a
    case Outside => Drift(w0, w1)
    case Claim(fp) => RowOf(w0, fp).Ready? && w1 == SetRow(w0, fp, Proposing)
    case Mark(fp, pr) =>
      RowOf(w0, fp).Proposing? && (fp in w0.open ==> w0.open[fp] == pr) && w1 == SetRow(w0, fp, Proposed(pr))
    case Release(fp) => RowOf(w0, fp).Proposing? && w1 == SetRow(w0, fp, Ready)
    case Resolve(fp) => RowOf(w0, fp).Proposed? && fp !in w0.open && w1 == SetRow(w0, fp, Idle)
    case Push(fp) => fp in w0.suspects && w1 == w0.(branches := w0.branches + {fp})
    case OpenPr(fp) =>
      fp in w0.suspects && fp in w0.branches && fp !in w0.open && !RowOf(w0, fp).Proposed? && w1 == WithPr(w0, fp)
    case ClosePr(fp) => w1 == Closed(w0, fp)
    case Intend(fp) => fp !in w0.open && |Slots(w0) + {fp}| <= w0.cap && w1 == WithIntent(w0, fp)
    case Witness(fp, e) => CanWitness(w0, fp, e) && w1 == w0.(evidence := w0.evidence[fp := e])
    case Rewrite(kept) =>
      && NoDup(kept) && (forall fp :: fp in kept ==> fp in w0.suspects)
      && (forall fp :: fp in w0.suspects && fp !in kept ==> MayDrop(w0, fp))
      && w1 == w0.(suspects := kept, damaged := false)
    case Refund(fp) => fp !in w0.open && w1 == w0.(refunded := w0.refunded + {fp})
    case HandOver(fp) => RowOf(w0, fp).Idle? && fp in w0.suspects && w1 == w0.(handed := w0.handed + {fp})
  }

  /** Every step keeps the invariant, so a crash after any step leaves a world that satisfies it. */
  lemma StepKeepsInv(w0: World, a: Action, w1: World)
    requires Inv(w0) && Step(w0, a, w1)
    ensures Inv(w1)
  {
    StepKeepsAccounts(w0, a, w1);
    StepKeepsShape(w0, a, w1);
    StepKeepsCapacity(w0, a, w1);
  }

  lemma StepKeepsAccounts(w0: World, a: Action, w1: World)
    requires Inv(w0) && Step(w0, a, w1)
    ensures forall fp :: fp in w1.open ==> Accounted(w1, fp)
    ensures forall fp :: fp in w1.open && RowOf(w1, fp).Proposed? ==> RowOf(w1, fp).pr == w1.open[fp]
  {
    forall fp | fp in w1.open
      ensures Accounted(w1, fp)
      ensures RowOf(w1, fp).Proposed? ==> RowOf(w1, fp).pr == w1.open[fp]
    {
      StepKeepsAccount(w0, a, w1, fp);
    }
  }

  lemma StepKeepsAccount(w0: World, a: Action, w1: World, fp: Fp)
    requires fp in w0.open ==> Accounted(w0, fp)
    requires fp in w0.open && RowOf(w0, fp).Proposed? ==> RowOf(w0, fp).pr == w0.open[fp]
    requires Step(w0, a, w1) && fp in w1.open
    ensures Accounted(w1, fp)
    ensures RowOf(w1, fp).Proposed? ==> RowOf(w1, fp).pr == w1.open[fp]
  {
    match a
    case Outside => assert RowOf(w0, fp).Proposed? ==> RowOf(w0, fp) == RowOf(w1, fp);
    case Claim(_) =>
    case Mark(_, _) =>
    case Release(_) =>
    case Resolve(_) =>
    case Push(_) =>
    case OpenPr(_) =>
    case ClosePr(_) =>
    case Intend(_) =>
    case Witness(_, _) =>
    case Rewrite(kept) => assert fp in w0.suspects && fp !in kept ==> MayDrop(w0, fp);
    case Refund(_) =>
    case HandOver(_) =>
  }

  lemma StepKeepsShape(w0: World, a: Action, w1: World)
    requires OpenHasBranch(w0) && ExcessIsRefunded(w0)
    requires NoDup(w0.suspects) && Step(w0, a, w1)
    ensures OpenHasBranch(w1) && ExcessIsRefunded(w1)
    ensures NoDup(w1.suspects)
  {
    match a
    case Outside => assert SubOpen(w1.open, w0.open);
    case Claim(_) =>
    case Mark(_, _) =>
    case Release(_) =>
    case Resolve(_) =>
    case Push(_) =>
    case OpenPr(_) =>
    case ClosePr(_) =>
    case Intend(_) =>
    case Witness(_, _) =>
    case Rewrite(_) =>
    case Refund(_) =>
    case HandOver(_) =>
  }

  /** Only a new intent takes a slot, and the recovery of a refunded entry; everything else keeps or gives back. */
  lemma SlotWasThere(w0: World, a: Action, w1: World, fp: Fp)
    requires Step(w0, a, w1) && HoldsSlot(w1, fp)
    ensures HoldsSlot(w0, fp) || a == Intend(fp) || (a == OpenPr(fp) && fp in w0.refunded && fp !in w0.handed)
  {
    match a
    case Outside => assert fp in w1.open ==> fp in w0.open;
    case Claim(_) =>
    case Mark(_, _) =>
    case Release(_) =>
    case Resolve(_) =>
    case Push(_) =>
    case OpenPr(_) =>
    case ClosePr(_) =>
    case Intend(_) =>
    case Witness(_, _) =>
    case Rewrite(_) =>
    case Refund(_) =>
    case HandOver(_) =>
  }

  lemma SlotsWithin(w0: World, a: Action, w1: World, bound: set<Fp>)
    requires Step(w0, a, w1) && Slots(w0) <= bound
    requires a.Intend? || (a.OpenPr? && a.fp in w0.refunded && a.fp !in w0.handed) ==> a.fp in bound
    ensures Slots(w1) <= bound && |Slots(w1)| <= |bound|
  {
    forall fp | fp in Slots(w1)
      ensures fp in bound
    {
      SlotWasThere(w0, a, w1, fp);
    }
    SubsetSize(Slots(w1), bound);
  }

  lemma StepKeepsCapacity(w0: World, a: Action, w1: World)
    requires |Slots(w0)| <= w0.cap + |Over(w0)| && ExcessIsRefunded(w0) && Step(w0, a, w1)
    ensures |Slots(w1)| <= w1.cap + |Over(w1)|
  {
    if a.Intend? {
      SlotsWithin(w0, a, w1, Slots(w0) + {a.fp});
    } else if a.OpenPr? {
      OpenKeepsCapacity(w0, a.fp, w1);
    } else {
      SlotsWithin(w0, a, w1, Slots(w0));
      LeaveTogether(w0, a, w1);
    }
  }

  /** An opened pull request fits into the slots, or is over. */
  lemma OpenKeepsCapacity(w0: World, fp: Fp, w1: World)
    requires |Slots(w0)| <= w0.cap + |Over(w0)| && ExcessIsRefunded(w0) && Step(w0, OpenPr(fp), w1)
    ensures |Slots(w1)| <= w1.cap + |Over(w1)|
  {
    if fp in w0.refunded && fp !in w0.handed {
      SlotsWithin(w0, OpenPr(fp), w1, Slots(w0) + {fp});
      if TakesNoSlot(w0, fp) {
        OverGains(w0, fp);
      }
    } else {
      SlotsWithin(w0, OpenPr(fp), w1, Slots(w0));
      OverKeeps(w0, fp);
    }
  }

  lemma OverGains(w: World, fp: Fp)
    requires fp !in w.open && TakesNoSlot(w, fp)
    ensures |Over(WithPr(w, fp))| == |Over(w)| + 1
  {
    assert Over(WithPr(w, fp)) == Over(w) + {fp};
  }

  lemma OverKeeps(w: World, fp: Fp)
    requires fp !in w.open
    ensures |Over(w)| <= |Over(WithPr(w, fp))|
  {
    SubsetSize(Over(w), Over(WithPr(w, fp)));
  }

  /** A pull request that was over and is so no longer has left the slots as well. */
  lemma LeaveTogether(w0: World, a: Action, w1: World)
    requires |Slots(w0)| <= w0.cap + |Over(w0)| && ExcessIsRefunded(w0) && Step(w0, a, w1) && !a.Intend? && !a.OpenPr?
    requires Slots(w1) <= Slots(w0)
    ensures |Slots(w1)| <= w1.cap + |Over(w1)|
  {
    var left := Over(w0) - Over(w1);
    assert Over(w1) <= Over(w0);
    forall fp | fp in left
      ensures fp in Slots(w0) && fp !in Slots(w1)
    {
      LeftSlot(w0, a, w1, fp);
    }
    SubsetSize(Slots(w1), Slots(w0) - left);
  }

  lemma LeftSlot(w0: World, a: Action, w1: World, fp: Fp)
    requires ExcessIsRefunded(w0) && Step(w0, a, w1) && !a.Intend? && !a.OpenPr? && fp in Over(w0) && fp !in Over(w1)
    ensures !HoldsSlot(w1, fp)
  {
  }

  // ---- runs ------------------------------------------------------------------------------------

  /** Worlds linked by steps: one tick, a tick cut short by a crash, or many ticks in a row. */
  ghost predicate Chain(worlds: seq<World>, acts: seq<Action>) {
    && |worlds| == |acts| + 1
    && (forall i :: 0 <= i < |acts| ==> Step(worlds[i], acts[i], worlds[i + 1]))
  }

  lemma ChainSnoc(worlds: seq<World>, acts: seq<Action>, a: Action, w: World)
    requires Chain(worlds, acts) && Step(worlds[|acts|], a, w)
    ensures Chain(worlds + [w], acts + [a])
  {
    var worlds', acts' := worlds + [w], acts + [a];
    forall i | 0 <= i < |acts'|
      ensures Step(worlds'[i], acts'[i], worlds'[i + 1])
    {
      if i < |acts| {
        assert Step(worlds[i], acts[i], worlds[i + 1]);
      }
    }
  }

  /** A tick that dies after any number of steps, followed by later ticks, is again a run. */
  lemma CrashThenResume(w1: seq<World>, a1: seq<Action>, died: nat, w2: seq<World>, a2: seq<Action>)
    requires Chain(w1, a1) && died <= |a1|
    requires Chain(w2, a2) && w2[0] == w1[died]
    ensures Chain(w1[..died] + w2, a1[..died] + a2)
  {
    var ws, acts := w1[..died] + w2, a1[..died] + a2;
    forall i | 0 <= i < |acts|
      ensures Step(ws[i], acts[i], ws[i + 1])
    {
      if i < died {
        assert ws[i] == w1[i] && acts[i] == a1[i] && ws[i + 1] == w1[i + 1];
        assert Step(w1[i], a1[i], w1[i + 1]);
      } else {
        assert ws[i] == w2[i - died] && acts[i] == a2[i - died] && ws[i + 1] == w2[i - died + 1];
        assert Step(w2[i - died], a2[i - died], w2[i - died + 1]);
      }
    }
  }

  lemma {:induction false} RunKeepsInv(worlds: seq<World>, acts: seq<Action>, i: nat)
    requires Chain(worlds, acts) && Inv(worlds[0]) && i < |worlds|
    ensures Inv(worlds[i])
  {
    if i > 0 {
      RunKeepsInv(worlds, acts, i - 1);
      var w0, a, w1 := worlds[i - 1], acts[i - 1], worlds[i - 1 + 1];
      assert Step(w0, a, w1);
      StepKeepsInv(w0, a, w1);
    }
  }

  /** No untracked pull request: at every moment of every run each open bot pull request is marked
      proposed under its own number, or intended in the durable file, or handed to the human. */
  lemma NoUntrackedPr(worlds: seq<World>, acts: seq<Action>, i: nat, fp: Fp)
    requires Chain(worlds, acts) && Inv(worlds[0]) && i < |worlds|
    requires fp in worlds[i].open
    ensures RowOf(worlds[i], fp) == Proposed(worlds[i].open[fp])
         || fp in worlds[i].suspects || fp in worlds[i].handed
  {
    RunKeepsInv(worlds, acts, i);
    assert Accounted(worlds[i], fp);
  }

  /** The open pull requests on the proposer's account. */
  function Count(w: World): nat { |w.open.Keys - w.handed| }

  /** At every moment of every run they, and those that can still appear, are at most MAX_OPEN, plus the open ones
      that were recovered while every slot was in use. */
  lemma CapacityHolds(worlds: seq<World>, acts: seq<Action>, i: nat)
    requires Chain(worlds, acts) && Inv(worlds[0]) && i < |worlds|
    ensures Count(worlds[i]) <= |Slots(worlds[i])| <= worlds[0].cap + |Over(worlds[i])|
  {
    RunKeepsInv(worlds, acts, i);
    CapIsFixed(worlds, acts, i);
    CountInSlots(worlds[i]);
  }

  lemma CountInSlots(w: World)
    ensures Count(w) <= |Slots(w)|
  {
    SubsetSize(w.open.Keys - w.handed, Slots(w));
  }

  lemma {:induction false} CapIsFixed(worlds: seq<World>, acts: seq<Action>, i: nat)
    requires Chain(worlds, acts) && i < |worlds|
    ensures worlds[i].cap == worlds[0].cap
  {
    if i > 0 {
      CapIsFixed(worlds, acts, i - 1);
      assert Step(worlds[i - 1], acts[i - 1], worlds[i]);
    }
  }

  /** The step that can break MAX_OPEN: a refunded entry is recovered while every slot is in use. */
  predicate Overshoots(w: World, a: Action) {
    a.OpenPr? && TakesNoSlot(w, a.fp)
  }

  /** From a world within MAX_OPEN, exactly such a step leaves it. */
  lemma OvershootStep(w0: World, a: Action, w1: World)
    requires Step(w0, a, w1) && |Slots(w0)| <= w0.cap
    ensures |Slots(w1)| > w1.cap <==> Overshoots(w0, a)
  {
    if Overshoots(w0, a) {
      assert Slots(w1) == Slots(w0) + {a.fp} && a.fp !in Slots(w0);
    } else if a.Intend? || (a.OpenPr? && a.fp in w0.refunded && a.fp !in w0.handed) {
      SlotsWithin(w0, a, w1, Slots(w0) + {a.fp});
    } else {
      SlotsWithin(w0, a, w1, Slots(w0));
    }
  }

  /** MAX_OPEN is kept at every moment of a run if and only if no refunded entry is recovered while every slot is in
      use. */
  lemma CapacityExact(worlds: seq<World>, acts: seq<Action>)
    requires Chain(worlds, acts) && |Slots(worlds[0])| <= worlds[0].cap
    ensures (forall i: nat :: i < |worlds| ==> |Slots(worlds[i])| <= worlds[i].cap)
       <==> (forall j: nat :: j < |acts| ==> !Overshoots(worlds[j], acts[j]))
  {
    if forall j: nat :: j < |acts| ==> !Overshoots(worlds[j], acts[j]) {
      forall i: nat | i < |worlds|
        ensures |Slots(worlds[i])| <= worlds[i].cap
      {
        NoOvershoot(worlds, acts, i);
      }
    }
    if forall i: nat :: i < |worlds| ==> |Slots(worlds[i])| <= worlds[i].cap {
      forall j: nat | j < |acts|
        ensures !Overshoots(worlds[j], acts[j])
      {
        assert Step(worlds[j], acts[j], worlds[j + 1]);
        OvershootStep(worlds[j], acts[j], worlds[j + 1]);
      }
    }
  }

  lemma {:induction false} NoOvershoot(worlds: seq<World>, acts: seq<Action>, i: nat)
    requires Chain(worlds, acts) && |Slots(worlds[0])| <= worlds[0].cap && i < |worlds|
    requires forall j: nat :: j < |acts| ==> !Overshoots(worlds[j], acts[j])
    ensures |Slots(worlds[i])| <= worlds[i].cap
  {
    if i > 0 {
      NoOvershoot(worlds, acts, i - 1);
      var w0, a, w1 := worlds[i - 1], acts[i - 1], worlds[i - 1 + 1];
      assert Step(w0, a, w1);
      OvershootStep(w0, a, w1);
    }
  }

  /** A refunded entry is still in the file although a branch exists under its name: the push that was read absent
      twice landed later, a human pushed to the name, or a clear failed. */
  predicate Stray(w: World, fp: Fp) {
    && fp in w.suspects && fp in w.refunded && fp in w.branches
    && fp !in w.open && fp !in w.handed && RowOf(w, fp).Ready?
  }

  /** Wherever there is one while MAX_OPEN pull requests are open, claiming and recovering it opens one too many. */
  lemma StrayOvershoots(w: World, fp: Fp) returns (worlds: seq<World>, acts: seq<Action>)
    requires Stray(w, fp) && Count(w) >= w.cap
    ensures Chain(worlds, acts) && worlds[0] == w && Count(worlds[|acts|]) > w.cap
  {
    var w1 := SetRow(w, fp, Proposing);
    var w2 := WithPr(w1, fp);
    TwoSteps(w, Claim(fp), w1, OpenPr(fp), w2);
    worlds, acts := [w, w1, w2], [Claim(fp), OpenPr(fp)];
    OneMore(w1, fp);
  }

  lemma TwoSteps(w: World, a: Action, w1: World, b: Action, w2: World)
    requires Step(w, a, w1) && Step(w1, b, w2)
    ensures Chain([w, w1, w2], [a, b])
  {
  }

  lemma OneMore(w: World, fp: Fp)
    requires fp !in w.open && fp !in w.handed
    ensures Count(WithPr(w, fp)) == Count(w) + 1
  {
    OneMoreKey(w.open, w.handed, fp, w.nextPr);
  }

  lemma OneMoreKey(open: map<Fp, nat>, handed: set<Fp>, fp: Fp, pr: nat)
    requires fp !in open && fp !in handed
    ensures |open[fp := pr].Keys - handed| == |open.Keys - handed| + 1
  {
    assert open[fp := pr].Keys - handed == (open.Keys - handed) + {fp};
  }

  // ---- the clear-invariant ---------------------------------------------------------------------

  /** Between the moments j and i the proposer neither intended nor opened anything for the entry. */
  predicate Quiet(acts: seq<Action>, j: nat, i: nat, fp: Fp)
    requires i <= |acts|
  {
    forall k: nat :: j <= k < i ==> acts[k] != Intend(fp) && acts[k] != OpenPr(fp)
  }

  /** There was a moment, since the entry was last intended or opened, with neither branch nor pull request. */
  ghost predicate WasAbsent(worlds: seq<World>, acts: seq<Action>, i: nat, fp: Fp)
    requires |worlds| == |acts| + 1 && i <= |acts|
  {
    exists j: nat :: j <= i && Quiet(acts, j, i, fp) && fp !in worlds[j].branches && fp !in worlds[j].open
  }

  /** Since then the branch was read at somebody else's commit. */
  ghost predicate WasForeign(acts: seq<Action>, i: nat, fp: Fp)
    requires i <= |acts|
  {
    exists j: nat :: j < i && Quiet(acts, j, i, fp) && acts[j] == Witness(fp, SeenForeign)
  }

  /** Since then the proposer closed its pull request. */
  ghost predicate WasClosedByUs(acts: seq<Action>, i: nat, fp: Fp)
    requires i <= |acts|
  {
    exists j: nat :: j < i && Quiet(acts, j, i, fp) && acts[j] == ClosePr(fp)
  }

  /** The rule the source states for a drop: the class is tracked, the human was asked, the branch is foreign, or there
      was neither a pull request nor a branch. */
  ghost predicate ClearRule(worlds: seq<World>, acts: seq<Action>, i: nat, fp: Fp)
    requires |worlds| == |acts| + 1 && i <= |acts|
  {
    || RowOf(worlds[i], fp).Proposed? || fp in worlds[i].handed
    || WasForeign(acts, i, fp) || WasAbsent(worlds, acts, i, fp)
  }

  /** In every run, a drop of an entry that is neither tracked nor handed over breaks the rule if and only if the
      proposer closed its pull request and since then the branch was neither gone nor read as foreign. */
  lemma DropExactly(worlds: seq<World>, acts: seq<Action>, i: nat, fp: Fp)
    requires Chain(worlds, acts) && worlds[0].evidence == map[] && i < |acts|
    requires fp in worlds[i].suspects && fp !in worlds[i + 1].suspects
    requires !RowOf(worlds[i], fp).Proposed? && fp !in worlds[i].handed
    ensures !ClearRule(worlds, acts, i, fp) <==>
            WasClosedByUs(acts, i, fp) && !WasForeign(acts, i, fp) && !WasAbsent(worlds, acts, i, fp)
  {
    assert Step(worlds[i], acts[i], worlds[i + 1]);
    OnlyDropsDrop(worlds[i], acts[i], worlds[i + 1], fp);
    var j := EvidenceCame(worlds, acts, i, fp);
    if acts[j] == Witness(fp, SeenAbsent) {
      assert Step(worlds[j], acts[j], worlds[j + 1]);
      assert fp !in worlds[j].branches && fp !in worlds[j].open;
    }
  }

  lemma OnlyDropsDrop(w0: World, a: Action, w1: World, fp: Fp)
    requires Step(w0, a, w1) && fp in w0.suspects && fp !in w1.suspects
    ensures MayDrop(w0, fp)
  {
  }

  /** Where evidence comes from: a read or our close, and nothing was intended or opened since. */
  lemma {:induction false} EvidenceCame(worlds: seq<World>, acts: seq<Action>, i: nat, fp: Fp) returns (j: nat)
    requires Chain(worlds, acts) && i < |worlds| && worlds[0].evidence == map[] && fp in worlds[i].evidence
    ensures j < i && Quiet(acts, j, i, fp)
    ensures acts[j] == ClosePr(fp) || acts[j] == Witness(fp, SeenAbsent) || acts[j] == Witness(fp, SeenForeign)
  {
    var w0, a, w1 := worlds[i - 1], acts[i - 1], worlds[i - 1 + 1];
    assert Step(w0, a, w1);
    if a == ClosePr(fp) || (a.Witness? && a.fp == fp) {
      j := i - 1;
    } else {
      EvidenceWasThere(w0, a, w1, fp);
      j := EvidenceCame(worlds, acts, i - 1, fp);
    }
  }

  lemma EvidenceWasThere(w0: World, a: Action, w1: World, fp: Fp)
    requires Step(w0, a, w1) && fp in w1.evidence && a != ClosePr(fp) && !(a.Witness? && a.fp == fp)
    ensures fp in w0.evidence && a != Intend(fp) && a != OpenPr(fp)
  {
  }

  lemma Resumed(w1: seq<World>, a1: seq<Action>, w2: seq<World>, a2: seq<Action>) returns (worlds: seq<World>, acts: seq<Action>)
    requires Chain(w1, a1) && Chain(w2, a2) && w2[0] == w1[|a1|]
    ensures Chain(worlds, acts) && worlds[0] == w1[0] && worlds[|acts|] == w2[|a2|]
  {
    CrashThenResume(w1, a1, |a1|, w2, a2);
    worlds, acts := w1[..|a1|] + w2, a1[..|a1|] + a2;
  }

  // MAX_OPEN = 1.  The push for 1 is read absent twice: its slot is refunded, its entry stays.
  const START: World := World(map[1 := Ready, 2 := Ready], {}, map[], 1, [], false, {}, {}, {}, map[], 1)
  const REFUNDED: World := START.(suspects := [1], refunded := {1})
  // 2 takes the slot and is pushed,
  const PUSHED: World := REFUNDED.(rows := map[1 := Ready, 2 := Proposing], branches := {2}, suspects := [1, 2])
  // then opened and tracked.
  const TRACKED: World := REFUNDED.(rows := map[1 := Ready, 2 := Proposed(1)], branches := {2}, open := map[2 := 1], nextPr := 2)

  // the push for 1 lands after all
  const LANDED: World := TRACKED.(branches := {1, 2})

  lemma RefundedRun() returns (worlds: seq<World>, acts: seq<Action>)
    ensures Chain(worlds, acts) && worlds[0] == START && worlds[|acts|] == REFUNDED
  {
    var w1 := SetRow(START, 1, Proposing);
    var w2 := WithIntent(w1, 1);
    var w3 := w2.(refunded := {1});
    worlds, acts := [START, w1, w2, w3, REFUNDED], [Claim(1), Intend(1), Refund(1), Release(1)];
    assert Slots(w1) + {1} == {1} && Step(w1, Intend(1), w2);
    assert SetRow(w3, 1, Ready) == REFUNDED;
  }

  lemma PushedRun() returns (worlds: seq<World>, acts: seq<Action>)
    ensures Chain(worlds, acts) && worlds[0] == REFUNDED && worlds[|acts|] == PUSHED
  {
    var w1 := SetRow(REFUNDED, 2, Proposing);
    var w2 := WithIntent(w1, 2);
    worlds, acts := [REFUNDED, w1, w2, PUSHED], [Claim(2), Intend(2), Push(2)];
    assert Slots(w1) + {2} == {2} && Step(w1, Intend(2), w2);
    assert w2.(branches := {2}) == PUSHED;
  }

  lemma TrackedRun() returns (worlds: seq<World>, acts: seq<Action>)
    ensures Chain(worlds, acts) && worlds[0] == PUSHED && worlds[|acts|] == TRACKED
  {
    var w1 := WithPr(PUSHED, 2);
    var w2 := SetRow(w1, 2, Proposed(1));
    worlds, acts := [PUSHED, w1, w2, TRACKED], [OpenPr(2), Mark(2, 1), Rewrite([1])];
    assert Step(w1, Mark(2, 1), w2) && w2.suspects == [1, 2];
    assert w2.(suspects := [1], damaged := false) == TRACKED;
  }

  lemma LandedRun()
    ensures Chain([TRACKED, LANDED], [Outside])
  {
    assert Step(TRACKED, Outside, LANDED);
  }

  /** The bound is not unconditional: when the push of a refunded entry lands after all, recovery, which
      no capacity gates, opens one pull request more than MAX_OPEN. */
  lemma CapacityOvershoots() returns (worlds: seq<World>, acts: seq<Action>)
    ensures Chain(worlds, acts) && Inv(worlds[0]) && worlds[0].excess == {}
    ensures Count(worlds[|acts|]) > worlds[0].cap
  {
    assert Slots(START) == {};
    var w1, a1 := RefundedRun();
    var w2, a2 := PushedRun();
    worlds, acts := Resumed(w1, a1, w2, a2);
    w2, a2 := TrackedRun();
    worlds, acts := Resumed(worlds, acts, w2, a2);
    LandedRun();
    worlds, acts := Resumed(worlds, acts, [TRACKED, LANDED], [Outside]);
    assert LANDED.open.Keys - LANDED.handed == {2};
    w2, a2 := StrayOvershoots(LANDED, 1);
    worlds, acts := Resumed(worlds, acts, w2, a2);
  }

  // The mark for 2 is fenced out because its claim was reaped; the pull request is closed, the entry cleared.
  const CLEARED: World := PUSHED.(rows := map[1 := Ready, 2 := Ready], nextPr := 2, evidence := map[2 := ClosedByUs], suspects := [1])

  lemma ClearedRun() returns (worlds: seq<World>, acts: seq<Action>)
    ensures Chain(worlds, acts) && worlds[0] == PUSHED && worlds[|acts|] == CLEARED
  {
    var w1 := WithPr(PUSHED, 2);
    var w2 := SetRow(w1, 2, Ready);
    var w3 := Closed(w2, 2);
    worlds, acts := [PUSHED, w1, w2, w3, CLEARED], [OpenPr(2), Outside, ClosePr(2), Rewrite([1])];
    assert Step(w1, Outside, w2) && w3.suspects == [1, 2];
    assert w3.(suspects := [1], damaged := false) == CLEARED;
  }

  /** The source breaks its own rule: an entry is cleared while its own branch is on the remote, although the class is
      neither tracked nor handed over. */
  lemma ClearLeavesBranch() returns (worlds: seq<World>, acts: seq<Action>)
    ensures Chain(worlds, acts) && Inv(worlds[0]) && worlds[|acts|] == CLEARED
    ensures 2 in CLEARED.branches && 2 !in CLEARED.suspects && !RowOf(CLEARED, 2).Proposed? && 2 !in CLEARED.handed
  {
    assert Slots(START) == {};
    var w1, a1 := RefundedRun();
    var w2, a2 := PushedRun();
    worlds, acts := Resumed(w1, a1, w2, a2);
    w2, a2 := ClearedRun();
    worlds, acts := Resumed(worlds, acts, w2, a2);
  }
}
