/**
  One tick of the proposer: reconcile, resolve the suspects of earlier ticks, then scan the ready
  candidates, with the counters that gate creation against MAX_OPEN.
 */
module Proposer {
  import opened Collections
  import opened ProposerWorld
  import opened ProposerRemote
  import opened FairScan

  function ReadyRows(w: World): set<Fp> {
    set fp | fp in w.rows && w.rows[fp].Ready?
  }

  /** What list_proposed lists. */
  function Tracked(w: World): set<Fp> {
    set fp | fp in w.rows && w.rows[fp].Proposed?
  }

  /** `slots` has room for `fp` if it holds a slot, and a reservation is backed by the file. */
  ghost predicate PaysFor(slots: set<Fp>, reserved: set<Fp>, w: World, fp: Fp) {
    && (HoldsSlot(w, fp) ==> fp in slots)
    && (fp in reserved ==> fp in slots && fp in w.suspects)
  }

  ghost predicate PaysOthers(slots: set<Fp>, reserved: set<Fp>, w: World, fp: Fp) {
    forall x :: x != fp ==> PaysFor(slots, reserved, w, x)
  }

  lemma PaysOthersOn(slots: set<Fp>, reserved: set<Fp>, slots': set<Fp>, reserved': set<Fp>, w: World, fp: Fp)
    requires PaysOthers(slots, reserved, w, fp)
    requires slots - {fp} <= slots' && reserved' <= reserved
    ensures PaysOthers(slots', reserved', w, fp)
  {
    forall x | x != fp
      ensures PaysFor(slots', reserved', w, x)
    {
      assert PaysFor(slots, reserved, w, x);
    }
  }

  /** A suspect that leaves the file: its row is tracked and counted, or the human has it, or nothing
      of it exists. */
  ghost predicate Settled(w: World, slots: set<Fp>, fp: Fp) {
    && (RowOf(w, fp).Proposed? ==> fp in slots)
    && (RowOf(w, fp).Proposed? || fp in w.handed || (fp in w.refunded && fp !in w.open && fp in w.evidence))
  }

  /** Suspect resolution after `i` entries: every entry seen is kept or settled, and every tracked
      row is counted in `slots` or kept. */
  ghost predicate PassInv(w: World, slots: set<Fp>, entries: seq<Fp>, i: nat, inflight: set<Fp>, tracked: set<Fp>, kept: set<Fp>) {
    && NoDup(entries) && i <= |entries| && inflight <= slots
    && (forall x :: x in w.suspects <==> x in entries)
    && (forall j :: i <= j < |entries| && entries[j] !in inflight ==> !InFlightRow(RowOf(w, entries[j])))
    && (forall j :: i <= j < |entries| ==> (entries[j] in tracked <==> RowOf(w, entries[j]).Proposed?))
    && (forall x :: x in kept ==> x in entries[..i])
    && (forall j :: 0 <= j < i ==> entries[j] in kept || Settled(w, slots, entries[j]))
    && (forall x :: RowOf(w, x).Proposed? ==> x in slots || x in kept)
  }

  lemma PassStep(w0: World, slots0: set<Fp>, w1: World, slots1: set<Fp>,
                 entries: seq<Fp>, i: nat, inflight: set<Fp>, tracked: set<Fp>, kept: set<Fp>, keep: bool)
    requires i < |entries| && PassInv(w0, slots0, entries, i, inflight, tracked, kept)
    requires StillBut(w0, w1, entries[i]) && entries[i] in w1.suspects && slots0 <= slots1
    requires keep || Settled(w1, slots1, entries[i])
    ensures PassInv(w1, slots1, entries, i + 1, inflight, tracked, if keep then kept + {entries[i]} else kept)
  {
    var s, kept1 := entries[i], if keep then kept + {entries[i]} else kept;
    assert entries[..i + 1] == entries[..i] + [s];
    forall j | 0 <= j < |entries| && j != i
      ensures Same(w0, w1, entries[j])
    {
      assert entries[j] != s;
    }
    forall x
      ensures x in w1.suspects <==> x in entries
      ensures RowOf(w1, x).Proposed? ==> x in slots1 || x in kept1
    {
      if x != s {
        assert Same(w0, w1, x);
      }
    }
    forall j | 0 <= j < i + 1
      ensures entries[j] in kept1 || Settled(w1, slots1, entries[j])
    {
      if j < i {
        assert Same(w0, w1, entries[j]);
      }
    }
  }

  lemma PassMayDrop(w: World, slots: set<Fp>, entries: seq<Fp>, inflight: set<Fp>, tracked: set<Fp>, kept: seq<Fp>, keptSet: set<Fp>)
    requires PassInv(w, slots, entries, |entries|, inflight, tracked, keptSet)
    requires NoDup(kept) && forall x :: x in kept <==> x in keptSet
    ensures CanSave(w, kept)
  {
    forall fp | fp in w.suspects && fp !in kept
      ensures MayDrop(w, fp)
    {
      var j :| 0 <= j < |entries| && entries[j] == fp;
      assert entries[j] in keptSet || Settled(w, slots, entries[j]);
    }
  }

  /** When resolution ends, the ledger's count plus the reservations cover every slot in use. */
  lemma PassEnd(w0: World, slots: set<Fp>, entries: seq<Fp>, inflight: set<Fp>, tracked: set<Fp>, kept: seq<Fp>, keptSet: set<Fp>, w1: World, fp: Fp)
    requires PassInv(w0, slots, entries, |entries|, inflight, tracked, keptSet)
    requires forall x :: x in kept <==> x in keptSet
    requires Inv(w1) && SavedFrom(w0, kept, w1) && HoldsSlot(w1, fp)
    ensures fp in slots + (keptSet - inflight)
  {
    assert fp in w1.open ==> Accounted(w1, fp);
    assert ProposedAlike(w0, w1, fp);
    if fp in w0.suspects {
      var j :| 0 <= j < |entries| && entries[j] == fp;
      assert entries[j] in keptSet || Settled(w0, slots, entries[j]);
    }
  }

  lemma PassCovers(w0: World, slots: set<Fp>, entries: seq<Fp>, inflight: set<Fp>, tracked: set<Fp>, kept: seq<Fp>,
                   keptSet: set<Fp>, w1: World, reserved: set<Fp>)
    requires PassInv(w0, slots, entries, |entries|, inflight, tracked, keptSet)
    requires forall x :: x in kept <==> x in keptSet
    requires Inv(w1) && SavedFrom(w0, kept, w1) && reserved == (set s | s in kept) - inflight
    ensures forall fp :: PaysFor(slots + reserved, reserved, w1, fp)
  {
    forall fp
      ensures PaysFor(slots + reserved, reserved, w1, fp)
    {
      if HoldsSlot(w1, fp) {
        PassEnd(w0, slots, entries, inflight, tracked, kept, keptSet, w1, fp);
      }
    }
  }

  lemma ReleasedSize(a: set<Fp>, b: set<Fp>, fp: Fp)
    requires b == a || b == a - {fp}
    ensures |a| - 1 <= |b| <= |a|
  {
  }

  lemma UnionSize(a: set<Fp>, b: set<Fp>)
    ensures |a + b| <= |a| + |b|
  {
  }

  // ---- what a tick does when nobody interferes and nothing fails ---------------------------------

  /** The ledger tracks the open pull request of this number, and the branch is there. */
  ghost predicate Tracks(w: World, fp: Fp, pr: nat) {
    RowOf(w, fp) == Proposed(pr) && fp in w.open && w.open[fp] == pr && fp in w.branches
  }

  /** Tracked, and no longer in the file (which can be rewritten unless it is damaged). */
  ghost predicate TrackedNow(w0: World, w1: World, fp: Fp, pr: nat) {
    Tracks(w1, fp, pr) && (!w0.damaged ==> fp !in w1.suspects)
  }

  /** A new pull request, tracked. */
  ghost predicate Proposes(w0: World, w1: World, fp: Fp) {
    TrackedNow(w0, w1, fp, w0.nextPr) && w1.nextPr == w0.nextPr + 1
  }

  /** Out of the file; everything else about the candidate as before. */
  ghost predicate Cleared(w0: World, w1: World, fp: Fp) {
    && RowOf(w1, fp) == RowOf(w0, fp) && w1.branches == w0.branches && w1.open == w0.open && w1.nextPr == w0.nextPr
    && w1.damaged == w0.damaged && w1.cap == w0.cap && (!w0.damaged ==> fp !in w1.suspects)
  }

  /** Without a branch the pull request is made, unless creation is spent; a branch is left alone. */
  ghost predicate MadeIfRoom(w0: World, w1: World, fp: Fp, spent: bool) {
    if fp in w0.branches then w1 == w0 else Proposes(w0, w1, fp) || (spent && w1 == w0)
  }

  /** A candidate that is ready: an open pull request is adopted; a reserved stranded branch gets its pull request, any
      other branch is left alone; without a branch the pull request is made, unless creation is spent. */
  ghost predicate Handled(w0: World, w1: World, fp: Fp, wasReserved: bool, spent: bool) {
    && (fp in w0.open ==> TrackedNow(w0, w1, fp, w0.open[fp]))
    && (fp !in w0.open && fp in w0.branches ==> if wasReserved then Proposes(w0, w1, fp) else w1 == w0)
    && (fp !in w0.open && fp !in w0.branches ==> Proposes(w0, w1, fp) || (spent && RowOf(w1, fp).Ready?))
    && w0.nextPr <= w1.nextPr
  }

  /** The same, seen from the end of the scan. */
  ghost predicate Served(w0: World, w1: World, fp: Fp, wasReserved: bool, spent: bool) {
    if fp in w0.open then Tracks(w1, fp, w0.open[fp])
    else if fp in w0.branches && !wasReserved then Untouched(w0, w1, fp)
    else if fp in w0.branches then NewlyTracked(w1, fp)
    else NewlyTracked(w1, fp) || (spent && RowOf(w1, fp).Ready?)
  }

  ghost predicate NewlyTracked(w: World, fp: Fp) { RowOf(w, fp).Proposed? && Tracks(w, fp, RowOf(w, fp).pr) }

  lemma HandledServes(w0: World, w: World, w1: World, fp: Fp, wasReserved: bool, spent: bool)
    requires Untouched(w0, w, fp) && Handled(w, w1, fp, wasReserved, spent)
    ensures Served(w0, w1, fp, wasReserved, spent)
  {
  }

  lemma ServedStays(w0: World, w: World, w1: World, fp: Fp, wasReserved: bool, spent: bool, spent': bool)
    requires Served(w0, w, fp, wasReserved, spent) && Untouched(w, w1, fp) && (spent ==> spent')
    ensures Served(w0, w1, fp, wasReserved, spent')
  {
  }

  /** The first k of the page are served, the others as they were. */
  ghost predicate Scanned(w0: World, w: World, page: seq<Fp>, k: nat, renders: Fp -> bool, reserved0: set<Fp>, reserved: set<Fp>, spent: bool)
    requires k <= |page|
  {
    && w.damaged == w0.damaged
    && (forall j: nat :: j < k && renders(page[j]) ==> Served(w0, w, page[j], page[j] in reserved0, spent))
    && (forall x :: x !in page[..k] ==> Untouched(w0, w, x)) && reserved <= reserved0
    && (forall j: nat :: k <= j < |page| ==> (page[j] in reserved <==> page[j] in reserved0))
  }

  lemma ScannedOne(w0: World, w: World, w1: World, page: seq<Fp>, k: nat, renders: Fp -> bool, reserved0: set<Fp>,
                   reserved: set<Fp>, reserved': set<Fp>, spent: bool, spent': bool)
    requires k < |page| && Ascending(page) && Scanned(w0, w, page, k, renders, reserved0, reserved, spent)
    requires OnlyAt(w, w1, page[k]) && (spent ==> spent') && (reserved' == reserved || reserved' == reserved - {page[k]})
    requires renders(page[k]) ==> Handled(w, w1, page[k], page[k] in reserved, spent')
    ensures Scanned(w0, w1, page, k + 1, renders, reserved0, reserved', spent')
  {
    forall j: nat | j < |page| && j != k
      ensures page[j] != page[k] && Untouched(w, w1, page[j])
    {
      assert page[if j < k then j else k] < page[if j < k then k else j];
    }
    forall j: nat | j < k + 1 && renders(page[j])
      ensures Served(w0, w1, page[j], page[j] in reserved0, spent')
    {
      if j < k {
        ServedStays(w0, w, w1, page[j], page[j] in reserved0, spent, spent');
      } else {
        assert page[k] !in page[..k];
        HandledServes(w0, w, w1, page[k], page[k] in reserved, spent');
      }
    }
    forall x | x !in page[..k + 1]
      ensures Untouched(w0, w1, x)
    {
      assert page[..k + 1] == page[..k] + [page[k]];
      assert Untouched(w0, w, x) && Untouched(w, w1, x);
    }
  }

  /** One ready row worked on: the rows in flight are those there were, and it if it is tracked. */
  lemma InFlightOne(w0: World, w1: World, fp: Fp)
    requires OnlyAt(w0, w1, fp) && !InFlightRow(RowOf(w0, fp)) && !RowOf(w1, fp).Proposing?
    ensures |InFlight(w1)| == |InFlight(w0)| + if RowOf(w1, fp).Proposed? then 1 else 0
  {
    forall x
      ensures x in InFlight(w1) <==> x in InFlight(w0) || (x == fp && RowOf(w1, fp).Proposed?)
    {
      assert x != fp ==> Untouched(w0, w1, x);
    }
    assert InFlight(w1) == InFlight(w0) + if RowOf(w1, fp).Proposed? then {fp} else {};
  }

  /** What becomes of a suspect that was looked up: a ready one of which something exists is tracked; of one that is not
      ready, what exists stays in the file while its claim is in flight, and else goes to the human; one of which
      nothing exists is let go. */
  ghost predicate Disposed(w0: World, w1: World, s: Fp, inflight: bool, keep: bool) {
    if s !in w0.open && s !in w0.branches then !keep && RowOf(w1, s) == RowOf(w0, s) && s !in w1.open
    else if RowOf(w0, s).Ready? then !keep && NewlyTracked(w1, s) && (s in w0.open ==> w1.open[s] == w0.open[s])
    else if inflight then keep && Untouched(w0, w1, s)
    else !keep && RowOf(w1, s) == RowOf(w0, s) && s in w1.handed
  }

  lemma InFlightSame(w0: World, w1: World, fp: Fp)
    requires (forall x :: x != fp ==> Untouched(w0, w1, x)) && RowOf(w1, fp) == RowOf(w0, fp)
    ensures InFlight(w1) == InFlight(w0)
  {
    forall x
      ensures x in InFlight(w1) <==> x in InFlight(w0)
    {
      assert x != fp ==> Untouched(w0, w1, x);
    }
  }

  /** What becomes of an entry of the file in the pass. */
  ghost predicate PassedBy(w0: World, w1: World, s: Fp, tracked: set<Fp>, inflight: set<Fp>, keep: bool) {
    if s in tracked then !keep && Untouched(w0, w1, s) else Disposed(w0, w1, s, s in inflight, keep)
  }

  /** The first i entries are disposed of, everything else is as it was. */
  ghost predicate PassedTo(w0: World, w: World, entries: seq<Fp>, i: nat, tracked: set<Fp>, inflight: set<Fp>, kept: set<Fp>)
    requires i <= |entries|
  {
    && (forall j: nat :: j < i ==> PassedBy(w0, w, entries[j], tracked, inflight, entries[j] in kept))
    && forall x :: x !in entries[..i] ==> Untouched(w0, w, x)
  }

  lemma PassedByStays(w0: World, w: World, w1: World, s: Fp, tracked: set<Fp>, inflight: set<Fp>, keep: bool)
    requires PassedBy(w0, w, s, tracked, inflight, keep) && Untouched(w, w1, s)
    ensures PassedBy(w0, w1, s, tracked, inflight, keep)
  {
  }

  lemma PassedByHere(w0: World, w: World, w1: World, s: Fp, tracked: set<Fp>, inflight: set<Fp>, keep: bool)
    requires Untouched(w0, w, s) && PassedBy(w, w1, s, tracked, inflight, keep)
    ensures PassedBy(w0, w1, s, tracked, inflight, keep)
  {
  }

  lemma PassedOne(w0: World, w: World, w1: World, entries: seq<Fp>, i: nat, tracked: set<Fp>, inflight: set<Fp>, kept: set<Fp>, keep: bool)
    requires NoDup(entries) && i < |entries| && PassedTo(w0, w, entries, i, tracked, inflight, kept)
    requires OnlyAt(w, w1, entries[i]) && PassedBy(w, w1, entries[i], tracked, inflight, keep) && entries[i] !in kept
    ensures PassedTo(w0, w1, entries, i + 1, tracked, inflight, if keep then kept + {entries[i]} else kept)
  {
    var s, kept1 := entries[i], if keep then kept + {entries[i]} else kept;
    assert entries[..i + 1] == entries[..i] + [s];
    assert s !in entries[..i];
    forall j: nat | j < i + 1
      ensures PassedBy(w0, w1, entries[j], tracked, inflight, entries[j] in kept1)
    {
      if j < i {
        assert entries[j] != s && Untouched(w, w1, entries[j]);
        PassedByStays(w0, w, w1, entries[j], tracked, inflight, entries[j] in kept);
      } else {
        PassedByHere(w0, w, w1, s, tracked, inflight, keep);
      }
    }
    forall x | x !in entries[..i + 1]
      ensures Untouched(w0, w1, x)
    {
      assert x != s && x !in entries[..i];
      assert Untouched(w0, w, x) && Untouched(w, w1, x);
    }
  }

  /** What becomes of a suspect when all of them were looked up. */
  ghost predicate Resolved(w0: World, w1: World, s: Fp) {
    && (s in w1.suspects <==> RowOf(w0, s).Proposing? && (s in w0.open || s in w0.branches))
    && if RowOf(w0, s).Ready? && (s in w0.open || s in w0.branches) then
         NewlyTracked(w1, s) && (s in w0.open ==> w1.open[s] == w0.open[s])
       else
         RowOf(w1, s) == RowOf(w0, s) && (RowOf(w0, s).Idle? && (s in w0.open || s in w0.branches) ==> s in w1.handed)
  }

  lemma SavedInFlight(w: World, kept: seq<Fp>)
    ensures InFlight(w.(suspects := kept, damaged := false)) == InFlight(w)
  {
  }

  lemma AllResolved(w0: World, w: World, entries: seq<Fp>, inflight: set<Fp>, tracked: set<Fp>, kept: seq<Fp>, keptSet: set<Fp>)
    requires PassedTo(w0, w, entries, |entries|, tracked, inflight, keptSet)
    requires inflight == InFlight(w0) && tracked == Tracked(w0)
    requires (forall x :: x in kept <==> x in keptSet) && (forall x :: x in keptSet ==> x in entries)
    ensures forall x :: x in entries ==> Resolved(w0, w.(suspects := kept, damaged := false), x)
    ensures (set x | x in kept) - inflight == {}
  {
    forall x | x in entries
      ensures Resolved(w0, w.(suspects := kept, damaged := false), x) && (x in kept ==> x in inflight)
    {
      var j: nat :| j < |entries| && entries[j] == x;
      assert PassedBy(w0, w, entries[j], tracked, inflight, entries[j] in keptSet);
    }
  }

  class Tick {
    const site: Site
    const renders: Fp -> bool      // the candidate's repository, slug and text can be made out
    const resolves: Fp -> bool     // the repository is still allowed
    const expired: Fp -> bool      // the pull request is past its time to live
    const maxPerTick: nat
    const probeBudget: nat
    var nOpen: int
    var created: nat
    var attempts: nat
    var probes: nat
    var reserved: set<Fp>
    var suspectsOk: bool
    ghost var slots: set<Fp>   // the fingerprints `nOpen` pays for

    constructor (site: Site, maxPerTick: nat, probeCap: nat, renders: Fp -> bool, resolves: Fp -> bool, expired: Fp -> bool)
      ensures this.site == site && this.maxPerTick == maxPerTick
      ensures probeBudget == if probeCap > site.w.cap then probeCap else site.w.cap + 1
      ensures this.renders == renders && this.resolves == resolves && this.expired == expired
      ensures nOpen == 0 && created == attempts == probes == 0 && reserved == {} && slots == {}
    {
      this.site, this.maxPerTick := site, maxPerTick;
      this.renders, this.resolves, this.expired := renders, resolves, expired;
      probeBudget := if probeCap > site.w.cap then probeCap else site.w.cap + 1;
      nOpen, created, attempts, probes, reserved, suspectsOk, slots := 0, 0, 0, 0, {}, true, {};
    }

    /** The bookkeeping while one fingerprint is worked on: `nOpen` pays for every slot in use. */
    ghost predicate Balanced(fp: Fp)
      reads this, site
    {
      if suspectsOk then
        && |slots| <= nOpen
        && PaysOthers(slots, reserved, site.base, fp) && PaysFor(slots, reserved, site.w, fp)
      else
        reserved == {}
    }

    /** Between candidates: the in-tick count is never below the slots in use. */
    ghost predicate Covered()
      reads this, site
    {
      if suspectsOk then
        |slots| <= nOpen && forall x :: PaysFor(slots, reserved, site.w, x)
      else
        reserved == {}
    }

    lemma CoveredBounds()
      requires Covered() && suspectsOk
      ensures |Slots(site.w)| <= nOpen
    {
      forall x | x in Slots(site.w)
        ensures x in slots
      {
        assert PaysFor(slots, reserved, site.w, x);
      }
      SubsetSize(Slots(site.w), slots);
    }

    /** The file keeps what is unresolved; each kept entry the ledger does not count is reserved. */
    method FinishPass(entries: seq<Fp>, inflight: set<Fp>, ghost tracked: set<Fp>, kept: seq<Fp>, ghost keptSet: set<Fp>)
      requires site.Valid() && |slots| <= nOpen && suspectsOk
      requires PassInv(site.w, slots, entries, |entries|, inflight, tracked, keptSet)
      requires NoDup(kept) && (forall x :: x in kept <==> x in keptSet)
      modifies this`nOpen, this`slots, this`reserved, site`w, site`worlds, site`acts, site`drawn, site`base
      ensures site.Valid() && Covered()
      ensures site.calm ==>
                site.w == old(site.w).(suspects := kept, damaged := false) && reserved == (set x | x in kept) - inflight && nOpen == old(nOpen) + |reserved|
    {
      ghost var w0 := site.w;
      PassMayDrop(w0, slots, entries, inflight, tracked, kept, keptSet);
      site.SaveSuspects(kept);
      reserved := (set s | s in kept) - inflight;
      nOpen := nOpen + |reserved|;
      PassCovers(w0, slots, entries, inflight, tracked, kept, keptSet, site.w, reserved);
      UnionSize(slots, reserved);
      slots := slots + reserved;
    }

    lemma CoveredBalances(fp: Fp)
      requires site.base == site.w && Covered()
      ensures Balanced(fp)
    {
      if suspectsOk {
        assert PaysFor(slots, reserved, site.w, fp);
      }
    }

    lemma BalancedCovers(fp: Fp)
      requires site.Valid() && site.focus == fp && Balanced(fp)
      ensures Covered()
    {
      if suspectsOk {
        forall x
          ensures PaysFor(slots, reserved, site.w, x)
        {
          assert x != fp ==> Same(site.base, site.w, x) && PaysFor(slots, reserved, site.base, x);
        }
      }
    }

    predicate CreateSpent()
      reads this, site
    {
      !suspectsOk || nOpen >= site.w.cap || created >= maxPerTick || attempts >= maxPerTick
    }

    /** Nobody interferes, nothing fails, and the candidate is ready. */
    twostate predicate Smooth(fp: Fp)
      reads this, site
    {
      site.calm && (suspectsOk ==> !old(site.w).damaged) && RowOf(old(site.w), fp).Ready?
    }

    /** The count beyond the reservations went up by one exactly if the candidate is tracked now. */
    twostate predicate Counted(fp: Fp)
      reads this, site
    {
      nOpen - |reserved| == old(nOpen) - |old(reserved)| + (if RowOf(site.w, fp).Proposed? then 1 else 0)
    }

    /** And what is counted as created is tracked. */
    twostate predicate Reckoned(fp: Fp)
      reads this, site
    {
      Counted(fp) && created - old(created) == attempts - old(attempts) <= if RowOf(site.w, fp).Proposed? then 1 else 0
    }

    /** The count is the rows in flight and the reservations. */
    ghost predicate Honest()
      reads this, site
    {
      nOpen == |InFlight(site.w)| + |reserved|
    }

    /** It stays that, and no more is counted as created than came to be in flight. */
    twostate predicate Tallied()
      reads this, site
    {
      && (old(Honest()) ==> Honest())
      && created - old(created) == attempts - old(attempts) <= |InFlight(site.w)| - |InFlight(old(site.w))|
    }

    twostate predicate OnlyReleases(fp: Fp)
      reads this
    {
      reserved == old(reserved) || reserved == old(reserved) - {fp}
    }

    // ---- suspects of earlier ticks ------------------------------------------------------------

    /** One untracked suspect.  `keep` says that it stays in the file; otherwise it is settled. */
    method ResolveSuspect(s: Fp, inflight: set<Fp>) returns (keep: bool)
      requires site.Valid() && site.focus == s && s in site.w.suspects && |slots| <= nOpen
      requires !RowOf(site.w, s).Proposed? && (s !in inflight ==> !RowOf(site.w, s).Proposing?)
      modifies this`nOpen, this`probes, this`slots, site`w, site`worlds, site`acts, site`drawn
      ensures site.Ran() && s in site.w.suspects && |slots| <= nOpen
      ensures old(slots) <= slots
      ensures keep || Settled(site.w, slots, s)
      ensures old(probes) <= probes <= old(probes) + 1
      ensures site.calm ==> nOpen == old(nOpen) + if RowOf(site.w, s).Proposed? then 1 else 0
      ensures site.calm && resolves(s) ==> Disposed(old(site.w), site.w, s, s in inflight, keep)
      ensures site.calm && !resolves(s) ==> keep && site.w == old(site.w)
    {
      keep := true;
      if resolves(s) {
        probes := probes + 1;
        var found := site.FindOpenBotPr(s);
        match found {
          case Found(pr) => keep := AdoptSuspect(s, pr, inflight);
          case Nothing => keep := SettleOrRecover(s, inflight);
          case Unclear =>
        }
      }
    }

    /** The orphan is real: track it.  A claim that the ledger refuses for good is handed over. */
    method AdoptSuspect(s: Fp, pr: nat, inflight: set<Fp>) returns (keep: bool)
      requires site.Valid() && site.focus == s && s in site.w.suspects && |slots| <= nOpen
      requires !RowOf(site.w, s).Proposed? && (s !in inflight ==> !RowOf(site.w, s).Proposing?)
      requires s in site.w.open ==> site.w.open[s] == pr
      modifies this`nOpen, this`slots, site`w, site`worlds, site`acts, site`drawn
      ensures site.Ran() && s in site.w.suspects && |slots| <= nOpen && old(slots) <= slots
      ensures keep || Settled(site.w, slots, s)
      ensures site.calm && s in old(site.w).open ==>
                Disposed(old(site.w), site.w, s, s in inflight, keep) && nOpen == old(nOpen) + if RowOf(site.w, s).Proposed? then 1 else 0
    {
      keep := true;
      var claim := site.Claim(s);
      if claim.Yes? {
        keep := MarkSuspect(s, pr);
      } else if claim.No? && s !in inflight {
        site.HandOver(s);
        keep := false;
      }
    }

    method MarkSuspect(s: Fp, pr: nat) returns (keep: bool)
      requires site.Valid() && site.focus == s && s in site.w.suspects && |slots| <= nOpen
      requires s in site.w.open ==> site.w.open[s] == pr
      modifies this`nOpen, this`slots, site`w, site`worlds, site`acts, site`drawn
      ensures site.Ran() && s in site.w.suspects && |slots| <= nOpen && old(slots) <= slots
      ensures keep || Settled(site.w, slots, s)
      ensures site.calm && RowOf(old(site.w), s).Proposing? ==>
                !keep && nOpen == old(nOpen) + 1 && site.w == SetRow(old(site.w), s, Proposed(pr))
    {
      var mark := site.Mark(s, pr);
      keep := !mark.Yes?;
      if mark.Yes? {
        nOpen, slots := nOpen + 1, slots + {s};
      } else if mark.No? {
        var _ := site.Release(s);
      }
    }

    /** No open pull request: with no branch either nothing exists; a stranded branch is ours and
        gets its pull request without a push. */
    method SettleOrRecover(s: Fp, inflight: set<Fp>) returns (keep: bool)
      requires site.Valid() && site.focus == s && s in site.w.suspects && |slots| <= nOpen
      requires !RowOf(site.w, s).Proposed? && (s !in inflight ==> !RowOf(site.w, s).Proposing?)
      modifies this`nOpen, this`slots, site`w, site`worlds, site`acts, site`drawn
      ensures site.Ran() && s in site.w.suspects && |slots| <= nOpen && old(slots) <= slots
      ensures keep || Settled(site.w, slots, s)
      ensures site.calm && s !in old(site.w).open ==>
                Disposed(old(site.w), site.w, s, s in inflight, keep) && nOpen == old(nOpen) + if RowOf(site.w, s).Proposed? then 1 else 0
    {
      var ref := site.ReadRef(s);
      keep := true;
      if ref.Absent? {
        site.Witness(s, SeenAbsent);
        site.Refund(s);
        keep := false;
      } else if ref.Present? {
        keep := RecoverSuspect(s, inflight);
      }
    }

    method RecoverSuspect(s: Fp, inflight: set<Fp>) returns (keep: bool)
      requires site.Valid() && site.focus == s && s in site.w.suspects && |slots| <= nOpen
      requires !RowOf(site.w, s).Proposed? && (s !in inflight ==> !RowOf(site.w, s).Proposing?)
      modifies this`nOpen, this`slots, site`w, site`worlds, site`acts, site`drawn
      ensures site.Ran() && s in site.w.suspects && |slots| <= nOpen && old(slots) <= slots
      ensures keep || Settled(site.w, slots, s)
      ensures site.calm && s !in old(site.w).open && s in old(site.w).branches ==>
                Disposed(old(site.w), site.w, s, s in inflight, keep) && nOpen == old(nOpen) + if RowOf(site.w, s).Proposed? then 1 else 0
    {
      keep := true;
      var claim := site.Claim(s);
      if claim.Yes? {
        keep := OpenStranded(s);
      } else if claim.No? && s !in inflight {
        site.HandOver(s);
        keep := false;
      }
    }

    method OpenStranded(s: Fp) returns (keep: bool)
      requires site.Valid() && site.focus == s && s in site.w.suspects && |slots| <= nOpen
      requires !RowOf(site.w, s).Proposed?
      modifies this`nOpen, this`slots, site`w, site`worlds, site`acts, site`drawn
      ensures site.Ran() && s in site.w.suspects && |slots| <= nOpen && old(slots) <= slots
      ensures keep || Settled(site.w, slots, s)
      ensures site.calm && RowOf(old(site.w), s).Proposing? && s in old(site.w).branches && s !in old(site.w).open ==>
                !keep && nOpen == old(nOpen) + 1 && NewlyTracked(site.w, s)
    {
      keep := true;
      var pr := site.CreatePr(s);
      if pr.Opened? {
        keep := MarkSuspect(s, pr.pr);
      } else {
        var _ := site.Release(s);
      }
    }

    /** There are probes for every entry, and every entry can be looked up. */
    ghost predicate AllLooked(entries: seq<Fp>) {
      |entries| <= probeBudget && forall x :: x in entries ==> resolves(x)
    }

    /** Count, then the resolution pass.  Afterwards `nOpen` covers every slot in use. */
    method ResolveSuspects()
      requires site.Valid() && probes == 0
      modifies this`nOpen, this`probes, this`slots, this`reserved, this`suspectsOk
      modifies site`w, site`worlds, site`acts, site`drawn, site`base, site`focus
      ensures site.Valid() && Covered()
      ensures probes <= probeBudget && probes <= |old(site.w.suspects)|
      ensures site.calm ==> Honest() && suspectsOk == !old(site.w).damaged && site.w.damaged == old(site.w).damaged
      ensures site.calm && suspectsOk && AllLooked(old(site.w).suspects) ==>
                reserved == {} && forall x :: x in old(site.w).suspects ==> Resolved(old(site.w), site.w, x)
    {
      CountOpen();
      if suspectsOk {
        var entries, inflight, tracked := site.w.suspects, InFlight(site.w), Tracked(site.w);
        ResolveEntries(entries, inflight, tracked);
      }
    }

    /** count_open_proposals, then the read of the suspects file and of the rows. */
    method CountOpen()
      requires site.Valid()
      modifies this`nOpen, this`slots, this`reserved, this`suspectsOk, site`w, site`worlds, site`acts, site`drawn
      ensures site.Valid() && reserved == {} && |slots| <= nOpen && site.w.suspects == old(site.w.suspects)
      ensures PassInv(site.w, slots, site.w.suspects, 0, InFlight(site.w), Tracked(site.w), {})
      ensures site.calm ==> site.w == old(site.w) && suspectsOk == !old(site.w).damaged && nOpen == |InFlight(old(site.w))|
    {
      ghost var counted := site.w;
      nOpen, slots := |InFlight(site.w)|, InFlight(site.w);
      site.Interfere();
      reserved := {};
      suspectsOk := !site.w.damaged;
      FreshPass(counted, site.w, slots);
    }

    method ResolveEntries(entries: seq<Fp>, inflight: set<Fp>, tracked: set<Fp>)
      requires site.Valid() && |slots| <= nOpen && probes == 0 && suspectsOk
      requires PassInv(site.w, slots, entries, 0, inflight, tracked, {})
      modifies this`nOpen, this`probes, this`slots, this`reserved
      modifies site`w, site`worlds, site`acts, site`drawn, site`base, site`focus
      ensures site.Valid() && Covered()
      ensures probes <= probeBudget && probes <= |entries|
      ensures site.calm && !old(site.w).damaged && old(nOpen) == |InFlight(old(site.w))| ==> Honest() && !site.w.damaged
      ensures site.calm && AllLooked(entries) && inflight == InFlight(old(site.w)) && tracked == Tracked(old(site.w)) ==>
                reserved == {} && forall x :: x in entries ==> Resolved(old(site.w), site.w, x)
    {
      var kept, keptSet := PassOver(entries, inflight, tracked);
      ghost var w1 := site.w;
      FinishPass(entries, inflight, tracked, kept, keptSet);
      if site.calm {
        SavedInFlight(w1, kept);
        if AllLooked(entries) && inflight == InFlight(old(site.w)) && tracked == Tracked(old(site.w)) {
          AllResolved(old(site.w), w1, entries, inflight, tracked, kept, keptSet);
        }
      }
    }

    method PassOver(entries: seq<Fp>, inflight: set<Fp>, tracked: set<Fp>) returns (kept: seq<Fp>, ghost keptSet: set<Fp>)
      requires site.Valid() && |slots| <= nOpen && probes == 0
      requires PassInv(site.w, slots, entries, 0, inflight, tracked, {})
      modifies this`nOpen, this`probes, this`slots, site`w, site`worlds, site`acts, site`drawn, site`base, site`focus
      ensures site.Valid() && |slots| <= nOpen && probes <= probeBudget && probes <= |entries|
      ensures PassInv(site.w, slots, entries, |entries|, inflight, tracked, keptSet)
      ensures NoDup(kept) && (forall x :: x in kept <==> x in keptSet)
      ensures site.calm ==>
                site.w.damaged == old(site.w).damaged && nOpen - |InFlight(site.w)| == old(nOpen) - |InFlight(old(site.w))|
      ensures site.calm && AllLooked(entries) ==>
                PassedTo(old(site.w), site.w, entries, |entries|, tracked, inflight, keptSet)
    {
      keptSet := {};
      var deferred: seq<Fp>, remaining: seq<Fp> := [], [];
      for i := 0 to |entries|
        invariant site.Valid() && |slots| <= nOpen && probes <= i && probes <= probeBudget
        invariant PassInv(site.w, slots, entries, i, inflight, tracked, keptSet)
        invariant site.calm ==>
                    site.w.damaged == old(site.w).damaged && nOpen - |InFlight(site.w)| == old(nOpen) - |InFlight(old(site.w))|
        invariant site.calm && AllLooked(entries) ==> PassedTo(old(site.w), site.w, entries, i, tracked, inflight, keptSet)
        invariant Lists(deferred + remaining, keptSet)
      {
        var late := probes >= probeBudget;
        var keep := PassAndNote(entries, i, inflight, tracked, keptSet, old(site.w));
        ListsOneMore(deferred, remaining, keptSet, entries[i], keep, late);
        deferred := if keep && late then deferred + [entries[i]] else deferred;
        remaining := if keep && !late then remaining + [entries[i]] else remaining;
        keptSet := if keep then keptSet + {entries[i]} else keptSet;
      }
      kept := deferred + remaining;
    }

    method PassAndNote(entries: seq<Fp>, i: nat, inflight: set<Fp>, tracked: set<Fp>, ghost kept: set<Fp>, ghost start: World)
      returns (keep: bool)
      requires site.Valid() && |slots| <= nOpen && probes <= i && probes <= probeBudget && i < |entries|
      requires PassInv(site.w, slots, entries, i, inflight, tracked, kept)
      requires site.calm && AllLooked(entries) ==> PassedTo(start, site.w, entries, i, tracked, inflight, kept)
      modifies this`nOpen, this`probes, this`slots, site`w, site`worlds, site`acts, site`drawn, site`base, site`focus
      ensures site.Valid() && |slots| <= nOpen && probes <= i + 1 && probes <= probeBudget
      ensures PassInv(site.w, slots, entries, i + 1, inflight, tracked, if keep then kept + {entries[i]} else kept)
      ensures entries[i] !in kept
      ensures site.calm ==>
                site.w.damaged == old(site.w).damaged && nOpen - |InFlight(site.w)| == old(nOpen) - |InFlight(old(site.w))|
      ensures site.calm && AllLooked(entries) ==>
                PassedTo(start, site.w, entries, i + 1, tracked, inflight, if keep then kept + {entries[i]} else kept)
    {
      keep := PassOne(entries, i, inflight, tracked, kept);
      if site.calm && AllLooked(entries) {
        PassedOne(start, old(site.w), site.w, entries, i, tracked, inflight, kept, keep);
      }
    }

    method PassOne(entries: seq<Fp>, i: nat, inflight: set<Fp>, tracked: set<Fp>, ghost kept: set<Fp>) returns (keep: bool)
      requires site.Valid() && |slots| <= nOpen && probes <= i && probes <= probeBudget && i < |entries|
      requires PassInv(site.w, slots, entries, i, inflight, tracked, kept)
      modifies this`nOpen, this`probes, this`slots, site`w, site`worlds, site`acts, site`drawn, site`base, site`focus
      ensures site.Valid() && |slots| <= nOpen && probes <= i + 1 && probes <= probeBudget
      ensures PassInv(site.w, slots, entries, i + 1, inflight, tracked, if keep then kept + {entries[i]} else kept)
      ensures entries[i] !in kept
      ensures site.calm ==>
                OnlyAt(old(site.w), site.w, entries[i]) && nOpen - |InFlight(site.w)| == old(nOpen) - |InFlight(old(site.w))|
      ensures site.calm && old(probes) < probeBudget && resolves(entries[i]) ==>
                PassedBy(old(site.w), site.w, entries[i], tracked, inflight, keep)
    {
      var s := entries[i];
      ghost var w0, slots0 := site.w, slots;
      site.Focus(s);
      if s in tracked {
        keep := false;
      } else if probes >= probeBudget {
        keep := true;
      } else {
        keep := ResolveSuspect(s, inflight);
        if site.calm {
          if InFlightRow(RowOf(w0, s)) || !RowOf(site.w, s).Proposed? {
            InFlightSame(w0, site.w, s);
          } else {
            InFlightOne(w0, site.w, s);
          }
        }
      }
      PassStep(w0, slots0, site.w, slots, entries, i, inflight, tracked, kept, keep);
    }

    // ---- the ready scan -----------------------------------------------------------------------

    /** One ready candidate.  `false`: the probe budget was spent and nothing was done. */
    method Candidate(fp: Fp) returns (done: bool)
      requires site.Valid() && site.focus == fp && site.base == site.w
      requires Covered() && !RowOf(site.w, fp).Proposed?
      modifies this`nOpen, this`created, this`attempts, this`probes, this`reserved, this`slots
      modifies site`w, site`worlds, site`acts, site`drawn
      ensures site.Ran() && Covered()
      ensures !done ==> old(probes) >= probeBudget
      ensures old(attempts) <= attempts && (attempts > old(attempts) ==> attempts <= maxPerTick)
      ensures old(probes) <= probes && (probes > old(probes) ==> probes <= probeBudget)
      ensures Smooth(fp) ==> Tallied()
      ensures Smooth(fp) && done && renders(fp) ==> Handled(old(site.w), site.w, fp, fp in old(reserved), CreateSpent())
      ensures site.calm && (!done || !renders(fp)) ==> site.w == old(site.w) && reserved == old(reserved)
      ensures OnlyReleases(fp)
      ensures Smooth(fp) && old(CreateSpent()) ==> CreateSpent()
    {
      done := true;
      if renders(fp) {
        if probes >= probeBudget {
          return false;
        }
        probes := probes + 1;
        ProbeCovered(fp);
      }
    }

    method ProbeCovered(fp: Fp)
      requires site.Valid() && site.focus == fp && site.base == site.w
      requires Covered() && !RowOf(site.w, fp).Proposed?
      modifies this`nOpen, this`created, this`attempts, this`reserved, this`slots
      modifies site`w, site`worlds, site`acts, site`drawn
      ensures site.Ran() && Covered() && OnlyReleases(fp)
      ensures old(attempts) <= attempts && (attempts > old(attempts) ==> attempts <= maxPerTick)
      ensures Smooth(fp) ==> Tallied() && (old(CreateSpent()) ==> CreateSpent())
      ensures Smooth(fp) ==> Handled(old(site.w), site.w, fp, fp in old(reserved), CreateSpent())
    {
      CoveredBalances(fp);
      Probe(fp);
      ReleasedSize(old(reserved), reserved, fp);
      if site.calm && RowOf(old(site.w), fp).Ready? && (suspectsOk ==> !old(site.w).damaged) {
        InFlightOne(old(site.w), site.w, fp);
      }
      BalancedCovers(fp);
    }

    method Probe(fp: Fp)
      requires site.Valid() && site.focus == fp && Balanced(fp) && !RowOf(site.w, fp).Proposed?
      modifies this`nOpen, this`created, this`attempts, this`reserved, this`slots
      modifies site`w, site`worlds, site`acts, site`drawn
      ensures site.Ran() && Balanced(fp)
      ensures old(attempts) <= attempts && (attempts > old(attempts) ==> attempts <= maxPerTick)
      ensures Smooth(fp) ==> Handled(old(site.w), site.w, fp, fp in old(reserved), CreateSpent()) && Reckoned(fp)
      ensures OnlyReleases(fp)
    {
      var found := site.FindOpenBotPr(fp);
      match found {
        case Found(pr) => Adopt(fp, pr);
        case Unclear =>
        case Nothing => CreateOrRecover(fp);
      }
    }

    /** Track an open pull request; a reservation is converted in place, anything else takes a slot. */
    method Adopt(fp: Fp, pr: nat)
      requires site.Valid() && site.focus == fp && Balanced(fp)
      requires fp in site.w.open ==> site.w.open[fp] == pr
      modifies this`nOpen, this`reserved, this`slots, site`w, site`worlds, site`acts, site`drawn
      ensures site.Ran() && Balanced(fp)
      ensures site.calm && fp in old(site.w).open && RowOf(old(site.w), fp).Ready? ==>
                TrackedNow(old(site.w), site.w, fp, pr) && site.w.nextPr == old(site.w).nextPr
      ensures site.calm && fp in old(site.w).open && RowOf(old(site.w), fp).Ready? ==>
                reserved == old(reserved) - {fp} && Counted(fp)
      ensures OnlyReleases(fp)
    {
      var claim := site.Claim(fp);
      if claim.Yes? {
        var mark := site.Mark(fp, pr);
        if mark.Yes? {
          PayAdopted(fp);
          WithoutFacts(site.w.suspects, fp);
          site.ClearSuspect(fp);
        } else {
          var _ := site.Release(fp);
        }
      }
    }

    method PayAdopted(fp: Fp)
      requires site.Valid() && Balanced(fp)
      modifies this`nOpen, this`reserved, this`slots
      ensures Balanced(fp) && fp !in reserved
      ensures suspectsOk ==> fp in slots
      ensures reserved == old(reserved) - {fp} && nOpen == old(nOpen) + (if fp in old(reserved) then 0 else 1)
    {
      ghost var slots0, reserved0 := slots, reserved;
      if fp in reserved {
        reserved := reserved - {fp};
      } else {
        nOpen, slots := nOpen + 1, slots + {fp};
      }
      if suspectsOk {
        PaysOthersOn(slots0, reserved0, slots, reserved, site.base, fp);
      }
    }

    /** No open pull request: a reserved suspect is settled or recovered first, then creation is
        gated by capacity, by the branch's absence and by the claim. */
    method CreateOrRecover(fp: Fp)
      requires site.Valid() && site.focus == fp && Balanced(fp)
      requires fp !in site.w.open && !RowOf(site.w, fp).Proposed?
      modifies this`nOpen, this`created, this`attempts, this`reserved, this`slots
      modifies site`w, site`worlds, site`acts, site`drawn
      ensures site.Ran() && Balanced(fp)
      ensures old(attempts) <= attempts && (attempts > old(attempts) ==> attempts <= maxPerTick)
      ensures Smooth(fp) ==> Handled(old(site.w), site.w, fp, fp in old(reserved), CreateSpent()) && Reckoned(fp)
      ensures OnlyReleases(fp)
    {
      if fp in reserved {
        ghost var free, mid := SettleThenCreate(fp);
      } else {
        CreateIfRoom(fp);
      }
    }

    method SettleThenCreate(fp: Fp) returns (ghost free: bool, ghost mid: World)
      requires site.Valid() && site.focus == fp && Balanced(fp) && fp in reserved
      requires fp !in site.w.open && !RowOf(site.w, fp).Proposed?
      modifies this`nOpen, this`created, this`attempts, this`reserved, this`slots
      modifies site`w, site`worlds, site`acts, site`drawn
      ensures site.Ran() && Balanced(fp) && OnlyReleases(fp)
      ensures old(attempts) <= attempts && (attempts > old(attempts) ==> attempts <= maxPerTick)
      ensures Smooth(fp) ==> Reckoned(fp) && (free <==> fp !in old(site.w).branches)
      ensures Smooth(fp) && free ==> Cleared(old(site.w), mid, fp) && MadeIfRoom(mid, site.w, fp, CreateSpent())
      ensures Smooth(fp) && !free ==> Proposes(old(site.w), site.w, fp)
    {
      var settled := SettleReserved(fp);
      free, mid := settled, site.w;
      if settled {
        CreateIfRoom(fp);
      }
    }

    method CreateIfRoom(fp: Fp)
      requires site.Valid() && site.focus == fp && Balanced(fp)
      requires fp !in site.w.open && !RowOf(site.w, fp).Proposed? && fp !in reserved
      modifies this`nOpen, this`created, this`attempts, this`reserved, this`slots
      modifies site`w, site`worlds, site`acts, site`drawn
      ensures site.Ran() && Balanced(fp)
      ensures old(attempts) <= attempts && (attempts > old(attempts) ==> attempts <= maxPerTick)
      ensures Smooth(fp) ==> Reckoned(fp) && MadeIfRoom(old(site.w), site.w, fp, CreateSpent())
      ensures reserved == old(reserved)
    {
      if !CreateSpent() {
        var ref := site.ReadRef(fp);
        if ref.Absent? {
          Create(fp);
        }
      }
    }

    /** `free`: nothing of the suspect exists and its slot was refunded. */
    method SettleReserved(fp: Fp) returns (free: bool)
      requires site.Valid() && site.focus == fp && Balanced(fp) && fp in reserved
      requires fp !in site.w.open && !RowOf(site.w, fp).Proposed?
      modifies this`nOpen, this`reserved, this`slots, site`w, site`worlds, site`acts, site`drawn
      ensures site.Ran() && Balanced(fp)
      ensures free ==> fp !in site.w.open && !RowOf(site.w, fp).Proposed? && fp !in reserved
      ensures site.calm && RowOf(old(site.w), fp).Ready? && fp in old(site.w).branches ==>
                !free && Proposes(old(site.w), site.w, fp) && Counted(fp) && nOpen == old(nOpen)
      ensures site.calm && RowOf(old(site.w), fp).Ready? && fp !in old(site.w).branches ==>
                free && Counted(fp) && nOpen == old(nOpen) - 1 && Cleared(old(site.w), site.w, fp)
      ensures OnlyReleases(fp)
    {
      free := false;
      var ref := site.ReadRef(fp);
      if ref.Absent? {
        site.Witness(fp, SeenAbsent);
        site.Refund(fp);
        Unpay(fp);
        WithoutFacts(site.w.suspects, fp);
        site.ClearSuspect(fp);
        free := true;
      } else if ref.Present? {
        RecoverReserved(fp);
      }
    }

    method RecoverReserved(fp: Fp)
      requires site.Valid() && site.focus == fp && Balanced(fp) && fp in reserved
      requires !RowOf(site.w, fp).Proposed?
      modifies this`reserved, site`w, site`worlds, site`acts, site`drawn
      ensures site.Ran() && Balanced(fp)
      ensures site.calm && RowOf(old(site.w), fp).Ready? && fp in old(site.w).branches && fp !in old(site.w).open ==>
                Proposes(old(site.w), site.w, fp) && reserved == old(reserved) - {fp}
      ensures OnlyReleases(fp)
    {
      var claim := site.Claim(fp);
      if claim.Yes? {
        RecoverClaimed(fp);
      }
    }

    method RecoverClaimed(fp: Fp)
      requires site.Valid() && site.focus == fp && Balanced(fp) && fp in reserved
      requires !RowOf(site.w, fp).Proposed?
      modifies this`reserved, site`w, site`worlds, site`acts, site`drawn
      ensures site.Ran() && Balanced(fp)
      ensures site.calm && RowOf(old(site.w), fp).Proposing? && fp in old(site.w).branches && fp !in old(site.w).open ==>
                Proposes(old(site.w), site.w, fp) && reserved == old(reserved) - {fp}
      ensures OnlyReleases(fp)
    {
      var pr := site.CreatePr(fp);
      var mark := Raised;
      if pr.Opened? {
        mark := site.Mark(fp, pr.pr);
      }
      if mark.Yes? {
        PaysOthersOn(slots, reserved, slots, reserved - {fp}, site.base, fp);
        reserved := reserved - {fp};
        WithoutFacts(site.w.suspects, fp);
        site.ClearSuspect(fp);
      } else {
        var _ := site.Release(fp);
      }
    }

    /** Claim, commit, write the intent ahead, take the slot, push and open the pull request. */
    method Create(fp: Fp)
      requires site.Valid() && site.focus == fp && Balanced(fp) && !CreateSpent() && fp !in site.w.branches
      requires fp !in site.w.open && !RowOf(site.w, fp).Proposed? && fp !in reserved
      modifies this`nOpen, this`created, this`attempts, this`slots, this`reserved, site`w, site`worlds, site`acts, site`drawn
      ensures site.Ran() && Balanced(fp)
      ensures old(attempts) <= attempts && (attempts > old(attempts) ==> attempts <= maxPerTick)
      ensures site.calm && !old(site.w).damaged && RowOf(old(site.w), fp).Ready? ==>
                created == old(created) + 1 && attempts == old(attempts) + 1 && nOpen == old(nOpen) + 1
      ensures site.calm && !old(site.w).damaged && RowOf(old(site.w), fp).Ready? ==> Proposes(old(site.w), site.w, fp)
      ensures reserved == old(reserved)
    {
      var claim := site.Claim(fp);
      var committed := site.Draw();
      if claim.Yes? && committed {
        CreateClaimed(fp);
      } else if claim.Yes? {
        var _ := site.Release(fp);
      }
    }

    method CreateClaimed(fp: Fp)
      requires site.Valid() && site.focus == fp && Balanced(fp) && !CreateSpent()
      requires fp !in site.w.open && !RowOf(site.w, fp).Proposed? && fp !in reserved
      modifies this`nOpen, this`created, this`attempts, this`slots, this`reserved, site`w, site`worlds, site`acts, site`drawn
      ensures site.Ran() && Balanced(fp)
      ensures old(attempts) <= attempts && (attempts > old(attempts) ==> attempts <= maxPerTick)
      ensures site.calm && !old(site.w).damaged && RowOf(old(site.w), fp).Proposing? ==>
                created == old(created) + 1 && attempts == old(attempts) + 1 && nOpen == old(nOpen) + 1
      ensures site.calm && !old(site.w).damaged && RowOf(old(site.w), fp).Proposing? ==> Proposes(old(site.w), site.w, fp)
      ensures reserved == old(reserved)
    {
      BalancedCovers(fp);
      RoomForOne(fp);
      var intended := site.AddSuspect(fp);
      if intended {
        Pay(fp);
        attempts := attempts + 1;
        PushAndSettle(fp);
      } else {
        var _ := site.Release(fp);
      }
    }

    /** Take a slot for `fp`, with its intent. */
    method Pay(fp: Fp)
      requires site.Valid() && suspectsOk && |slots| <= nOpen && PaysOthers(slots, reserved, site.base, fp)
      requires fp !in reserved
      modifies this`nOpen, this`slots
      ensures Balanced(fp) && fp in slots
      ensures nOpen == old(nOpen) + 1
    {
      PaysOthersOn(slots, reserved, slots + {fp}, reserved, site.base, fp);
      nOpen, slots := nOpen + 1, slots + {fp};
    }

    /** Refund the slot of `fp`, of which nothing exists. */
    method Unpay(fp: Fp)
      requires site.Valid() && suspectsOk && Balanced(fp) && fp in slots && !HoldsSlot(site.w, fp)
      modifies this`nOpen, this`slots, this`reserved
      ensures Balanced(fp) && fp !in reserved && reserved == old(reserved) - {fp}
      ensures nOpen == old(nOpen) - 1
      ensures fp !in old(reserved) ==> reserved == old(reserved)
    {
      PaysOthersOn(slots, reserved, slots - {fp}, reserved - {fp}, site.base, fp);
      nOpen, reserved, slots := nOpen - 1, reserved - {fp}, slots - {fp};
    }

    lemma RoomForOne(fp: Fp)
      requires Covered() && suspectsOk && nOpen < site.w.cap
      ensures |Slots(site.w) + {fp}| <= site.w.cap
    {
      forall x | x in Slots(site.w)
        ensures x in slots
      {
        assert PaysFor(slots, reserved, site.w, x);
      }
      SubsetSize(Slots(site.w) + {fp}, slots + {fp});
    }

    /** Every unresolved exit keeps the slot taken for `fp`; only a verified absence or close refunds it. */
    method PushAndSettle(fp: Fp)
      requires site.Valid() && site.focus == fp && Balanced(fp) && suspectsOk && fp in slots
      requires fp in site.w.suspects && fp !in site.w.open && !RowOf(site.w, fp).Proposed? && fp !in reserved
      modifies this`nOpen, this`created, this`slots, this`reserved, site`w, site`worlds, site`acts, site`drawn
      ensures site.Ran() && Balanced(fp)
      ensures site.calm && RowOf(old(site.w), fp).Proposing? ==> created == old(created) + 1 && nOpen == old(nOpen)
      ensures site.calm && RowOf(old(site.w), fp).Proposing? ==> Proposes(old(site.w), site.w, fp)
      ensures reserved == old(reserved)
    {
      var outcome := site.PushAndOpenPr(fp);
      match outcome {
        case Uncertain =>
          var _ := site.Release(fp);
        case NoPr => GiveBack(fp);
        case NoPrForeign =>
          site.Witness(fp, SeenForeign);
          ClearAndGiveBack(fp);
        case Opened(pr) => MarkCreated(fp, pr);
      }
    }

    /** Track the new pull request; if the mark is fenced out, close it again. */
    method MarkCreated(fp: Fp, pr: nat)
      requires site.Valid() && site.focus == fp && Balanced(fp) && suspectsOk && fp in slots && fp !in reserved
      requires fp in site.w.open && site.w.open[fp] == pr && !RowOf(site.w, fp).Proposed?
      modifies this`nOpen, this`created, this`slots, this`reserved, site`w, site`worlds, site`acts, site`drawn
      ensures site.Ran() && Balanced(fp)
      ensures site.calm && RowOf(old(site.w), fp).Proposing? ==> created == old(created) + 1 && nOpen == old(nOpen)
      ensures site.calm && RowOf(old(site.w), fp).Proposing? ==>
                TrackedNow(old(site.w), site.w, fp, pr) && site.w.nextPr == old(site.w).nextPr
      ensures reserved == old(reserved)
    {
      var mark := site.Mark(fp, pr);
      if mark.Yes? {
        WithoutFacts(site.w.suspects, fp);
        site.ClearSuspect(fp);
        created := created + 1;
      } else if mark.No? {
        var closed := site.ClosePr(fp);
        if closed {
          ClearAndGiveBack(fp);
        }
      } else {
        var _ := site.Release(fp);
      }
    }

    method ClearAndGiveBack(fp: Fp)
      requires site.Valid() && site.focus == fp && Balanced(fp) && suspectsOk && fp in slots
      requires fp !in site.w.open && fp !in reserved && fp in site.w.evidence
      modifies this`nOpen, this`slots, this`reserved, site`w, site`worlds, site`acts, site`drawn
      ensures site.Ran() && Balanced(fp)
      ensures reserved == old(reserved)
    {
      site.ClearSuspect(fp);
      GiveBack(fp);
    }

    method GiveBack(fp: Fp)
      requires site.Valid() && site.focus == fp && Balanced(fp) && suspectsOk && fp in slots
      requires fp !in site.w.open && fp !in reserved
      modifies this`nOpen, this`slots, this`reserved, site`w, site`worlds, site`acts, site`drawn
      ensures site.Ran() && Balanced(fp)
      ensures reserved == old(reserved)
    {
      site.Refund(fp);
      Unpay(fp);
      var _ := site.Release(fp);
    }

    /** The scan in cursor order.  Creation stops at the budgets; the probe budget alone ends the scan,
        and the row it stopped at is not passed by the cursor. */
    method ScanReady(ready: set<Fp>, cursor: int) returns (next: int, ghost batch: seq<Fp>, ghost seen: seq<Fp>)
      requires ready == ReadyRows(site.w)
      requires site.Valid() && Covered() && attempts <= maxPerTick && probes <= probeBudget
      modifies this`nOpen, this`created, this`attempts, this`probes, this`reserved, this`slots
      modifies site`w, site`worlds, site`acts, site`drawn, site`base, site`focus
      ensures site.Valid() && Covered() && attempts <= maxPerTick && probes <= probeBudget
      ensures IsBatch(ready, cursor, batch) && |seen| <= |batch| && seen == batch[..|seen|]
      ensures old(probes) < probeBudget ==> Visits(ready, cursor, batch, seen, next)
      ensures site.calm && (suspectsOk ==> !old(site.w).damaged) ==>
                Scanned(old(site.w), site.w, batch, |seen|, renders, old(reserved), reserved, CreateSpent())
      ensures site.calm && (suspectsOk ==> !old(site.w).damaged) ==> Tallied()
    {
      var page := ListReady(ready, cursor);
      BatchUnproposed(site.w, cursor, page);
      ghost var before := probes;
      ghost var smooth := site.calm && (suspectsOk ==> !site.w.damaged);
      var k := 0;
      while k < |page| && !(CreateSpent() && probes >= probeBudget)
        invariant k <= |page| && site.Valid() && Covered() && attempts <= maxPerTick && probes <= probeBudget
        invariant UnproposedFrom(site.w, page, k)
        invariant k == 0 ==> probes == before
        invariant smooth ==> Scanned(old(site.w), site.w, page, k, renders, old(reserved), reserved, CreateSpent())
        invariant smooth ==> Tallied() && ReadyFrom(site.w, page, k)
      {
        var done := ScanNext(page, k, old(site.w), old(reserved));
        if !done {
          break;
        }
        k := k + 1;
      }
      next := if k == 0 then cursor else page[k - 1];
      batch, seen := page, page[..k];
    }

    method ScanNext(page: seq<Fp>, k: nat, ghost start: World, ghost reserved0: set<Fp>) returns (done: bool)
      requires site.Valid() && Covered() && attempts <= maxPerTick && probes <= probeBudget
      requires Ascending(page) && k < |page| && UnproposedFrom(site.w, page, k)
      requires site.calm && (suspectsOk ==> !start.damaged) ==>
                 ReadyFrom(site.w, page, k) && Scanned(start, site.w, page, k, renders, reserved0, reserved, CreateSpent())
      modifies this`nOpen, this`created, this`attempts, this`probes, this`reserved, this`slots
      modifies site`w, site`worlds, site`acts, site`drawn, site`base, site`focus
      ensures site.Valid() && Covered() && attempts <= maxPerTick && probes <= probeBudget
      ensures if done then UnproposedFrom(site.w, page, k + 1) else old(probes) >= probeBudget
      ensures site.calm && (suspectsOk ==> !start.damaged) ==>
                && Tallied() && ReadyFrom(site.w, page, if done then k + 1 else k)
                && Scanned(start, site.w, page, if done then k + 1 else k, renders, reserved0, reserved, CreateSpent())
    {
      ghost var w0, r0, spent0 := site.w, reserved, CreateSpent();
      done := ScanOne(page, k);
      if site.calm && (suspectsOk ==> !start.damaged) && done {
        ScannedOne(start, w0, site.w, page, k, renders, reserved0, r0, reserved, spent0, CreateSpent());
        StillReady(w0, site.w, page, k);
      }
    }

    /** One candidate of the page. */
    method ScanOne(page: seq<Fp>, k: nat) returns (done: bool)
      requires site.Valid() && Covered() && attempts <= maxPerTick && probes <= probeBudget
      requires Ascending(page) && k < |page| && UnproposedFrom(site.w, page, k)
      modifies this`nOpen, this`created, this`attempts, this`probes, this`reserved, this`slots
      modifies site`w, site`worlds, site`acts, site`drawn, site`base, site`focus
      ensures site.Valid() && Covered() && attempts <= maxPerTick && probes <= probeBudget
      ensures if done then UnproposedFrom(site.w, page, k + 1) else old(probes) >= probeBudget
      ensures site.calm ==> OnlyAt(old(site.w), site.w, page[k])
      ensures Smooth(page[k]) && done && renders(page[k]) ==>
                Handled(old(site.w), site.w, page[k], page[k] in old(reserved), CreateSpent())
      ensures Smooth(page[k]) ==> Tallied() && (old(CreateSpent()) ==> CreateSpent())
      ensures OnlyReleases(page[k]) && (site.calm && !done ==> site.w == old(site.w) && reserved == old(reserved))
    {
      ghost var w0 := site.w;
      site.Focus(page[k]);
      done := Candidate(page[k]);
      if done {
        StillUnproposed(w0, site.w, page, k);
      }
    }

    /** Read the ready rows (other parties act first). */
    method Observe() returns (ready: set<Fp>)
      requires site.Valid() && Covered()
      modifies site`w, site`worlds, site`acts, site`drawn, site`base, site`focus
      ensures site.Valid() && Covered() && ready == ReadyRows(site.w)
      ensures site.calm ==> site.w == old(site.w)
    {
      site.Focus(0);
      CoveredBalances(0);
      site.Interfere();
      BalancedCovers(0);
      ready := ReadyRows(site.w);
    }

    /** propose: count, resolve the suspects, scan what is ready in the world `listed`, with the reservations `held`. */
    method Propose(cursor: int)
      returns (next: int, ghost listed: World, ghost held: set<Fp>, ghost batch: seq<Fp>, ghost seen: seq<Fp>)
      requires site.Valid() && attempts == probes == created == 0
      modifies this, site`w, site`worlds, site`acts, site`drawn, site`base, site`focus
      ensures site.Valid() && attempts <= maxPerTick && probes <= probeBudget
      ensures suspectsOk ==> |Slots(site.w)| <= nOpen
      ensures IsBatch(ReadyRows(listed), cursor, batch) && |seen| <= |batch| && seen == batch[..|seen|]
      ensures |old(site.w.suspects)| < probeBudget ==> Visits(ReadyRows(listed), cursor, batch, seen, next)
      ensures site.calm ==> WithoutTrouble(old(site.w), listed, held, batch, seen)
    {
      ResolveSuspects();
      var ready := Observe();
      listed, held := site.w, reserved;
      next, batch, seen := ScanReady(ready, cursor);
      if suspectsOk {
        CoveredBounds();
      }
    }

    /** A tick without trouble: every suspect is disposed of, every row seen is served, the count is exact, and no more
        is counted as created than came to be in flight. */
    ghost predicate WithoutTrouble(start: World, listed: World, held: set<Fp>, batch: seq<Fp>, seen: seq<Fp>)
      reads this, site
    {
      && suspectsOk == !start.damaged && Honest() && created == attempts <= |InFlight(site.w)| - |InFlight(listed)|
      && (suspectsOk && AllLooked(start.suspects) ==> held == {} && forall x :: x in start.suspects ==> Resolved(start, listed, x))
      && |seen| <= |batch| && Scanned(listed, site.w, batch, |seen|, renders, held, reserved, CreateSpent())
    }

    /** Creation is spent only by what exists: the file is damaged, the slots are taken, or as many rows as a tick may
        create came to be in flight. */
    lemma SpentIsReal(start: World, listed: World, held: set<Fp>, batch: seq<Fp>, seen: seq<Fp>)
      requires WithoutTrouble(start, listed, held, batch, seen) && CreateSpent() && !start.damaged
      ensures |InFlight(site.w)| + |held| >= site.w.cap || |InFlight(site.w)| >= |InFlight(listed)| + maxPerTick
    {
      SubsetSize(reserved, held);
    }

    /** What the tick is for: a ready row that can be rendered, of which nothing exists yet, that is seen alone while a
        slot is free and creation allowed, is tracked at the end, with its pull request open. */
    lemma LoneRowIsProposed(start: World, listed: World, held: set<Fp>, batch: seq<Fp>, fp: Fp)
      requires WithoutTrouble(start, listed, held, batch, [fp]) && batch != [] && batch[0] == fp && !start.damaged
      requires RowOf(listed, fp).Ready? && renders(fp) && fp !in listed.open && fp !in listed.branches
      requires |InFlight(listed)| + |held| < site.w.cap && maxPerTick > 0
      ensures NewlyTracked(site.w, fp)
    {
      assert Served(listed, site.w, batch[0], batch[0] in held, CreateSpent());
      if RowOf(site.w, fp).Ready? {
        assert batch[..1] == [fp];
        assert forall x :: x != fp ==> x !in batch[..1];
        InFlightSame(listed, site.w, fp);
        SubsetSize(reserved, held);
      }
    }

    // ---- reconcile ----------------------------------------------------------------------------

    /** A tracked row is resolved only after its pull request was read closed or merged, or was
        closed by us past its time to live. */
    method ReconcileOne(fp: Fp)
      requires site.Valid() && site.focus == fp
      modifies site`w, site`worlds, site`acts, site`drawn
      ensures site.Ran() && ReconciledAt(old(site.w), site.w, fp)
      ensures site.calm && RowOf(old(site.w), fp).Proposed? ==> Revisited(old(site.w), site.w, fp, resolves(fp), expired(fp))
    {
      if !resolves(fp) {
        return;
      }
      var seen := site.FindOpenBotPr(fp);
      if seen.Nothing? {
        var _ := site.Resolve(fp);
      } else if seen.Found? {
        if expired(fp) {
          var closed := site.ClosePr(fp);
          if closed {
            var _ := site.Resolve(fp);
          }
        }
      }
    }

    /** reconcile: nothing is opened or newly tracked, the file stays, and a row stops being tracked only when its
        pull request is not open. */
    method Reconcile()
      requires site.Valid()
      modifies site`w, site`worlds, site`acts, site`drawn, site`base, site`focus
      ensures site.Valid() && forall fp :: ReconciledAt(old(site.w), site.w, fp)
      ensures site.calm ==> forall fp :: Revisited(old(site.w), site.w, fp, resolves(fp), expired(fp))
    {
      var todo := Tracked(site.w);
      while todo != {}
        invariant site.Valid() && forall fp :: ReconciledAt(old(site.w), site.w, fp)
        invariant todo <= Tracked(old(site.w))
        invariant site.calm ==> RevisitedBut(old(site.w), site.w, todo, resolves, expired)
        decreases |todo|
      {
        var fp :| fp in todo;
        ghost var before := site.w;
        site.Focus(fp);
        ReconcileOne(fp);
        ReconciledOn(old(site.w), before, site.w, fp);
        if site.calm {
          RevisitedOne(old(site.w), before, site.w, fp, todo, resolves, expired);
        }
        todo := todo - {fp};
      }
    }

    /** One tick.  Reaping stuck claims is among the row changes an outside step may make. */
    method Run(cursor: int)
      returns (next: int, ghost mid: World, ghost listed: World, ghost held: set<Fp>, ghost batch: seq<Fp>, ghost seen: seq<Fp>)
      requires site.Valid() && attempts == probes == created == 0
      modifies this, site`w, site`worlds, site`acts, site`drawn, site`base, site`focus
      ensures site.Valid() && attempts <= maxPerTick && probes <= probeBudget
      ensures suspectsOk ==> |Slots(site.w)| <= nOpen
      ensures IsBatch(ReadyRows(listed), cursor, batch) && |seen| <= |batch| && seen == batch[..|seen|]
      ensures site.calm ==>
                (forall fp :: Revisited(old(site.w), mid, fp, resolves(fp), expired(fp))) && WithoutTrouble(mid, listed, held, batch, seen)
    {
      site.Focus(0);
      site.Interfere();
      Reconcile();
      mid := site.w;
      next, listed, held, batch, seen := Propose(cursor);
    }
  }

  ghost predicate ReconciledAt(w0: World, w1: World, fp: Fp) {
    && Filed(w0, w1, fp) && (RowOf(w1, fp).Proposed? ==> RowOf(w0, fp) == RowOf(w1, fp))
    && (RowOf(w0, fp).Proposed? && !RowOf(w1, fp).Proposed? ==> fp !in w1.open)
  }

  /** A tracked row that can be looked up and whose pull request is gone, or past its time, is retired and nothing is
      open; any other is left. */
  ghost predicate Revisited(w0: World, w1: World, fp: Fp, looked: bool, expired: bool) {
    if RowOf(w0, fp).Proposed? && looked && (fp !in w0.open || expired) then RowOf(w1, fp).Idle? && fp !in w1.open
    else Untouched(w0, w1, fp)
  }

  ghost predicate RevisitedBut(w0: World, w1: World, todo: set<Fp>, looked: Fp -> bool, expired: Fp -> bool) {
    forall fp :: if fp in todo then Untouched(w0, w1, fp) else Revisited(w0, w1, fp, looked(fp), expired(fp))
  }

  lemma RevisitedOne(w0: World, w: World, w1: World, fp: Fp, todo: set<Fp>, looked: Fp -> bool, expired: Fp -> bool)
    requires RevisitedBut(w0, w, todo, looked, expired) && fp in todo && todo <= Tracked(w0)
    requires OnlyAt(w, w1, fp) && (RowOf(w, fp).Proposed? ==> Revisited(w, w1, fp, looked(fp), expired(fp)))
    ensures RevisitedBut(w0, w1, todo - {fp}, looked, expired)
  {
    forall x
      ensures if x in todo - {fp} then Untouched(w0, w1, x) else Revisited(w0, w1, x, looked(x), expired(x))
    {
      assert if x in todo then Untouched(w0, w, x) else Revisited(w0, w, x, looked(x), expired(x));
      if x == fp {
        assert x in Tracked(w0);
      } else {
        assert Untouched(w, w1, x);
      }
    }
  }

  lemma ReconciledOn(w0: World, w: World, w1: World, fp: Fp)
    requires (forall x :: ReconciledAt(w0, w, x)) && StillBut(w, w1, fp) && ReconciledAt(w, w1, fp)
    ensures forall x :: ReconciledAt(w0, w1, x)
  {
    forall x
      ensures ReconciledAt(w0, w1, x)
    {
      assert ReconciledAt(w0, w, x);
      if x != fp {
        assert Same(w, w1, x);
      }
    }
  }

  lemma FreshPass(w0: World, w1: World, slots: set<Fp>)
    requires Drift(w0, w1) && slots == InFlight(w0) && NoDup(w1.suspects)
    ensures PassInv(w1, slots, w1.suspects, 0, InFlight(w1), Tracked(w1), {})
  {
    forall fp | InFlightRow(RowOf(w1, fp))
      ensures fp in slots
    {
      DriftSame(w0, w1, fp);
    }
  }

  /** No row of the page from position k on is tracked. */
  ghost predicate UnproposedFrom(w: World, page: seq<Fp>, k: nat) {
    forall j :: k <= j < |page| ==> !RowOf(w, page[j]).Proposed?
  }

  lemma BatchUnproposed(w: World, cursor: int, page: seq<Fp>)
    requires IsBatch(ReadyRows(w), cursor, page)
    ensures Ascending(page) && UnproposedFrom(w, page, 0) && ReadyFrom(w, page, 0)
  {
    forall j | 0 <= j < |page|
      ensures RowOf(w, page[j]).Ready?
    {
      assert page[j] in page && page[j] in ReadyRows(w);
    }
  }

  ghost predicate ReadyFrom(w: World, page: seq<Fp>, k: nat) {
    forall j :: k <= j < |page| ==> RowOf(w, page[j]).Ready?
  }

  lemma StillReady(w0: World, w1: World, page: seq<Fp>, k: nat)
    requires Ascending(page) && k < |page| && OnlyAt(w0, w1, page[k]) && ReadyFrom(w0, page, k)
    ensures ReadyFrom(w1, page, k + 1)
  {
    forall j | k < j < |page|
      ensures RowOf(w1, page[j]).Ready?
    {
      assert Untouched(w0, w1, page[j]);
    }
  }

  lemma StillUnproposed(w0: World, w1: World, page: seq<Fp>, k: nat)
    requires Ascending(page) && k < |page| && StillBut(w0, w1, page[k]) && UnproposedFrom(w0, page, k)
    ensures UnproposedFrom(w1, page, k + 1)
  {
    forall j | k < j < |page|
      ensures !RowOf(w1, page[j]).Proposed?
    {
      assert Same(w0, w1, page[j]);
    }
  }

  ghost predicate Lists(s: seq<Fp>, members: set<Fp>) { NoDup(s) && forall x :: x in s <==> x in members }

  lemma ListsOneMore(a: seq<Fp>, b: seq<Fp>, members: set<Fp>, x: Fp, keep: bool, front: bool)
    requires Lists(a + b, members) && x !in members
    ensures Lists((if keep && front then a + [x] else a) + (if keep && !front then b + [x] else b),
                  if keep then members + {x} else members)
  {
    if keep {
      NoDupInsert(a, b, x);
    }
  }

  lemma NoDupInsert(a: seq<Fp>, b: seq<Fp>, x: Fp)
    requires NoDup(a + b) && x !in a + b
    ensures NoDup(a + [x] + b) && NoDup(a + (b + [x]))
    ensures forall y :: y in a + [x] + b <==> y in a + b || y == x
    ensures forall y :: y in a + (b + [x]) <==> y in a + b || y == x
  {
    var ab, mid, end := a + b, a + [x] + b, a + (b + [x]);
    assert forall k :: 0 <= k < |ab| ==> end[k] == ab[k];
    forall i, j | 0 <= i < j < |mid|
      ensures mid[i] != mid[j]
    {
      assert i != |a| ==> mid[i] == ab[if i < |a| then i else i - 1];
      assert j != |a| ==> mid[j] == ab[if j < |a| then j else j - 1];
    }
  }
}
