/**
  The proposer's verbs against a lossy world.  Before every verb other parties may act, every
  request may be lost, every reply may be lost after its effect took place, and a definitive
  answer is truthful at the moment it is given.
 */
module ProposerRemote {
  import opened Collections
  import opened ProposerWorld

  datatype Reply = Yes | No | Raised

  // "unknown" and "ambiguous" lookups are treated alike by every caller.
  datatype Lookup = Found(pr: nat) | Nothing | Unclear

  datatype RefRead = Absent | Present(atOurHead: bool) | Unreadable

  datatype Outcome = Opened(pr: nat) | NoPr | NoPrForeign | Uncertain

  // ---- frames: what survives while the proposer works on one fingerprint -----------------------

  ghost predicate Filed(w0: World, w1: World, fp: Fp) {
    && (fp in w1.suspects <==> fp in w0.suspects)
    && (fp in w1.handed <==> fp in w0.handed)
    && (fp in w1.refunded <==> fp in w0.refunded)
    && (fp in w1.excess <==> fp in w0.excess)
    && (fp in w1.open ==> fp in w0.open && w1.open[fp] == w0.open[fp])
  }

  ghost predicate ProposedAlike(w0: World, w1: World, fp: Fp) {
    RowOf(w0, fp).Proposed? || RowOf(w1, fp).Proposed? ==> RowOf(w0, fp) == RowOf(w1, fp)
  }

  ghost predicate Same(w0: World, w1: World, fp: Fp) {
    && Filed(w0, w1, fp) && ProposedAlike(w0, w1, fp) && (fp in w1.evidence <==> fp in w0.evidence)
    && (RowOf(w1, fp).Proposing? ==> RowOf(w0, fp).Proposing?)
  }

  ghost predicate StillBut(w0: World, w1: World, fp: Fp) {
    w1.cap == w0.cap && forall x :: x != fp ==> Same(w0, w1, x)
  }

  lemma StillButTrans(w0: World, w1: World, w2: World, fp: Fp)
    requires StillBut(w0, w1, fp) && StillBut(w1, w2, fp)
    ensures StillBut(w0, w2, fp)
  {
    forall x | x != fp
      ensures Same(w0, w2, x)
    {
      assert Same(w0, w1, x) && Same(w1, w2, x);
    }
  }

  lemma StillRefl(w: World, fp: Fp)
    ensures StillBut(w, w, fp)
  {
  }

  /** The step concerns `fp` alone. */
  ghost predicate Touches(w: World, a: Action, fp: Fp) {
    match a
    case Outside => true
    case Rewrite(kept) => forall x :: x != fp ==> (x in kept <==> x in w.suspects)
    case _ => a.fp == fp
  }

  lemma StepStill(w0: World, a: Action, w1: World, fp: Fp)
    requires Step(w0, a, w1) && Touches(w0, a, fp)
    ensures StillBut(w0, w1, fp)
  {
    forall x | x != fp
      ensures Same(w0, w1, x)
    {
      StepSame(w0, a, w1, fp, x);
    }
  }

  lemma StepSame(w0: World, a: Action, w1: World, fp: Fp, x: Fp)
    requires Step(w0, a, w1) && Touches(w0, a, fp) && x != fp
    ensures Same(w0, w1, x)
  {
    if a.Outside? {
      DriftSame(w0, w1, x);
    } else if a.Claim? || a.Mark? || a.Release? || a.Resolve? {
      RowStepSame(w0, a, w1, x);
    } else if a.Intend? {
      IntendSame(w0, a.fp, w1, x);
    } else if a.Rewrite? {
      RewriteSame(w0, a.kept, w1, x);
    } else if a.Push? || a.OpenPr? || a.ClosePr? {
      RemoteStepSame(w0, a, w1, x);
    } else {
      FileStepSame(w0, a, w1, x);
    }
  }

  lemma IntendSame(w0: World, fp: Fp, w1: World, x: Fp)
    requires Step(w0, Intend(fp), w1) && x != fp
    ensures Same(w0, w1, x)
  {
  }

  lemma RewriteSame(w0: World, kept: seq<Fp>, w1: World, x: Fp)
    requires Step(w0, Rewrite(kept), w1) && (x in kept <==> x in w0.suspects)
    ensures Same(w0, w1, x)
  {
  }

  lemma RowStepSame(w0: World, a: Action, w1: World, x: Fp)
    requires Step(w0, a, w1) && (a.Claim? || a.Mark? || a.Release? || a.Resolve?) && x != a.fp
    ensures Same(w0, w1, x)
  {
  }

  lemma RemoteStepSame(w0: World, a: Action, w1: World, x: Fp)
    requires Step(w0, a, w1) && (a.Push? || a.OpenPr? || a.ClosePr?) && x != a.fp
    ensures Same(w0, w1, x)
  {
  }

  lemma FileStepSame(w0: World, a: Action, w1: World, x: Fp)
    requires Step(w0, a, w1) && (a.Witness? || a.Refund? || a.HandOver?) && x != a.fp
    ensures Same(w0, w1, x)
  {
  }

  lemma DriftSame(w0: World, w1: World, fp: Fp)
    requires Drift(w0, w1)
    ensures Same(w0, w1, fp)
  {
    assert RowOf(w1, fp).Proposing? ==> RowOf(w0, fp).Proposing?;
    assert ProposedAlike(w0, w1, fp);
  }

  // ---- frames when nobody interferes and nothing fails -------------------------------------------

  ghost predicate Untouched(w0: World, w1: World, fp: Fp) {
    && RowOf(w1, fp) == RowOf(w0, fp) && (fp in w1.branches <==> fp in w0.branches)
    && (fp in w1.open <==> fp in w0.open) && (fp in w1.open ==> w1.open[fp] == w0.open[fp])
    && (fp in w1.suspects <==> fp in w0.suspects) && (fp in w1.handed <==> fp in w0.handed)
  }

  ghost predicate OnlyAt(w0: World, w1: World, fp: Fp) {
    w1.cap == w0.cap && w1.damaged == w0.damaged && forall x :: x != fp ==> Untouched(w0, w1, x)
  }

  lemma OnlyAtTrans(w0: World, w1: World, w2: World, fp: Fp)
    requires OnlyAt(w0, w1, fp) && OnlyAt(w1, w2, fp)
    ensures OnlyAt(w0, w2, fp)
  {
    forall x | x != fp
      ensures Untouched(w0, w2, x)
    {
      assert Untouched(w0, w1, x) && Untouched(w1, w2, x);
    }
  }

  /** A step of the proposer's own on the fingerprint it works on. */
  ghost predicate Own(w: World, a: Action, fp: Fp) {
    match a
    case Outside => false
    case Rewrite(kept) => !w.damaged && forall x :: x != fp ==> (x in kept <==> x in w.suspects)
    case _ => a.fp == fp
  }

  lemma StepOnlyAt(w0: World, a: Action, w1: World, fp: Fp)
    requires Step(w0, a, w1) && Own(w0, a, fp)
    ensures OnlyAt(w0, w1, fp)
  {
    forall x | x != fp
      ensures Untouched(w0, w1, x)
    {
      OwnUntouched(w0, a, w1, fp, x);
    }
  }

  lemma OwnUntouched(w0: World, a: Action, w1: World, fp: Fp, x: Fp)
    requires Step(w0, a, w1) && Own(w0, a, fp) && x != fp
    ensures Untouched(w0, w1, x) && w1.cap == w0.cap && w1.damaged == w0.damaged
  {
    match a
    case Claim(_) =>
    case Mark(_, _) =>
    case Release(_) =>
    case Resolve(_) =>
    case Push(_) =>
    case OpenPr(_) =>
    case ClosePr(_) =>
    case Intend(_) =>
    case Witness(_, _) =>
    case Rewrite(_) =>
    case Refund(_) =>
    case HandOver(_) =>
  }

  /** The drift picked by arbitrary wishes of the other parties, cut down to what they may do. */
  function Drifted(w: World, rows: map<Fp, Row>, branches: set<Fp>, closed: set<Fp>, newer: nat, damaged: bool): (r: World)
    requires OpenHasBranch(w)
    ensures Drift(w, r)
  {
    w.(rows := map fp | fp in w.rows.Keys + rows.Keys :: DriftedRow(RowOf(w, fp), if fp in rows then rows[fp] else Idle),
       branches := branches + (w.open - closed).Keys,
       open := w.open - closed, nextPr := w.nextPr + newer, damaged := damaged)
  }

  function DriftedRow(now: Row, wish: Row): Row {
    if now.Proposed? || wish.Proposed? || (wish.Proposing? && !now.Proposing?) then now else wish
  }

  /** A run from `origin` to `w`. */
  ghost predicate LogOf(worlds: seq<World>, acts: seq<Action>, origin: World, w: World) {
    Chain(worlds, acts) && worlds[0] == origin && worlds[|acts|] == w
  }

  lemma LogSnoc(worlds: seq<World>, acts: seq<Action>, origin: World, w: World, a: Action, w1: World)
    requires LogOf(worlds, acts, origin, w) && Inv(w) && Step(w, a, w1)
    ensures LogOf(worlds + [w1], acts + [a], origin, w1) && Inv(w1)
  {
    ChainSnoc(worlds, acts, a, w1);
    StepKeepsInv(w, a, w1);
  }

  class Site {
    var w: World
    ghost const origin: World
    ghost var worlds: seq<World>   // every world since the origin, one per step
    ghost var acts: seq<Action>
    ghost var base: World          // the world when work on the current fingerprint began
    ghost var focus: Fp
    /** The k-th thing that may go wrong: true when it does not. */
    const fate: nat -> bool
    /** Nobody interferes and nothing fails; no code can ask. */
    ghost const calm: bool
    var drawn: nat

    ghost predicate Logged()
      reads this
    {
      LogOf(worlds, acts, origin, w) && (calm ==> forall k: nat :: fate(k))
    }

    ghost predicate Valid()
      reads this
    {
      Logged() && Inv(w) && StillBut(base, w, focus) && (calm ==> OnlyAt(base, w, focus))
    }

    /** The site stays valid for the same fingerprint. */
    twostate predicate Ran()
      reads this
    {
      Valid() && base == old(base) && focus == old(focus)
    }

    /** `fp` holds a slot now only if it held one before. */
    twostate predicate NoNewSlot(fp: Fp)
      reads this
    {
      HoldsSlot(w, fp) ==> HoldsSlot(old(w), fp)
    }

    constructor (start: World, fate: nat -> bool)
      requires Inv(start)
      ensures Valid() && w == start && origin == start && worlds == [start] && acts == []
      ensures calm <==> forall k: nat :: fate(k)
    {
      origin, this.fate, drawn := start, fate, 0;
      calm := forall k: nat :: fate(k);
      w, worlds, acts, base, focus := start, [start], [], start, 0;
    }

    /** Start working on `fp`. */
    ghost method Focus(fp: Fp)
      requires Valid()
      modifies `base, `focus
      ensures Valid() && base == w && focus == fp
    {
      base, focus := w, fp;
    }

    method Draw() returns (good: bool)
      requires Logged()
      modifies `drawn
      ensures Logged() && (old(Valid()) ==> Valid()) && (calm ==> good)
    {
      good := fate(drawn);
      drawn := drawn + 1;
    }

    /** Take one step; nothing else assigns the world. */
    method Write(ghost a: Action, w1: World)
      requires Logged() && Inv(w) && Step(w, a, w1)
      modifies `w, `worlds, `acts
      ensures Logged() && Inv(w) && w == w1 && worlds == old(worlds) + [w1] && acts == old(acts) + [a]
    {
      ghost var more, done := worlds + [w1], acts + [a];
      assert LogOf(more, done, origin, w1) && Inv(w1) by {
        LogSnoc(worlds, acts, origin, w, a, w1);
      }
      w, worlds, acts := w1, more, done;
    }

    /** Take a step that concerns the current fingerprint alone. */
    method Log(ghost a: Action, w1: World)
      requires Valid() && Step(w, a, w1) && Touches(w, a, focus) && (calm ==> Own(w, a, focus))
      modifies `w, `worlds, `acts
      ensures Ran() && w == w1
      ensures HoldsSlot(w, focus) ==> HoldsSlot(old(w), focus) || a == Intend(focus) || a == OpenPr(focus)
    {
      StepStill(w, a, w1, focus);
      StillButTrans(base, w, w1, focus);
      if calm {
        StepOnlyAt(w, a, w1, focus);
        OnlyAtTrans(base, w, w1, focus);
      }
      if HoldsSlot(w1, focus) {
        SlotWasThere(w, a, w1, focus);
      }
      Write(a, w1);
    }

    /** Other parties act. */
    method Interfere()
      requires Valid()
      modifies `w, `worlds, `acts, `drawn
      ensures Ran() && Same(old(w), w, focus) && NoNewSlot(focus) && Drift(old(w), w) && (calm ==> w == old(w))
    {
      var quiet := Draw();
      if quiet {
        return;
      }
      var rows: map<Fp, Row>, branches: set<Fp>, closed: set<Fp>, newer: nat, damaged: bool := *, *, *, *, *;
      var w1 := Drifted(w, rows, branches, closed, newer, damaged);
      DriftSame(w, w1, focus);
      Log(Outside, w1);
    }

    method Claim(fp: Fp) returns (r: Reply)
      requires Valid() && fp == focus
      modifies `w, `worlds, `acts, `drawn
      ensures Ran() && Filed(old(w), w, fp) && ProposedAlike(old(w), w, fp) && NoNewSlot(fp)
      ensures r.Yes? ==> RowOf(w, fp).Proposing?
      ensures r.No? ==> !RowOf(w, fp).Ready? && Same(old(w), w, fp)
      ensures calm ==>
                if RowOf(old(w), fp).Ready? then r.Yes? && w == SetRow(old(w), fp, Proposing) else r.No? && w == old(w)
    {
      Interfere();
      var done := Draw();
      var told := Draw();
      if RowOf(w, fp).Ready? {
        if done {
          Log(Action.Claim(fp), SetRow(w, fp, Proposing));
        }
        r := if done && told then Yes else Raised;
      } else {
        r := if told then No else Raised;
      }
    }

    method Mark(fp: Fp, pr: nat) returns (r: Reply)
      requires Valid() && fp == focus && (fp in w.open ==> w.open[fp] == pr)
      modifies `w, `worlds, `acts, `drawn
      ensures Ran() && Filed(old(w), w, fp) && NoNewSlot(fp)
      ensures r.Yes? ==> RowOf(w, fp) == Proposed(pr)
      ensures r.No? ==> ProposedAlike(old(w), w, fp)
      ensures calm ==>
                if RowOf(old(w), fp).Proposing? then r.Yes? && w == SetRow(old(w), fp, Proposed(pr)) else r.No? && w == old(w)
    {
      Interfere();
      var done := Draw();
      var told := Draw();
      if RowOf(w, fp).Proposing? {
        if done {
          Log(Action.Mark(fp, pr), SetRow(w, fp, Proposed(pr)));
        }
        r := if done && told then Yes else Raised;
      } else {
        r := if told then No else Raised;
      }
    }

    /** proposing -> ready; a lost reply reads as a failure. */
    method Release(fp: Fp) returns (r: Reply)
      requires Valid() && fp == focus
      modifies `w, `worlds, `acts, `drawn
      ensures Ran() && Filed(old(w), w, fp) && ProposedAlike(old(w), w, fp) && NoNewSlot(fp)
      ensures r.Yes? ==> RowOf(old(w), fp).Proposing? && RowOf(w, fp).Ready?
      ensures r.No? ==> !RowOf(w, fp).Proposing? && Same(old(w), w, fp)
      ensures calm ==>
                if RowOf(old(w), fp).Proposing? then r.Yes? && w == SetRow(old(w), fp, Ready) else r.No? && w == old(w)
    {
      Interfere();
      var done := Draw();
      var told := Draw();
      if RowOf(w, fp).Proposing? {
        if done {
          Log(Action.Release(fp), SetRow(w, fp, Ready));
        }
        r := if done && told then Yes else Raised;
      } else {
        r := if told then No else Raised;
      }
    }

    method FindOpenBotPr(fp: Fp) returns (r: Lookup)
      requires Valid() && fp == focus
      modifies `w, `worlds, `acts, `drawn
      ensures Ran() && Same(old(w), w, fp) && NoNewSlot(fp)
      ensures r.Found? ==> fp in w.open && w.open[fp] == r.pr
      ensures r.Nothing? ==> fp !in w.open
      ensures calm ==> w == old(w) && r == if fp in w.open then Found(w.open[fp]) else Nothing
    {
      Interfere();
      var clear := Draw();
      r := if !clear then Unclear else if fp in w.open then Found(w.open[fp]) else Nothing;
    }

    method ReadRef(fp: Fp) returns (r: RefRead)
      requires Valid() && fp == focus
      modifies `w, `worlds, `acts, `drawn
      ensures Ran() && Same(old(w), w, fp) && NoNewSlot(fp)
      ensures r.Absent? ==> fp !in w.branches && fp !in w.open
      ensures r.Present? ==> fp in w.branches
      ensures calm ==> w == old(w) && r == if fp in w.branches then Present(true) else Absent
    {
      Interfere();
      var clear := Draw();
      var ours := Draw();
      r := if !clear then Unreadable else if fp in w.branches then Present(ours) else Absent;
    }

    /** `gh pr create` for an existing head.  Only an intended fingerprint may reach this point. */
    method CreatePr(fp: Fp) returns (r: Outcome)
      requires Valid() && fp == focus && fp in w.suspects && !RowOf(w, fp).Proposed?
      modifies `w, `worlds, `acts, `drawn
      ensures Ran() && fp in w.suspects && !RowOf(w, fp).Proposed?
      ensures r.Opened? || r.Uncertain?
      ensures r.Opened? ==> fp in w.open && w.open[fp] == r.pr
      ensures calm && fp in old(w).branches && fp !in old(w).open ==> r == Opened(old(w).nextPr) && w == WithPr(old(w), fp)
    {
      Interfere();
      var done := Draw();
      var told := Draw();
      r := Uncertain;
      if fp in w.branches && fp !in w.open && done {
        var pr := w.nextPr;
        Log(OpenPr(fp), WithPr(w, fp));
        r := if told then Opened(pr) else Uncertain;
      }
    }

    method ClosePr(fp: Fp) returns (closed: bool)
      requires Valid() && fp == focus
      modifies `w, `worlds, `acts, `drawn
      ensures Ran() && Filed(old(w), w, fp) && ProposedAlike(old(w), w, fp) && NoNewSlot(fp)
      ensures closed ==> fp !in w.open && fp in w.evidence
      ensures calm ==> closed && w == Closed(old(w), fp)
    {
      Interfere();
      var done := Draw();
      var told := Draw();
      if done {
        Log(Action.ClosePr(fp), Closed(w, fp));
      }
      closed := done && told;
    }

    /** Push the branch and open its pull request; a push whose exit code is bad is re-read. */
    method PushAndOpenPr(fp: Fp) returns (r: Outcome)
      requires Valid() && fp == focus && fp in w.suspects && fp !in w.open && !RowOf(w, fp).Proposed?
      modifies `w, `worlds, `acts, `drawn
      ensures Ran() && fp in w.suspects && !RowOf(w, fp).Proposed?
      ensures r.NoPr? || r.NoPrForeign? ==> fp !in w.open
      ensures r.NoPrForeign? ==> fp in w.branches
      ensures r.Opened? ==> fp in w.open && w.open[fp] == r.pr
      ensures calm ==> r == Opened(old(w).nextPr) && w == WithPr(old(w).(branches := old(w).branches + {fp}), fp)
    {
      Interfere();
      var landed := Draw();
      var exitZero := Draw();
      var answered := Draw();
      var headKnown := Draw();
      if landed {
        Log(Push(fp), w.(branches := w.branches + {fp}));
      }
      if !answered {
        return Uncertain;
      }
      if !landed || !exitZero {
        var ref := ReadRef(fp);
        if ref.Absent? {
          ref := ReadRef(fp);
          if ref.Absent? {
            return NoPr;
          }
        }
        if ref.Present? && headKnown && !ref.atOurHead {
          return NoPrForeign;
        }
        if !(ref.Present? && headKnown) {
          return Uncertain;
        }
      }
      r := CreatePr(fp);
    }

    /** Write-ahead intent.  `false` (file damaged, or the write not reported durable) forbids the
        create; the entry may be in the file all the same, and then holds no slot. */
    method AddSuspect(fp: Fp) returns (ok: bool)
      requires Valid() && fp == focus && fp !in w.open && |Slots(w) + {fp}| <= w.cap
      modifies `w, `worlds, `acts, `drawn
      ensures Ran() && ProposedAlike(old(w), w, fp) && fp !in w.open
      ensures ok ==> fp in w.suspects
      ensures !ok ==> NoNewSlot(fp)
      ensures calm ==> ok == !old(w).damaged && w == if ok then WithIntent(old(w), fp) else old(w)
    {
      ghost var before := w;
      Interfere();
      if w.damaged {
        return false;
      }
      DriftShrinksSlots(before, w, fp);
      ok := SaveIntent(fp);
    }

    method SaveIntent(fp: Fp) returns (ok: bool)
      requires Valid() && fp == focus && fp !in w.open && |Slots(w) + {fp}| <= w.cap
      modifies `w, `worlds, `acts, `drawn
      ensures Ran() && ProposedAlike(old(w), w, fp) && fp !in w.open
      ensures ok ==> fp in w.suspects
      ensures !ok ==> NoNewSlot(fp)
      ensures calm ==> ok && w == WithIntent(old(w), fp)
    {
      var written := Draw();
      var reported := Draw();
      ok := written && reported;
      if written {
        LogIntent(fp);
      }
      if written && !reported {
        Refund(fp);
      }
    }

    method LogIntent(fp: Fp)
      requires Valid() && fp == focus && fp !in w.open && |Slots(w) + {fp}| <= w.cap
      modifies `w, `worlds, `acts
      ensures Ran() && w == WithIntent(old(w), fp) && fp in w.suspects && fp !in w.open
    {
      Log(Intend(fp), WithIntent(w, fp));
    }

    method ClearSuspect(fp: Fp)
      requires Valid() && fp == focus && MayDrop(w, fp)
      modifies `w, `worlds, `acts, `drawn
      ensures Ran() && ProposedAlike(old(w), w, fp) && NoNewSlot(fp)
      ensures fp in w.open ==> fp in old(w.open)
      ensures calm ==>
                w == if !old(w).damaged && fp in old(w).suspects then old(w).(suspects := Without(old(w).suspects, fp)) else old(w)
    {
      Interfere();
      var written := Draw();
      if !w.damaged && fp in w.suspects && written {
        var kept := Without(w.suspects, fp);
        WithoutFacts(w.suspects, fp);
        Log(Rewrite(kept), w.(suspects := kept, damaged := false));
      }
    }

    /** proposed -> promoted, declined or stale; only once the pull request is known not to be open. */
    method Resolve(fp: Fp) returns (r: Reply)
      requires Valid() && fp == focus && fp !in w.open
      modifies `w, `worlds, `acts, `drawn
      ensures Ran() && Filed(old(w), w, fp) && NoNewSlot(fp) && fp !in w.open
      ensures RowOf(w, fp).Proposed? ==> RowOf(old(w), fp) == RowOf(w, fp)
      ensures r.Yes? ==> RowOf(old(w), fp).Proposed? && RowOf(w, fp).Idle?
      ensures r.No? ==> !RowOf(old(w), fp).Proposed? && Same(old(w), w, fp)
      ensures calm ==> if RowOf(old(w), fp).Proposed? then r.Yes? && w == SetRow(old(w), fp, Idle) else r.No? && w == old(w)
    {
      Interfere();
      var done := Draw();
      var told := Draw();
      if RowOf(w, fp).Proposed? {
        if done {
          Log(Action.Resolve(fp), SetRow(w, fp, Idle));
        }
        r := if done && told then Yes else Raised;
      } else {
        r := if told then No else Raised;
      }
    }

    /** The one whole-file rewrite, at the end of suspect resolution. */
    method SaveSuspects(kept: seq<Fp>)
      requires Valid() && CanSave(w, kept)
      modifies `w, `worlds, `acts, `drawn, `base
      ensures Valid() && focus == old(focus) && SavedFrom(old(w), kept, w)
      ensures calm ==> w == old(w).(suspects := kept, damaged := false)
    {
      ghost var w0 := w;
      Interfere();
      RewriteFile(w0, kept);
    }

    method RewriteFile(ghost w0: World, kept: seq<Fp>)
      requires Logged() && Inv(w) && Drift(w0, w) && CanSave(w0, kept)
      modifies `w, `worlds, `acts, `drawn, `base
      ensures Valid() && SavedFrom(w0, kept, w)
      ensures calm && w0 == old(w) ==> w == w0.(suspects := kept, damaged := false)
    {
      var written := Draw();
      DriftSaves(w0, kept, w);
      DriftThenRewrite(w0, kept, w);
      if written {
        Write(Rewrite(kept), w.(suspects := kept, damaged := false));
      }
      Rebase();
    }

    ghost method Rebase()
      requires Logged() && Inv(w)
      modifies `base
      ensures Valid() && base == w
    {
      StillRefl(w, focus);
      base := w;
    }

    /** Note why nothing of `fp` needs tracking: the read that says so came right before. */
    method Witness(fp: Fp, e: Evidence)
      requires Valid() && fp == focus && CanWitness(w, fp, e)
      modifies `w, `worlds, `acts, `drawn
      ensures Ran() && w == old(w).(evidence := old(w).evidence[fp := e])
    {
      Log(Action.Witness(fp, e), w.(evidence := w.evidence[fp := e]));
    }

    /** Give the slot back (bookkeeping only: the entry may stay in the file). */
    method Refund(fp: Fp)
      requires Valid() && fp == focus && fp !in w.open
      modifies `w, `worlds, `acts, `drawn
      ensures Ran() && ProposedAlike(old(w), w, fp) && !HoldsSlot(w, fp)
      ensures w == old(w).(refunded := old(w).refunded + {fp})
    {
      Log(Action.Refund(fp), w.(refunded := w.refunded + {fp}));
    }

    /** The drop that asks the human for a disposition. */
    method HandOver(fp: Fp)
      requires Valid() && fp == focus && RowOf(w, fp).Idle? && fp in w.suspects
      modifies `w, `worlds, `acts, `drawn
      ensures Ran() && ProposedAlike(old(w), w, fp) && fp in w.handed
      ensures w == old(w).(handed := old(w).handed + {fp})
    {
      Log(Action.HandOver(fp), w.(handed := w.handed + {fp}));
    }
  }

  /** The kept entries are entries, and the others may go. */
  ghost predicate CanSave(w: World, kept: seq<Fp>) {
    && NoDup(kept) && (forall fp :: fp in kept ==> fp in w.suspects)
    && forall fp :: fp in w.suspects && fp !in kept ==> MayDrop(w, fp)
  }

  /** The world after the rewrite was attempted: the file is new or old, the rest only drifted. */
  ghost predicate SavedFrom(w0: World, kept: seq<Fp>, w1: World) {
    && w1.cap == w0.cap && (w1.suspects == kept || w1.suspects == w0.suspects)
    && w1.handed == w0.handed && w1.refunded == w0.refunded && w1.excess == w0.excess
    && SubOpen(w1.open, w0.open) && (forall fp :: ProposedAlike(w0, w1, fp))
  }

  lemma DriftSaves(w0: World, kept: seq<Fp>, w1: World)
    requires Drift(w0, w1)
    ensures SavedFrom(w0, kept, w1) && SavedFrom(w0, kept, w1.(suspects := kept, damaged := false))
  {
    var w2 := w1.(suspects := kept, damaged := false);
    forall fp
      ensures ProposedAlike(w0, w1, fp) && ProposedAlike(w0, w2, fp)
    {
      DriftSame(w0, w1, fp);
    }
  }

  lemma DriftThenRewrite(w0: World, kept: seq<Fp>, w1: World)
    requires Drift(w0, w1) && CanSave(w0, kept)
    ensures Step(w1, Rewrite(kept), w1.(suspects := kept, damaged := false))
  {
    forall fp | fp in w1.suspects && fp !in kept
      ensures MayDrop(w1, fp)
    {
      DriftSame(w0, w1, fp);
    }
  }

  lemma DriftShrinksSlots(w0: World, w1: World, fp: Fp)
    requires Drift(w0, w1) && |Slots(w0) + {fp}| <= w0.cap
    ensures |Slots(w1) + {fp}| <= w1.cap
  {
    var s0, s1 := Slots(w0), Slots(w1);
    forall x | x in s1
      ensures x in s0
    {
      SlotWasThere(w0, Outside, w1, x);
    }
    SubsetSize(s1 + {fp}, s0 + {fp});
  }

  function Without(s: seq<Fp>, fp: Fp): seq<Fp> {
    if s == [] then [] else (if s[0] == fp then [] else [s[0]]) + Without(s[1..], fp)
  }

  lemma {:induction false} WithoutFacts(s: seq<Fp>, fp: Fp)
    ensures forall x :: x in Without(s, fp) <==> x in s && x != fp
    ensures NoDup(s) ==> NoDup(Without(s, fp))
  {
    if s != [] {
      var rest := Without(s[1..], fp);
      WithoutFacts(s[1..], fp);
      assert forall x :: x in s <==> x == s[0] || x in s[1..];
      if NoDup(s) {
        assert s[0] !in s[1..];
      }
    }
  }
}
