/**
  The inbox assistant's cursor protocol: pull, brief, and only then advance, by compare-and-swap, with
  ticks of the same account running at the same time and dying at any point.
 */
module InboxCursor {
  import opened Options
  import opened GmailPull

  // ---- the ledger verbs --------------------------------------------------------------------------

  /** The account's cursor row.  A row without a history id is an error seed: it counts failed first runs. */
  datatype Row = NoRow | Row(history: Option<nat>, attempts: nat)

  function History(r: Row): Option<nat> {
    if r.Row? then r.history else None
  }

  /** inbox_advance_cursor: insert, or update if the row still holds what the tick read. */
  function AdvanceCursor(r: Row, h: nat, expected: Option<nat>): Row {
    if r.NoRow? || r.history == expected then Row(Some(h), 0) else r
  }

  /** inbox_mark_cursor_error bound to the slice the tick read; None seeds. */
  function MarkError(r: Row, expected: Option<nat>): Row {
    if r.NoRow? then (if expected.None? then Row(None, 1) else NoRow)
    else if r.history == expected then r.(attempts := r.attempts + 1) else r
  }

  /** inbox_mark_cursor_error without an expectation: whatever row there is, and never a new one. */
  function MarkUnboundError(r: Row): Row {
    if r.Row? then r.(attempts := r.attempts + 1) else r
  }

  const HOLD_MAX: nat := 3

  /** The bounded-loss valve: the row still owns the slice and this would be the last tolerated hold. */
  predicate Valve(r: Row, prev: Option<nat>) {
    r.Row? && r.history == prev && r.attempts + 1 >= HOLD_MAX
  }

  /** A held tick that ran alone and delivered its brief. */
  function HeldTick(r: Row, upTo: nat): Row {
    if Valve(r, History(r)) then AdvanceCursor(r, upTo, History(r)) else MarkError(r, History(r))
  }

  /** No hold wedges: whatever the row, the third held tick at the latest advances the cursor, and each
      earlier one leaves the slice where it was. */
  lemma HoldIsBounded(r: Row, a: nat, b: nat, c: nat)
    ensures var r1 := HeldTick(r, a);
            var r2 := HeldTick(r1, b);
            var r3 := HeldTick(r2, c);
            History(r1) == Some(a) || (History(r1) == History(r)
            && (History(r2) == Some(b) || (History(r2) == History(r) && r3 == Row(Some(c), 0))))
  {
  }

  /** Nor is a slice given up early: one that nothing has failed on is held twice, and passed on the third tick. */
  lemma HoldIsPatient(h: Option<nat>, a: nat, b: nat, c: nat)
    ensures HeldTick(Row(h, 0), a) == Row(h, 1) && HeldTick(HeldTick(Row(h, 0), a), b) == Row(h, 2)
    ensures HeldTick(HeldTick(HeldTick(Row(h, 0), a), b), c) == Row(Some(c), 0)
    ensures HeldTick(NoRow, a) == Row(None, 1)
  {
  }

  // ---- the account's world -----------------------------------------------------------------------

  /** An incremental pull from what the cursor says, or a listing of the mail dated after `since`; `box` is the mail
      that was in the inbox from the checkpoint to the end of the listing. */
  datatype Kind = Incremental | Window(since: nat, box: set<Message>)

  /** What one tick pulled: the history id it read, how it pulled, its checkpoint, and the threads it got. */
  datatype Slice = Slice(prev: Option<nat>, kind: Kind, upTo: nat, threads: set<Thread>)

  /**
    log        the mailbox's changes so far
    inbox      the messages in the inbox, with the change that brought each one there
    now        the mailbox's history id
    slices     what ticks have pulled;  delivered: the slices on a durably written brief
    used       the slices the cursor advanced over
   */
  datatype World = World(log: seq<Event>, inbox: map<Message, nat>, now: nat, row: Row,
                         slices: set<Slice>, delivered: set<Slice>, used: set<Slice>)

  datatype Action =
    | Arrive(e: Event) | Leave(m: Message) | Bump(now: nat)
    | Pull(s: Slice) | Deliver(s: Slice)
    | Mark(expected: Option<nat>) | MarkUnbound
    | Advance(s: Slice)

  /** The messages that have been in the inbox since a change no later than `upTo`. */
  function Since(w: World, upTo: nat): set<Message> {
    set m | m in w.inbox && w.inbox[m] <= upTo
  }

  function Recent(since: nat, box: set<Message>): set<Message> {
    set m | m in box && m.date > since
  }

  /** What the client's two pulls give: `GmailPull.Whole` of the history, or the listing's promise. */
  predicate Pulled(w: World, s: Slice) {
    match s.kind
    case Incremental => s.prev.Some? && Whole(w.log, s.prev.value, s.upTo, s.threads)
    case Window(since, box) => box == Since(w, s.upTo) && Holds(s.threads, Recent(since, box))
  }

  predicate Enabled(w: World, a: Action) {
    match a
    case Arrive(e) => e.id > w.now
    case Leave(_) => true
    case Bump(now) => now >= w.now
    case Pull(s) => s.upTo <= w.now && Pulled(w, s) && (s.prev.Some? ==> w.row.Row? && s.prev.value <= s.upTo)
    case Deliver(s) => s in w.slices
    case Mark(_) => true
    case MarkUnbound => true
    case Advance(s) => s in w.delivered && (w.row.NoRow? || w.row.history == s.prev)
  }

  function Do(w: World, a: Action): World
    requires Enabled(w, a)
  {
    match a
    case Arrive(e) => w.(log := w.log + [e], inbox := (map m | m in Entered(e) :: e.id) + w.inbox, now := e.id)
    case Leave(m) => w.(inbox := w.inbox - {m})
    case Bump(now) => w.(now := now)
    case Pull(s) => w.(slices := w.slices + {s})
    case Deliver(s) => w.(delivered := w.delivered + {s})
    case Mark(expected) => w.(row := MarkError(w.row, expected))
    case MarkUnbound => w.(row := MarkUnboundError(w.row))
    case Advance(s) => w.(row := AdvanceCursor(w.row, s.upTo, s.prev), used := w.used + {s})
  }

  // ---- the invariant -----------------------------------------------------------------------------

  /** The slice is answerable for the change: it lies between what the tick read and its checkpoint. */
  predicate Spans(s: Slice, e: Event) {
    e.id <= s.upTo && (s.prev.Some? ==> s.prev.value < e.id)
  }

  /** A durable brief written for a slice that spans the change lists the message's thread. */
  ghost predicate OnBrief(w: World, e: Event, m: Message) {
    m.thread.Some? ==> exists s :: s in w.delivered && Spans(s, e) && m.thread.value in s.threads
  }

  /** A listing the cursor advanced over was answerable for the change and could not show the message: it is dated
      before the window, or it was not in the inbox all the while. */
  ghost predicate Missed(w: World, e: Event, m: Message) {
    exists s :: s in w.used && s.kind.Window? && Spans(s, e) && m !in Recent(s.kind.since, s.kind.box)
  }

  ghost predicate Accounted(w: World, e: Event) {
    forall m :: m in Entered(e) ==> OnBrief(w, e, m) || Missed(w, e, m)
  }

  ghost predicate Covered(w: World, h: nat) {
    forall k: nat :: k < |w.log| && w.log[k].id <= h ==> Accounted(w, w.log[k])
  }

  ghost predicate SliceOk(w: World, s: Slice) {
    && s.upTo <= w.now && (s.prev.Some? ==> w.row.Row? && s.prev.value <= s.upTo)
    && match s.kind
       case Incremental => s.prev.Some? && Whole(w.log, s.prev.value, s.upTo, s.threads)
       case Window(since, box) => Holds(s.threads, Recent(since, box))
  }

  ghost predicate Inv(w: World) {
    && (forall k: nat :: k < |w.log| ==> w.log[k].id <= w.now)
    && (forall s :: s in w.slices ==> SliceOk(w, s))
    && (forall s :: s in w.delivered ==> s in w.slices)
    && (History(w.row).Some? ==> History(w.row).value <= w.now && Covered(w, History(w.row).value))
  }

  lemma StepKeepsInv(w: World, a: Action)
    requires Inv(w) && Enabled(w, a)
    ensures Inv(Do(w, a))
  {
    var w1 := Do(w, a);
    forall s | s in w1.slices
      ensures SliceOk(w1, s)
    {
      if s in w.slices {
        assert SliceOk(w, s);
      }
    }
    if History(w1.row).Some? {
      if a.Advance? {
        assert SliceOk(w, a.s);
        AdvanceCovers(w, a.s);
      } else {
        StillCovered(w, a);
      }
    }
  }

  lemma StillCovered(w: World, a: Action)
    requires Inv(w) && Enabled(w, a) && !a.Advance? && History(w.row).Some?
    ensures Covered(Do(w, a), History(w.row).value)
  {
    var w1, h := Do(w, a), History(w.row).value;
    forall k: nat | k < |w1.log| && w1.log[k].id <= h
      ensures Accounted(w1, w1.log[k])
    {
      assert k < |w.log| && w1.log[k] == w.log[k];
      KeptByMore(w, w1, w.log[k]);
    }
  }

  lemma KeptByMore(w0: World, w1: World, e: Event)
    requires Accounted(w0, e) && (forall s :: s in w0.delivered ==> s in w1.delivered) && (forall s :: s in w0.used ==> s in w1.used)
    ensures Accounted(w1, e)
  {
    forall m | m in Entered(e)
      ensures OnBrief(w1, e, m) || Missed(w1, e, m)
    {
      assert OnBrief(w0, e, m) || Missed(w0, e, m);
    }
  }

  /** The compare-and-swap is what makes the advance safe: the row still says `prev`, up to which everything is
      accounted for, and the delivered slice answers for the rest. */
  lemma AdvanceCovers(w: World, s: Slice)
    requires Inv(w) && Enabled(w, Advance(s)) && SliceOk(w, s)
    ensures Covered(Do(w, Advance(s)), s.upTo)
  {
    var w1 := Do(w, Advance(s));
    forall k: nat | k < |w1.log| && w1.log[k].id <= s.upTo
      ensures Accounted(w1, w1.log[k])
    {
      var e := w.log[k];
      if Spans(s, e) {
        SliceAccounts(w, s, k);
      } else {
        KeptByMore(w, w1, e);
      }
    }
  }

  lemma SliceAccounts(w: World, s: Slice, k: nat)
    requires SliceOk(w, s) && s in w.delivered && k < |w.log| && Spans(s, w.log[k]) && Enabled(w, Advance(s))
    ensures Accounted(Do(w, Advance(s)), w.log[k])
  {
    var w1, e := Do(w, Advance(s)), w.log[k];
    forall m | m in Entered(e)
      ensures OnBrief(w1, e, m) || Missed(w1, e, m)
    {
      assert s in w1.delivered && s in w1.used;
      if s.kind.Incremental? {
        assert Holds(s.threads, Entered(w.log[k]));
      } else if m in Recent(s.kind.since, s.kind.box) {
        assert m.thread.Some? ==> m.thread.value in s.threads;
      }
    }
  }

  // ---- runs --------------------------------------------------------------------------------------

  ghost predicate Run(ws: seq<World>, acts: seq<Action>) {
    && |ws| == |acts| + 1
    && forall i: nat :: i < |acts| ==> Enabled(ws[i], acts[i]) && ws[i + 1] == Do(ws[i], acts[i])
  }

  /** Before the first tick: some mailbox, no row, nothing pulled. */
  ghost predicate Start(w: World) {
    && (forall k: nat :: k < |w.log| ==> w.log[k].id <= w.now)
    && w.row == NoRow && w.slices == w.delivered == w.used == {}
  }

  lemma {:induction false} RunKeepsInv(ws: seq<World>, acts: seq<Action>, i: nat)
    requires Run(ws, acts) && Start(ws[0]) && i < |ws|
    ensures Inv(ws[i])
  {
    if i > 0 {
      RunKeepsInv(ws, acts, i - 1);
      var w1 := ws[i - 1 + 1];
      assert w1 == Do(ws[i - 1], acts[i - 1]);
      StepKeepsInv(ws[i - 1], acts[i - 1]);
    }
  }

  /** No mail lost: at every moment of every run, each message that a change up to the cursor brought into the inbox is
      listed on a durably written brief that answers for the change, unless a backfill answered for it and the message
      was dated before its window or was not in the inbox throughout its listing. */
  lemma NoMailLost(ws: seq<World>, acts: seq<Action>, i: nat, k: nat, m: Message)
    requires Run(ws, acts) && Start(ws[0]) && i < |ws| && History(ws[i].row).Some?
    requires k < |ws[i].log| && ws[i].log[k].id <= History(ws[i].row).value && m in Entered(ws[i].log[k])
    ensures OnBrief(ws[i], ws[i].log[k], m) || Missed(ws[i], ws[i].log[k], m)
  {
    RunKeepsInv(ws, acts, i);
    assert Accounted(ws[i], ws[i].log[k]);
  }

  /** What a backfill's box is: it was recorded by a pull, and a message outside it that an earlier change had brought in
      had left the inbox by then, or had come back only after the checkpoint. */
  lemma {:induction false} BoxIsTrue(ws: seq<World>, acts: seq<Action>, i: nat, s: Slice) returns (j: nat)
    requires Run(ws, acts) && Start(ws[0]) && i < |ws| && s in ws[i].slices && s.kind.Window?
    ensures j < i && acts[j] == Pull(s)
    ensures forall m :: m in s.kind.box <==> m in ws[j].inbox && ws[j].inbox[m] <= s.upTo
  {
    var w0, a, w1 := ws[i - 1], acts[i - 1], ws[i - 1 + 1];
    assert Enabled(w0, a) && w1 == Do(w0, a);
    if s in w0.slices {
      j := BoxIsTrue(ws, acts, i - 1, s);
    } else {
      j := i - 1;
    }
  }

  /** What only grows: the log, the clock, the slices, the briefs, and the cursor once it is set. */
  ghost predicate Onward(w0: World, w1: World) {
    && |w0.log| <= |w1.log| && (forall k: nat :: k < |w0.log| ==> w1.log[k] == w0.log[k])
    && w0.now <= w1.now && (w0.row.Row? ==> w1.row.Row?)
    && (forall s :: s in w0.slices ==> s in w1.slices) && (forall s :: s in w0.delivered ==> s in w1.delivered)
    && (forall s :: s in w0.used ==> s in w1.used)
    && (History(w0.row).Some? ==>
          History(w1.row).Some? && History(w0.row).value <= History(w1.row).value)
  }

  lemma StepIsOnward(w0: World, w: World, a: Action)
    requires Onward(w0, w) && Inv(w) && Enabled(w, a)
    ensures Onward(w0, Do(w, a))
  {
    if a.Advance? {
      assert SliceOk(w, a.s);
    }
  }

  /** The cursor never moves back, in any interleaving. */
  lemma {:induction false} NeverBack(ws: seq<World>, acts: seq<Action>, i: nat, j: nat)
    requires Run(ws, acts) && Start(ws[0]) && i <= j < |ws|
    ensures Onward(ws[i], ws[j])
    decreases j
  {
    if i < j {
      NeverBack(ws, acts, i, j - 1);
      RunKeepsInv(ws, acts, j - 1);
      var w1 := ws[j - 1 + 1];
      assert w1 == Do(ws[j - 1], acts[j - 1]);
      StepIsOnward(ws[i], ws[j - 1], acts[j - 1]);
    }
  }

  // ---- one tick on one account -------------------------------------------------------------------

  /** How a tick fares: whether the mailbox answers, the history id is still known, the pull works, the threads are
      classified, the labels and drafts are made, and the brief is written. */
  datatype Turn = Turn(reached: bool, recent: bool, pulled: bool, classified: bool, acted: bool, written: bool)

  /** It reaches the valve with something undone, and its brief is written. */
  predicate Holding(t: Turn) { t.reached && t.pulled && t.written && Held(t) }

  /** The history from what the row says, if it says something still known; else a listing of the window. */
  predicate RightKind(s: Slice, t: Turn, first: Row, windowStart: nat) {
    && s.prev == History(first)
    && if History(first).Some? && t.recent then s.kind.Incremental? else s.kind.Window? && s.kind.since == windowStart
  }

  predicate Held(t: Turn) { !t.classified || !t.acted }

  /** What a tick does to the world, in order: by the row it reads first, the row it reads for the valve, and the row
      it meets at the end. */
  function Course(t: Turn, first: Row, valve: Row, last: Row, s: Option<Slice>): seq<Action>
    requires s.Some? <==> t.reached && t.pulled
  {
    if !t.reached then [MarkUnbound]
    else if !t.pulled then [if first.Row? then Mark(History(first)) else MarkUnbound]
    else [Pull(s.value)] + Concluding(t, s.value, valve, last)
  }

  function Concluding(t: Turn, s: Slice, valve: Row, last: Row): seq<Action> {
    if !t.written then [] else [Deliver(s)] + Settling(s, Held(t) && !Valve(valve, s.prev), last)
  }

  function Settling(s: Slice, hold: bool, last: Row): seq<Action> {
    if hold then [Mark(s.prev)] else if last.NoRow? || last.history == s.prev then [Advance(s)] else []
  }

  function ConcludedRow(r: Row, s: Slice, t: Turn): Row {
    if !t.written then r else SettledRow(r, s, Held(t) && !Valve(r, s.prev))
  }

  function SettledRow(r: Row, s: Slice, hold: bool): Row {
    if hold then MarkError(r, s.prev) else AdvanceCursor(r, s.upTo, s.prev)
  }

  /** The cursor is advanced exactly when the brief was written, the row still names the slice read first, and nothing
      failed or the row read for the valve had already counted two failures of that slice. */
  lemma AdvancesExactly(t: Turn, first: Row, valve: Row, last: Row, s: Slice)
    requires t.reached && t.pulled && s.prev == History(first)
    ensures Advance(s) in Course(t, first, valve, last, Some(s)) <==>
              && t.written && (last.NoRow? || History(last) == History(first))
              && ((t.classified && t.acted) || (valve.Row? && History(valve) == History(first) && valve.attempts >= 2))
    ensures Mark(History(first)) in Course(t, first, valve, last, Some(s)) <==>
              && t.written && !(t.classified && t.acted)
              && !(valve.Row? && History(valve) == History(first) && valve.attempts >= 2)
  {
    var deeds := Course(t, first, valve, last, Some(s));
    if |deeds| == 3 {
      assert deeds[2] in deeds;
    }
  }

  /** A tick that nobody interferes with. */
  function RowAfter(t: Turn, r: Row, s: Option<Slice>): Row
    requires s.Some? <==> t.reached && t.pulled
  {
    if !t.reached then MarkUnboundError(r)
    else if !t.pulled then if r.Row? then MarkError(r, History(r)) else r
    else if !t.written then r
    else if Held(t) then HeldTick(r, s.value.upTo)
    else Row(Some(s.value.upTo), 0)
  }

  ghost function Picked(acts: seq<Action>, at: seq<nat>): seq<Action>
    requires forall i: nat :: i < |at| ==> at[i] < |acts|
  {
    seq(|at|, i requires 0 <= i < |at| => acts[at[i]])
  }

  class Account {
    /** The k-th chance for others to act: true when they do not. */
    const fate: nat -> bool
    /** Nobody else acts; no code can ask. */
    ghost const alone: bool
    var drawn: nat
    var w: World
    ghost var worlds: seq<World>   // every world since the start, one per action
    ghost var acts: seq<Action>
    ghost var own: seq<nat>        // which of the actions are the tick's own
    ghost var since: World         // the world when the tick began

    ghost predicate Valid()
      reads this
    {
      && Run(worlds, acts) && Start(worlds[0]) && worlds[|acts|] == w && Inv(w) && Onward(since, w)
      && (alone ==> forall k: nat :: fate(k)) && Listed()
    }

    ghost predicate Listed()
      reads this
    {
      forall i: nat :: i < |own| ==> own[i] < |acts|
    }

    /** The tick's own actions, in order. */
    ghost function Deeds(): seq<Action>
      requires Listed()
      reads this
    {
      Picked(acts, own)
    }

    constructor (fate: nat -> bool, log: seq<Event>, inbox: map<Message, nat>, now: nat)
      requires forall k: nat :: k < |log| ==> log[k].id <= now
      ensures Valid() && w == World(log, inbox, now, NoRow, {}, {}, {}) && (alone <==> forall k: nat :: fate(k))
    {
      var start := World(log, inbox, now, NoRow, {}, {}, {});
      w, since, drawn, this.fate := start, start, 0, fate;
      alone := forall k: nat :: fate(k);
      worlds, acts, own := [start], [], [];
    }

    /** Nothing else assigns the world, so every moment of a tick, and every crash, is a moment of a run. */
    method Act(a: Action)
      requires Valid() && Enabled(w, a)
      modifies `w, `worlds, `acts
      ensures Valid() && w == Do(old(w), a) && Onward(old(w), w) && worlds == old(worlds) + [w] && acts == old(acts) + [a]
      ensures Deeds() == old(Deeds())
    {
      StepKeepsInv(w, a);
      StepIsOnward(w, w, a);
      StepIsOnward(since, w, a);
      w := Do(w, a);
      worlds, acts := worlds + [w], acts + [a];
    }

    /** An action of the tick itself. */
    method Own(a: Action)
      requires Valid() && Enabled(w, a)
      modifies `w, `worlds, `acts, `own
      ensures Valid() && w == Do(old(w), a) && Onward(old(w), w) && worlds == old(worlds) + [w]
      ensures Deeds() == old(Deeds()) + [a]
    {
      ghost var was := acts;
      Act(a);
      own := own + [|was|];
      assert Picked(acts, own) == Picked(was, old(own)) + [a];
    }

    /** Mail arrives, and other ticks of the account pull, brief, mark and advance as they like. */
    method Interfere()
      requires Valid()
      modifies `w, `worlds, `acts, `drawn
      ensures Valid() && Onward(old(w), w) && old(worlds) <= worlds && Deeds() == old(Deeds())
      ensures alone ==> w == old(w)
    {
      var quiet := fate(drawn);
      drawn := drawn + 1;
      var k: nat := *;
      while !quiet && k > 0
        invariant Valid() && Onward(old(w), w) && old(worlds) <= worlds && Deeds() == old(Deeds())
        invariant alone ==> w == old(w)
        decreases k
      {
        k := k - 1;
        var a: Action := *;
        if Enabled(w, a) {
          StepIsOnward(old(w), w, a);
          Act(a);
        }
      }
    }

    /** One tick.  It may die after every action. */
    method Tick(windowStart: nat, t: Turn) returns (s: Option<Slice>, ghost first: nat, ghost valve: nat, ghost last: nat)
      requires Valid()
      modifies this
      ensures Valid() && Onward(old(w), w) && old(worlds) <= worlds
      ensures s.Some? <==> t.reached && t.pulled
      ensures |old(worlds)| <= first + 1 && first <= valve <= last < |worlds|
      ensures s.Some? ==> RightKind(s.value, t, worlds[first].row, windowStart)
      ensures Deeds() == Course(t, worlds[first].row, worlds[valve].row, worlds[last].row, s)
      ensures alone ==> w.row == RowAfter(t, old(w.row), s)
    {
      since, own := w, [];
      s := None;
      Interfere();
      first, valve, last := |acts|, |acts|, |acts|;
      if !t.reached {
        Own(MarkUnbound);
        return;
      }
      s, valve, last := Proceed(w.row, windowStart, t);
    }

    /** With the row read: the pull and all that follows, or the failure. */
    method Proceed(row: Row, windowStart: nat, t: Turn) returns (s: Option<Slice>, ghost valve: nat, ghost last: nat)
      requires Valid() && row == w.row && t.reached
      modifies `w, `worlds, `acts, `drawn, `own
      ensures Valid() && Onward(old(w), w) && old(worlds) <= worlds && (s.Some? <==> t.pulled)
      ensures |old(worlds)| <= valve + 1 && valve <= last < |worlds| && (s.Some? ==> RightKind(s.value, t, row, windowStart))
      ensures Deeds() == old(Deeds()) + Course(t, row, worlds[valve].row, worlds[last].row, s)
      ensures alone ==> w.row == RowAfter(t, row, s)
    {
      Interfere();
      valve, last, s := |acts|, |acts|, None;
      if !t.pulled {
        Fail(row.Row?, History(row));
        return;
      }
      var slice;
      slice, valve, last := Work(row, if History(row).None? || !t.recent then Some(windowStart) else None, t);
      s := Some(slice);
    }

    method Work(row: Row, window: Option<nat>, t: Turn) returns (s: Slice, ghost valve: nat, ghost last: nat)
      requires Valid() && (History(row).Some? ==> w.row.Row? && History(row).value <= w.now) && (window.None? ==> History(row).Some?)
      modifies `w, `worlds, `acts, `drawn, `own
      ensures Valid() && Onward(old(w), w) && old(worlds) <= worlds && s.prev == History(row)
      ensures if window.Some? then s.kind.Window? && s.kind.since == window.value else s.kind.Incremental?
      ensures |old(worlds)| <= valve + 1 && valve <= last < |worlds|
      ensures Deeds() == old(Deeds()) + [Pull(s)] + Concluding(t, s, worlds[valve].row, worlds[last].row)
      ensures alone ==> w.row == ConcludedRow(old(w.row), s, t)
    {
      s := PullSlice(History(row), window);
      valve, last := Conclude(s, t);
    }

    /** From the pulled slice to the cursor. */
    method Conclude(s: Slice, t: Turn) returns (ghost valve: nat, ghost last: nat)
      requires Valid() && s in w.slices
      modifies `w, `worlds, `acts, `drawn, `own
      ensures Valid() && Onward(old(w), w) && old(worlds) <= worlds
      ensures |old(worlds)| <= valve + 1 && valve <= last < |worlds|
      ensures Deeds() == old(Deeds()) + Concluding(t, s, worlds[valve].row, worlds[last].row)
      ensures alone ==> w.row == ConcludedRow(old(w.row), s, t)
    {
      Interfere();
      valve, last := |acts|, |acts|;
      var open := Held(t) && Valve(w.row, s.prev);
      Interfere();
      if t.written {
        last := Publish(s, Held(t) && !open);
      }
    }

    /** The brief is written; then the cursor. */
    method Publish(s: Slice, hold: bool) returns (ghost last: nat)
      requires Valid() && s in w.slices
      modifies `w, `worlds, `acts, `drawn, `own
      ensures Valid() && Onward(old(w), w) && old(worlds) <= worlds && |old(worlds)| <= last < |worlds|
      ensures Deeds() == old(Deeds()) + [Deliver(s)] + Settling(s, hold, worlds[last].row)
      ensures alone ==> w.row == SettledRow(old(w.row), s, hold)
    {
      Own(Deliver(s));
      Interfere();
      last := |acts|;
      Settle(s, hold);
    }

    /** _pull_account: the checkpoint first, then the history or the listing while mail keeps coming and going. */
    method PullSlice(prev: Option<nat>, window: Option<nat>) returns (s: Slice)
      requires Valid() && (prev.Some? ==> w.row.Row? && prev.value <= w.now) && (window.None? ==> prev.Some?)
      modifies `w, `worlds, `acts, `drawn, `own
      ensures Valid() && Onward(old(w), w) && old(worlds) <= worlds
      ensures Deeds() == old(Deeds()) + [Pull(s)] && (alone ==> w.row == old(w.row))
      ensures s in w.slices && s.prev == prev && s.upTo >= old(w.now) && w.now >= s.upTo
      ensures if window.Some? then s.kind == Window(window.value, Since(w, s.upTo)) else s.kind == Incremental
    {
      Interfere();
      var upTo := w.now;
      Interfere();
      var more: set<Thread> := *;
      if window.Some? {
        var box := Since(w, upTo);
        s := Slice(prev, Window(window.value, box), upTo, Threads(Recent(window.value, box)) + more);
      } else {
        s := Slice(prev, Incremental, upTo, ShownIn(w.log, prev.value, upTo) + more);
      }
      Own(Pull(s));
    }

    /** _mark_pull_error: counted on the slice that was read, or on whatever row there is; it never seeds one. */
    method Fail(rowExisted: bool, prev: Option<nat>)
      requires Valid() && (rowExisted ==> w.row.Row?)
      modifies `w, `worlds, `acts, `own
      ensures Valid() && Onward(old(w), w) && old(worlds) <= worlds
      ensures Deeds() == old(Deeds()) + [if rowExisted then Mark(prev) else MarkUnbound]
      ensures (old(w.row).NoRow? ==> w.row.NoRow?)
      ensures w.row == if rowExisted then MarkError(old(w.row), prev) else MarkUnboundError(old(w.row))
    {
      Own(if rowExisted then Mark(prev) else MarkUnbound);
    }

    /** After delivery: advance the cursor over the pulled slice, or hold it and count the failure. */
    method Settle(s: Slice, hold: bool)
      requires Valid() && s in w.delivered
      modifies `w, `worlds, `acts, `own
      ensures Valid() && Onward(old(w), w) && old(worlds) <= worlds
      ensures Deeds() == old(Deeds()) + Settling(s, hold, old(w.row))
      ensures w.log == old(w.log) && w.delivered == old(w.delivered)
      ensures w.row == SettledRow(old(w.row), s, hold)
    {
      if hold {
        Own(Mark(s.prev));
      } else if w.row.NoRow? || w.row.history == s.prev {
        Own(Advance(s));
      }
    }

    /** Three ticks that hold their slice and run alone: the cursor has moved on by the third at the latest. */
    method HoldThrice(windowStart: nat, a: Turn, b: Turn, c: Turn)
      returns (h1: Option<nat>, h2: Option<nat>, h3: Option<nat>, s1: Slice, s2: Slice, s3: Slice)
      requires Valid() && alone && Holding(a) && Holding(b) && Holding(c)
      modifies this
      ensures Valid() && h3 == History(w.row) && (History(old(w.row)).Some? ==> h1.Some? && h1.value >= History(old(w.row)).value)
      ensures || h1 == Some(s1.upTo)
              || (h1 == History(old(w.row)) && (h2 == Some(s2.upTo) || (h2 == h1 && w.row == Row(Some(s3.upTo), 0))))
    {
      var first, _, _, _ := Tick(windowStart, a);
      h1, s1 := History(w.row), first.value;
      var second, _, _, _ := Tick(windowStart, b);
      h2, s2 := History(w.row), second.value;
      var third, _, _, _ := Tick(windowStart, c);
      h3, s3 := History(w.row), third.value;
      HoldIsBounded(old(w.row), s1.upTo, s2.upTo, s3.upTo);
    }
  }

  // A message older than the window is moved back into the inbox; the first backfill does not list it.
  const OLD: Message := Message(1, Some(10), 1)
  const REENTRY: Event := Event(5, [], [LabelChange(true, OLD)])
  const FIRST: Slice := Slice(None, Window(3, {OLD}), 5, {})
  const BEFORE: World := World([], map[], 4, NoRow, {}, {}, {})
  const MOVED: World := World([REENTRY], map[OLD := 5], 5, NoRow, {}, {}, {})
  const PASSED: World := World([REENTRY], map[OLD := 5], 5, Row(Some(5), 0), {FIRST}, {FIRST}, {FIRST})

  lemma Reenters()
    ensures Entered(REENTRY) == {OLD} && Enabled(BEFORE, Arrive(REENTRY)) && Do(BEFORE, Arrive(REENTRY)) == MOVED
  {
    assert REENTRY.labels[0] in REENTRY.labels && Entered(REENTRY) == {OLD};
  }

  lemma FirstIsPulled()
    ensures Enabled(MOVED, Pull(FIRST))
  {
    assert Since(MOVED, 5) == {OLD} && Recent(3, {OLD}) == {};
  }

  /** The exception is real on the very first tick: the cursor passes the change, and the message, which is in the
      inbox, is on no brief. */
  lemma ReentryLost() returns (ws: seq<World>, acts: seq<Action>)
    ensures Run(ws, acts) && Start(ws[0]) && ws[|acts|] == PASSED
    ensures PASSED.log[0].id <= History(PASSED.row).value && OLD in Entered(PASSED.log[0]) && OLD in PASSED.inbox
    ensures !OnBrief(PASSED, PASSED.log[0], OLD)
  {
    Reenters();
    FirstIsPulled();
    var w2 := MOVED.(slices := {FIRST});
    var w3 := w2.(delivered := {FIRST});
    ws, acts := [BEFORE, MOVED, w2, w3, PASSED], [Arrive(REENTRY), Pull(FIRST), Deliver(FIRST), Advance(FIRST)];
  }
}
