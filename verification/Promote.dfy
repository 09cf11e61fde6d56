/**
  The curator's journaled promote into a live directory that a human edits at the same time.  Files are
  inodes with names, so that a write through an open descriptor and a rename mean what they do on disk.
 */
module Promote {
  import opened Options
  import opened Collections

  type Ino = nat
  type Content = nat

  const EMPTY: Content := 0

  /** index.md, another document, or a temporary of the promote. */
  datatype Name = Index | Doc(id: nat) | Temp(token: nat)

  datatype Phase = Applying | IndexConflict | AppliedPartial | Uncommitted | Desynced | Committed

  /** The journal is rewritten in place, so a crash can leave it unreadable. */
  datatype Journal = NoJournal | Torn | Journal(applied: seq<Name>, phase: Phase)

  /** What one promote was asked to publish; `base` is index.md as it was staged in. */
  datatype Job = Job(newFiles: seq<Name>, indexModified: bool, staged: map<Name, Content>, base: Option<Content>)

  function Targets(job: Job): seq<Name> {
    job.newFiles + if job.indexModified then [Index] else []
  }

  /**
    live, data  the directory and the file contents
    mine        inodes the promote created
    published   the targets that went live so far
   */
  datatype World = World(live: map<Name, Ino>, data: map<Ino, Content>, mine: set<Ino>, journal: Journal, published: seq<Name>)

  datatype Action =
    | Human(live: map<Name, Ino>, data: map<Ino, Content>)
    | Tear
    | Record(applied: seq<Name>, phase: Phase)
    | Create(name: Name, ino: Ino)
    | Fill(ino: Ino, content: Content)
    | Stash(name: Name, ino: Ino, content: Content)
    | Replace(name: Name)

  function Read(w: World, n: Name): Option<Content> {
    if n in w.live && w.live[n] in w.data then Some(w.data[w.live[n]]) else None
  }

  predicate Enabled(job: Job, w: World, a: Action) {
    match a
    case Human(live, data) =>
      (forall n :: n in live ==> live[n] in data) && (forall i :: i in data && i !in w.data ==> i !in w.mine)
    case Tear => true
    case Record(applied, _) => applied <= w.published && |w.published| <= |applied| + 1
    case Create(n, i) =>
      && w.journal.Journal? && w.journal.applied == w.published
      && |w.published| < |Targets(job)| && n == Targets(job)[|w.published|]
      && n !in w.live && i !in w.data && i !in w.mine
    case Fill(i, _) => i in w.mine
    case Stash(n, i, _) => n.Temp? && n !in w.live && i !in w.data && i !in w.mine
    case Replace(n) =>
      && w.journal.Journal? && w.journal.applied == w.published
      && |w.published| < |Targets(job)| && Targets(job)[|w.published|] == Index
      && n.Temp? && n in w.live && w.live[n] in w.mine && Read(w, Index) == job.base
  }

  function Do(job: Job, w: World, a: Action): World
    requires Enabled(job, w, a)
  {
    match a
    case Human(live, data) => w.(live := live, data := data)
    case Tear => w.(journal := Torn)
    case Record(applied, phase) => w.(journal := Journal(applied, phase))
    case Create(n, i) => w.(live := w.live[n := i], data := w.data[i := EMPTY], mine := w.mine + {i}, published := w.published + [n])
    case Fill(i, c) => if i in w.data then w.(data := w.data[i := c]) else w
    case Stash(n, i, c) => w.(live := w.live[n := i], data := w.data[i := c], mine := w.mine + {i})
    case Replace(n) => w.(live := w.live[Index := w.live[n]] - {n}, published := w.published + [Index])
  }

  // ---- additive, step by step -----------------------------------------------------------------------

  /** What a step of the promote leaves alone: the content of every file it did not create, and every name bound
      to such a file except index.md, which it replaces only while it still reads as it was staged in. */
  ghost predicate Additive(job: Job, w0: World, w1: World) {
    && (forall i :: i in w0.data && i !in w0.mine ==> i in w1.data && w1.data[i] == w0.data[i])
    && (forall n :: n in w0.live && w0.live[n] !in w0.mine && n != Index ==> n in w1.live && w1.live[n] == w0.live[n])
    && (Index in w0.live ==> Index in w1.live && (w1.live[Index] == w0.live[Index] || Read(w0, Index) == job.base))
  }

  lemma StepIsAdditive(job: Job, w: World, a: Action)
    requires Enabled(job, w, a) && !a.Human?
    ensures Additive(job, w, Do(job, w, a))
  {
  }

  /** The journal, whenever it can be read, lists the published targets in order, all but at most the last. */
  ghost predicate JournalOk(job: Job, w: World) {
    && (forall n :: n in w.live ==> w.live[n] in w.data)
    && w.published <= Targets(job)
    && (w.journal.Journal? ==> w.journal.applied <= w.published && |w.published| <= |w.journal.applied| + 1)
    && (w.journal.NoJournal? ==> w.published == [])
  }

  lemma StepKeepsJournal(job: Job, w: World, a: Action)
    requires Enabled(job, w, a) && JournalOk(job, w)
    ensures JournalOk(job, Do(job, w, a))
  {
  }

  // ---- runs -----------------------------------------------------------------------------------------

  ghost predicate Run(job: Job, ws: seq<World>, acts: seq<Action>) {
    && |ws| == |acts| + 1
    && forall i: nat :: i < |acts| ==> Enabled(job, ws[i], acts[i]) && ws[i + 1] == Do(job, ws[i], acts[i])
  }

  /** Before the promote: nothing is its own, and there is no journal. */
  ghost predicate Initial(w: World) {
    && (forall n :: n in w.live ==> w.live[n] in w.data)
    && w.mine == {} && w.journal == NoJournal && w.published == []
  }

  /** At every moment of every run, and so after every crash, a readable journal's applied list is a prefix of
      the targets that lags what went live by at most one. */
  lemma {:induction false} JournalLag(job: Job, ws: seq<World>, acts: seq<Action>, i: nat)
    requires Run(job, ws, acts) && Initial(ws[0]) && i < |ws|
    ensures JournalOk(job, ws[i])
    ensures ws[i].journal.Journal? ==> ws[i].journal.applied <= Targets(job)
  {
    if i > 0 {
      JournalLag(job, ws, acts, i - 1);
      var w1 := ws[i - 1 + 1];
      assert w1 == Do(job, ws[i - 1], acts[i - 1]);
      StepKeepsJournal(job, ws[i - 1], acts[i - 1]);
    }
  }

  /** The human leaves this name and this file alone. */
  ghost predicate Spares(w: World, a: Action, n: Name, i: Ino) {
    a.Human? ==> (n in a.live && a.live[n] == i) && (i in a.data && i in w.data && a.data[i] == w.data[i])
  }

  /** No file is lost to a promote: one that it did not create, is not index.md and is left alone by the human
      has the same name and content at every later moment. */
  lemma {:induction false} FileSurvives(job: Job, ws: seq<World>, acts: seq<Action>, n: Name, f: Ino, i: nat, j: nat)
    requires Run(job, ws, acts) && i <= j < |ws|
    requires n != Index && n in ws[i].live && ws[i].live[n] == f && f in ws[i].data && f !in ws[i].mine
    requires forall k: nat :: i <= k < j ==> Spares(ws[k], acts[k], n, f)
    ensures n in ws[j].live && ws[j].live[n] == f && f in ws[j].data && ws[j].data[f] == ws[i].data[f] && f !in ws[j].mine
    decreases j
  {
    if i < j {
      FileSurvives(job, ws, acts, n, f, i, j - 1);
      var w0, a, w1 := ws[j - 1], acts[j - 1], ws[j - 1 + 1];
      assert w1 == Do(job, w0, a) && Spares(w0, a, n, f);
      if !a.Human? {
        StepIsAdditive(job, w0, a);
      }
    }
  }

  /** The human's index wins: one that does not read as it was staged in survives every later moment. */
  lemma {:induction false} IndexSurvives(job: Job, ws: seq<World>, acts: seq<Action>, f: Ino, i: nat, j: nat)
    requires Run(job, ws, acts) && i <= j < |ws|
    requires Index in ws[i].live && ws[i].live[Index] == f && f in ws[i].data && f !in ws[i].mine && Some(ws[i].data[f]) != job.base
    requires forall k: nat :: i <= k < j ==> Spares(ws[k], acts[k], Index, f)
    ensures Index in ws[j].live && ws[j].live[Index] == f && f in ws[j].data && ws[j].data[f] == ws[i].data[f] && f !in ws[j].mine
    decreases j
  {
    if i < j {
      IndexSurvives(job, ws, acts, f, i, j - 1);
      var w0, a, w1 := ws[j - 1], acts[j - 1], ws[j - 1 + 1];
      assert w1 == Do(job, w0, a) && Spares(w0, a, Index, f);
      if !a.Human? {
        StepIsAdditive(job, w0, a);
      }
    }
  }

  // ---- promote_apply --------------------------------------------------------------------------------

  /** The name refuses no write: a new name is free, index.md reads as it was staged in. */
  predicate Ready(job: Job, w: World, dirty: set<Name>, headExists: bool) {
    && headExists && Targets(job) != [] && (forall n :: n in Targets(job) ==> !n.Temp? && n !in dirty)
    && (forall n :: n in job.newFiles ==> n !in w.live) && (job.indexModified ==> Read(w, Index) == job.base)
  }

  /** A job that can be carried out: no target twice, and each of them staged. */
  ghost predicate Sound(job: Job) {
    NoDup(Targets(job)) && forall n :: n in Targets(job) ==> n in job.staged
  }

  ghost predicate CanGoLive(job: Job, w: World) {
    && Sound(job) && (forall n :: n in Targets(job) ==> !n.Temp?)
    && (forall n :: n in job.newFiles ==> n !in w.live) && (job.indexModified ==> Read(w, Index) == job.base)
  }

  /** The first so many new files are live with their staged content; the others and index.md are as they were. */
  ghost predicate LiveUpTo(job: Job, w0: World, w: World, i: nat)
    requires Sound(job) && i <= |job.newFiles|
  {
    && (forall k: nat :: k < i ==> Read(w, job.newFiles[k]) == Some(job.staged[job.newFiles[k]]))
    && (forall k: nat :: i <= k < |job.newFiles| ==> job.newFiles[k] !in w.live)
    && (Index !in job.newFiles ==> Read(w, Index) == Read(w0, Index))
  }

  lemma LiveOneMore(job: Job, w0: World, w: World, i: nat, ino: Ino)
    requires Sound(job) && i < |job.newFiles| && LiveUpTo(job, w0, w, i) && ino !in w.data
    requires forall n :: n in w.live ==> w.live[n] in w.data
    ensures var n := job.newFiles[i];
            n in job.staged && LiveUpTo(job, w0, w.(live := w.live[n := ino], data := w.data[ino := job.staged[n]]), i + 1)
  {
    var n := job.newFiles[i];
    assert Targets(job)[i] == n;
    var v := w.(live := w.live[n := ino], data := w.data[ino := job.staged[n]]);
    forall k: nat | k < |job.newFiles| && k != i
      ensures job.newFiles[k] != n && Read(v, job.newFiles[k]) == Read(w, job.newFiles[k])
    {
      assert Targets(job)[k] == job.newFiles[k];
    }
  }

  class Promoter {
    const job: Job
    /** The k-th thing that may go wrong: true when it does not. */
    const fate: nat -> bool
    /** Nobody interferes and nothing fails; no code can ask. */
    ghost const calm: bool
    var drawn: nat
    var w: World
    ghost var worlds: seq<World>
    ghost var acts: seq<Action>

    ghost predicate Valid()
      reads this
    {
      && Run(job, worlds, acts) && Initial(worlds[0]) && worlds[|acts|] == w && JournalOk(job, w)
      && (calm ==> forall k: nat :: fate(k))
    }

    constructor (j: Job, fate: nat -> bool, live: map<Name, Ino>, data: map<Ino, Content>)
      requires forall n :: n in live ==> live[n] in data
      ensures Valid() && job == j && w == World(live, data, {}, NoJournal, []) && (calm <==> forall k: nat :: fate(k))
    {
      job, w, this.fate, drawn := j, World(live, data, {}, NoJournal, []), fate, 0;
      calm := forall k: nat :: fate(k);
      worlds, acts := [World(live, data, {}, NoJournal, [])], [];
    }

    method Draw() returns (good: bool)
      requires Valid()
      modifies this`drawn
      ensures Valid() && (calm ==> good)
    {
      good := fate(drawn);
      drawn := drawn + 1;
    }

    /** Nothing else assigns the world. */
    method Act(a: Action)
      requires Valid() && Enabled(job, w, a)
      modifies this`w, this`worlds, this`acts
      ensures Valid() && w == Do(job, old(w), a) && worlds == old(worlds) + [w] && acts == old(acts) + [a]
    {
      StepKeepsJournal(job, w, a);
      w := Do(job, w, a);
      worlds, acts := worlds + [w], acts + [a];
    }

    /** The human adds, edits, renames and deletes files; in the admitted gap, not index.md or the temporary. */
    method Edits(spareIndex: bool)
      requires Valid()
      modifies this
      ensures Valid() && w.mine == old(w.mine) && w.journal == old(w.journal) && w.published == old(w.published)
      ensures spareIndex ==> Read(w, Index) == old(Read(w, Index))
      ensures spareIndex ==> forall n: Name :: n.Temp? && n in old(w.live) ==>
                n in w.live && w.live[n] == old(w.live)[n] && Read(w, n) == old(Read(w, n))
      ensures calm ==> w == old(w)
    {
      var alone := Draw();
      if alone {
        return;
      }
      var live: map<Name, Ino>, data: map<Ino, Content> := *, *;
      var a := Human(live, data);
      var kept := w.(live := live, data := data);
      var spared := Read(kept, Index) == Read(w, Index)
                    && forall n | n in w.live && n.Temp? :: n in live && live[n] == w.live[n] && Read(kept, n) == Read(w, n);
      if Enabled(job, w, a) && (spareIndex ==> spared) {
        Act(a);
      }
    }

    /** _write_journal. */
    method WriteJournal(applied: seq<Name>, phase: Phase) returns (ok: bool)
      requires Valid() && applied <= w.published && |w.published| <= |applied| + 1
      modifies this
      ensures Valid() && w == old(w).(journal := if ok then Journal(applied, phase) else Torn) && (calm ==> ok)
    {
      Act(Tear);
      ok := Draw();
      if ok {
        Act(Record(applied, phase));
      }
    }

    /** The clean refusals before any write. */
    method Preflight(dirty: set<Name>, headExists: bool) returns (ok: bool)
      ensures ok <==> Ready(job, w, dirty, headExists)
    {
      var targets := Targets(job);
      if targets == [] || !headExists {
        return false;
      }
      for i := 0 to |targets|
        invariant forall k :: 0 <= k < i ==> !targets[k].Temp? && targets[k] !in dirty
      {
        if targets[i].Temp? || targets[i] in dirty {
          return false;
        }
      }
      for i := 0 to |job.newFiles|
        invariant forall k :: 0 <= k < i ==> job.newFiles[k] !in w.live
      {
        if job.newFiles[i] in w.live {
          return false;
        }
      }
      ok := job.indexModified ==> Read(w, Index) == job.base;
    }

    /** An inode the disk has not given out. */
    method FreshIno() returns (ino: Ino)
      ensures ino !in w.data && ino !in w.mine
    {
      ghost var top := Above(w.data.Keys + w.mine);
      assert top !in w.data.Keys + w.mine;
      ino :| ino !in w.data && ino !in w.mine;
    }

    /** O_CREAT|O_EXCL, then the write through the descriptor; the human may act in between. */
    method PublishNew(n: Name) returns (ok: bool, ino: Ino)
      requires Valid() && w.journal.Journal? && w.journal.applied == w.published
      requires |w.published| < |Targets(job)| && n == Targets(job)[|w.published|]
      modifies this
      ensures Valid() && (w.published == old(w.published) || w.published == old(w.published) + [n])
      ensures ok ==> w.published == old(w.published) + [n] && n in job.staged && ino in w.mine && ino !in old(w.mine)
      ensures ok ==> ino in w.data ==> w.data[ino] == job.staged[n]
      ensures calm ==> (ok <==> n in job.staged && n !in old(w.live)) && ino !in old(w.data)
      ensures calm && ok ==> w.live == old(w.live)[n := ino] && w.data == old(w.data)[ino := job.staged[n]]
    {
      ok := false;
      ino := FreshIno();
      var opens := Draw();
      if n !in job.staged || n in w.live || !opens {
        return;
      }
      Act(Create(n, ino));
      Edits(false);
      ok := Draw();
      if ok {
        Act(Fill(ino, job.staged[n]));
      }
    }

    /** The new files, in order, the journal rewritten after each. */
    method PublishAll() returns (applied: seq<Name>, ok: bool)
      requires Valid() && w.journal == Journal([], Applying) && w.published == []
      modifies this
      ensures Valid() && applied <= w.published && |w.published| <= |applied| + 1
      ensures ok ==> applied == job.newFiles == w.published && w.journal == Journal(applied, Applying)
      ensures calm && Sound(job) && LiveUpTo(job, old(w), old(w), 0) ==> ok && LiveUpTo(job, old(w), w, |job.newFiles|)
    {
      applied, ok := [], true;
      for i := 0 to |job.newFiles|
        invariant Valid() && applied == w.published == job.newFiles[..i] && w.journal == Journal(applied, Applying)
        invariant calm && Sound(job) && LiveUpTo(job, old(w), old(w), 0) ==> LiveUpTo(job, old(w), w, i)
      {
        applied, ok := PublishNext(i, applied, old(w));
        if !ok {
          return;
        }
      }
    }

    method PublishNext(i: nat, was: seq<Name>, ghost w0: World) returns (applied: seq<Name>, ok: bool)
      requires Valid() && i < |job.newFiles| && was == w.published == job.newFiles[..i] && w.journal == Journal(was, Applying)
      modifies this
      ensures Valid() && applied <= w.published && |w.published| <= |applied| + 1
      ensures ok ==> applied == w.published == job.newFiles[..i + 1] && w.journal == Journal(applied, Applying)
      ensures calm && Sound(job) && LiveUpTo(job, w0, old(w), i) ==> ok && LiveUpTo(job, w0, w, i + 1)
    {
      Edits(false);
      ghost var before := w;
      assert Targets(job)[i] == job.newFiles[i];
      var ino;
      applied := was;
      ok, ino := PublishNew(job.newFiles[i]);
      if calm && Sound(job) && LiveUpTo(job, w0, old(w), i) {
        LiveOneMore(job, w0, before, i, ino);
      }
      if ok {
        applied := applied + [job.newFiles[i]];
        ok := WriteJournal(applied, Applying);
      }
    }

    /** index.md: compare once more, then copy to a temporary and rename it over. */
    method PublishIndex(was: seq<Name>) returns (applied: seq<Name>, ok: bool, conflict: bool)
      requires Valid() && was == w.published == job.newFiles && job.indexModified && w.journal == Journal(was, Applying)
      modifies this
      ensures Valid() && applied <= w.published && |w.published| <= |applied| + 1
      ensures ok ==>
                applied == w.published == Targets(job) && Index in job.staged && Read(w, Index) == Some(job.staged[Index])
      ensures conflict ==> !ok && w.published == was && applied == was
      ensures calm ==> (conflict <==> old(Read(w, Index)) != job.base)
      ensures calm && !conflict && Index in job.staged ==> ok && OthersAsBefore(old(w), w)
    {
      applied, ok, conflict := was, false, false;
      Edits(false);
      if Read(w, Index) != job.base {
        conflict := true;
        return;
      }
      Edits(true);
      var copies := Draw();
      if Index !in job.staged || !copies {
        return;
      }
      RenameOver();
      applied := applied + [Index];
      ok := WriteJournal(applied, Applying);
    }

    method RenameOver()
      requires Valid() && w.published == job.newFiles && job.indexModified && w.journal == Journal(job.newFiles, Applying)
      requires Read(w, Index) == job.base && Index in job.staged
      modifies this
      ensures Valid() && w.published == Targets(job) && Read(w, Index) == Some(job.staged[Index]) && w.journal == old(w.journal)
      ensures calm ==> OthersAsBefore(old(w), w)
    {
      var ino := FreshIno();
      var temp := FreshTemp();
      Act(Stash(temp, ino, job.staged[Index]));
      Edits(true);
      Act(Replace(temp));
    }

    /** A name nobody else uses. */
    method FreshTemp() returns (temp: Name)
      ensures temp.Temp? && temp !in w.live
    {
      ghost var tokens := set n | n in w.live && n.Temp? :: n.token;
      ghost var top := Above(tokens);
      assert forall t: nat :: Temp(t) in w.live ==> t in tokens;
      assert Temp(top) !in w.live;
      var token: nat :| Temp(token) !in w.live;
      temp := Temp(token);
    }

    /** The new files, then index.md. */
    method PublishTargets() returns (applied: seq<Name>, ok: bool, conflict: bool)
      requires Valid() && w.journal == Journal([], Applying) && w.published == []
      modifies this
      ensures Valid() && applied <= w.published && |w.published| <= |applied| + 1
      ensures ok ==> applied == w.published == Targets(job)
      ensures conflict ==> !ok && job.indexModified && applied == w.published == job.newFiles
      ensures calm && CanGoLive(job, old(w)) ==> ok && AllLive(job, w)
    {
      conflict := false;
      applied, ok := PublishAll();
      if ok && job.indexModified {
        if calm && CanGoLive(job, old(w)) {
          IndexIsNew(job);
          assert Index in Targets(job);
        }
        applied, ok, conflict := PublishIndex(applied);
      }
    }

    /** promote_apply: `any` when anything was applied.  A refused promote writes nothing; any other leaves a journal
        whose phase is its outcome, unless the last write of it failed; and with nobody in the way it all goes live. */
    method Apply(dirty: set<Name>, headExists: bool) returns (any: bool, complete: bool)
      requires Valid() && Initial(w)
      modifies this
      ensures Valid() && (any ==> w.published != []) && (complete ==> any && w.published == Targets(job))
      ensures !Ready(job, old(w), dirty, headExists) ==> !any && w == old(w)
      ensures w.journal.Journal? ==> Outcome(job, w, complete) && (any <==> w.journal.applied != [])
      ensures Ready(job, old(w), dirty, headExists) ==> !w.journal.NoJournal?
      ensures calm && Sound(job) && Ready(job, old(w), dirty, headExists) ==>
                complete && w.journal == Journal(Targets(job), Committed) && AllLive(job, w)
    {
      any, complete := false, false;
      var ready := Preflight(dirty, headExists);
      if !ready {
        return;
      }
      var begun := WriteJournal([], Applying);
      if !begun {
        return;
      }
      var applied, ok, conflict := PublishTargets();
      var phase := if conflict then IndexConflict else AppliedPartial;
      if ok {
        var committed := Draw();
        var resynced := Draw();
        phase := if !committed then Uncommitted else if !resynced then Desynced else Committed;
      }
      var _ := WriteJournal(applied, phase);
      any, complete := applied != [], ok;
    }
  }

  ghost predicate OthersAsBefore(w0: World, w1: World) {
    forall n: Name :: n != Index && !n.Temp? ==> Read(w1, n) == Read(w0, n)
  }

  /** Each phase a finished promote can leave in its journal, and what it means. */
  ghost predicate Outcome(job: Job, w: World, complete: bool)
    requires w.journal.Journal?
  {
    match w.journal.phase
    case Applying => false
    case IndexConflict => !complete && job.indexModified && w.journal.applied == w.published == job.newFiles
    case AppliedPartial => !complete
    case Uncommitted => complete && w.journal.applied == w.published == Targets(job)
    case Desynced => complete && w.journal.applied == w.published == Targets(job)
    case Committed => complete && w.journal.applied == w.published == Targets(job)
  }

  ghost predicate AllLive(job: Job, w: World)
    requires Sound(job)
  {
    forall n :: n in Targets(job) ==> Read(w, n) == Some(job.staged[n])
  }

  lemma IndexIsNew(job: Job)
    requires Sound(job) && job.indexModified
    ensures Index !in job.newFiles
  {
    var ts := Targets(job);
    forall k: nat | k < |job.newFiles|
      ensures job.newFiles[k] != Index
    {
      assert ts[k] == job.newFiles[k] && ts[|job.newFiles|] == Index;
    }
  }
}
