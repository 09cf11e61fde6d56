/**
  The other half of the gate's worth: it lets through what is harmless.  Harmless is said through what a statement
  does to a schema; the exceptions are what the gate cannot see in the text of one statement.
 */
module GateCompleteness {
  import opened Options
  import opened Collections
  import opened MigrationGate
  import opened TableGrowth
  import opened SchemaGrowth

  /** The relation may be one the running code uses. */
  predicate Old(r: nat, created: set<nat>, prev: Option<set<nat>>) {
    if prev.Some? then r in prev.value else r !in created
  }

  /** A table without constraints whose columns all refuse NULL: the least that any old table demands. */
  ghost predicate Plainest(t: Table) {
    t.keys == map[] && forall c :: c in t.cols ==> t.cols[c].notNull && !t.cols[c].fill.Computed?
  }

  /** A schema the statement may meet, as far as the gate knows. */
  ghost predicate Possible(s: Schema, created: set<nat>, prev: Option<set<nat>>, linked: bool) {
    && Sound(s) && (forall r :: r in s.tables ==> Plainest(s.tables[r])) && (prev.Some? ==> prev.value <= s.tables.Keys)
    && forall l :: l in s.links && (l.partition || !linked) && !Old(l.parent, created, prev) ==> !Old(l.child, created, prev)
  }

  /** The statement leaves all code of the old tables running, and makes none of them a partition or a parent of one. */
  ghost predicate Spares(s: Schema, stmt: Stmt, created: set<nat>, prev: Option<set<nat>>) {
    Exec(s, stmt).Some? ==> SparesTo(s, Exec(s, stmt).value, created, prev)
  }

  ghost predicate SparesTo(s: Schema, e: Schema, created: set<nat>, prev: Option<set<nat>>) {
    && (forall r :: r in s.tables && Old(r, created, prev) ==> r in e.tables && OldCodeRuns(s.tables[r], e.tables[r]))
    && forall l :: l in e.links && l !in s.links && l.partition ==> !Old(l.parent, created, prev) && !Old(l.child, created, prev)
  }

  ghost predicate IsHarmless(stmt: Stmt, created: set<nat>, prev: Option<set<nat>>, linked: bool) {
    forall s :: Possible(s, created, prev, linked) ==> Spares(s, stmt, created, prev)
  }

  /** A clause no code of an old table minds. */
  ghost predicate HarmlessClause(c: Clause) {
    c.Inherit? || forall t :: Plainest(t) && Applies(t, c) ==> OldCodeRuns(t, Edited(t, c))
  }

  ghost predicate Applies(t: Table, c: Clause) {
    && Grounded(t, c) && (forall k :: k in NewKeys(t, c) ==> k !in t.keys)
    && (c.AddColumn? ==> c.col !in t.cols) && (c.SetDefault? ==> Nameable(t, c.col))
  }

  /** What the gate refuses although it may be harmless: a statement that needs a new relation and names it in quotes;
      a unique index, or a clause an old table would mind, on a new table while the deploy links tables; an added column
      that carries a constraint or lacks the word COLUMN; a partition of an old table whose name is taken; and what it
      does not analyse. */
  ghost predicate Overcautious(stmt: Stmt, created: set<nat>, prev: Option<set<nat>>, linked: bool) {
    match stmt
    case CreateTable(name, _, _, parent, _, _) =>
      parent.Some? && (parent.value.Quoted? || (Old(parent.value.id, created, prev) && Old(name.id, created, prev)))
    case CreateUniqueIndex(on, _) => linked || on.Quoted?
    case ReplaceView(name, _) => name.Quoted?
    case AttachPartition(parent, child, _) => parent.Quoted? || child.Quoted?
    case AlterTable(name, _, clauses, _) =>
      exists i: nat :: i < |clauses|
        && ((!Old(name.id, created, prev) && (linked || name.Quoted?) && !HarmlessClause(clauses[i]))
            || (clauses[i].AddColumn? && (!clauses[i].keyword || clauses[i].keys != map[])))
    case Data(returning, dblink) => returning || dblink
    case Opaque => true
    case CreateOther => false
    case Comment => false
  }

  // ---- clauses -----------------------------------------------------------------------------------

  const NOTHING: Table := Table(map[], map[])

  lemma MissedRead(t0: Table, t1: Table, col: nat)
    requires col in t0.cols && col !in t1.cols
    ensures !OldCodeRuns(t0, t1)
  {
    assert ReadOk(t0, col, t0.cols[col].ty) && !ReadOk(t1, col, t0.cols[col].ty);
  }

  lemma MissedInsert(t0: Table, t1: Table, ins: Insert)
    requires InsertOk(t0, ins) && !InsertOk(t1, ins)
    ensures !OldCodeRuns(t0, t1)
  {
  }

  /** A clause the gate refuses, other than by the words of an added column, breaks some table of the plainest kind. */
  lemma RefusedClause(c: Clause) returns (t: Table)
    requires !AdditiveClause(c) && !(c.AddColumn? && (!c.keyword || c.keys != map[]))
    ensures Plainest(t) && Applies(t, c) && !OldCodeRuns(t, Edited(t, c)) && !c.Inherit?
  {
    match c
    case AddColumn(col, _, _, _, _, _, _, _, _, _, _) =>
      t := NOTHING;
      var ins := Insert({}, {}, ALL);
      assert InsertOk(t, ins) && col in Edited(t, c).cols && !Valued(Edited(t, c), ins, col);
      MissedInsert(t, Edited(t, c), ins);
    case SetDefault(col, _) =>
      t := Table(map[col := Column(0, true, Value(0))], map[]);
      var ins := Insert({}, {}, ALL);
      assert InsertOk(t, ins) && col in Edited(t, c).cols && !Valued(Edited(t, c), ins, col);
      MissedInsert(t, Edited(t, c), ins);
    case AddForeignKey(key, cols, _) =>
      t := Table(map b | b in cols :: Column(0, true, Empty), map[]);
      var ins := Insert(cols, {}, NONE);
      assert InsertOk(t, ins);
      assert key in Edited(t, c).keys && Judges(Edited(t, c), ins, Constraint(cols, true));
      MissedInsert(t, Edited(t, c), ins);
    case Reshape(to) =>
      var col := Above(to.cols.Keys);
      t := Table(map[col := Column(0, true, Empty)], map[]);
      MissedRead(t, to, col);
  }

  // ---- schemas without links ---------------------------------------------------------------------

  ghost function Known(prev: Option<set<nat>>): set<nat> { if prev.Some? then prev.value else {} }

  /** The known tables, empty, and one table in particular. */
  ghost function Site(prev: Option<set<nat>>, id: nat, t: Table): Schema {
    Schema((map r | r in Known(prev) :: NOTHING)[id := t], {})
  }

  lemma SiteIsPossible(created: set<nat>, prev: Option<set<nat>>, linked: bool, id: nat, t: Table)
    requires Plainest(t)
    ensures Possible(Site(prev, id, t), created, prev, linked)
  {
    var s := Site(prev, id, t);
    assert forall r :: r in s.tables ==> s.tables[r] == t || s.tables[r] == NOTHING;
  }

  lemma Unlinked(s: Schema, partitionsOnly: bool, a: nat, b: nat)
    requires s.links == {}
    ensures Below(s.links, partitionsOnly, a, b) ==> a == b
  {
    if Below(s.links, partitionsOnly, a, b) {
      var p :| Path(s.links, partitionsOnly, p) && p[0] == a && p[|p| - 1] == b;
      assert |p| > 1 ==> Linked(s.links, partitionsOnly, p[0], p[0 + 1]);
    }
  }

  lemma HitAlone(s: Schema, t: nat, only: bool, c: Clause, r: nat)
    requires s.links == {} && t in s.tables && Applies(s.tables[t], c) && !c.Inherit?
    ensures HitOn(s, t, only, c, r) == if r == t then Some(c) else None
  {
    Unlinked(s, false, t, r);
    Unlinked(s, true, t, r);
  }

  lemma EditAlone(s: Schema, t: nat, only: bool, c: Clause)
    requires s.links == {} && t in s.tables && Applies(s.tables[t], c) && !c.Inherit?
    ensures var e := ExecClause(s, t, only, c);
            e.Some? && t in e.value.tables && e.value.tables[t] == Edited(s.tables[t], c)
  {
    forall r
      ensures HitOn(s, t, only, c, r) == if r == t then Some(c) else None
    {
      HitAlone(s, t, only, c, r);
    }
    assert !Clashes(s, t, only, c) && !Ungrounded(s, t, only, c);
  }

  lemma AlterAlone(s: Schema, name: Name, only: bool, c: Clause, says: bool)
    requires s.links == {} && name.id in s.tables && Applies(s.tables[name.id], c) && !c.Inherit?
    ensures var e := Exec(s, AlterTable(name, only, [c], says));
            e.Some? && name.id in e.value.tables && e.value.tables[name.id] == Edited(s.tables[name.id], c)
  {
    EditAlone(s, name.id, only, c);
    var e := ExecClause(s, name.id, only, c).value;
    assert [c][1..] == [] && ExecClauses(e, name.id, only, []) == Some(e);
  }

  // ---- statements --------------------------------------------------------------------------------

  /** What a refused clause on an old table does. */
  lemma RefusedAlter(name: Name, only: bool, c: Clause, says: bool, created: set<nat>, prev: Option<set<nat>>, linked: bool)
    requires Old(name.id, created, prev) && !AdditiveClause(c) && !(c.AddColumn? && (!c.keyword || c.keys != map[]))
    ensures !IsHarmless(AlterTable(name, only, [c], says), created, prev, linked)
  {
    var t := RefusedClause(c);
    var s := Site(prev, name.id, t);
    SiteIsPossible(created, prev, linked, name.id, t);
    AlterAlone(s, name, only, c, says);
    assert !Spares(s, AlterTable(name, only, [c], says), created, prev);
  }

  lemma RefusedIndex(on: Name, key: nat, created: set<nat>, prev: Option<set<nat>>, linked: bool)
    requires Old(on.id, created, prev)
    ensures !IsHarmless(CreateUniqueIndex(on, key), created, prev, linked)
  {
    var s := Site(prev, on.id, NOTHING);
    SiteIsPossible(created, prev, linked, on.id, NOTHING);
    var t1 := Bounded(s, on.id, key).tables[on.id];
    var ins := Insert({}, {}, NONE);
    assert InsertOk(NOTHING, ins) && key in t1.keys && Judges(t1, ins, t1.keys[key]);
    MissedInsert(NOTHING, t1, ins);
    assert !Spares(s, CreateUniqueIndex(on, key), created, prev);
  }

  lemma RefusedView(name: Name, view: Table, created: set<nat>, prev: Option<set<nat>>, linked: bool)
    requires Old(name.id, created, prev)
    ensures !IsHarmless(ReplaceView(name, view), created, prev, linked)
  {
    var col := Above(view.cols.Keys);
    var t := Table(map[col := Column(0, true, Empty)], map[]);
    var s := Site(prev, name.id, t);
    SiteIsPossible(created, prev, linked, name.id, t);
    MissedRead(t, view, col);
    assert !Spares(s, ReplaceView(name, view), created, prev);
  }

  lemma RefusedPartition(stmt: Stmt, created: set<nat>, prev: Option<set<nat>>, linked: bool)
    requires stmt.CreateTable? && stmt.partitionOf.Some?
    requires Old(stmt.partitionOf.value.id, created, prev) && !Old(stmt.name.id, created, prev)
    ensures !IsHarmless(stmt, created, prev, linked)
  {
    var parent := stmt.partitionOf.value.id;
    var s := Site(prev, parent, NOTHING);
    SiteIsPossible(created, prev, linked, parent, NOTHING);
    assert stmt.name.id !in s.tables;
    assert Link(parent, stmt.name.id, true) in Exec(s, stmt).value.links;
    assert !Spares(s, stmt, created, prev);
  }

  lemma RefusedAttach(parent: Name, child: Name, bound: nat, created: set<nat>, prev: Option<set<nat>>, linked: bool)
    requires Old(parent.id, created, prev) || Old(child.id, created, prev)
    ensures !IsHarmless(AttachPartition(parent, child, bound), created, prev, linked)
  {
    var s := Schema((map r | r in Known(prev) :: NOTHING)[parent.id := NOTHING][child.id := NOTHING], {});
    assert Possible(s, created, prev, linked);
    assert Link(parent.id, child.id, true) in Exec(s, AttachPartition(parent, child, bound)).value.links;
    assert !Spares(s, AttachPartition(parent, child, bound), created, prev);
  }

  /** The statement for each clause of an ALTER TABLE; any other statement as it is. */
  function Pieces(stmt: Stmt): seq<Stmt> {
    if stmt.AlterTable? then
      seq(|stmt.clauses|, i requires 0 <= i < |stmt.clauses| => stmt.(clauses := [stmt.clauses[i]]))
    else [stmt]
  }

  /** The gate judges clause by clause. */
  lemma ClauseByClause(stmt: Stmt, created: set<nat>, prev: Option<set<nat>>, linked: bool)
    ensures IsAdditive(stmt, created, prev, linked) <==>
              forall i: nat :: i < |Pieces(stmt)| ==> IsAdditive(Pieces(stmt)[i], created, prev, linked)
  {
    if stmt.AlterTable? {
      forall i: nat | i < |stmt.clauses|
        ensures IsAdditive(Pieces(stmt)[i], created, prev, linked) <==>
                  (!linked && NewThisDeploy(stmt.name, created, prev)) || AdditiveClause(stmt.clauses[i])
      {
        assert Pieces(stmt)[i].clauses[0] == stmt.clauses[i];
      }
    } else {
      assert Pieces(stmt)[0] == stmt;
    }
  }

  /** A statement of one piece that harms nothing passes, or is one of the exceptions. */
  lemma HarmlessPasses(stmt: Stmt, created: set<nat>, prev: Option<set<nat>>, linked: bool)
    requires stmt.AlterTable? ==> |stmt.clauses| == 1
    requires IsHarmless(stmt, created, prev, linked) && !Overcautious(stmt, created, prev, linked)
    ensures IsAdditive(stmt, created, prev, linked)
  {
    if !IsAdditive(stmt, created, prev, linked) {
      match stmt
      case CreateTable(_, _, _, _, _, _) => RefusedPartition(stmt, created, prev, linked);
      case CreateUniqueIndex(on, key) => RefusedIndex(on, key, created, prev, linked);
      case ReplaceView(name, view) => RefusedView(name, view, created, prev, linked);
      case AttachPartition(parent, child, bound) => RefusedAttach(parent, child, bound, created, prev, linked);
      case AlterTable(name, only, clauses, says) =>
        var c := clauses[0];
        assert clauses == [c];
        assert !AdditiveClause(c);
        assert !(c.AddColumn? && (!c.keyword || c.keys != map[]));
        if Old(name.id, created, prev) {
          RefusedAlter(name, only, c, says, created, prev, linked);
        } else {
          var t := RefusedClause(c);
        }
    }
  }

  /** Whatever the gate refuses, some clause or statement of it can harm old code, or is an exception. */
  lemma GateAdmits(stmt: Stmt, created: set<nat>, prev: Option<set<nat>>, linked: bool)
    requires forall i: nat :: i < |Pieces(stmt)| ==>
               IsHarmless(Pieces(stmt)[i], created, prev, linked) && !Overcautious(Pieces(stmt)[i], created, prev, linked)
    ensures IsAdditive(stmt, created, prev, linked)
  {
    ClauseByClause(stmt, created, prev, linked);
    forall i: nat | i < |Pieces(stmt)|
      ensures IsAdditive(Pieces(stmt)[i], created, prev, linked)
    {
      HarmlessPasses(Pieces(stmt)[i], created, prev, linked);
    }
  }

  // ---- and nothing else --------------------------------------------------------------------------

  /** The accepted forms that break even the plainest table: a foreign key, ADD without the word COLUMN, a type that
      refuses NULL, and NOT NULL where the word DEFAULT is not a default. */
  predicate SlipClause(c: Clause) {
    || c.AddForeignKey?
    || (c.AddColumn? && (!c.keyword || c.strictType || (c.notNull && c.generated.NotGenerated? && c.default.NoDefault?)))
  }

  predicate Slips(stmt: Stmt, created: set<nat>, prev: Option<set<nat>>, linked: bool) {
    stmt.AlterTable? && (linked || Old(stmt.name.id, created, prev)) && exists c :: c in stmt.clauses && SlipClause(c)
  }

  lemma MildIsSafe(t: Table, c: Clause)
    requires WellFormed(t) && Plainest(t) && Mild(c) && !SlipClause(c) && Grounded(t, c)
    ensures !Breaks(t, [c])
  {
    assert [c][..0] == [];
  }

  lemma SafeAsHit(t: Table, c: Clause)
    requires WellFormed(t) && Plainest(t) && Mild(c) && !SlipClause(c) && Grounded(t, c) && FreshNames(t, [c])
    ensures OldCodeRuns(t, Edited(t, c))
  {
    MildIsSafe(t, c);
    FoldExactly(t, [c]);
    assert [c][..0] == [];
  }

  lemma TrimKeeps(t: Table, c: Clause)
    ensures SlipClause(Trim(c)) <==> SlipClause(c)
  {
  }

  /** One clause, on one table. */
  lemma OneHitSafe(prev: set<nat>, s: Schema, t: nat, only: bool, c: Clause, linked: bool, r: nat)
    requires Shape(prev, s, linked) && t in s.tables && r in prev && Let(prev, t, c, linked) && ExecClause(s, t, only, c).Some?
    requires WellFormed(s.tables[r]) && Plainest(s.tables[r]) && (SlipClause(c) ==> !linked && t !in prev)
    ensures OldCodeRuns(s.tables[r], Hit(s.tables[r], HitOn(s, t, only, c, r)))
  {
    var hit := HitOn(s, t, only, c, r);
    if hit.Some? {
      HitIsMild(prev, s, t, only, c, linked, r);
      HitIsFresh(s, t, only, c, r);
      assert [hit.value][..0] == [];
      assert Grounded(s.tables[r], hit.value);
      if SlipClause(c) {
        NothingOldBelow(prev, s, false, false, t);
        NothingOldBelow(prev, s, false, true, t);
      } else {
        TrimKeeps(s.tables[r], c);
        SafeAsHit(s.tables[r], hit.value);
      }
    }
  }

  lemma AlterSpares(prev: set<nat>, s: Schema, stmt: Stmt, created: set<nat>, linked: bool)
    requires Possible(s, created, Some(prev), linked) && stmt.AlterTable? && |stmt.clauses| == 1
    requires IsAdditive(stmt, created, Some(prev), linked) && (Links(stmt) ==> linked) && !Slips(stmt, created, Some(prev), linked)
    ensures Spares(s, stmt, created, Some(prev))
  {
    var t, only, c := stmt.name.id, stmt.only, stmt.clauses[0];
    assert c in stmt.clauses && stmt.clauses == [c];
    if Exec(s, stmt).Some? {
      var e := ExecClause(s, t, only, c).value;
      assert ExecClauses(e, t, only, []) == Some(e);
      assert stmt.clauses[1..] == [] && Exec(s, stmt) == Some(e);
      assert Shape(prev, s, linked) && Let(prev, t, c, linked);
      forall r | r in s.tables && r in prev
        ensures r in e.tables && OldCodeRuns(s.tables[r], e.tables[r])
      {
        OneHitSafe(prev, s, t, only, c, linked, r);
      }
    }
  }

  lemma OthersSpare(prev: set<nat>, s: Schema, stmt: Stmt, created: set<nat>, linked: bool)
    requires Possible(s, created, Some(prev), linked) && !stmt.AlterTable?
    requires IsAdditive(stmt, created, Some(prev), linked) && (Links(stmt) ==> linked)
    ensures Spares(s, stmt, created, Some(prev))
  {
    if Exec(s, stmt).Some? {
      var e := Exec(s, stmt).value;
      forall r | r in s.tables && r in prev
        ensures r in e.tables && OldCodeRuns(s.tables[r], e.tables[r])
      {
        StatementStep(prev, s, stmt, created, linked, r);
      }
    }
  }

  /** The gate's verdict means what it says, both ways: but for the exceptions on either side, a statement passes if
      and only if no schema exists in which it could break the code of an old table. */
  lemma GateExactly(stmt: Stmt, created: set<nat>, prev: set<nat>, linked: bool)
    requires (stmt.AlterTable? ==> |stmt.clauses| == 1) && (Links(stmt) ==> linked)
    requires !Overcautious(stmt, created, Some(prev), linked) && !Slips(stmt, created, Some(prev), linked)
    ensures IsAdditive(stmt, created, Some(prev), linked) <==> IsHarmless(stmt, created, Some(prev), linked)
  {
    if IsAdditive(stmt, created, Some(prev), linked) {
      forall s | Possible(s, created, Some(prev), linked)
        ensures Spares(s, stmt, created, Some(prev))
      {
        if stmt.AlterTable? {
          AlterSpares(prev, s, stmt, created, linked);
        } else {
          OthersSpare(prev, s, stmt, created, linked);
        }
      }
    } else if IsHarmless(stmt, created, Some(prev), linked) {
      HarmlessPasses(stmt, created, Some(prev), linked);
    }
  }

  /** The exceptions are real.  In a deploy that links tables, a unique index on a new table and a change to a new table
      alone harm nothing and are refused; */
  lemma LinkedIsTooStrict(on: Name, key: nat, to: Table, created: set<nat>, prev: set<nat>)
    requires on.id !in prev
    ensures var index, reshape := CreateUniqueIndex(on, key), AlterTable(on, true, [Reshape(to)], false);
            && IsHarmless(index, created, Some(prev), true) && !IsAdditive(index, created, Some(prev), true)
            && IsHarmless(reshape, created, Some(prev), true) && !IsAdditive(reshape, created, Some(prev), true)
  {
    var index, reshape := CreateUniqueIndex(on, key), AlterTable(on, true, [Reshape(to)], false);
    assert !AdditiveClause(reshape.clauses[0]);
    forall s | Possible(s, created, Some(prev), true)
      ensures Spares(s, index, created, Some(prev)) && Spares(s, reshape, created, Some(prev))
    {
      BoundedNew(prev, s, on.id, key, true);
      if on.id in s.tables && Exec(s, reshape).Some? {
        var e := ExecClause(s, on.id, true, Reshape(to)).value;
        assert reshape.clauses[1..] == [] && ExecClauses(e, on.id, true, []) == Some(e);
        assert Exec(s, reshape) == Some(e);
      }
    }
  }

  /** and so is the first definition of a view under a quoted name. */
  lemma QuotedIsTooStrict(id: nat, view: Table, created: set<nat>, prev: set<nat>, linked: bool)
    requires id !in prev
    ensures var stmt := ReplaceView(Quoted(id), view);
            IsHarmless(stmt, created, Some(prev), linked) && !IsAdditive(stmt, created, Some(prev), linked)
  {
  }

  // ---- a whole deploy ----------------------------------------------------------------------------

  ghost predicate Admissible(stmt: Stmt, created: set<nat>, prev: Option<set<nat>>, linked: bool) {
    forall i: nat :: i < |Pieces(stmt)| ==>
      IsHarmless(Pieces(stmt)[i], created, prev, linked) && !Overcautious(Pieces(stmt)[i], created, prev, linked)
  }

  /** A deploy of which every piece harms nothing passes, unless a piece is an exception. */
  lemma DeployAdmits(files: seq<seq<Stmt>>, prev: Option<set<nat>>)
    requires forall f: nat, i: nat :: f < |files| && i < |files[f]| ==>
               Admissible(files[f][i], CreatedBy(files[f][..i]), prev, DeployLinks(files))
    ensures Accepts(files, prev)
  {
    forall f: nat, i: nat | f < |files| && i < |files[f]|
      ensures Passes(files[f], i, prev, DeployLinks(files))
    {
      assert Admissible(files[f][i], CreatedBy(files[f][..i]), prev, DeployLinks(files));
      GateAdmits(files[f][i], CreatedBy(files[f][..i]), prev, DeployLinks(files));
    }
  }

  ghost predicate AddsLink(s: Schema, stmt: Stmt) {
    Exec(s, stmt).Some? && exists l :: l in Exec(s, stmt).value.links && l !in s.links
  }

  /** The words the pre-pass looks for are there exactly when the statement can link tables, apart from INHERITS in a
      CREATE TABLE, which it does not look for, and from NO INHERIT, which it takes for a link. */
  lemma LinksExactly(stmt: Stmt)
    requires stmt.AlterTable? ==> |stmt.clauses| == 1 && !stmt.saysInherit
    requires stmt.CreateTable? ==> stmt.inherits.None? && !stmt.saysInherit
    ensures Links(stmt) <==> exists s :: AddsLink(s, stmt)
  {
    if stmt.CreateTable? && stmt.partitionOf.Some? {
      var s := Schema(map[], {});
      assert Link(stmt.partitionOf.value.id, stmt.name.id, true) in Exec(s, stmt).value.links;
      assert AddsLink(s, stmt);
    } else if stmt.AttachPartition? {
      var s := Schema(map[stmt.parent.id := NOTHING, stmt.child.id := NOTHING], {});
      assert Link(stmt.parent.id, stmt.child.id, true) in Exec(s, stmt).value.links;
      assert AddsLink(s, stmt);
    } else if stmt.AlterTable? {
      if stmt.clauses[0].Inherit? {
        InheritLinks(stmt);
      } else {
        forall s
          ensures !AddsLink(s, stmt)
        {
          EditAddsNone(s, stmt);
        }
      }
    }
  }

  lemma InheritLinks(stmt: Stmt)
    requires stmt.AlterTable? && |stmt.clauses| == 1 && stmt.clauses[0].Inherit?
    ensures exists s :: AddsLink(s, stmt)
  {
    var t, c := stmt.name.id, stmt.clauses[0];
    var s := Schema(map[t := NOTHING, c.parent.id := NOTHING], {});
    assert !Clashes(s, t, stmt.only, c) && !Ungrounded(s, t, stmt.only, c);
    var e := ExecClause(s, t, stmt.only, c).value;
    assert stmt.clauses[1..] == [] && ExecClauses(e, t, stmt.only, []) == Some(e);
    assert Exec(s, stmt) == Some(e) && Link(c.parent.id, t, false) in e.links;
    assert AddsLink(s, stmt);
  }

  lemma EditAddsNone(s: Schema, stmt: Stmt)
    requires stmt.AlterTable? && |stmt.clauses| == 1 && !stmt.clauses[0].Inherit?
    ensures !AddsLink(s, stmt)
  {
    if Exec(s, stmt).Some? {
      var e := ExecClause(s, stmt.name.id, stmt.only, stmt.clauses[0]).value;
      assert stmt.clauses[1..] == [] && ExecClauses(e, stmt.name.id, stmt.only, []) == Some(e);
    }
  }
}
