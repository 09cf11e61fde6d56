/**
  What the statements of a deploy do to the schema, and what the gate's acceptance is worth: whether the code
  that ran before the deploy keeps running after it.
 */
module SchemaGrowth {
  import opened Options
  import opened MigrationGate
  import opened TableGrowth

  /** `parent` has `child` below it, by inheritance or as a partition. */
  datatype Link = Link(parent: nat, child: nat, partition: bool)

  datatype Schema = Schema(tables: map<nat, Table>, links: set<Link>)

  // ---- what a clause does to a table -------------------------------------------------------------

  function NewColumn(c: Clause): Column
    requires c.AddColumn?
  {
    Column(c.ty, c.notNull || c.strictType,
           match c.generated
           case Identity(id) => Value(id)
           case Stored(inputs) => Computed(inputs)
           case NotGenerated => if c.default.ValueDefault? then Value(c.default.id) else Empty)
  }

  /** The constraints a clause brings to a table. */
  function NewKeys(t: Table, c: Clause): map<nat, Constraint> {
    match c
    case AddColumn(col, _, _, _, _, _, _, _, keys, _, _) =>
      if col in t.cols then map[] else map k | k in keys :: keys[k].con
    case AddForeignKey(key, cols, _) => map[key := Constraint(cols, true)]
    case _ => map[]
  }

  function Edited(t: Table, c: Clause): Table {
    match c
    case AddColumn(col, _, _, _, _, _, _, _, _, _, _) =>
      if col in t.cols then t else Table(t.cols[col := NewColumn(c)], t.keys + NewKeys(t, c))
    case SetDefault(col, value) =>
      if Nameable(t, col) then t.(cols := t.cols[col := t.cols[col].(fill := if value.Some? then Value(value.value) else Empty)]) else t
    case AddForeignKey(_, _, _) => t.(keys := t.keys + NewKeys(t, c))
    case Reshape(to) => to
    case Inherit(_) => t
  }

  /** What reaches an inheritance child of an added column: the column, and the constraints that are inherited. */
  function Trim(c: Clause): Clause {
    if c.AddColumn? then c.(keys := map k | k in c.keys && c.keys[k].inherited :: c.keys[k]) else c
  }

  // ---- what a statement does to a schema ---------------------------------------------------------

  ghost predicate Linked(links: set<Link>, partitionsOnly: bool, a: nat, b: nat) {
    Link(a, b, true) in links || (!partitionsOnly && Link(a, b, false) in links)
  }

  /** A chain of links. */
  ghost predicate Path(links: set<Link>, partitionsOnly: bool, p: seq<nat>) {
    |p| >= 1 && forall i :: 0 <= i < |p| - 1 ==> Linked(links, partitionsOnly, p[i], p[i + 1])
  }

  ghost predicate Below(links: set<Link>, partitionsOnly: bool, a: nat, b: nat) {
    exists p :: Path(links, partitionsOnly, p) && p[0] == a && p[|p| - 1] == b
  }

  /** The tables an ALTER on `t` recurses to. */
  ghost predicate Reaches(s: Schema, t: nat, only: bool, r: nat) {
    r == t || (!only && Below(s.links, false, t, r))
  }

  /** The table and its partitions, at any depth. */
  ghost predicate Within(s: Schema, t: nat, only: bool, r: nat) {
    r == t || (!only && Below(s.links, true, t, r))
  }

  /** What one clause of ALTER TABLE t means for table r. */
  ghost function HitOn(s: Schema, t: nat, only: bool, c: Clause, r: nat): Option<Clause>
    requires t in s.tables
  {
    match c
    case AddColumn(col, _, _, _, _, _, _, _, _, _, _) =>
      if col in s.tables[t].cols || !Reaches(s, t, only, r) then None
      else if Within(s, t, only, r) then Some(c) else Some(Trim(c))
    case AddForeignKey(_, _, _) => if Within(s, t, only, r) then Some(c) else None
    case Inherit(_) => None
    case SetDefault(_, _) => if Reaches(s, t, only, r) then Some(c) else None
    case Reshape(_) => if Reaches(s, t, only, r) then Some(c) else None
  }

  function Hit(t: Table, c: Option<Clause>): Table { if c.Some? then Edited(t, c.value) else t }

  /** A constraint name is taken. */
  ghost predicate Clashes(s: Schema, t: nat, only: bool, c: Clause)
    requires t in s.tables
  {
    exists r, k :: r in s.tables && k in s.tables[r].keys && HitOn(s, t, only, c, r).Some?
                && k in NewKeys(s.tables[r], HitOn(s, t, only, c, r).value)
  }

  /** The columns a clause speaks of are there. */
  predicate Grounded(t: Table, c: Clause) {
    match c
    case AddColumn(col, _, _, _, _, _, _, generated, keys, _, _) =>
      && (generated.Stored? ==> forall a :: a in generated.inputs ==> Nameable(t, a))
      && forall k :: k in keys ==> keys[k].con.cols <= t.cols.Keys + {col}
    case AddForeignKey(_, cols, _) => cols <= t.cols.Keys
    case _ => true
  }

  ghost predicate Ungrounded(s: Schema, t: nat, only: bool, c: Clause)
    requires t in s.tables
  {
    exists r :: r in s.tables && HitOn(s, t, only, c, r).Some? && !Grounded(s.tables[r], HitOn(s, t, only, c, r).value)
  }

  ghost predicate Fails(s: Schema, t: nat, only: bool, c: Clause)
    requires t in s.tables
  {
    || Clashes(s, t, only, c) || Ungrounded(s, t, only, c)
    || (c.AddColumn? && c.col in s.tables[t].cols && !c.ifNotExists)
    || (c.SetDefault? && !Nameable(s.tables[t], c.col))
    || (c.Inherit? && c.parent.id !in s.tables)
  }

  /** One clause of ALTER TABLE t; None: the statement fails. */
  ghost function ExecClause(s: Schema, t: nat, only: bool, c: Clause): Option<Schema>
    requires t in s.tables
  {
    if Fails(s, t, only, c) then None
    else Some(Schema(map r | r in s.tables :: Hit(s.tables[r], HitOn(s, t, only, c, r)),
                     if c.Inherit? then s.links + {Link(c.parent.id, t, false)} else s.links))
  }

  ghost function ExecClauses(s: Schema, t: nat, only: bool, clauses: seq<Clause>): Option<Schema>
    requires t in s.tables
    decreases |clauses|
  {
    if clauses == [] then Some(s)
    else
      var r := ExecClause(s, t, only, clauses[0]);
      if r.None? then None else ExecClauses(r.value, t, only, clauses[1..])
  }

  ghost function ExecCreate(s: Schema, stmt: Stmt): Option<Schema>
    requires stmt.CreateTable?
  {
    var id := stmt.name.id;
    if id in s.tables then (if stmt.ifNotExists then Some(s) else None)
    else
      var part := if stmt.partitionOf.Some? then {Link(stmt.partitionOf.value.id, id, true)} else {};
      var inh := if stmt.inherits.Some? then {Link(stmt.inherits.value.id, id, false)} else {};
      Some(Schema(s.tables[id := stmt.table], s.links + part + inh))
  }

  /** A constraint that judges every row, put on a table and its partitions: a unique index, a partition bound. */
  ghost function Bounded(s: Schema, t: nat, key: nat): Schema {
    s.(tables := map r | r in s.tables ::
         if Within(s, t, false, r) then s.tables[r].(keys := s.tables[r].keys[key := Constraint({}, false)]) else s.tables[r])
  }

  ghost function ExecAttach(s: Schema, parent: nat, child: nat, bound: nat): Option<Schema> {
    if parent !in s.tables || child !in s.tables then None
    else Some(Bounded(s, child, bound).(links := s.links + {Link(parent, child, true)}))
  }

  /** Statements the gate refuses may do anything; here they empty the schema. */
  ghost function Exec(s: Schema, stmt: Stmt): Option<Schema> {
    match stmt
    case CreateTable(_, _, _, _, _, _) => ExecCreate(s, stmt)
    case CreateUniqueIndex(on, key) => if on.id !in s.tables then None else Some(Bounded(s, on.id, key))
    case ReplaceView(name, view) => Some(s.(tables := s.tables[name.id := view]))
    case AlterTable(name, only, clauses, _) =>
      if name.id !in s.tables then None else ExecClauses(s, name.id, only, clauses)
    case AttachPartition(parent, child, bound) => ExecAttach(s, parent.id, child.id, bound)
    case Data(returning, dblink) => if returning || dblink then Some(Schema(map[], {})) else Some(s)
    case Opaque => Some(Schema(map[], {}))
    case CreateOther => Some(s)
    case Comment => Some(s)
  }

  datatype Ran = Ran(schema: Schema, done: bool)

  /** Statements in order; the first failure ends the migration. */
  ghost function RunAll(s: Schema, stmts: seq<Stmt>): Ran {
    if stmts == [] then Ran(s, true)
    else
      var before := RunAll(s, stmts[..|stmts| - 1]);
      if !before.done then before
      else
        var r := Exec(before.schema, stmts[|stmts| - 1]);
        if r.None? then Ran(before.schema, false) else Ran(r.value, true)
  }

  /** The statements of a deploy, file after file. */
  function Flat(files: seq<seq<Stmt>>): (stmts: seq<Stmt>)
    ensures forall s :: s in stmts ==> s in All(files)
  {
    if files == [] then []
    else
      var init, last := files[..|files| - 1], files[|files| - 1];
      assert forall s :: s in last ==> s in All(files);
      assert forall f :: 0 <= f < |init| ==> init[f] == files[f];
      Flat(init) + last
  }

  // ---- which clauses hit a table -----------------------------------------------------------------

  ghost function ClauseHits(s: Schema, t: nat, only: bool, clauses: seq<Clause>, r: nat): seq<Clause>
    requires t in s.tables
    decreases |clauses|
  {
    if clauses == [] || ExecClause(s, t, only, clauses[0]).None? then []
    else
      var hit := HitOn(s, t, only, clauses[0], r);
      (if hit.Some? then [hit.value] else []) + ClauseHits(ExecClause(s, t, only, clauses[0]).value, t, only, clauses[1..], r)
  }

  /** The clauses of a statement that act on table r. */
  ghost function Hits(s: Schema, stmt: Stmt, r: nat): seq<Clause> {
    if stmt.AlterTable? && stmt.name.id in s.tables then ClauseHits(s, stmt.name.id, stmt.only, stmt.clauses, r) else []
  }

  /** The clauses of a migration that act on table r, up to where the migration stops. */
  ghost function AllHits(s: Schema, stmts: seq<Stmt>, r: nat): seq<Clause> {
    if stmts == [] then []
    else
      var init, last := stmts[..|stmts| - 1], stmts[|stmts| - 1];
      var before := RunAll(s, init);
      AllHits(s, init, r) + (if before.done && Exec(before.schema, last).Some? then Hits(before.schema, last, r) else [])
  }

  function Fold(t: Table, hits: seq<Clause>): Table {
    if hits == [] then t else Edited(Fold(t, hits[..|hits| - 1]), hits[|hits| - 1])
  }

  lemma {:induction false} FoldConcat(t: Table, a: seq<Clause>, b: seq<Clause>)
    ensures Fold(t, a + b) == Fold(Fold(t, a), b)
  {
    if b == [] {
      assert a + b == a;
    } else {
      FoldConcat(t, a, b[..|b| - 1]);
      assert (a + b)[..|a + b| - 1] == a + b[..|b| - 1];
    }
  }

  /** No hit brings a constraint name that is taken. */
  predicate FreshNames(t0: Table, hits: seq<Clause>) {
    hits == [] ||
    var t := Fold(t0, hits[..|hits| - 1]);
    FreshNames(t0, hits[..|hits| - 1]) && forall k :: k in NewKeys(t, hits[|hits| - 1]) ==> k !in t.keys
  }

  lemma {:induction false} FreshConcat(t: Table, a: seq<Clause>, b: seq<Clause>)
    requires FreshNames(t, a) && FreshNames(Fold(t, a), b)
    ensures FreshNames(t, a + b)
  {
    if b == [] {
      assert a + b == a;
    } else {
      var init := b[..|b| - 1];
      FreshConcat(t, a, init);
      FoldConcat(t, a, init);
      assert (a + b)[..|a + b| - 1] == a + init;
    }
  }

  /** What the gate lets act on old tables: it adds. */
  predicate Mild(c: Clause) {
    || (c.AddColumn? && (c.keyword ==> c.keys == map[] && (c.notNull && c.generated.NotGenerated? ==> !c.default.NullDefault?)))
    || c.AddForeignKey? || (c.SetDefault? && c.value.Some?)
  }

  predicate AllMild(hits: seq<Clause>) { forall i: nat :: i < |hits| ==> Mild(hits[i]) }

  // ---- one step ----------------------------------------------------------------------------------

  /** The tables that existed before are all there; what is partitioned below a new table is new, and in
      a deploy without links so is everything below it. */
  ghost predicate Shape(prev: set<nat>, s: Schema, linked: bool) {
    && (forall t :: t in prev ==> t in s.tables)
    && (forall l :: l in s.links && (l.partition || !linked) && l.parent !in prev ==> l.child !in prev)
  }

  lemma {:induction false} PathStaysNew(prev: set<nat>, links: set<Link>, partitionsOnly: bool, p: seq<nat>, i: nat)
    requires forall l :: l in links && (l.partition || !partitionsOnly) && l.parent !in prev ==> l.child !in prev
    requires Path(links, partitionsOnly, p) && p[0] !in prev && i < |p|
    ensures p[i] !in prev
  {
    if i > 0 {
      PathStaysNew(prev, links, partitionsOnly, p, i - 1);
      assert Linked(links, partitionsOnly, p[i - 1], p[i - 1 + 1]);
    }
  }

  lemma NothingOldBelow(prev: set<nat>, s: Schema, linked: bool, partitionsOnly: bool, t: nat)
    requires Shape(prev, s, linked) && t !in prev && (linked ==> partitionsOnly)
    ensures forall r :: Below(s.links, partitionsOnly, t, r) ==> r !in prev
  {
    forall r | Below(s.links, partitionsOnly, t, r)
      ensures r !in prev
    {
      var p :| Path(s.links, partitionsOnly, p) && p[0] == t && p[|p| - 1] == r;
      PathStaysNew(prev, s.links, partitionsOnly, p, |p| - 1);
    }
  }

  /** The clause may run: the clause check passed, or the table is new in a deploy without links. */
  predicate Let(prev: set<nat>, t: nat, c: Clause, linked: bool) {
    (AdditiveClause(c) || (!linked && t !in prev)) && (c.Inherit? ==> linked)
  }

  lemma ClauseShape(prev: set<nat>, s: Schema, t: nat, only: bool, c: Clause, linked: bool)
    requires Shape(prev, s, linked) && t in s.tables && Let(prev, t, c, linked) && ExecClause(s, t, only, c).Some?
    ensures t in ExecClause(s, t, only, c).value.tables && Shape(prev, ExecClause(s, t, only, c).value, linked)
  {
  }

  lemma HitIsMild(prev: set<nat>, s: Schema, t: nat, only: bool, c: Clause, linked: bool, r: nat)
    requires Shape(prev, s, linked) && t in s.tables && Let(prev, t, c, linked) && r in prev && HitOn(s, t, only, c, r).Some?
    ensures Mild(HitOn(s, t, only, c, r).value)
  {
    if !AdditiveClause(c) {
      NothingOldBelow(prev, s, false, false, t);
      NothingOldBelow(prev, s, false, true, t);
    }
  }

  lemma HitIsFresh(s: Schema, t: nat, only: bool, c: Clause, r: nat)
    requires t in s.tables && r in s.tables && ExecClause(s, t, only, c).Some? && HitOn(s, t, only, c, r).Some?
    ensures forall k :: k in NewKeys(s.tables[r], HitOn(s, t, only, c, r).value) ==> k !in s.tables[r].keys
  {
  }

  /** A statement of ALTER TABLE acts on an old table as the fold of the clauses that hit it. */
  lemma {:induction false} ClausesStep(prev: set<nat>, s: Schema, t: nat, only: bool, clauses: seq<Clause>, linked: bool, r: nat)
    requires Shape(prev, s, linked) && t in s.tables && r in prev
    requires forall i :: 0 <= i < |clauses| ==> Let(prev, t, clauses[i], linked)
    ensures AllMild(ClauseHits(s, t, only, clauses, r)) && FreshNames(s.tables[r], ClauseHits(s, t, only, clauses, r))
    ensures var e := ExecClauses(s, t, only, clauses);
            e.Some? ==> Shape(prev, e.value, linked) && e.value.tables[r] == Fold(s.tables[r], ClauseHits(s, t, only, clauses, r))
    decreases |clauses|
  {
    if clauses != [] {
      var c, rest := clauses[0], clauses[1..];
      var e := ExecClause(s, t, only, c);
      if e.Some? {
        ClauseShape(prev, s, t, only, c, linked);
        ClausesStep(prev, e.value, t, only, rest, linked, r);
        var hit, more := HitOn(s, t, only, c, r), ClauseHits(e.value, t, only, rest, r);
        if hit.Some? {
          HitIsMild(prev, s, t, only, c, linked, r);
          HitIsFresh(s, t, only, c, r);
          FoldCons(s.tables[r], hit.value, more);
        } else {
          assert [] + more == more;
        }
      }
    }
  }

  lemma FoldCons(t: Table, c: Clause, more: seq<Clause>)
    requires FreshNames(Edited(t, c), more) && forall k :: k in NewKeys(t, c) ==> k !in t.keys
    ensures Fold(t, [c] + more) == Fold(Edited(t, c), more) && FreshNames(t, [c] + more)
  {
    assert [c][..0] == [];
    FoldConcat(t, [c], more);
    FreshConcat(t, [c], more);
  }

  lemma BoundedNew(prev: set<nat>, s: Schema, t: nat, key: nat, linked: bool)
    requires Shape(prev, s, linked) && t !in prev
    ensures Shape(prev, Bounded(s, t, key), linked) && forall r :: r in prev ==> Bounded(s, t, key).tables[r] == s.tables[r]
  {
    NothingOldBelow(prev, s, linked, true, t);
  }

  /** Every statement the gate accepts acts on an old table as the mild clauses that hit it, and as nothing else. */
  lemma StatementStep(prev: set<nat>, s: Schema, stmt: Stmt, created: set<nat>, linked: bool, r: nat)
    requires Shape(prev, s, linked) && r in prev
    requires IsAdditive(stmt, created, Some(prev), linked) && (Links(stmt) ==> linked)
    ensures AllMild(Hits(s, stmt, r)) && FreshNames(s.tables[r], Hits(s, stmt, r))
    ensures var e := Exec(s, stmt);
            e.Some? ==> Shape(prev, e.value, linked) && e.value.tables[r] == Fold(s.tables[r], Hits(s, stmt, r))
  {
    match stmt
    case CreateUniqueIndex(on, key) => BoundedNew(prev, s, on.id, key, linked);
    case AlterTable(name, only, clauses, _) =>
      if name.id in s.tables {
        ClausesStep(prev, s, name.id, only, clauses, linked, r);
      }
    case AttachPartition(parent, child, bound) => BoundedNew(prev, s, child.id, bound, linked);
    case _ =>
  }

  /** So does a whole migration, wherever it stops. */
  lemma {:induction false} MigrationStep(prev: set<nat>, s: Schema, stmts: seq<Stmt>, linked: bool, r: nat)
    requires Shape(prev, s, linked) && r in prev
    requires forall x :: x in stmts ==> IsAdditive(x, {}, Some(prev), linked) && (Links(x) ==> linked)
    ensures AllMild(AllHits(s, stmts, r)) && FreshNames(s.tables[r], AllHits(s, stmts, r))
    ensures var e := RunAll(s, stmts);
            Shape(prev, e.schema, linked) && e.schema.tables[r] == Fold(s.tables[r], AllHits(s, stmts, r))
  {
    if stmts != [] {
      var init, last := stmts[..|stmts| - 1], stmts[|stmts| - 1];
      MigrationStep(prev, s, init, linked, r);
      var before := RunAll(s, init);
      if before.done {
        StatementStep(prev, before.schema, last, {}, linked, r);
        FoldConcat(s.tables[r], AllHits(s, init, r), Hits(before.schema, last, r));
        FreshConcat(s.tables[r], AllHits(s, init, r), Hits(before.schema, last, r));
      }
      if !before.done || Exec(before.schema, last).None? {
        assert AllHits(s, init, r) + [] == AllHits(s, init, r);
      }
    }
  }


  // ---- exactly when old code breaks --------------------------------------------------------------

  /** Which clause adds the column. */
  function FirstAdd(hits: seq<Clause>, col: nat): (i: Option<nat>)
    ensures i.Some? ==> i.value < |hits| && hits[i.value].AddColumn? && hits[i.value].col == col
  {
    if hits == [] then None
    else
      var n := |hits| - 1;
      var before := FirstAdd(hits[..n], col);
      if before.Some? then before else if hits[n].AddColumn? && hits[n].col == col then Some(n) else None
  }

  /** The i-th clause is the one that adds its column to the table. */
  predicate Adds(t0: Table, hits: seq<Clause>, i: nat)
    requires i < |hits|
  {
    hits[i].AddColumn? && hits[i].col !in t0.cols && FirstAdd(hits, hits[i].col) == Some(i)
  }

  predicate Sets(c: Clause, col: nat) { c.SetDefault? && c.col == col && c.value.Some? }

  /** The last default a clause from position `from` on gives the column. */
  function LastDefault(hits: seq<Clause>, from: nat, col: nat): (v: Option<nat>)
    ensures v.Some? ==> exists j: nat :: from <= j < |hits| && Sets(hits[j], col)
  {
    if |hits| <= from then None
    else
      var n := |hits| - 1;
      if Sets(hits[n], col) then hits[n].value else LastDefault(hits[..n], from, col)
  }

  /** What the column is filled with after the clauses from position `from` on. */
  function Later(fill: Fill, hits: seq<Clause>, from: nat, col: nat): Fill {
    var last := LastDefault(hits, from, col);
    if fill.Computed? || last.None? then fill else Value(last.value)
  }

  /** What an INSERT that leaves the column out gets in the end. */
  function EndFill(t0: Table, hits: seq<Clause>, col: nat): Fill {
    if col in t0.cols then Later(t0.cols[col].fill, hits, 0, col)
    else
      var add := FirstAdd(hits, col);
      if add.Some? then Later(NewColumn(hits[add.value]).fill, hits, add.value + 1, col) else Empty
  }

  function End(t0: Table, hits: seq<Clause>): nat -> Fill { (c: nat) => EndFill(t0, hits, c) }

  /** The i-th clause breaks old code: it adds a NOT NULL column that an old row need not fill; it adds a constraint
      that can come to judge an old row; or it changes what an old constraint sees in a column that is left out. */
  ghost predicate BreaksAt(t0: Table, hits: seq<Clause>, i: nat)
    requires i < |hits|
  {
    match hits[i]
    case AddColumn(col, _, _, _, _, _, _, _, keys, _, _) =>
      Adds(t0, hits, i)
      && ((NewColumn(hits[i]).notNull && !Always(t0, End(t0, hits), col))
          || exists k :: k in keys && CanJudge(t0, End(t0, hits), keys[k].con))
    case AddForeignKey(_, cols, _) => CanJudge(t0, End(t0, hits), Constraint(cols, true))
    case SetDefault(col, _) => exists k :: k in t0.keys && SeesOther(t0, End(t0, hits), t0.keys[k], col)
    case _ => false
  }

  ghost predicate Breaks(t0: Table, hits: seq<Clause>) {
    exists i: nat :: i < |hits| && BreaksAt(t0, hits, i)
  }

  /** What the old columns become. */
  lemma {:induction false} FoldOld(t0: Table, hits: seq<Clause>, c: nat)
    requires AllMild(hits) && c in t0.cols
    ensures c in Fold(t0, hits).cols && Fold(t0, hits).cols[c] == t0.cols[c].(fill := EndFill(t0, hits, c))
  {
    if hits != [] {
      FoldOld(t0, hits[..|hits| - 1], c);
    }
  }

  /** What the other columns become. */
  lemma {:induction false} FoldNew(t0: Table, hits: seq<Clause>, c: nat)
    requires AllMild(hits) && c !in t0.cols
    ensures c in Fold(t0, hits).cols <==> FirstAdd(hits, c).Some?
    ensures FirstAdd(hits, c).Some? ==>
              Fold(t0, hits).cols[c] == NewColumn(hits[FirstAdd(hits, c).value]).(fill := EndFill(t0, hits, c))
  {
    if hits != [] {
      FoldNew(t0, hits[..|hits| - 1], c);
    }
  }

  lemma FoldFill(t0: Table, hits: seq<Clause>)
    requires AllMild(hits)
    ensures forall c :: Now(Fold(t0, hits))(c) == End(t0, hits)(c)
  {
    forall c
      ensures FillIn(Fold(t0, hits), c) == EndFill(t0, hits, c)
    {
      if c in t0.cols {
        FoldOld(t0, hits, c);
      } else {
        FoldNew(t0, hits, c);
      }
    }
  }

  /** The notions of growth look at the fills only. */
  lemma SameFills(t0: Table, f: nat -> Fill, g: nat -> Fill)
    requires forall c :: f(c) == g(c)
    ensures forall c :: Always(t0, f, c) <==> Always(t0, g, c)
    ensures forall con :: CanJudge(t0, f, con) <==> CanJudge(t0, g, con)
    ensures forall con, b :: SeesOther(t0, f, con, b) <==> SeesOther(t0, g, con, b)
  {
    assert forall c :: AlwaysBase(t0, f, c) <==> AlwaysBase(t0, g, c);
    assert forall c :: Ever(t0, f, c) <==> Ever(t0, g, c);
  }

  /** The i-th clause brings constraint k. */
  predicate Brings(t0: Table, hits: seq<Clause>, i: nat, k: nat)
    requires i < |hits|
  {
    (hits[i].AddForeignKey? && hits[i].key == k) || (hits[i].AddColumn? && Adds(t0, hits, i) && k in hits[i].keys)
  }

  function Brought(c: Clause, k: nat): Constraint
    requires (c.AddForeignKey? && c.key == k) || (c.AddColumn? && k in c.keys)
  {
    if c.AddForeignKey? then Constraint(c.cols, true) else c.keys[k].con
  }

  /** The constraints at the end are the old ones and those that were brought. */
  lemma {:induction false} FoldKeys(t0: Table, hits: seq<Clause>, k: nat)
    requires AllMild(hits) && FreshNames(t0, hits)
    ensures k in Fold(t0, hits).keys <==> k in t0.keys || exists i: nat :: i < |hits| && Brings(t0, hits, i, k)
    ensures k in t0.keys ==> Fold(t0, hits).keys[k] == t0.keys[k] && forall i: nat :: i < |hits| ==> !Brings(t0, hits, i, k)
    ensures forall i: nat :: i < |hits| && Brings(t0, hits, i, k) ==> Fold(t0, hits).keys[k] == Brought(hits[i], k)
  {
    if hits != [] {
      var n := |hits| - 1;
      var init := hits[..n];
      FoldKeys(t0, init, k);
      BringsBefore(t0, hits, k);
      BringsLast(t0, hits, k);
      if k in Fold(t0, init).keys && k !in t0.keys {
        var i: nat :| i < n && Brings(t0, init, i, k);
        assert Brings(t0, hits, i, k);
      }
    }
  }

  lemma BringsBefore(t0: Table, hits: seq<Clause>, k: nat)
    requires hits != []
    ensures var init := hits[..|hits| - 1];
            forall i: nat :: i < |init| ==> init[i] == hits[i] && (Brings(t0, init, i, k) <==> Brings(t0, hits, i, k))
  {
  }

  lemma BringsLast(t0: Table, hits: seq<Clause>, k: nat)
    requires hits != [] && AllMild(hits)
    ensures var n := |hits| - 1;
            Brings(t0, hits, n, k) <==> k in NewKeys(Fold(t0, hits[..n]), hits[n])
  {
    var n := |hits| - 1;
    if hits[n].AddColumn? {
      var c := hits[n].col;
      if c in t0.cols {
        FoldOld(t0, hits[..n], c);
      } else {
        FoldNew(t0, hits[..n], c);
      }
    }
  }

  lemma FoldComparable(t0: Table, hits: seq<Clause>)
    requires AllMild(hits) && FreshNames(t0, hits)
    ensures Comparable(t0, Fold(t0, hits))
  {
    forall k
      ensures k in t0.keys && k in Fold(t0, hits).keys ==> t0.keys[k] == Fold(t0, hits).keys[k]
    {
      FoldKeys(t0, hits, k);
    }
    forall c | c in t0.cols
      ensures c in Fold(t0, hits).cols && Fold(t0, hits).cols[c] == t0.cols[c].(fill := EndFill(t0, hits, c))
    {
      FoldOld(t0, hits, c);
    }
  }

  /** The NOT NULL columns an old table had give no trouble. */
  lemma OldColumnAlways(t0: Table, hits: seq<Clause>, c: nat)
    requires WellFormed(t0) && c in t0.cols && t0.cols[c].notNull
    ensures Always(t0, End(t0, hits), c)
  {
    if t0.cols[c].fill.Computed? {
      forall a | a in t0.cols[c].fill.inputs
        ensures AlwaysBase(t0, End(t0, hits), a)
      {
        assert Nameable(t0, a) && !CanBeNull(t0, a);
      }
    }
  }

  /** A table that mild clauses acted on: old code keeps running if and only if none of them breaks it. */
  lemma FoldExactly(t0: Table, hits: seq<Clause>)
    requires WellFormed(t0) && AllMild(hits) && FreshNames(t0, hits)
    ensures OldCodeRuns(t0, Fold(t0, hits)) <==> !Breaks(t0, hits)
  {
    FoldComparable(t0, hits);
    GrownIffOldCodeRuns(t0, Fold(t0, hits));
    FoldFill(t0, hits);
    SameFills(t0, Now(Fold(t0, hits)), End(t0, hits));
    if Breaks(t0, hits) {
      var i: nat :| i < |hits| && BreaksAt(t0, hits, i);
      BreakShows(t0, hits, i);
    }
    if !Grown(t0, Fold(t0, hits)) {
      BreakFound(t0, hits);
    }
  }

  lemma BreakShows(t0: Table, hits: seq<Clause>, i: nat)
    requires WellFormed(t0) && AllMild(hits) && FreshNames(t0, hits) && i < |hits| && BreaksAt(t0, hits, i)
    ensures !Grown(t0, Fold(t0, hits))
  {
    FoldFill(t0, hits);
    SameFills(t0, Now(Fold(t0, hits)), End(t0, hits));
    match hits[i]
    case AddColumn(col, _, _, _, _, _, _, _, keys, _, _) =>
      FoldNew(t0, hits, col);
      if !(NewColumn(hits[i]).notNull && !Always(t0, End(t0, hits), col)) {
        var k :| k in keys && CanJudge(t0, End(t0, hits), keys[k].con);
        assert Brings(t0, hits, i, k);
        FoldKeys(t0, hits, k);
      }
    case AddForeignKey(key, _, _) =>
      assert Brings(t0, hits, i, key);
      FoldKeys(t0, hits, key);
    case SetDefault(col, _) =>
      var k :| k in t0.keys && SeesOther(t0, End(t0, hits), t0.keys[k], col);
      FoldKeys(t0, hits, k);
  }

  lemma BreakFound(t0: Table, hits: seq<Clause>)
    requires WellFormed(t0) && AllMild(hits) && FreshNames(t0, hits) && !Grown(t0, Fold(t0, hits))
    ensures Breaks(t0, hits)
  {
    var t1 := Fold(t0, hits);
    FoldFill(t0, hits);
    SameFills(t0, Now(t1), End(t0, hits));
    forall c | c in t0.cols
      ensures c in t1.cols && t1.cols[c] == t0.cols[c].(fill := EndFill(t0, hits, c))
    {
      FoldOld(t0, hits, c);
    }
    if c :| c in t1.cols && t1.cols[c].notNull && !Always(t0, Now(t1), c) {
      ColumnFound(t0, hits, c);
    } else {
      var k :| k in t1.keys && !Harmless(t0, Now(t1), k, t1.keys[k]);
      KeyFound(t0, hits, k);
    }
  }

  lemma ColumnFound(t0: Table, hits: seq<Clause>, c: nat)
    requires WellFormed(t0) && AllMild(hits) && c in Fold(t0, hits).cols && Fold(t0, hits).cols[c].notNull
    requires !Always(t0, End(t0, hits), c)
    ensures Breaks(t0, hits)
  {
    if c in t0.cols {
      FoldOld(t0, hits, c);
      OldColumnAlways(t0, hits, c);
    } else {
      FoldNew(t0, hits, c);
      assert BreaksAt(t0, hits, FirstAdd(hits, c).value);
    }
  }

  lemma KeyFound(t0: Table, hits: seq<Clause>, k: nat)
    requires WellFormed(t0) && AllMild(hits) && FreshNames(t0, hits) && k in Fold(t0, hits).keys
    requires !Harmless(t0, End(t0, hits), k, Fold(t0, hits).keys[k])
    ensures Breaks(t0, hits)
  {
    FoldKeys(t0, hits, k);
    if k in t0.keys {
      var b :| SeesOther(t0, End(t0, hits), t0.keys[k], b);
      var j: nat :| j < |hits| && Sets(hits[j], b);
      assert BreaksAt(t0, hits, j);
    } else {
      var i: nat :| i < |hits| && Brings(t0, hits, i, k);
      assert BreaksAt(t0, hits, i);
    }
  }

  /** Tables with constraints over their own columns, links that start at tables. */
  ghost predicate Sound(s: Schema) {
    (forall t :: t in s.tables ==> WellFormed(s.tables[t])) && forall l :: l in s.links ==> l.parent in s.tables
  }

  /** Exactly when the gate keeps its promise: an accepted deploy, wherever its migrations stop, leaves all old code
      of a table valid if and only if no clause that acted on the table breaks it. */
  lemma GrowthExactly(s0: Schema, files: seq<seq<Stmt>>, r: nat)
    requires Sound(s0) && Accepts(files, Some(s0.tables.Keys)) && r in s0.tables
    ensures var s1 := RunAll(s0, Flat(files)).schema;
            r in s1.tables
            && (OldCodeRuns(s0.tables[r], s1.tables[r]) <==> !Breaks(s0.tables[r], AllHits(s0, Flat(files), r)))
  {
    var prev, linked := s0.tables.Keys, DeployLinks(files);
    AcceptedStatements(files, prev);
    MigrationStep(prev, s0, Flat(files), linked, r);
    FoldExactly(s0.tables[r], AllHits(s0, Flat(files), r));
  }

  lemma AcceptedStatements(files: seq<seq<Stmt>>, prev: set<nat>)
    requires Accepts(files, Some(prev))
    ensures forall x :: x in Flat(files) ==>
              IsAdditive(x, {}, Some(prev), DeployLinks(files)) && (Links(x) ==> DeployLinks(files))
  {
    forall x | x in Flat(files)
      ensures IsAdditive(x, {}, Some(prev), DeployLinks(files)) && (Links(x) ==> DeployLinks(files))
    {
      var f, i :| 0 <= f < |files| && 0 <= i < |files[f]| && files[f][i] == x;
      assert FilePasses(files[f], Some(prev), DeployLinks(files)) && Passes(files[f], i, Some(prev), DeployLinks(files));
    }
  }

  /** The accepted forms that can break old code: ADD without the word COLUMN; a foreign key; a type that refuses
      NULL; NOT NULL where the word DEFAULT is not a default; NOT NULL on a column computed from others; and a new
      default. */
  predicate Risky(c: Clause) {
    || c.AddForeignKey? || c.SetDefault?
    || (c.AddColumn? && (!c.keyword || c.strictType
                         || (c.notNull && (c.generated.Stored? || (c.generated.NotGenerated? && c.default.NoDefault?)))))
  }

  /** Schema growth: if none of these forms acted on a table, all its old code keeps running. */
  lemma AcceptedDeployGrows(s0: Schema, files: seq<seq<Stmt>>, r: nat)
    requires Sound(s0) && Accepts(files, Some(s0.tables.Keys)) && r in s0.tables
    requires forall c :: c in AllHits(s0, Flat(files), r) ==> !Risky(c)
    ensures var s1 := RunAll(s0, Flat(files)).schema;
            r in s1.tables && OldCodeRuns(s0.tables[r], s1.tables[r])
  {
    GrowthExactly(s0, files, r);
    AcceptedStatements(files, s0.tables.Keys);
    MigrationStep(s0.tables.Keys, s0, Flat(files), DeployLinks(files), r);
    var hits := AllHits(s0, Flat(files), r);
    forall i: nat | i < |hits|
      ensures !BreaksAt(s0.tables[r], hits, i)
    {
      assert hits[i] in hits && Mild(hits[i]);
      PlainIsSafe(s0.tables[r], hits, i);
    }
  }

  lemma PlainIsSafe(t0: Table, hits: seq<Clause>, i: nat)
    requires i < |hits| && Mild(hits[i]) && !Risky(hits[i])
    ensures !BreaksAt(t0, hits, i)
  {
    if hits[i].AddColumn? && Adds(t0, hits, i) && hits[i].notNull {
      assert EndFill(t0, hits, hits[i].col).Value?;
    }
  }

  // ---- the promise does fail ---------------------------------------------------------------------

  lemma OneHit(t: Table, c: Clause)
    requires !c.Inherit? && Grounded(t, c) && (forall k :: k in NewKeys(t, c) ==> k !in t.keys)
    requires (c.AddColumn? ==> c.col !in t.cols) && (c.SetDefault? ==> Nameable(t, c.col))
    ensures ExecClause(Schema(map[1 := t], {}), 1, false, c) == Some(Schema(map[1 := Edited(t, c)], {}))
  {
    var s0 := Schema(map[1 := t], {});
    assert Within(s0, 1, false, 1) && Reaches(s0, 1, false, 1);
    assert HitOn(s0, 1, false, c, 1) == Some(c);
    assert !Clashes(s0, 1, false, c) && !Ungrounded(s0, 1, false, c);
    var e := ExecClause(s0, 1, false, c);
    assert e.value.tables == map[1 := Edited(t, c)];
  }

  function Alter(c: Clause): Stmt { AlterTable(Bare(1), false, [c], false) }

  lemma OneAccepted(c: Clause)
    requires AdditiveClause(c)
    ensures Accepts([[Alter(c)]], Some({1}))
  {
    var file := [Alter(c)];
    assert forall linked :: IsAdditive(Alter(c), CreatedBy(file[..0]), Some({1}), linked);
    assert FilePasses(file, Some({1}), DeployLinks([file]));
  }

  lemma OneFlat(stmt: Stmt)
    ensures Flat([[stmt]]) == [stmt]
  {
    assert [[stmt]][..0] == [];
  }

  lemma ClausesOne(s0: Schema, c: Clause, s1: Schema)
    requires 1 in s0.tables && ExecClause(s0, 1, false, c) == Some(s1) && 1 in s1.tables
    ensures ExecClauses(s0, 1, false, [c]) == Some(s1)
  {
    assert [c][1..] == [] && ExecClauses(s1, 1, false, []) == Some(s1);
  }

  lemma RunOne(s0: Schema, stmt: Stmt, s1: Schema)
    requires Exec(s0, stmt) == Some(s1)
    ensures RunAll(s0, [stmt]) == Ran(s1, true)
  {
    assert [stmt][..0] == [];
    assert RunAll(s0, []) == Ran(s0, true);
  }

  /** One ALTER TABLE clause on the only table there is. */
  lemma OneClause(t: Table, c: Clause) returns (s0: Schema, files: seq<seq<Stmt>>)
    requires AdditiveClause(c) && !c.Inherit? && Grounded(t, c) && (forall k :: k in NewKeys(t, c) ==> k !in t.keys) && WellFormed(t)
    requires (c.AddColumn? ==> c.col !in t.cols) && (c.SetDefault? ==> Nameable(t, c.col))
    ensures s0 == Schema(map[1 := t], {}) && Sound(s0) && Accepts(files, Some(s0.tables.Keys))
    ensures RunAll(s0, Flat(files)) == Ran(Schema(map[1 := Edited(t, c)], {}), true)
  {
    s0, files := Schema(map[1 := t], {}), [[Alter(c)]];
    assert s0.tables.Keys == {1};
    OneAccepted(c);
    OneFlat(Alter(c));
    OneHit(t, c);
    ClausesOne(s0, c, Schema(map[1 := Edited(t, c)], {}));
    RunOne(s0, Alter(c), Schema(map[1 := Edited(t, c)], {}));
  }

  /** Accepted, and afterwards an INSERT that was valid is refused. */
  ghost predicate Refuses(s0: Schema, files: seq<seq<Stmt>>, ins: Insert) {
    && Sound(s0) && Accepts(files, Some(s0.tables.Keys)) && 1 in s0.tables && InsertOk(s0.tables[1], ins)
    && RunAll(s0, Flat(files)).done && 1 in RunAll(s0, Flat(files)).schema.tables
    && !InsertOk(RunAll(s0, Flat(files)).schema.tables[1], ins)
  }

  const ALL: (nat, map<nat, Fill>) -> bool := (k, v) => true

  const NONE: (nat, map<nat, Fill>) -> bool := (k, v) => false

  /** One column that may be NULL, and no constraint. */
  const PLAIN: Table := Table(map[0 := Column(0, false, Empty)], map[])

  /** ALTER TABLE t ADD FOREIGN KEY (c) REFERENCES o ON DELETE SET DEFAULT. */
  lemma ForeignKeySlipsThrough() returns (s0: Schema, files: seq<seq<Stmt>>, ins: Insert)
    ensures Refuses(s0, files, ins)
  {
    var c := AddForeignKey(7, {0}, true);
    s0, files := OneClause(PLAIN, c);
    ins := Insert({0}, {}, NONE);
    assert Judges(Edited(PLAIN, c), ins, Constraint({0}, true)) && 7 in Edited(PLAIN, c).keys;
  }

  /** A column that an INSERT leaving it out cannot satisfy. */
  lemma ColumnRefuses(c: Clause) returns (s0: Schema, files: seq<seq<Stmt>>, ins: Insert)
    requires AdditiveClause(c) && Grounded(PLAIN, c) && c.AddColumn? && c.col == 1 && NewColumn(c).notNull
    requires NewColumn(c).fill == Empty || NewColumn(c).fill == Computed({0})
    ensures Refuses(s0, files, ins)
  {
    s0, files := OneClause(PLAIN, c);
    ins := Insert({}, {0}, ALL);
    var t := Edited(PLAIN, c);
    assert 1 in t.cols && t.cols[1] == NewColumn(c) && FillIn(t, 1) == NewColumn(c).fill;
    assert 0 in {0} && !BaseValued(t, ins, 0) && !Valued(t, ins, 1);
  }

  /** ALTER TABLE t ADD x int NOT NULL REFERENCES o ON DELETE SET DEFAULT, without the word COLUMN. */
  lemma ColumnSlipsThrough() returns (s0: Schema, files: seq<seq<Stmt>>, ins: Insert)
    ensures Refuses(s0, files, ins)
  {
    var key := Key(Constraint({1}, true), false);
    s0, files, ins := ColumnRefuses(AddColumn(1, 0, false, true, false, NoDefault, false, NotGenerated, map[7 := key], true, false));
  }

  /** ALTER TABLE t ADD COLUMN x text COMPRESSION DEFAULT NOT NULL. */
  lemma WordSlipsThrough() returns (s0: Schema, files: seq<seq<Stmt>>, ins: Insert)
    ensures Refuses(s0, files, ins)
  {
    s0, files, ins := ColumnRefuses(AddColumn(1, 0, true, true, false, NoDefault, true, NotGenerated, map[], false, false));
  }

  /** ALTER TABLE t ADD COLUMN x d, where d is a domain that refuses NULL. */
  lemma DomainSlipsThrough() returns (s0: Schema, files: seq<seq<Stmt>>, ins: Insert)
    ensures Refuses(s0, files, ins)
  {
    s0, files, ins := ColumnRefuses(AddColumn(1, 0, true, false, true, NoDefault, false, NotGenerated, map[], false, false));
  }

  /** ALTER TABLE t ADD COLUMN x int NOT NULL GENERATED ALWAYS AS (c) STORED, where c may be NULL. */
  lemma GeneratedSlipsThrough() returns (s0: Schema, files: seq<seq<Stmt>>, ins: Insert)
    ensures Refuses(s0, files, ins)
  {
    s0, files, ins := ColumnRefuses(AddColumn(1, 0, true, true, false, NoDefault, false, Stored({0}), map[], false, false));
  }

  /** ALTER TABLE t ALTER COLUMN c SET DEFAULT, where a constraint over c accepts the old default only. */
  lemma DefaultSlipsThrough() returns (s0: Schema, files: seq<seq<Stmt>>, ins: Insert)
    ensures Refuses(s0, files, ins)
  {
    var con := Constraint({0}, true);
    var t, c := Table(map[0 := Column(0, false, Value(1))], map[7 := con]), SetDefault(0, Some(2));
    s0, files := OneClause(t, c);
    ins := Insert({}, {}, (k, v: map<nat, Fill>) => 0 in v && v[0] == Value(1));
    assert 0 in Sources(t, 0) && 0 in Base(t, {0}) && 0 in Sources(Edited(t, c), 0) && 0 in Base(Edited(t, c), {0});
    assert 0 in View(t, ins, {0}) && 0 in View(Edited(t, c), ins, {0});
    assert Judges(Edited(t, c), ins, con) && 7 in Edited(t, c).keys;
  }
}
