/**
  The allowlist of the migration gate, against a model of what the accepted statements do to a schema.

  The gate sees statements one at a time, with the relations that existed before the deploy (or, when
  the database was unreadable, only the tables created earlier in the same file) and with one flag: does
  the deploy link tables?
 */
module MigrationGate {
  import opened Options

  /** A quoted name reads `qi` after normalization: the gate cannot tell which relation it is. */
  datatype Name = Bare(id: nat) | Quoted(id: nat)

  /** A default in a clause; ids tell values apart. */
  datatype Default = NoDefault | NullDefault | ValueDefault(id: nat)

  datatype Generated = NotGenerated | Identity(id: nat) | Stored(inputs: set<nat>)

  /** What a column gets when an INSERT leaves it out; a computed column is NULL when an input is. */
  datatype Fill = Empty | Value(id: nat) | Computed(inputs: set<nat>)

  datatype Column = Column(ty: nat, notNull: bool, fill: Fill)

  /** A constraint over columns; `nullPasses`: it judges only rows with a value in each of them, as a key does. */
  datatype Constraint = Constraint(cols: set<nat>, nullPasses: bool)

  datatype Table = Table(cols: map<nat, Column>, keys: map<nat, Constraint>)

  /** A constraint written on a column; `inherited`: inheritance children get it too, as they do a CHECK. */
  datatype Key = Key(con: Constraint, inherited: bool)

  /**
    keyword      the word COLUMN is there
    strictType   the type is a domain that refuses NULL
    wordDefault  the word DEFAULT stands somewhere else in the clause, as in COMPRESSION DEFAULT
    setsDefault  a referential action reads SET DEFAULT
   */
  datatype Clause =
    | AddColumn(col: nat, ty: nat, keyword: bool, notNull: bool, strictType: bool, default: Default, wordDefault: bool,
                generated: Generated, keys: map<nat, Key>, setsDefault: bool, ifNotExists: bool)
    | Inherit(parent: Name)
    | SetDefault(col: nat, value: Option<nat>)     // None: NULL
    | AddForeignKey(key: nat, cols: set<nat>, setsDefault: bool)
    | Reshape(to: Table)                           // every other action: drop, rename, retype, tighten, ...

  /** `saysInherit`: the word INHERIT stands in the statement without linking, as in NO INHERIT. */
  datatype Stmt =
    | CreateTable(name: Name, ifNotExists: bool, table: Table, partitionOf: Option<Name>, inherits: Option<Name>, saysInherit: bool)
    | CreateOther                                  // sequence, type, plain index, ...
    | CreateUniqueIndex(on: Name, key: nat)
    | ReplaceView(name: Name, view: Table)
    | AlterTable(name: Name, only: bool, clauses: seq<Clause>, saysInherit: bool)
    | AttachPartition(parent: Name, child: Name, bound: nat)
    | Comment
    | Data(returning: bool, dblink: bool)          // INSERT, UPDATE, a locking SELECT
    | Opaque                                       // DROP, TRUNCATE, DO, CREATE FUNCTION, ...

  // ---- the gate ----------------------------------------------------------------------------------

  /** Born in this deploy, as far as the gate can prove it. */
  predicate NewThisDeploy(n: Name, created: set<nat>, prev: Option<set<nat>>) {
    n.Bare? && (if prev.Some? then n.id !in prev.value else n.id in created)
  }

  predicate AdditiveClause(c: Clause) {
    match c
    case AddColumn(_, _, keyword, notNull, _, default, wordDefault, generated, keys, setsDefault, _) =>
      if keyword then
        keys == map[] && (notNull && generated.NotGenerated? ==> (!default.NoDefault? || wordDefault) && !default.NullDefault?)
      else
        setsDefault && !default.NullDefault?
    case Inherit(_) => true
    case SetDefault(_, value) => value.Some?
    case AddForeignKey(_, _, setsDefault) => setsDefault   // SET DEFAULT is searched for anywhere in the clause
    case Reshape(_) => false
  }

  predicate IsAdditive(s: Stmt, created: set<nat>, prev: Option<set<nat>>, linked: bool) {
    match s
    case CreateTable(_, _, _, parent, _, _) => parent.Some? ==> NewThisDeploy(parent.value, created, prev)
    case CreateOther => true
    case CreateUniqueIndex(on, _) => !linked && NewThisDeploy(on, created, prev)
    case ReplaceView(name, _) => NewThisDeploy(name, created, prev)
    case AlterTable(name, _, clauses, _) =>
      (!linked && NewThisDeploy(name, created, prev)) || forall i :: 0 <= i < |clauses| ==> AdditiveClause(clauses[i])
    case AttachPartition(parent, child, _) => NewThisDeploy(parent, created, prev) && NewThisDeploy(child, created, prev)
    case Comment => true
    case Data(returning, dblink) => !returning && !dblink
    case Opaque => false
  }

  /** The words INHERIT, ATTACH PARTITION or PARTITION OF. */
  predicate Links(s: Stmt) {
    match s
    case CreateTable(_, _, _, parent, _, says) => parent.Some? || says
    case AlterTable(_, _, clauses, says) => says || exists i :: 0 <= i < |clauses| && clauses[i].Inherit?
    case AttachPartition(_, _, _) => true
    case _ => false
  }

  function Registers(s: Stmt): set<nat> {
    if s.CreateTable? && !s.ifNotExists && s.name.Bare? then {s.name.id} else {}
  }

  function CreatedBy(file: seq<Stmt>): set<nat> {
    if file == [] then {} else CreatedBy(file[..|file| - 1]) + Registers(file[|file| - 1])
  }

  /** The statement passes, given what was created before it in its file. */
  predicate Passes(file: seq<Stmt>, i: nat, prev: Option<set<nat>>, linked: bool)
    requires i < |file|
  {
    IsAdditive(file[i], CreatedBy(file[..i]), prev, linked)
  }

  predicate FilePasses(file: seq<Stmt>, prev: Option<set<nat>>, linked: bool) {
    forall i :: 0 <= i < |file| ==> Passes(file, i, prev, linked)
  }

  predicate DeployLinks(files: seq<seq<Stmt>>) {
    exists f, i :: 0 <= f < |files| && 0 <= i < |files[f]| && Links(files[f][i])
  }

  predicate Accepts(files: seq<seq<Stmt>>, prev: Option<set<nat>>) {
    forall f :: 0 <= f < |files| ==> FilePasses(files[f], prev, DeployLinks(files))
  }

  /** lint_file: the positions of the statements that do not pass. */
  method LintFile(file: seq<Stmt>, prev: Option<set<nat>>, linked: bool) returns (violations: seq<nat>)
    ensures forall i :: i in violations <==> 0 <= i < |file| && !Passes(file, i, prev, linked)
  {
    var created: set<nat> := {};
    violations := [];
    for i := 0 to |file|
      invariant created == CreatedBy(file[..i])
      invariant forall k :: k in violations <==> 0 <= k < i && !Passes(file, k, prev, linked)
    {
      if !IsAdditive(file[i], created, prev, linked) {
        violations := violations + [i];
      }
      CreatedByNext(file, i);
      created := created + Registers(file[i]);
    }
  }

  lemma CreatedByNext(file: seq<Stmt>, i: nat)
    requires i < |file|
    ensures CreatedBy(file[..i + 1]) == CreatedBy(file[..i]) + Registers(file[i])
  {
    assert file[..i + 1][..i] == file[..i] && file[..i + 1][i] == file[i];
  }

  /** main: the linkage pre-pass over every file, then the lint of every file. */
  method LintDeploy(files: seq<seq<Stmt>>, prev: Option<set<nat>>) returns (ok: bool)
    ensures ok <==> Accepts(files, prev)
  {
    var linked := false;
    for f := 0 to |files|
      invariant linked <==> exists g, i :: 0 <= g < f && 0 <= i < |files[g]| && Links(files[g][i])
    {
      for i := 0 to |files[f]|
        invariant linked <==> exists g, k :: 0 <= g <= f && 0 <= k < |files[g]| && (g < f || k < i) && Links(files[g][k])
      {
        if Links(files[f][i]) {
          linked := true;
        }
      }
    }
    ok := true;
    for f := 0 to |files|
      invariant ok <==> forall g :: 0 <= g < f ==> FilePasses(files[g], prev, linked)
    {
      var violations := LintFile(files[f], prev, linked);
      if violations != [] {
        assert violations[0] in violations;
      }
      ok := ok && violations == [];
    }
  }

  // ---- regrouping --------------------------------------------------------------------------------

  function All(files: seq<seq<Stmt>>): set<Stmt> {
    set f, i | 0 <= f < |files| && 0 <= i < |files[f]| :: files[f][i]
  }

  /** Linking can only reject more. */
  lemma LinkedIsStricter(s: Stmt, created: set<nat>, prev: Option<set<nat>>)
    requires IsAdditive(s, created, prev, true)
    ensures IsAdditive(s, created, prev, false)
  {
  }

  /** With the live relations given, the verdict depends on the set of statements alone: not on their
      order, and not on the files they are in. */
  lemma AcceptsBySet(files: seq<seq<Stmt>>, prev: set<nat>)
    ensures Accepts(files, Some(prev)) <==>
            forall s :: s in All(files) ==> IsAdditive(s, {}, Some(prev), exists l :: l in All(files) && Links(l))
  {
    var linked := DeployLinks(files);
    assert linked <==> exists l :: l in All(files) && Links(l) by {
      if linked {
        var f, i :| 0 <= f < |files| && 0 <= i < |files[f]| && Links(files[f][i]);
        assert files[f][i] in All(files);
      }
    }
    if Accepts(files, Some(prev)) {
      forall s | s in All(files)
        ensures IsAdditive(s, {}, Some(prev), linked)
      {
        var f, i :| 0 <= f < |files| && 0 <= i < |files[f]| && files[f][i] == s;
        assert FilePasses(files[f], Some(prev), linked) && Passes(files[f], i, Some(prev), linked);
      }
    }
    if forall s :: s in All(files) ==> IsAdditive(s, {}, Some(prev), linked) {
      forall f, i | 0 <= f < |files| && 0 <= i < |files[f]|
        ensures Passes(files[f], i, Some(prev), linked)
      {
        assert files[f][i] in All(files);
      }
    }
  }

  lemma RegroupingKeepsVerdict(files: seq<seq<Stmt>>, files': seq<seq<Stmt>>, prev: set<nat>)
    requires All(files) == All(files')
    ensures Accepts(files, Some(prev)) == Accepts(files', Some(prev))
  {
    AcceptsBySet(files, prev);
    AcceptsBySet(files', prev);
  }

  /** Without the live set the order does matter: a table must be created before it is reshaped. */
  lemma OrderMattersWhenBlind(t: Table)
    ensures var create, reshape := CreateTable(Bare(1), false, t, None, None, false), AlterTable(Bare(1), false, [Reshape(t)], false);
            Accepts([[create, reshape]], None) && !Accepts([[reshape, create]], None)
  {
    var create, reshape := CreateTable(Bare(1), false, t, None, None, false), AlterTable(Bare(1), false, [Reshape(t)], false);
    assert [create, reshape][..0] == [] && [create, reshape][..1] == [create];
    assert Passes([create, reshape], 0, None, false) && Passes([create, reshape], 1, None, false);
    assert !AdditiveClause(reshape.clauses[0]) && [reshape, create][..0] == [];
    assert !Passes([reshape, create], 0, None, false) && !Passes([reshape, create], 0, None, true);
    assert !FilePasses([reshape, create], None, DeployLinks([[reshape, create]])) && [[reshape, create]][0] == [reshape, create];
  }
}
