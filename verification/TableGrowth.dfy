/**
  What code that uses a table relies on, and exactly when a changed table still offers it: every INSERT that was
  valid stays valid, and every read by name.
 */
module TableGrowth {
  import opened MigrationGate

  // ---- old code ----------------------------------------------------------------------------------

  /** An INSERT: the columns given a value, the columns given NULL, and what each constraint would say of the row,
      depending on what the columns it reads get when they are left out. */
  datatype Insert = Insert(values: set<nat>, nulls: set<nat>, holds: (nat, map<nat, Fill>) -> bool)

  function FillIn(t: Table, c: nat): Fill { if c in t.cols then t.cols[c].fill else Empty }

  /** An INSERT may name the column. */
  predicate Nameable(t: Table, c: nat) { c in t.cols && !t.cols[c].fill.Computed? }

  predicate BaseValued(t: Table, ins: Insert, c: nat) {
    c in ins.values || (c !in ins.nulls && FillIn(t, c).Value?)
  }

  /** The row has a value in the column. */
  ghost predicate Valued(t: Table, ins: Insert, c: nat) {
    match FillIn(t, c)
    case Computed(inputs) => forall a :: a in inputs ==> BaseValued(t, ins, a)
    case _ => BaseValued(t, ins, c)
  }

  /** The columns a row's value in c comes from. */
  function Sources(t: Table, c: nat): set<nat> {
    match FillIn(t, c) case Computed(inputs) => inputs case _ => {c}
  }

  function Base(t: Table, cols: set<nat>): set<nat> {
    set c, b | c in cols && b in Sources(t, c) :: b
  }

  /** What the constraint sees of the columns that the INSERT leaves out. */
  function View(t: Table, ins: Insert, cols: set<nat>): map<nat, Fill> {
    map b | b in Base(t, cols) && b !in ins.values && b !in ins.nulls :: FillIn(t, b)
  }

  /** The constraint judges the row. */
  ghost predicate Judges(t: Table, ins: Insert, con: Constraint) {
    con.nullPasses ==> forall c :: c in con.cols ==> Valued(t, ins, c)
  }

  ghost predicate InsertOk(t: Table, ins: Insert) {
    && ins.values !! ins.nulls
    && (forall c :: c in ins.values || c in ins.nulls ==> Nameable(t, c))
    && (forall c :: c in t.cols && t.cols[c].notNull ==> Valued(t, ins, c))
    && (forall k :: k in t.keys && Judges(t, ins, t.keys[k]) ==> ins.holds(k, View(t, ins, t.keys[k].cols)))
  }

  /** A read of one column by name, at the type the reader expects. */
  predicate ReadOk(t: Table, col: nat, ty: nat) {
    col in t.cols && t.cols[col].ty == ty
  }

  ghost predicate OldCodeRuns(t0: Table, t1: Table) {
    && (forall ins :: InsertOk(t0, ins) ==> InsertOk(t1, ins))
    && (forall col, ty :: ReadOk(t0, col, ty) ==> ReadOk(t1, col, ty))
  }

  // ---- growth ------------------------------------------------------------------------------------

  /** Constraints and computed columns stand over columns of the table that can be named. */
  ghost predicate WellFormed(t: Table) {
    && (forall k :: k in t.keys ==> t.keys[k].cols <= t.cols.Keys)
    && (forall c, a :: c in t.cols && t.cols[c].fill.Computed? && a in t.cols[c].fill.inputs ==> Nameable(t, a))
  }

  /** Constraint names stand for the same constraint, and columns stay computed the way they are. */
  ghost predicate Comparable(t0: Table, t1: Table) {
    && (forall k :: k in t0.keys && k in t1.keys ==> t0.keys[k] == t1.keys[k])
    && (forall c :: c in t0.cols && c in t1.cols && (t0.cols[c].fill.Computed? || t1.cols[c].fill.Computed?) ==>
          t0.cols[c].fill == t1.cols[c].fill)
  }

  /** A valid INSERT may leave the column NULL. */
  ghost predicate CanBeNull(t: Table, c: nat) {
    && Nameable(t, c) && !t.cols[c].notNull
    && forall g :: g in t.cols && t.cols[g].notNull && t.cols[g].fill.Computed? ==> c !in t.cols[g].fill.inputs
  }

  /** A valid INSERT may leave the column out. */
  ghost predicate Omittable(t: Table, c: nat) {
    Nameable(t, c) && (t.cols[c].fill.Value? || CanBeNull(t, c))
  }

  /** Every old INSERT has a value in the column, when columns left out get what `now` says. */
  ghost predicate AlwaysBase(t0: Table, now: nat -> Fill, c: nat) {
    if c in t0.cols then Nameable(t0, c) && !CanBeNull(t0, c) && (t0.cols[c].fill.Value? ==> now(c).Value?)
    else now(c).Value?
  }

  ghost predicate Always(t0: Table, now: nat -> Fill, c: nat) {
    match now(c)
    case Computed(inputs) => forall a :: a in inputs ==> AlwaysBase(t0, now, a)
    case _ => AlwaysBase(t0, now, c)
  }

  /** Some old INSERT has a value in the column. */
  predicate EverBase(t0: Table, now: nat -> Fill, c: nat) {
    if c in t0.cols then Nameable(t0, c) else now(c).Value?
  }

  ghost predicate Ever(t0: Table, now: nat -> Fill, c: nat) {
    match now(c)
    case Computed(inputs) => forall a :: a in inputs ==> EverBase(t0, now, a)
    case _ => EverBase(t0, now, c)
  }

  /** A constraint that was not there before can come to judge an old row. */
  ghost predicate CanJudge(t0: Table, now: nat -> Fill, con: Constraint) {
    con.nullPasses ==> forall c :: c in con.cols ==> Ever(t0, now, c)
  }

  /** A constraint that was there sees something else in a column that was left out. */
  ghost predicate SeesOther(t0: Table, now: nat -> Fill, con: Constraint, b: nat) {
    && b in Base(t0, con.cols) && Omittable(t0, b) && now(b) != t0.cols[b].fill
    && (con.nullPasses ==> now(b).Value?)
  }

  ghost predicate Harmless(t0: Table, now: nat -> Fill, k: nat, con: Constraint) {
    if k in t0.keys then forall b :: !SeesOther(t0, now, con, b) else !CanJudge(t0, now, con)
  }

  function Now(t: Table): nat -> Fill { (c: nat) => FillIn(t, c) }

  /** The table only grew. */
  ghost predicate Grown(t0: Table, t1: Table) {
    && (forall c :: c in t0.cols ==> c in t1.cols && t1.cols[c].ty == t0.cols[c].ty)
    && (forall c :: c in t1.cols && t1.cols[c].notNull ==> Always(t0, Now(t1), c))
    && (forall k :: k in t1.keys ==> Harmless(t0, Now(t1), k, t1.keys[k]))
  }

  /** Growing is exactly what old code needs: every INSERT and every read by name that was valid stays
      valid if and only if the table only grew. */
  lemma GrownIffOldCodeRuns(t0: Table, t1: Table)
    requires WellFormed(t0) && Comparable(t0, t1)
    ensures Grown(t0, t1) <==> OldCodeRuns(t0, t1)
  {
    if Grown(t0, t1) {
      forall ins | InsertOk(t0, ins)
        ensures InsertOk(t1, ins)
      {
        GrownTakes(t0, t1, ins);
      }
    }
    if OldCodeRuns(t0, t1) {
      RunsGrown(t0, t1);
    }
  }

  /** Every old INSERT has a value where it always has one. */
  lemma AlwaysMeans(t0: Table, t1: Table, ins: Insert, c: nat)
    requires WellFormed(t0) && InsertOk(t0, ins) && AlwaysBase(t0, Now(t1), c)
    ensures BaseValued(t1, ins, c)
  {
    if c in t0.cols && c !in ins.values {
      if c in ins.nulls || t0.cols[c].fill.Empty? {
        NotValued(t0, ins, c);
      }
    }
  }

  /** A column without a value can be NULL. */
  lemma NotValued(t: Table, ins: Insert, c: nat)
    requires InsertOk(t, ins) && Nameable(t, c) && !BaseValued(t, ins, c)
    ensures CanBeNull(t, c)
  {
    assert !Valued(t, ins, c);
    forall g | g in t.cols && t.cols[g].notNull && t.cols[g].fill.Computed?
      ensures c !in t.cols[g].fill.inputs
    {
      assert Valued(t, ins, g);
    }
  }

  lemma GrownTakes(t0: Table, t1: Table, ins: Insert)
    requires WellFormed(t0) && Comparable(t0, t1) && Grown(t0, t1) && InsertOk(t0, ins)
    ensures InsertOk(t1, ins)
  {
    forall c | c in t1.cols && t1.cols[c].notNull
      ensures Valued(t1, ins, c)
    {
      assert Always(t0, Now(t1), c);
      forall a | AlwaysBase(t0, Now(t1), a)
        ensures BaseValued(t1, ins, a)
      {
        AlwaysMeans(t0, t1, ins, a);
      }
    }
    forall k | k in t1.keys && Judges(t1, ins, t1.keys[k])
      ensures ins.holds(k, View(t1, ins, t1.keys[k].cols))
    {
      assert Harmless(t0, Now(t1), k, t1.keys[k]);
      if k in t0.keys {
        OldKeyHolds(t0, t1, ins, k);
      } else {
        JudgedIsEver(t0, t1, ins, t1.keys[k]);
      }
    }
  }

  lemma JudgedIsEver(t0: Table, t1: Table, ins: Insert, con: Constraint)
    requires Comparable(t0, t1) && InsertOk(t0, ins) && Judges(t1, ins, con)
    ensures CanJudge(t0, Now(t1), con)
  {
    if con.nullPasses {
      forall c | c in con.cols
        ensures Ever(t0, Now(t1), c)
      {
        assert Valued(t1, ins, c);
      }
    }
  }

  /** What an old constraint saw it sees still. */
  lemma OldKeyHolds(t0: Table, t1: Table, ins: Insert, k: nat)
    requires WellFormed(t0) && Comparable(t0, t1) && InsertOk(t0, ins) && (forall c :: c in t0.cols ==> c in t1.cols)
    requires k in t0.keys && k in t1.keys && Harmless(t0, Now(t1), k, t1.keys[k]) && Judges(t1, ins, t1.keys[k])
    ensures ins.holds(k, View(t1, ins, t1.keys[k].cols))
  {
    var con := t0.keys[k];
    assert forall c :: c in con.cols ==> Sources(t0, c) == Sources(t1, c);
    assert Base(t0, con.cols) == Base(t1, con.cols);
    forall b | b in Base(t0, con.cols) && b !in ins.values && b !in ins.nulls
      ensures FillIn(t0, b) == FillIn(t1, b)
    {
      SourceSame(t0, t1, ins, k, b);
    }
    assert View(t0, ins, con.cols) == View(t1, ins, con.cols);
    assert forall b :: b in Base(t0, con.cols) ==> (BaseValued(t0, ins, b) <==> BaseValued(t1, ins, b));
    forall c | con.nullPasses && c in con.cols
      ensures Valued(t0, ins, c)
    {
      assert Valued(t1, ins, c) && Sources(t0, c) == Sources(t1, c);
      assert forall b :: b in Sources(t0, c) ==> b in Base(t0, con.cols);
    }
    assert Judges(t0, ins, con);
  }

  lemma SourceSame(t0: Table, t1: Table, ins: Insert, k: nat, b: nat)
    requires WellFormed(t0) && Comparable(t0, t1) && InsertOk(t0, ins) && (forall c :: c in t0.cols ==> c in t1.cols)
    requires k in t0.keys && k in t1.keys && Harmless(t0, Now(t1), k, t1.keys[k]) && Judges(t1, ins, t1.keys[k])
    requires b in Base(t0, t0.keys[k].cols) && b !in ins.values && b !in ins.nulls
    ensures FillIn(t0, b) == FillIn(t1, b)
  {
    var con := t0.keys[k];
    var c :| c in con.cols && b in Sources(t0, c);
    assert Nameable(t0, b);
    if t0.cols[b].fill.Empty? {
      NotValued(t0, ins, b);
    }
    assert !SeesOther(t0, Now(t1), con, b);
    if con.nullPasses {
      assert Valued(t1, ins, c) && Sources(t1, c) == Sources(t0, c);
      assert BaseValued(t1, ins, b);
    }
  }

  // ---- and what it takes -------------------------------------------------------------------------

  function Names(t: Table): set<nat> { set c | c in t.cols && Nameable(t, c) }

  /** Everything given. */
  lemma FullInsert(t: Table, holds: (nat, map<nat, Fill>) -> bool) returns (ins: Insert)
    requires WellFormed(t) && forall k, v :: k in t.keys ==> holds(k, v)
    ensures ins == Insert(Names(t), {}, holds) && InsertOk(t, ins)
  {
    ins := Insert(Names(t), {}, holds);
    forall c | c in t.cols && t.cols[c].notNull
      ensures Valued(t, ins, c)
    {
      forall a | a in Sources(t, c)
        ensures BaseValued(t, ins, a)
      {
        assert Nameable(t, a);
      }
    }
  }

  /** Everything given but b, which is left out. */
  lemma WithoutInsert(t: Table, b: nat, holds: (nat, map<nat, Fill>) -> bool) returns (ins: Insert)
    requires WellFormed(t) && Omittable(t, b)
    requires forall k, v :: k in t.keys && (b in v ==> v[b] == t.cols[b].fill) ==> holds(k, v)
    ensures ins == Insert(Names(t) - {b}, {}, holds) && InsertOk(t, ins)
  {
    ins := Insert(Names(t) - {b}, {}, holds);
    forall c | c in t.cols && t.cols[c].notNull
      ensures Valued(t, ins, c)
    {
      forall a | a in Sources(t, c)
        ensures BaseValued(t, ins, a)
      {
        assert Nameable(t, a);
      }
    }
  }

  /** Everything given but b, which is NULL. */
  lemma NullInsert(t: Table, b: nat, holds: (nat, map<nat, Fill>) -> bool) returns (ins: Insert)
    requires WellFormed(t) && CanBeNull(t, b) && forall k, v :: k in t.keys ==> holds(k, v)
    ensures ins == Insert(Names(t) - {b}, {b}, holds) && InsertOk(t, ins)
  {
    ins := Insert(Names(t) - {b}, {b}, holds);
    forall c | c in t.cols && t.cols[c].notNull
      ensures Valued(t, ins, c)
    {
      forall a | a in Sources(t, c)
        ensures BaseValued(t, ins, a)
      {
        assert Nameable(t, a);
      }
    }
  }

  /** Where old INSERTs need not have a value, here is one that has none. */
  lemma NoValue(t0: Table, t1: Table, c: nat) returns (ins: Insert)
    requires WellFormed(t0) && Comparable(t0, t1) && !AlwaysBase(t0, Now(t1), c)
    ensures InsertOk(t0, ins) && !BaseValued(t1, ins, c)
  {
    var all := (k: nat, v: map<nat, Fill>) => true;
    if CanBeNull(t0, c) {
      ins := NullInsert(t0, c, all);
    } else if Nameable(t0, c) {
      ins := WithoutInsert(t0, c, all);
    } else {
      ins := FullInsert(t0, all);
    }
  }

  lemma RunsGrown(t0: Table, t1: Table)
    requires WellFormed(t0) && Comparable(t0, t1) && OldCodeRuns(t0, t1)
    ensures Grown(t0, t1)
  {
    forall c | c in t0.cols
      ensures c in t1.cols && t1.cols[c].ty == t0.cols[c].ty
    {
      assert ReadOk(t0, c, t0.cols[c].ty) && ReadOk(t1, c, t0.cols[c].ty);
    }
    forall c | c in t1.cols && t1.cols[c].notNull
      ensures Always(t0, Now(t1), c)
    {
      if !Always(t0, Now(t1), c) {
        var ins := RefusedColumn(t0, t1, c);
      }
    }
    forall k | k in t1.keys
      ensures Harmless(t0, Now(t1), k, t1.keys[k])
    {
      if !Harmless(t0, Now(t1), k, t1.keys[k]) {
        var ins := Refused(t0, t1, k);
      }
    }
  }

  /** If a NOT NULL column can refuse an old INSERT, here is one it refuses. */
  lemma RefusedColumn(t0: Table, t1: Table, c: nat) returns (ins: Insert)
    requires WellFormed(t0) && Comparable(t0, t1) && c in t1.cols && t1.cols[c].notNull && !Always(t0, Now(t1), c)
    ensures InsertOk(t0, ins) && !InsertOk(t1, ins)
  {
    if FillIn(t1, c).Computed? {
      var inputs := FillIn(t1, c).inputs;
      var a :| a in inputs && !AlwaysBase(t0, Now(t1), a);
      ins := NoValue(t0, t1, a);
      assert a in inputs && !BaseValued(t1, ins, a);
    } else {
      ins := NoValue(t0, t1, c);
    }
    assert !Valued(t1, ins, c);
  }

  /** If a constraint can refuse an old INSERT, here is one it refuses. */
  lemma Refused(t0: Table, t1: Table, k: nat) returns (ins: Insert)
    requires WellFormed(t0) && Comparable(t0, t1) && (forall c :: c in t0.cols ==> c in t1.cols)
    requires k in t1.keys && !Harmless(t0, Now(t1), k, t1.keys[k])
    ensures InsertOk(t0, ins) && !InsertOk(t1, ins)
  {
    if k in t0.keys {
      var b :| SeesOther(t0, Now(t1), t1.keys[k], b);
      ins := RefusedOld(t0, t1, k, b);
    } else {
      ins := FullInsert(t0, (x: nat, v: map<nat, Fill>) => x in t0.keys);
      assert Judges(t1, ins, t1.keys[k]);
    }
  }

  lemma RefusedOld(t0: Table, t1: Table, k: nat, b: nat) returns (ins: Insert)
    requires WellFormed(t0) && Comparable(t0, t1) && (forall c :: c in t0.cols ==> c in t1.cols)
    requires k in t0.keys && k in t1.keys && SeesOther(t0, Now(t1), t1.keys[k], b)
    ensures InsertOk(t0, ins) && !InsertOk(t1, ins)
  {
    var con, other := t0.keys[k], FillIn(t1, b);
    ins := WithoutInsert(t0, b, (x: nat, v: map<nat, Fill>) => !(x == k && b in v && v[b] == other));
    assert forall c :: c in con.cols ==> Sources(t0, c) == Sources(t1, c);
    assert b in Base(t1, con.cols);
    var view := View(t1, ins, con.cols);
    assert b in view && view[b] == other;
    forall c | con.nullPasses && c in con.cols
      ensures Valued(t1, ins, c)
    {
      assert forall a :: a in Sources(t0, c) ==> Nameable(t0, a);
    }
    assert Judges(t1, ins, con);
  }
}
