/** Creating and upgrading the database schema, where any statement may fail and end the run. */
module Migration {
  import opened Basics
  import opened Replay

  datatype Stored = Key | Data(c: Column)

  /** The twelve motor columns in the order in which both migrations list them. */
  const MOTOR_COLUMNS: seq<Stored> :=
    [Data(Motor1(Id)), Data(Motor1(Tics)), Data(Motor1(Rpm)),
     Data(Motor1(Temperature)), Data(Motor1(Voltage)), Data(Motor1(Current))]
    + [Data(Motor2(Id)), Data(Motor2(Tics)), Data(Motor2(Rpm)),
       Data(Motor2(Temperature)), Data(Motor2(Voltage)), Data(Motor2(Current))]

  /** The columns of the CREATE TABLE statement. */
  const CREATED: seq<Stored> :=
    [Key, Data(ReceivedAt), Data(Topic), Data(RobotId), Data(SeqNo), Data(MsgTimestamp), Data(ImuId)]
    + [Data(Acc(X)), Data(Acc(Y)), Data(Acc(Z)), Data(Gyro(X)), Data(Gyro(Y)), Data(Gyro(Z))]
    + [Data(TiltId), Data(Tilt(X)), Data(Tilt(Y)), Data(Tilt(Z)), Data(TiltStatus)]
    + MOTOR_COLUMNS + [Data(Raw)]

  /** Old columns, then those of the list that are missing, in the order of the list. */
  function AddMissing(cols: seq<Stored>, list: seq<Stored>): seq<Stored>
    decreases list
  {
    if list == [] then cols
    else AddMissing(if list[0] in cols then cols else cols + [list[0]], list[1..])
  }

  /** The columns that a complete migration ends with. */
  function Goal(columns: Option<seq<Stored>>): seq<Stored> {
    if columns.Some? then AddMissing(columns.value, MOTOR_COLUMNS) else CREATED
  }

  // -------- the columns that the statements name --------

  /** The INSERT and the SELECT statement can be prepared on a table with these columns. */
  ghost predicate Serves(cols: seq<Stored>) {
    && (forall i {:trigger InsertColumn(i)} :: 1 <= i <= 30 ==> Data(InsertColumn(i)) in cols)
    && (forall j {:trigger SelectColumn(j)} :: 0 <= j < 28 ==> Data(SelectColumn(j)) in cols)
  }

  predicate OfMotor(c: Column) { c.Motor1? || c.Motor2? }

  /** All columns but those that the migration can add. */
  ghost predicate HasOthers(cols: seq<Stored>) { forall c :: !OfMotor(c) ==> Data(c) in cols }

  lemma ServesAll(cols: seq<Stored>)
    ensures Serves(cols) <==> forall c :: Data(c) in cols
  {
    hide InsertColumn, SelectColumn;
    forall c ensures Serves(cols) ==> Data(c) in cols {
      ColumnOfParameter(c);
      assert Serves(cols) ==> Data(InsertColumn(Parameter(c))) in cols;
    }
  }

  lemma MotorsListed(c: Column)
    ensures Data(c) in MOTOR_COLUMNS <==> OfMotor(c)
  {
    var k := match c case Motor1(f) => FieldIndex(f) case Motor2(f) => 6 + FieldIndex(f) case _ => 0;
    assert OfMotor(c) ==> MOTOR_COLUMNS[k] == Data(c);
  }

  /** The table is created with the columns of the INSERT statement, in its order, behind the key. */
  lemma CreatedInOrder(i: nat)
    requires i <= 30
    ensures |CREATED| == 31 && CREATED[i] == if i == 0 then Key else Data(InsertColumn(i))
  {
    if i <= 12 {
    } else if i <= 18 {
    } else {
      assert CREATED[i] == (MOTOR_COLUMNS + [Data(Raw)])[i - 18];
    }
  }

  lemma CreatedServes()
    ensures Serves(CREATED)
  {
    forall c ensures Data(c) in CREATED {
      ColumnOfParameter(c);
      CreatedInOrder(Parameter(c));
    }
    ServesAll(CREATED);
  }

  /** A complete migration leaves a table on which both statements can be prepared if and only if there was none or it
      had all columns other than the motors'. */
  lemma GoalServesExactlyWhen(columns: Option<seq<Stored>>)
    ensures Serves(Goal(columns)) <==> columns.None? || HasOthers(columns.value)
  {
    hide Serves, CREATED, MOTOR_COLUMNS;
    ServesAll(Goal(columns));
    if columns.None? {
      CreatedServes();
    } else {
      AddMissingKeeps(columns.value, MOTOR_COLUMNS);
      forall c ensures Data(c) in Goal(columns) <==> Data(c) in columns.value || OfMotor(c) {
        MotorsListed(c);
      }
    }
  }

  lemma {:induction false} AddMissingKeeps(cols: seq<Stored>, list: seq<Stored>)
    ensures cols <= AddMissing(cols, list)
    ensures forall c :: c in list ==> c in AddMissing(cols, list)
    ensures forall c :: c in AddMissing(cols, list) ==> c in cols || c in list
    decreases list
  {
    if list != [] {
      var more := if list[0] in cols then cols else cols + [list[0]];
      AddMissingKeeps(more, list[1..]);
      assert list[0] in more;
    }
  }

  lemma {:induction false} NothingMissing(cols: seq<Stored>, list: seq<Stored>)
    requires forall c :: c in list ==> c in cols
    ensures AddMissing(cols, list) == cols
  {
    if list != [] {
      assert list[0] in list;
      NothingMissing(cols, list[1..]);
    }
  }

  lemma {:induction false} AddMissingInTwo(cols: seq<Stored>, a: seq<Stored>, b: seq<Stored>)
    ensures AddMissing(cols, a + b) == AddMissing(AddMissing(cols, a), b)
    decreases a
  {
    if a == [] {
      assert a + b == b;
    } else {
      assert (a + b)[1..] == a[1..] + b;
      AddMissingInTwo(if a[0] in cols then cols else cols + [a[0]], a[1..], b);
    }
  }

  /** Starting over after the first k columns leads to the same columns. */
  lemma StartingOver(cols: seq<Stored>, list: seq<Stored>, k: nat)
    requires k <= |list|
    ensures AddMissing(AddMissing(cols, list[..k]), list) == AddMissing(cols, list)
  {
    var part := AddMissing(cols, list[..k]);
    assert list == list[..k] + list[k..];
    AddMissingKeeps(cols, list[..k]);
    NothingMissing(part, list[..k]);
    AddMissingInTwo(part, list[..k], list[k..]);
    AddMissingInTwo(cols, list[..k], list[k..]);
  }

  /** A database with a plan of which statements the engine carries out; after the plan every one succeeds. */
  class Database {
    var version: int
    var columns: Option<seq<Stored>>   // of telemetry_state, if it exists
    var plan: seq<bool>

    constructor (version: int, columns: Option<seq<Stored>>)
      ensures this.version == version && this.columns == columns && plan == []
    {
      this.version, this.columns, this.plan := version, columns, [];
    }

    /** Whether the next statement is carried out. */
    method Next() returns (ok: bool)
      modifies this`plan
      ensures Ample(old(plan)) ==> ok && Ample(plan)
    {
      ok := plan == [] || plan[0];
      if plan != [] { plan := plan[1..]; }
    }

    /** column_exists: a statement that cannot be prepared counts as an absent column. */
    method ColumnExists(c: Stored) returns (exists_: bool)
      modifies this`plan
      ensures exists_ ==> columns.Some? && c in columns.value
      ensures Ample(old(plan)) ==> Ample(plan) && (exists_ <==> columns.Some? && c in columns.value)
    {
      var ok := Next();
      exists_ := ok && columns.Some? && c in columns.value;
    }

    /** ensure_column; the ALTER fails without a table and for a column that is there already. */
    method EnsureColumn(c: Stored) returns (ok: bool)
      modifies this`plan, this`columns
      ensures ok ==> old(columns).Some? && columns == Some(AddMissing(old(columns).value, [c]))
      ensures !ok ==> columns == old(columns)
      ensures Ample(old(plan)) ==> Ample(plan) && (ok <==> old(columns).Some?)
    {
      var there := ColumnExists(c);
      if there { return true; }
      ok := Next();
      if columns == None || c in columns.value { ok := false; }
      if ok { columns := Some(columns.value + [c]); }
    }

    /** The loop of both migrations over the motor columns. */
    method EnsureColumns() returns (ok: bool)
      modifies this`plan, this`columns
      ensures Goal(columns) == Goal(old(columns))
      ensures old(columns).None? ==> !ok && columns == None
      ensures old(columns).Some? ==> Grown(old(columns), columns)
      ensures ok ==> columns == Some(Goal(old(columns)))
      ensures Ample(old(plan)) && old(columns).Some? ==> ok && Ample(plan)
    {
      hide AddMissing;
      var i := 0;
      ghost var cols := if columns.Some? then columns.value else [];
      AddNone(cols);
      while i < |MOTOR_COLUMNS|
        invariant 0 <= i <= |MOTOR_COLUMNS|
        invariant old(columns).Some? ==> columns == Some(AddMissing(cols, MOTOR_COLUMNS[..i]))
        invariant old(columns).None? ==> columns == None && i == 0
        invariant Ample(old(plan)) ==> Ample(plan)
      {
        ok := EnsureColumn(MOTOR_COLUMNS[i]);
        if !ok {
          StartingOver(cols, MOTOR_COLUMNS, i);
          AddMissingKeeps(cols, MOTOR_COLUMNS[..i]);
          return;
        }
        assert MOTOR_COLUMNS[..i + 1] == MOTOR_COLUMNS[..i] + [MOTOR_COLUMNS[i]];
        AddMissingInTwo(cols, MOTOR_COLUMNS[..i], [MOTOR_COLUMNS[i]]);
        i := i + 1;
      }
      ok := true;
      assert MOTOR_COLUMNS[..|MOTOR_COLUMNS|] == MOTOR_COLUMNS;
      StartingOver(cols, MOTOR_COLUMNS, |MOTOR_COLUMNS|);
      AddMissingKeeps(cols, MOTOR_COLUMNS);
    }

    /** db_apply_pragmas. */
    method ApplyPragmas() returns (ok: bool)
      modifies this`plan
      ensures Ample(old(plan)) ==> ok && Ample(plan)
    {
      ok := Next();
      if ok { ok := Next(); }
      if ok { ok := Next(); }
    }

    /** The three statements of the schema script; the indexes need the columns that they are on. */
    method CreateTable() returns (ok: bool)
      modifies this`plan, this`columns
      ensures columns == old(columns) || (old(columns).None? && columns == Some(CREATED))
      ensures ok ==> columns.Some? && Indexable(old(columns))
      ensures Ample(old(plan)) && Indexable(old(columns)) ==> ok && Ample(plan)
    {
      CreatedIsIndexable();
      ok := Next();
      if !ok { return; }
      if columns.None? { columns := Some(CREATED); }
      ok := Next();
      if !ok || Data(ReceivedAt) !in columns.value { return false; }
      ok := Next();
      ok := ok && Data(RobotId) in columns.value;
    }

    /** PRAGMA user_version=2. */
    method SetVersion() returns (ok: bool)
      modifies this`plan, this`version
      ensures version == if ok then 2 else old(version)
      ensures Ample(old(plan)) ==> ok && Ample(plan)
    {
      ok := Next();
      if ok { version := 2; }
    }

    method MigrateV2() returns (ok: bool)
      modifies this
      ensures Goal(columns) == Goal(old(columns)) && Grown(old(columns), columns)
      ensures version == if ok then 2 else old(version)
      ensures ok ==> columns == Some(Goal(old(columns))) && Indexable(old(columns))
      ensures Ample(old(plan)) && Indexable(old(columns)) ==> ok
    {
      hide AddMissing;
      CreatedIsComplete();
      ok := ApplyPragmas();
      if !ok { return; }
      ok := CreateTable();
      if !ok { return; }
      ok := EnsureColumns();
      if !ok { return; }
      ok := SetVersion();
    }

    method UpgradeV1() returns (ok: bool)
      modifies this
      ensures Goal(columns) == Goal(old(columns)) && Grown(old(columns), columns)
      ensures version == if ok then 2 else old(version)
      ensures ok ==> columns == Some(Goal(old(columns)))
      ensures Ample(old(plan)) ==> (ok <==> old(columns).Some?)
    {
      hide Goal;
      ok := ApplyPragmas();
      if !ok { return; }
      ok := EnsureColumns();
      if !ok { return; }
      ok := SetVersion();
    }

    /** db_ensure_schema. A version that cannot be read counts as 0. */
    method EnsureSchema() returns (ok: bool)
      modifies this
      ensures Goal(columns) == Goal(old(columns)) && Grown(old(columns), columns)
      ensures version == if ok then 2 else old(version)
      ensures ok && old(version) != 2 ==> columns == Some(Goal(old(columns)))
      ensures ok && old(version) != 2 ==>
        columns.Some? && (Serves(columns.value) <==> old(columns).None? || HasOthers(old(columns).value))
      ensures Ample(old(plan)) ==> (ok <==> Startable(old(version), old(columns)))
      ensures Ample(old(plan)) && old(version) !in {0, 1} ==> columns == old(columns)
    {
      hide Goal, Serves, HasOthers;
      GoalServesExactlyWhen(columns);
      ok := Next();
      if !ok { return; }
      var read := Next();
      var v := if read then version else 0;
      if v == 0 {
        ok := MigrateV2();
      } else if v == 1 {
        ok := UpgradeV1();
      } else {
        ok := v == 2;
      }
    }
  }

  /** The columns are still there, in the same places. */
  predicate Grown(before: Option<seq<Stored>>, after: Option<seq<Stored>>) {
    match before
    case None => after.Some? ==> CREATED <= after.value
    case Some(cols) => after.Some? && cols <= after.value
  }

  /** The columns on which the schema script builds its indexes are there, or will be. */
  predicate Indexable(columns: Option<seq<Stored>>) {
    columns.Some? ==> Data(ReceivedAt) in columns.value && Data(RobotId) in columns.value
  }

  predicate Startable(version: int, columns: Option<seq<Stored>>) {
    (version == 0 && Indexable(columns)) || (version == 1 && columns.Some?) || version == 2
  }

  lemma CreatedIsIndexable()
    ensures Data(ReceivedAt) in CREATED && Data(RobotId) in CREATED
  {
    assert CREATED[1] == Data(ReceivedAt) && CREATED[3] == Data(RobotId);
  }

  lemma CreatedIsComplete()
    ensures Goal(Some(CREATED)) == CREATED
  {
    NothingMissing(CREATED, MOTOR_COLUMNS);
  }

  /** Complete columns stay as they are. */
  lemma CompleteStays(before: Option<seq<Stored>>, after: Option<seq<Stored>>)
    requires before.Some? && before.value == Goal(before) && Goal(after) == Goal(before) && Grown(before, after)
    ensures after == before
  {
    hide Goal;
    GoalIsLast(after);
    assert before.value <= after.value && |after.value| <= |before.value|;
    assert after.value == after.value[..|before.value|] == before.value;
  }

  /** A finished schema is not changed again by any run, whichever of its statements fail. */
  method RunAgain(db: Database) returns (ok: bool)
    requires db.version == 2 && db.columns.Some? && db.columns.value == Goal(db.columns)
    modifies db
    ensures db.version == 2 && db.columns == old(db.columns)
  {
    hide Goal;
    ghost var before := db.columns;
    ok := db.EnsureSchema();
    CompleteStays(before, db.columns);
  }

  lemma GoalIsLast(columns: Option<seq<Stored>>)
    ensures columns.Some? ==> columns.value <= Goal(columns)
  {
    if columns.Some? { AddMissingKeeps(columns.value, MOTOR_COLUMNS); }
  }

  /** Any number of runs, cut short wherever a statement fails, and then one in which all statements succeed: the
      schema ends at version 2 with the columns that a single uninterrupted run would have given. */
  method OpenUntilDone(db: Database, cuts: seq<seq<bool>>) returns (ok: bool)
    requires db.version in {0, 1} && Startable(db.version, db.columns)
    modifies db
    ensures ok && db.version == 2 && db.columns == Some(Goal(old(db.columns)))
    ensures Serves(db.columns.value) <==> old(db.columns).None? || HasOthers(old(db.columns).value)
  {
    hide Goal, Serves, HasOthers;
    GoalServesExactlyWhen(db.columns);
    ghost var goal := Goal(db.columns);
    for i := 0 to |cuts|
      invariant Underway(db.version, db.columns, goal)
    {
      db.plan := cuts[i];
      ok := RunOnce(db, goal);
    }
    db.plan := [];
    ok := RunOnce(db, goal);
  }

  /** Between runs: an unfinished schema can still be completed to the goal, a finished one has reached it. */
  predicate Underway(version: int, columns: Option<seq<Stored>>, goal: seq<Stored>) {
    && version in {0, 1, 2} && Startable(version, columns)
    && Goal(columns) == goal && (version == 2 ==> columns == Some(goal))
  }

  method RunOnce(db: Database, ghost goal: seq<Stored>) returns (ok: bool)
    requires Underway(db.version, db.columns, goal)
    modifies db
    ensures Underway(db.version, db.columns, goal)
    ensures Ample(old(db.plan)) ==> ok && db.version == 2
  {
    hide Goal;
    ghost var before := db.columns;
    ok := db.EnsureSchema();
    if Indexable(before) { StaysIndexable(before, db.columns); }
    if before == Some(goal) { CompleteStays(before, db.columns); }
  }

  lemma StaysIndexable(before: Option<seq<Stored>>, after: Option<seq<Stored>>)
    requires Indexable(before) && Grown(before, after)
    ensures Indexable(after)
  {
    CreatedIsIndexable();
  }

  predicate Ample(plan: seq<bool>) { false !in plan }

  lemma AddNone(cols: seq<Stored>)
    ensures AddMissing(cols, []) == cols && forall l: seq<Stored> :: l[..0] == []
  {
  }
}
