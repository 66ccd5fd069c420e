/** Storing a sample as a row and printing the row again: the bindings of db_writer_insert_state, the column lists of
    the two SQL statements, and append_row_as_sample_json. */
module Replay {
  import opened Basics
  import opened SampleJson

  datatype Value = Null | Int(n: int) | Real(d: Double) | Text(t: string) | Blob(b: seq<byte>)

  datatype MotorField = Id | Tics | Rpm | Temperature | Voltage | Current

  datatype Axis = X | Y | Z

  datatype Column =
    | ReceivedAt | Topic | RobotId | SeqNo | MsgTimestamp | ImuId | Acc(axis: Axis) | Gyro(axis: Axis)
    | TiltId | Tilt(axis: Axis) | TiltStatus | Motor1(field: MotorField) | Motor2(field: MotorField) | Raw

  // -------- writing --------

  /** The column list of the INSERT statement: the column that parameter i fills. */
  function InsertColumn(i: nat): Column
    requires 1 <= i <= 30
  {
    match i
    case 1 => ReceivedAt case 2 => Topic case 3 => RobotId case 4 => SeqNo case 5 => MsgTimestamp
    case 6 => ImuId case 7 => Acc(X) case 8 => Acc(Y) case 9 => Acc(Z)
    case 10 => Gyro(X) case 11 => Gyro(Y) case 12 => Gyro(Z)
    case 13 => TiltId case 14 => Tilt(X) case 15 => Tilt(Y) case 16 => Tilt(Z) case 17 => TiltStatus
    case 18 => Motor1(Id) case 19 => Motor1(Tics) case 20 => Motor1(Rpm)
    case 21 => Motor1(Temperature) case 22 => Motor1(Voltage) case 23 => Motor1(Current)
    case 24 => Motor2(Id) case 25 => Motor2(Tics) case 26 => Motor2(Rpm)
    case 27 => Motor2(Temperature) case 28 => Motor2(Voltage) case 29 => Motor2(Current)
    case _ => Raw
  }

  // C conversions to int32_t and int64_t.
  function Wrap32(n: int): int { (n + TWO_31) % TWO_32 - TWO_31 }
  function Wrap64(n: int): int { (n + TWO_63) % TWO_64 - TWO_63 }

  // sqlite3_bind_int, sqlite3_bind_int64 and sqlite3_bind_double; a NaN is bound as NULL.
  function BindInt(n: int): Value { Int(Wrap32(n)) }
  function BindInt64(n: int): Value { Int(Wrap64(n)) }
  function BindDouble(d: Double): Value { if d.NaN? then Null else Real(d) }

  function BindMotor(m: Motor, k: nat): Value {
    match k
    case 0 => Text(m.id)
    case 1 => BindInt64(m.tics)
    case 2 => BindInt(m.rpm)
    case 3 => BindInt(m.temperature)
    case 4 => BindInt(m.voltage)
    case _ => BindInt(m.current)
  }

  /** What db_writer_insert_state binds to parameter i. */
  function Bound(s: Sample, i: nat): Value
    requires 1 <= i <= 30
  {
    match i
    case 1 => BindInt64(s.receivedAt)
    case 2 => Text(if s.topic.Some? then s.topic.value else "")
    case 3 => Text(s.robot)
    case 4 => BindInt(s.seqNo)
    case 5 => BindInt64(s.msgTimestamp)
    case 6 => Text(s.imu)
    case 7 => BindDouble(s.acc.x)
    case 8 => BindDouble(s.acc.y)
    case 9 => BindDouble(s.acc.z)
    case 10 => BindDouble(s.gyro.x)
    case 11 => BindDouble(s.gyro.y)
    case 12 => BindDouble(s.gyro.z)
    case 13 => Text(s.tiltId)
    case 14 => BindDouble(s.tilt.x)
    case 15 => BindDouble(s.tilt.y)
    case 16 => BindDouble(s.tilt.z)
    case 17 => BindInt(s.tiltStatus)
    case 30 => if s.raw != [] then Blob(s.raw) else Null
    case _ => if i < 24 then BindMotor(s.motor1, i - 18) else BindMotor(s.motor2, i - 24)
  }

  /** A REAL column keeps a number without fraction as an integer, which loses the sign of minus zero. */
  function Kept(v: Value): Value { if v == Real(MINUS_ZERO) then Real(ZERO) else v }

  /** The stored row: column c holds what was bound to the parameter that fills it, as the column keeps it. */
  ghost predicate Stores(row: Column -> Value, s: Sample) {
    forall i {:trigger InsertColumn(i)} :: 1 <= i <= 30 ==> row(InsertColumn(i)) == Kept(Bound(s, i))
  }

  /** The parameter that fills a column. */
  function Parameter(c: Column): (i: nat)
    ensures 1 <= i <= 30
  {
    match c
    case ReceivedAt => 1 case Topic => 2 case RobotId => 3 case SeqNo => 4 case MsgTimestamp => 5 case ImuId => 6
    case Acc(a) => 7 + AxisIndex(a) case Gyro(a) => 10 + AxisIndex(a)
    case TiltId => 13 case Tilt(a) => 14 + AxisIndex(a)
    case TiltStatus => 17 case Motor1(m) => 18 + FieldIndex(m) case Motor2(m) => 24 + FieldIndex(m) case Raw => 30
  }

  function AxisIndex(a: Axis): nat { match a case X => 0 case Y => 1 case Z => 2 }

  function FieldIndex(m: MotorField): nat {
    match m case Id => 0 case Tics => 1 case Rpm => 2 case Temperature => 3 case Voltage => 4 case Current => 5
  }

  /** The INSERT statement names each column once, so every sample has its row, and only that one. */
  lemma EachColumnOnce(i: nat, c: Column)
    requires 1 <= i <= 30
    ensures InsertColumn(i) == c <==> Parameter(c) == i
  {
    hide InsertColumn, Parameter;
    ColumnOfParameter(c);
    ParameterOfColumn(i);
  }

  lemma ColumnOfParameter(c: Column)
    ensures InsertColumn(Parameter(c)) == c
  {
  }

  lemma ParameterOfColumn(i: nat)
    requires 1 <= i <= 30
    ensures Parameter(InsertColumn(i)) == i
  {
    if i <= 12 {
    } else if i <= 20 {
    } else {
    }
  }

  lemma RowOfSample(s: Sample) returns (row: Column -> Value)
    ensures Stores(row, s)
    ensures forall other :: Stores(other, s) ==> forall c :: other(c) == row(c)
  {
    hide InsertColumn, Parameter, Bound, Kept;
    row := c => Kept(Bound(s, Parameter(c)));
    forall i | 1 <= i <= 30 ensures row(InsertColumn(i)) == Kept(Bound(s, i)) {
      EachColumnOnce(i, InsertColumn(i));
    }
    forall other: Column -> Value, c | Stores(other, s) ensures other(c) == row(c) {
      EachColumnOnce(Parameter(c), c);
    }
  }

  function OnAxis(v: Vec, a: Axis): Double { match a case X => v.x case Y => v.y case Z => v.z }

  function MotorValue(m: Motor, f: MotorField): Value {
    match f
    case Id => Text(m.id)
    case Tics => Int(m.tics)
    case Rpm => Int(m.rpm)
    case Temperature => Int(m.temperature)
    case Voltage => Int(m.voltage)
    case Current => Int(m.current)
  }

  /** An unsigned value in a signed integer of as many bits. */
  function AsSigned(n: nat, half: nat): int { if n < half then n else n - 2 * half }

  /** A number as a column of numbers keeps it. */
  function RealValue(d: Double): Value {
    if d.NaN? then Null else if d.bits == 0x8000_0000_0000_0000 then Real(Number(0)) else Real(d)
  }

  /** The stored row, column by column and whatever parameter fills it. */
  lemma StoredRow(row: Column -> Value, s: Sample)
    requires Stores(row, s) && Ranges(s)
    ensures row(ReceivedAt) == Int(s.receivedAt)
    ensures row(Topic) == Text(match s.topic case Some(t) => t case None => "")
    ensures row(Raw) == if s.raw == [] then Null else Blob(s.raw)
    ensures row(RobotId) == Text(s.robot) && row(ImuId) == Text(s.imu) && row(TiltId) == Text(s.tiltId)
    ensures row(SeqNo) == Int(AsSigned(s.seqNo, 0x8000_0000))
    ensures row(TiltStatus) == Int(AsSigned(s.tiltStatus, 0x8000_0000))
    ensures row(MsgTimestamp) == Int(AsSigned(s.msgTimestamp, 0x8000_0000_0000_0000))
    ensures forall a :: row(Acc(a)) == RealValue(OnAxis(s.acc, a)) && row(Gyro(a)) == RealValue(OnAxis(s.gyro, a))
    ensures forall a :: row(Tilt(a)) == RealValue(OnAxis(s.tilt, a))
    ensures forall m :: row(Motor1(m)) == MotorValue(s.motor1, m) && row(Motor2(m)) == MotorValue(s.motor2, m)
  {
    hide Stores, OnAxis, RealValue, MotorValue;
    StoredScalars(row, s);
    forall a ensures row(Acc(a)) == RealValue(OnAxis(s.acc, a)) && row(Gyro(a)) == RealValue(OnAxis(s.gyro, a))
                     && row(Tilt(a)) == RealValue(OnAxis(s.tilt, a)) {
      StoredAxis(row, s, a);
    }
    forall m ensures row(Motor1(m)) == MotorValue(s.motor1, m) && row(Motor2(m)) == MotorValue(s.motor2, m) {
      StoredMotorField(row, s, m);
    }
  }

  lemma StoredColumn(row: Column -> Value, s: Sample, c: Column)
    requires Stores(row, s)
    ensures row(c) == Kept(Bound(s, Parameter(c)))
  {
    hide InsertColumn, Parameter, Bound, Kept;
    EachColumnOnce(Parameter(c), c);
  }

  lemma StoredScalars(row: Column -> Value, s: Sample)
    requires Stores(row, s) && Ranges(s)
    ensures row(ReceivedAt) == Int(s.receivedAt)
    ensures row(Topic) == Text(match s.topic case Some(t) => t case None => "")
    ensures row(Raw) == if s.raw == [] then Null else Blob(s.raw)
    ensures row(RobotId) == Text(s.robot) && row(ImuId) == Text(s.imu) && row(TiltId) == Text(s.tiltId)
    ensures row(SeqNo) == Int(AsSigned(s.seqNo, 0x8000_0000))
    ensures row(TiltStatus) == Int(AsSigned(s.tiltStatus, 0x8000_0000))
    ensures row(MsgTimestamp) == Int(AsSigned(s.msgTimestamp, 0x8000_0000_0000_0000))
  {
    hide Stores, InsertColumn, BindMotor, BindDouble;
    StoredColumn(row, s, ReceivedAt);
    StoredColumn(row, s, Topic);
    StoredColumn(row, s, Raw);
    StoredColumn(row, s, RobotId);
    StoredColumn(row, s, ImuId);
    StoredColumn(row, s, TiltId);
    StoredColumn(row, s, SeqNo);
    StoredColumn(row, s, TiltStatus);
    StoredColumn(row, s, MsgTimestamp);
    Wraps(s.receivedAt);
    Wraps(s.seqNo);
    Wraps(s.tiltStatus);
    Wraps(s.msgTimestamp);
    hide Wrap32, Wrap64;
  }

  lemma StoredAxis(row: Column -> Value, s: Sample, a: Axis)
    requires Stores(row, s)
    ensures row(Acc(a)) == RealValue(OnAxis(s.acc, a)) && row(Gyro(a)) == RealValue(OnAxis(s.gyro, a))
    ensures row(Tilt(a)) == RealValue(OnAxis(s.tilt, a))
  {
    hide Stores, InsertColumn, BindMotor, BindInt, BindInt64;
    StoredColumn(row, s, Acc(a));
    StoredColumn(row, s, Gyro(a));
    StoredColumn(row, s, Tilt(a));
  }

  lemma StoredMotorField(row: Column -> Value, s: Sample, m: MotorField)
    requires Stores(row, s) && Ranges(s)
    ensures row(Motor1(m)) == MotorValue(s.motor1, m) && row(Motor2(m)) == MotorValue(s.motor2, m)
  {
    hide Stores, InsertColumn, BindMotor, BindInt, BindInt64;
    StoredColumn(row, s, Motor1(m));
    StoredColumn(row, s, Motor2(m));
    BoundField(s.motor1, m);
    BoundField(s.motor2, m);
  }

  lemma BoundField(d: Motor, m: MotorField)
    requires MotorRanges(d)
    ensures Kept(BindMotor(d, FieldIndex(m))) == MotorValue(d, m)
  {
    hide Wrap32, Wrap64;
    Wraps(d.tics);
    Wraps(d.rpm);
    Wraps(d.temperature);
    Wraps(d.voltage);
    Wraps(d.current);
  }

  /** The column list of the SELECT statement. */
  function SelectColumn(j: nat): Column
    requires j < 28
  {
    match j
    case 0 => ReceivedAt case 1 => RobotId case 2 => SeqNo case 3 => MsgTimestamp case 4 => ImuId
    case 5 => Acc(X) case 6 => Acc(Y) case 7 => Acc(Z) case 8 => Gyro(X) case 9 => Gyro(Y) case 10 => Gyro(Z)
    case 11 => TiltId case 12 => Tilt(X) case 13 => Tilt(Y) case 14 => Tilt(Z) case 15 => TiltStatus
    case 16 => Motor1(Id) case 17 => Motor1(Tics) case 18 => Motor1(Rpm)
    case 19 => Motor1(Temperature) case 20 => Motor1(Voltage) case 21 => Motor1(Current)
    case 22 => Motor2(Id) case 23 => Motor2(Tics) case 24 => Motor2(Rpm)
    case 25 => Motor2(Temperature) case 26 => Motor2(Voltage) case _ => Motor2(Current)
  }

  // -------- reading --------

  // sqlite3_column_int, sqlite3_column_int64, sqlite3_column_double and sqlite3_column_text.
  function ColInt64(v: Value): int { if v.Int? then v.n else 0 }
  function ColInt(v: Value): int { Wrap32(ColInt64(v)) }
  function ColDouble(v: Value): Double { if v.Real? then v.d else ZERO }
  function ColText(v: Value): string { if v.Text? then v.t else "" }

  type Row = Column -> Value

  function Col(row: Row, j: nat): Value
    requires j < 28
  {
    row(SelectColumn(j))
  }

  function ReplayHead(row: Row, f: Format): seq<string> {
    ["{\"type\":\"telemetry\",\"t\":", f.seconds(ColInt64(Col(row, 0))), ",\"t_ns\":", Integer(ColInt64(Col(row, 0))),
     ",\"seq\":", Integer(ColInt(Col(row, 2))), ",\"msg_ts_ns\":", Integer(ColInt64(Col(row, 3))), ","]
    + ["\"robot_id\":\"", ColText(Col(row, 1)), "\",\"imu_id\":\"", ColText(Col(row, 4)), "\",\"tilt_id\":\"",
       ColText(Col(row, 11)), "\",\"tilt_status\":", Integer(ColInt(Col(row, 15))), ","]
  }

  function ReplayVec(open: string, row: Row, j: nat, f: Format): seq<string>
    requires j + 2 < 28
  {
    [open, f.double(ColDouble(Col(row, j))), ",\"y\":", f.double(ColDouble(Col(row, j + 1))),
     ",\"z\":", f.double(ColDouble(Col(row, j + 2))), "}"]
  }

  function ReplayVectors(row: Row, f: Format): seq<string> {
    ReplayVec("\"accel\":{\"x\":", row, 5, f) + [","] + ReplayVec("\"gyro\":{\"x\":", row, 8, f) + [","]
    + ReplayVec("\"tilt\":{\"x\":", row, 12, f)
  }

  function ReplayMotor(row: Row, j: nat): seq<string>
    requires j == 16 || j == 22
  {
    [":{\"id\":\"", ColText(Col(row, j)), "\",\"tics\":", Integer(ColInt64(Col(row, j + 1))),
     ",\"rpm\":", Integer(ColInt(Col(row, j + 2))), ",\"temperature_c\":", Integer(ColInt(Col(row, j + 3))),
     ",\"voltage_power_stage_mv\":", Integer(ColInt(Col(row, j + 4)))]
    + [",\"current_power_stage_ma\":", Integer(ColInt(Col(row, j + 5))), "}"]
  }

  function ReplayMotors(row: Row): seq<string> {
    [",", "\"motors\":{", "\"motor1\""] + ReplayMotor(row, 16) + [",", "\"motor2\""] + ReplayMotor(row, 22) + ["}"]
  }

  /** append_row_as_sample_json: the motors only if one of them has an identifier. */
  function Replayed(row: Row, f: Format): string {
    var hasMotors := Col(row, 16) != Null || Col(row, 22) != Null;
    Concat(ReplayHead(row, f) + ReplayVectors(row, f)) + (if hasMotors then Concat(ReplayMotors(row)) else "") + "}"
  }

  // -------- what the round trip does to a sample --------

  function StoredDouble(d: Double): Double { if d.NaN? || d == MINUS_ZERO then ZERO else d }

  function StoredVec(v: Vec): Vec { Vec(StoredDouble(v.x), StoredDouble(v.y), StoredDouble(v.z)) }

  /** The sample whose live text the replay prints. */
  function Distorted(s: Sample): Sample {
    s.(seqNo := if s.seqNo < TWO_31 then s.seqNo else s.seqNo - TWO_32,
       tiltStatus := if s.tiltStatus < TWO_31 then s.tiltStatus else s.tiltStatus - TWO_32,
       msgTimestamp := if s.msgTimestamp < TWO_63 then s.msgTimestamp else s.msgTimestamp - TWO_64,
       acc := StoredVec(s.acc), gyro := StoredVec(s.gyro), tilt := StoredVec(s.tilt))
  }

  lemma Wraps(n: int)
    ensures Int32(n) ==> Wrap32(n) == n
    ensures TWO_31 <= n < TWO_32 ==> Wrap32(n) == n - TWO_32
    ensures Int32(Wrap32(n))
    ensures -TWO_63 <= n < TWO_63 ==> Wrap64(n) == n
    ensures TWO_63 <= n < TWO_64 ==> Wrap64(n) == n - TWO_64
  {
  }

  /** An int bound and read back. */
  lemma IntRoundTrip(n: int)
    requires -TWO_31 <= n < TWO_32
    ensures ColInt(BindInt(n)) == if n < TWO_31 then n else n - TWO_32
  {
    hide Wrap32;
    Wraps(n);
    Wraps(Wrap32(n));
  }

  lemma Int64RoundTrip(n: int)
    requires -TWO_63 <= n < TWO_64
    ensures ColInt64(BindInt64(n)) == if n < TWO_63 then n else n - TWO_64
  {
    hide Wrap64;
    Wraps(n);
  }

  /** Every selected column holds what was bound for it, as the column keeps it. */
  lemma Columns(row: Row, s: Sample)
    requires Stores(row, s)
    ensures Col(row, 0) == Kept(Bound(s, 1)) && Col(row, 1) == Kept(Bound(s, 3))
    ensures Col(row, 2) == Kept(Bound(s, 4)) && Col(row, 3) == Kept(Bound(s, 5))
    ensures forall j :: 4 <= j < 28 ==> Col(row, j) == Kept(Bound(s, j + 2))
  {
    hide Kept, Bound;
    forall i | 1 <= i <= 30 ensures row(InsertColumn(i)) == Kept(Bound(s, i)) {}
    forall j | 4 <= j < 28 ensures SelectColumn(j) == InsertColumn(j + 2) {}
  }

  lemma HeadAgrees(row: Row, s: Sample, f: Format)
    requires Stores(row, s) && Ranges(s)
    ensures ReplayHead(row, f) == LiveHead(Distorted(s), f)
  {
    hide BindInt, BindInt64, ColInt, ColInt64, Col, SelectColumn, Stores, Bound, Kept;
    Columns(row, s);
    BoundHead(s);
    IntRoundTrip(s.seqNo);
    IntRoundTrip(s.tiltStatus);
    Int64RoundTrip(s.receivedAt);
    Int64RoundTrip(s.msgTimestamp);
  }

  lemma BoundHead(s: Sample)
    ensures Kept(Bound(s, 1)) == BindInt64(s.receivedAt)
    ensures Kept(Bound(s, 3)) == Text(s.robot) && Kept(Bound(s, 4)) == BindInt(s.seqNo)
    ensures Kept(Bound(s, 5)) == BindInt64(s.msgTimestamp)
    ensures Kept(Bound(s, 6)) == Text(s.imu) && Kept(Bound(s, 13)) == Text(s.tiltId)
    ensures Kept(Bound(s, 17)) == BindInt(s.tiltStatus)
  {
  }

  lemma VectorsAgree(row: Row, s: Sample, f: Format)
    requires Stores(row, s)
    ensures ReplayVectors(row, f) + [","] == LiveVectors(Distorted(s), f)
  {
    hide Col, SelectColumn, Stores, BindInt, BindInt64;
    Columns(row, s);
  }

  /** The six columns from j on hold the motor m. */
  predicate HoldsMotor(row: Row, j: nat, m: Motor)
    requires j + 5 < 28
  {
    && Col(row, j) == Text(m.id) && Col(row, j + 1) == BindInt64(m.tics) && Col(row, j + 2) == BindInt(m.rpm)
    && Col(row, j + 3) == BindInt(m.temperature) && Col(row, j + 4) == BindInt(m.voltage)
    && Col(row, j + 5) == BindInt(m.current)
  }

  lemma MotorAgrees(row: Row, j: nat, m: Motor)
    requires (j == 16 || j == 22) && MotorRanges(m) && HoldsMotor(row, j, m)
    ensures ReplayMotor(row, j) == LiveMotor(m)
  {
    hide Col, BindInt, BindInt64, ColInt, ColInt64;
    IntRoundTrip(m.rpm);
    IntRoundTrip(m.temperature);
    IntRoundTrip(m.voltage);
    IntRoundTrip(m.current);
    Int64RoundTrip(m.tics);
  }

  lemma BoundMotors(row: Row, s: Sample)
    requires Stores(row, s)
    ensures HoldsMotor(row, 16, s.motor1) && HoldsMotor(row, 22, s.motor2)
  {
    hide Col, SelectColumn, Stores, BindInt, BindInt64, Kept;
    Columns(row, s);
    KeptMotor(s.motor1);
    KeptMotor(s.motor2);
  }

  lemma KeptMotor(m: Motor)
    ensures forall k :: 0 <= k < 6 ==> Kept(BindMotor(m, k)) == BindMotor(m, k)
  {
  }

  lemma MotorsAgree(row: Row, s: Sample)
    requires Stores(row, s) && Ranges(s)
    ensures ReplayMotors(row) + ["}"] == [","] + LiveMotors(Distorted(s))
    ensures Col(row, 16) != Null
  {
    hide Col, Stores, ReplayMotor, LiveMotor;
    BoundMotors(row, s);
    MotorAgrees(row, 16, s.motor1);
    MotorAgrees(row, 22, s.motor2);
  }

  lemma TextFromParts(row: Row, d: Sample, f: Format)
    requires ReplayHead(row, f) == LiveHead(d, f) && ReplayVectors(row, f) + [","] == LiveVectors(d, f)
    requires ReplayMotors(row) + ["}"] == [","] + LiveMotors(d) && (Col(row, 16) != Null || Col(row, 22) != Null)
    ensures Replayed(row, f) == Live(d, f)
  {
    hide Col, ReplayHead, ReplayVectors, ReplayMotors, LiveHead, LiveVectors, LiveMotors;
    var h, v, m := ReplayHead(row, f), ReplayVectors(row, f), ReplayMotors(row);
    ConcatJoin(h + v, m + ["}"]);
    ConcatJoin(m, ["}"]);
    assert Concat(["}"]) == "}";
    assert LivePieces(d, f) == h + (v + [","]) + LiveMotors(d);
    assert (h + v) + (m + ["}"]) == h + (v + [","]) + LiveMotors(d);
    assert Concat(h + v) + Concat(m) + "}" == Concat(h + v) + (Concat(m) + "}");
  }

  /** Replay agrees with live, byte for byte, on every sample: what is replayed is the live text of the sample in
      which sequence number, tilt status and message timestamp have lost 2^32, 2^32 and 2^64 when they are too large
      for a signed column, and in which a NaN or a minus zero has become zero. */
  lemma ReplayIsLive(row: Row, s: Sample, f: Format)
    requires Stores(row, s) && Ranges(s)
    ensures Replayed(row, f) == Live(Distorted(s), f)
  {
    hide Col, Stores, ReplayHead, ReplayVectors, ReplayMotors, LiveHead, LiveVectors, LiveMotors;
    hide Ranges, Replayed, Live;
    HeadAgrees(row, s, f);
    VectorsAgree(row, s, f);
    MotorsAgree(row, s);
    TextFromParts(row, Distorted(s), f);
  }

  // -------- rows from before the motor columns --------

  /** The row as stored, but for motors whose columns are NULL. */
  ghost predicate WithoutMotors(row: Row, stored: Row, first: bool, second: bool) {
    && (forall c: Column :: !c.Motor1? && !c.Motor2? ==> row(c) == stored(c))
    && (forall m :: row(Motor1(m)) == if first then Null else stored(Motor1(m)))
    && (forall m :: row(Motor2(m)) == if second then Null else stored(Motor2(m)))
  }

  lemma ColumnsUnchanged(row: Row, stored: Row, first: bool, second: bool)
    requires WithoutMotors(row, stored, first, second)
    ensures forall j :: 0 <= j < 16 ==> Col(row, j) == Col(stored, j)
    ensures forall j :: 16 <= j < 22 ==> Col(row, j) == if first then Null else Col(stored, j)
    ensures forall j :: 22 <= j < 28 ==> Col(row, j) == if second then Null else Col(stored, j)
  {
  }

  lemma FrontUnchanged(row: Row, stored: Row, f: Format)
    requires forall j :: 0 <= j < 16 ==> Col(row, j) == Col(stored, j)
    ensures ReplayHead(row, f) == ReplayHead(stored, f) && ReplayVectors(row, f) == ReplayVectors(stored, f)
  {
    hide ColInt64, ColInt, ColDouble, ColText, Integer, Col;
  }

  lemma TextWithoutMotors(row: Row, f: Format)
    requires Col(row, 16) == Null && Col(row, 22) == Null
    ensures Replayed(row, f) == Concat(ReplayHead(row, f) + ReplayVectors(row, f)) + "}"
  {
    hide Col, ReplayHead, ReplayVectors, ReplayMotors;
    var front := Concat(ReplayHead(row, f) + ReplayVectors(row, f));
    assert front + "" == front;
  }

  /** A row without either motor is replayed without the motors: the rest of the live text, and a closing brace. */
  lemma MotorlessRow(row: Row, stored: Row, s: Sample, f: Format)
    requires Stores(stored, s) && Ranges(s) && WithoutMotors(row, stored, true, true)
    ensures var v := LiveVectors(Distorted(s), f);
            v != [] && Replayed(row, f) == Concat(LiveHead(Distorted(s), f) + v[..|v| - 1]) + "}"
  {
    hide Col, Stores, WithoutMotors, ReplayHead, ReplayVectors, LiveHead, LiveVectors, Ranges, Distorted, Replayed;
    ColumnsUnchanged(row, stored, true, true);
    FrontUnchanged(row, stored, f);
    TextWithoutMotors(row, f);
    HeadAgrees(stored, s, f);
    VectorsAgree(stored, s, f);
    var v := LiveVectors(Distorted(s), f);
    assert v == ReplayVectors(row, f) + [","];
    assert v[..|v| - 1] == ReplayVectors(row, f);
  }

  const NO_MOTOR := Motor("", 0, 0, 0, 0, 0)

  lemma NullMotor(row: Row, j: nat)
    requires (j == 16 || j == 22) && forall k :: j <= k < j + 6 ==> Col(row, k) == Null
    ensures ReplayMotor(row, j) == LiveMotor(NO_MOTOR)
  {
    hide Col, Integer;
  }

  lemma SameMotor(row: Row, stored: Row, j: nat)
    requires (j == 16 || j == 22) && forall k :: j <= k < j + 6 ==> Col(row, k) == Col(stored, k)
    ensures ReplayMotor(row, j) == ReplayMotor(stored, j)
  {
    hide Col, Integer;
  }

  function WithNoMotor(s: Sample, first: bool): Sample {
    if first then s.(motor1 := NO_MOTOR) else s.(motor2 := NO_MOTOR)
  }

  /** One motor is enough for both to be printed; the other one is then printed without a name and with zeros. */
  lemma RowWithOneMotor(row: Row, stored: Row, s: Sample, first: bool, f: Format)
    requires Stores(stored, s) && Ranges(s) && WithoutMotors(row, stored, first, !first)
    ensures Replayed(row, f) == Live(Distorted(WithNoMotor(s, first)), f)
  {
    hide Col, Stores, WithoutMotors, ReplayHead, ReplayVectors, LiveHead, LiveVectors, Ranges, Replayed, Live;
    hide ReplayMotors, LiveMotors, Distorted, WithNoMotor;
    ColumnsUnchanged(row, stored, first, !first);
    FrontUnchanged(row, stored, f);
    HeadAgrees(stored, s, f);
    VectorsAgree(stored, s, f);
    SameFront(s, first, f);
    OneMotor(row, stored, s, first);
    StoredNames(stored, s);
    TextFromParts(row, Distorted(WithNoMotor(s, first)), f);
  }

  lemma OneMotor(row: Row, stored: Row, s: Sample, first: bool)
    requires Stores(stored, s) && Ranges(s)
    requires forall j :: 16 <= j < 22 ==> Col(row, j) == if first then Null else Col(stored, j)
    requires forall j :: 22 <= j < 28 ==> Col(row, j) == if first then Col(stored, j) else Null
    ensures ReplayMotors(row) + ["}"] == [","] + LiveMotors(Distorted(WithNoMotor(s, first)))
  {
    hide Col, Stores, ReplayMotor, LiveMotor, HoldsMotor, MotorRanges;
    BoundMotors(stored, s);
    MotorsInRange(s);
    if first {
      MotorAgrees(stored, 22, s.motor2);
      NullMotor(row, 16);
      SameMotor(row, stored, 22);
    } else {
      MotorAgrees(stored, 16, s.motor1);
      SameMotor(row, stored, 16);
      NullMotor(row, 22);
    }
  }

  lemma SameFront(s: Sample, first: bool, f: Format)
    ensures LiveHead(Distorted(WithNoMotor(s, first)), f) == LiveHead(Distorted(s), f)
    ensures LiveVectors(Distorted(WithNoMotor(s, first)), f) == LiveVectors(Distorted(s), f)
  {
    hide Integer;
  }

  lemma MotorsInRange(s: Sample)
    requires Ranges(s)
    ensures MotorRanges(s.motor1) && MotorRanges(s.motor2)
  {
    hide MotorRanges;
  }

  lemma StoredNames(stored: Row, s: Sample)
    requires Stores(stored, s)
    ensures Col(stored, 16) == Text(s.motor1.id) && Col(stored, 22) == Text(s.motor2.id)
  {
    hide Col, Stores;
    BoundMotors(stored, s);
  }

  // -------- exactly when nothing is lost --------

  predicate Storable(d: Double) { !d.NaN? && d != MINUS_ZERO }

  predicate AllStorable(v: Vec) { Storable(v.x) && Storable(v.y) && Storable(v.z) }

  predicate Faithful(s: Sample) {
    && s.seqNo < TWO_31 && s.tiltStatus < TWO_31 && s.msgTimestamp < TWO_63
    && AllStorable(s.acc) && AllStorable(s.gyro) && AllStorable(s.tilt)
  }

  /** printf writes a NaN and a minus zero differently from zero, from the first character on. */
  predicate TellsFromZero(f: Format) {
    && f.double(NaN) != [] && f.double(MINUS_ZERO) != [] && f.double(ZERO) != []
    && f.double(NaN)[0] != f.double(ZERO)[0] && f.double(MINUS_ZERO)[0] != f.double(ZERO)[0]
  }

  lemma {:induction false} ComparableJoin(ps: seq<string>, qs: seq<string>, ps': seq<string>, qs': seq<string>)
    requires Comparable(ps, qs) && Comparable(ps', qs')
    ensures Comparable(ps + ps', qs + qs')
    ensures ps + ps' == qs + qs' <==> ps == qs && ps' == qs'
  {
    if ps + ps' == qs + qs' {
      assert ps == (ps + ps')[..|ps|] == (qs + qs')[..|ps|] == qs;
      assert ps' == (ps + ps')[|ps|..] == (qs + qs')[|ps|..] == qs';
    }
  }

  lemma HeadComparable(s: Sample, f: Format)
    requires Ranges(s)
    ensures var d := Distorted(s); Comparable(LiveHead(s, f), LiveHead(d, f))
    ensures LiveHead(s, f) == LiveHead(Distorted(s), f)
       <==> s.seqNo < TWO_31 && s.tiltStatus < TWO_31 && s.msgTimestamp < TWO_63
  {
    hide Integer;
    var d := Distorted(s);
    var p, q := LiveHead(s, f), LiveHead(d, f);
    IntegersDiffer(s.seqNo, d.seqNo);
    IntegersDiffer(s.tiltStatus, d.tiltStatus);
    IntegersDiffer(s.msgTimestamp, d.msgTimestamp);
    assert p[5] == Integer(s.seqNo) && q[5] == Integer(d.seqNo);
    assert p[7] == Integer(s.msgTimestamp) && q[7] == Integer(d.msgTimestamp);
    assert p[16] == Integer(s.tiltStatus) && q[16] == Integer(d.tiltStatus);
  }

  lemma IntegersDiffer(m: int, n: int)
    requires 0 <= m
    ensures Integer(m) != [] && Integer(n) != []
    ensures n < 0 ==> Integer(m)[0] != Integer(n)[0]
  {
  }

  lemma VecComparable(open: string, v: Vec, f: Format)
    requires TellsFromZero(f)
    ensures Comparable(LiveVec(open, v, f) + [","], LiveVec(open, StoredVec(v), f) + [","])
    ensures LiveVec(open, v, f) + [","] == LiveVec(open, StoredVec(v), f) + [","] <==> AllStorable(v)
  {
    var p := LiveVec(open, v, f) + [","];
    assert p[1] == f.double(v.x) && p[3] == f.double(v.y) && p[5] == f.double(v.z);
  }

  lemma VectorsComparable(s: Sample, f: Format)
    requires TellsFromZero(f)
    ensures Comparable(LiveVectors(s, f), LiveVectors(Distorted(s), f))
    ensures LiveVectors(s, f) == LiveVectors(Distorted(s), f)
       <==> AllStorable(s.acc) && AllStorable(s.gyro) && AllStorable(s.tilt)
  {
    hide LiveVec, StoredVec, AllStorable, TellsFromZero, Comparable;
    var d := Distorted(s);
    var a, b, c := "\"accel\":{\"x\":", "\"gyro\":{\"x\":", "\"tilt\":{\"x\":";
    VecComparable(a, s.acc, f);
    VecComparable(b, s.gyro, f);
    VecComparable(c, s.tilt, f);
    var p, q := LiveVec(a, s.acc, f) + [","], LiveVec(a, d.acc, f) + [","];
    var p', q' := LiveVec(b, s.gyro, f) + [","], LiveVec(b, d.gyro, f) + [","];
    var p'', q'' := LiveVec(c, s.tilt, f) + [","], LiveVec(c, d.tilt, f) + [","];
    ComparableJoin(p, q, p', q');
    ComparableJoin(p + p', q + q', p'', q'');
    assert LiveVectors(s, f) == p + p' + p'' && LiveVectors(d, f) == q + q' + q'';
  }

  /** The replayed text is the live text if and only if the sequence number and the tilt status are below 2^31, the
      message timestamp is below 2^63 and no vector holds a NaN or a minus zero. */
  lemma ReplayAgreesExactlyWhen(row: Row, s: Sample, f: Format)
    requires Stores(row, s) && Ranges(s) && TellsFromZero(f)
    ensures Replayed(row, f) == Live(s, f) <==> Faithful(s)
  {
    hide Stores, Replayed, LiveHead, LiveVectors, LiveMotors, Ranges, TellsFromZero, Comparable;
    var d := Distorted(s);
    ReplayIsLive(row, s, f);
    HeadComparable(s, f);
    VectorsComparable(s, f);
    MotorsUnchanged(s);
    ComparableJoin(LiveHead(s, f), LiveHead(d, f), LiveVectors(s, f), LiveVectors(d, f));
    ComparableJoin(LiveHead(s, f) + LiveVectors(s, f), LiveHead(d, f) + LiveVectors(d, f),
                   LiveMotors(s), LiveMotors(d));
    SameText(LivePieces(s, f), LivePieces(d, f));
  }

  lemma MotorsUnchanged(s: Sample)
    ensures LiveMotors(s) == LiveMotors(Distorted(s)) && Comparable(LiveMotors(s), LiveMotors(Distorted(s)))
  {
    hide LiveMotor;
  }

  /** Two samples that are replayed differently: one with the first sequence number that is too large, and one that is
      at rest but for the sign of a zero. */
  lemma ReplayDiffers(f: Format, receivedAt: int) returns (wrapped: Sample, signed: Sample)
    requires TellsFromZero(f) && -TWO_63 <= receivedAt < TWO_63
    ensures Ranges(wrapped) && NamesFit(wrapped) && wrapped == AtRest(receivedAt).(seqNo := 0x8000_0000)
    ensures Ranges(signed) && NamesFit(signed) && signed == AtRest(receivedAt).(acc := Vec(MINUS_ZERO, ZERO, ZERO))
    ensures forall row: Row :: Stores(row, wrapped) ==> Replayed(row, f) != Live(wrapped, f)
    ensures forall row: Row :: Stores(row, signed) ==> Replayed(row, f) != Live(signed, f)
  {
    hide Stores, Replayed, Live, TellsFromZero;
    wrapped := AtRest(receivedAt).(seqNo := TWO_31);
    signed := AtRest(receivedAt).(acc := Vec(MINUS_ZERO, ZERO, ZERO));
    forall row: Row | Stores(row, wrapped) ensures Replayed(row, f) != Live(wrapped, f) {
      ReplayAgreesExactlyWhen(row, wrapped, f);
    }
    forall row: Row | Stores(row, signed) ensures Replayed(row, f) != Live(signed, f) {
      ReplayAgreesExactlyWhen(row, signed, f);
    }
  }
}
