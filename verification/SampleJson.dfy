/** The two printers of a telemetry sample: the live one of the gateway and the replay one of the database reader. */
module SampleJson {
  import opened Basics

  // -------- samples --------

  /** A double as far as the printers see it: not a number, or one given by its bits. */
  datatype Double = NaN | Number(bits: nat)

  const ZERO := Number(0)
  const MINUS_ZERO := Number(0x8000_0000_0000_0000)

  datatype Vec = Vec(x: Double, y: Double, z: Double)

  datatype Motor = Motor(id: string, tics: int, rpm: int, temperature: int, voltage: int, current: int)

  /** telemetry_state_t. The integer fields are those of the C struct when Ranges holds. */
  datatype Sample = Sample(
    receivedAt: int, msgTimestamp: int, seqNo: int, robot: string, imu: string, tiltId: string,
    acc: Vec, gyro: Vec, tilt: Vec, tiltStatus: int, motor1: Motor, motor2: Motor,
    topic: Option<string>, raw: seq<byte>)

  const TWO_31 := 0x8000_0000
  const TWO_32 := 0x1_0000_0000
  const TWO_63 := 0x8000_0000_0000_0000
  const TWO_64 := 0x1_0000_0000_0000_0000

  predicate Int32(n: int) { -TWO_31 <= n < TWO_31 }

  predicate MotorRanges(m: Motor) {
    0 <= m.tics < TWO_32 && Int32(m.rpm) && Int32(m.temperature) && Int32(m.voltage) && Int32(m.current)
  }

  predicate Ranges(s: Sample) {
    && -TWO_63 <= s.receivedAt < TWO_63
    && 0 <= s.msgTimestamp < TWO_64
    && 0 <= s.seqNo < TWO_32
    && 0 <= s.tiltStatus < TWO_32
    && MotorRanges(s.motor1)
    && MotorRanges(s.motor2)
  }

  const TOPIC := "/robot/v1/" + "telemetry/state"

  /** What on_message makes of an empty payload received at the given time: every field is absent, and the names are the
      ones it falls back to. */
  function AtRest(receivedAt: int): Sample {
    var v := Vec(ZERO, ZERO, ZERO);
    Sample(receivedAt, 0, 0, "robot", "imu0", "tilt0", v, v, v, 0,
           Motor("motor1", 0, 0, 0, 0, 0), Motor("motor2", 0, 0, 0, 0, 0), Some(TOPIC), [])
  }

  /** Names fit into the arrays of the C struct, with their NUL. */
  predicate NamesFit(s: Sample) {
    |s.robot| < 64 && |s.imu| < 32 && |s.tiltId| < 32 && |s.motor1.id| < 32 && |s.motor2.id| < 32
  }

  // -------- formatting --------

  function Digit(n: nat): char
    requires n < 10
  {
    '0' + n as char
  }

  function Decimal(n: nat): (r: string)
    ensures r != [] && '0' <= r[0] <= '9'
  {
    if n < 10 then [Digit(n)] else Decimal(n / 10) + [Digit(n % 10)]
  }

  /** %d, %u, %lld and %llu of a value in the range of its type. */
  function Integer(n: int): (r: string)
    ensures r != [] && (r[0] == '-' <==> n < 0)
  {
    if n < 0 then "-" + Decimal(-n) else Decimal(n)
  }

  /** %.6f, of a double and of a reception time in nanoseconds divided by 1e9; not interpreted here. */
  datatype Format = Format(double: Double -> string, seconds: int -> string)

  /** A printed text is the concatenation of the literal parts of its format and of its printed arguments. */
  function Concat(pieces: seq<string>): string {
    if pieces == [] then "" else pieces[0] + Concat(pieces[1..])
  }

  lemma {:induction false} ConcatJoin(ps: seq<string>, qs: seq<string>)
    ensures Concat(ps + qs) == Concat(ps) + Concat(qs)
  {
    if ps == [] {
      assert ps + qs == qs;
    } else {
      assert (ps + qs)[1..] == ps[1..] + qs;
      ConcatJoin(ps[1..], qs);
    }
  }

  /** Two piece lists whose corresponding pieces are equal or start differently. */
  predicate Comparable(ps: seq<string>, qs: seq<string>) {
    |ps| == |qs| && forall i :: 0 <= i < |ps| ==> ps[i] == qs[i] || (ps[i] != [] && qs[i] != [] && ps[i][0] != qs[i][0])
  }

  /** Such lists give the same text exactly when they are the same list. */
  lemma {:induction false} SameText(ps: seq<string>, qs: seq<string>)
    requires Comparable(ps, qs)
    ensures Concat(ps) == Concat(qs) <==> ps == qs
  {
    if ps != [] {
      SameText(ps[1..], qs[1..]);
      assert ps == [ps[0]] + ps[1..] && qs == [qs[0]] + qs[1..];
      if ps[0] == qs[0] {
        assert Concat(ps)[|ps[0]|..] == Concat(ps[1..]) && Concat(qs)[|qs[0]|..] == Concat(qs[1..]);
      } else {
        assert Concat(ps)[0] == ps[0][0] && Concat(qs)[0] == qs[0][0];
      }
    }
  }

  // -------- the live printer, telemetry_state_to_json_alloc --------

  function LiveHead(s: Sample, f: Format): seq<string> {
    ["{\"type\":\"telemetry\",\"t\":", f.seconds(s.receivedAt), ",\"t_ns\":", Integer(s.receivedAt),
     ",\"seq\":", Integer(s.seqNo), ",\"msg_ts_ns\":", Integer(s.msgTimestamp), ","]
    + ["\"robot_id\":\"", s.robot, "\",\"imu_id\":\"", s.imu, "\",\"tilt_id\":\"", s.tiltId,
       "\",\"tilt_status\":", Integer(s.tiltStatus), ","]
  }

  function LiveVec(open: string, v: Vec, f: Format): seq<string> {
    [open, f.double(v.x), ",\"y\":", f.double(v.y), ",\"z\":", f.double(v.z), "}"]
  }

  function LiveVectors(s: Sample, f: Format): seq<string> {
    LiveVec("\"accel\":{\"x\":", s.acc, f) + [","] + LiveVec("\"gyro\":{\"x\":", s.gyro, f) + [","]
    + LiveVec("\"tilt\":{\"x\":", s.tilt, f) + [","]
  }

  function LiveMotor(m: Motor): seq<string> {
    [":{\"id\":\"", m.id, "\",\"tics\":", Integer(m.tics), ",\"rpm\":", Integer(m.rpm),
     ",\"temperature_c\":", Integer(m.temperature), ",\"voltage_power_stage_mv\":", Integer(m.voltage)]
    + [",\"current_power_stage_ma\":", Integer(m.current), "}"]
  }

  function LiveMotors(s: Sample): seq<string> {
    ["\"motors\":{", "\"motor1\""] + LiveMotor(s.motor1) + [",", "\"motor2\""] + LiveMotor(s.motor2) + ["}", "}"]
  }

  function LivePieces(s: Sample, f: Format): seq<string> {
    LiveHead(s, f) + LiveVectors(s, f) + LiveMotors(s)
  }

  function Live(s: Sample, f: Format): string { Concat(LivePieces(s, f)) }
}
