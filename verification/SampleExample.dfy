/** The text of one sample with different values in its fields. */
module SampleExample {
  import opened Basics
  import opened SampleJson
  import Numerals

  function Example(): Sample {
    var left, right := Motor("left", 5, -6, 7, 8, 9), Motor("right", 12, -12, 0, 1234567890, -1);
    Sample(1, 2, 3, "rover", "imu7", "tilt9", Vec(Number(11), Number(12), Number(13)),
           Vec(Number(21), Number(22), Number(23)), Vec(Number(31), Number(32), Number(33)), 4, left, right, None, [])
  }

  lemma OneDigit(n: nat)
    requires 0 < n < 10
    ensures Integer(n) == [Digit(n)] && Integer(0 - n) == ['-', Digit(n)]
  {
  }

  lemma Digits()
    ensures Digit(0) == '0' && Digit(1) == '1' && Digit(2) == '2' && Digit(3) == '3' && Digit(4) == '4'
    ensures Digit(5) == '5' && Digit(6) == '6' && Digit(7) == '7' && Digit(8) == '8' && Digit(9) == '9'
  {
  }

  lemma Integers()
    ensures Integer(1) == "1" && Integer(2) == "2" && Integer(3) == "3" && Integer(4) == "4" && Integer(5) == "5"
    ensures Integer(-6) == "-6" && Integer(7) == "7" && Integer(8) == "8" && Integer(9) == "9" && Integer(-1) == "-1"
  {
    Digits();
    hide Integer, Digit;
    OneDigit(1);
    OneDigit(2);
    OneDigit(3);
    OneDigit(4);
    OneDigit(5);
    OneDigit(6);
    OneDigit(7);
    OneDigit(8);
    OneDigit(9);
  }

  // The text, part by part.

  function HeadText(f: Format): seq<string> {
    ["{\"type\":\"telemetry\",\"t\":", f.seconds(1), ",\"t_ns\":", "1", ",\"seq\":", "3",
     ",\"msg_ts_ns\":", "2", ","]
    + ["\"robot_id\":\"", "rover", "\",\"imu_id\":\"", "imu7", "\",\"tilt_id\":\"", "tilt9",
     "\",\"tilt_status\":", "4", ","]
  }

  function VectorText(f: Format): seq<string> {
    ["\"accel\":{\"x\":", f.double(Number(11)), ",\"y\":", f.double(Number(12)),
     ",\"z\":", f.double(Number(13)), "}"] + [","]
    + ["\"gyro\":{\"x\":", f.double(Number(21)), ",\"y\":", f.double(Number(22)),
     ",\"z\":", f.double(Number(23)), "}"] + [","]
    + ["\"tilt\":{\"x\":", f.double(Number(31)), ",\"y\":", f.double(Number(32)),
     ",\"z\":", f.double(Number(33)), "}"] + [","]
  }

  function LeftText(): seq<string> {
    [":{\"id\":\"", "left", "\",\"tics\":", "5", ",\"rpm\":", "-6", ",\"temperature_c\":", "7",
     ",\"voltage_power_stage_mv\":", "8"] + [",\"current_power_stage_ma\":", "9", "}"]
  }

  function RightText(): seq<string> {
    [":{\"id\":\"", "right", "\",\"tics\":", "12", ",\"rpm\":", "-12", ",\"temperature_c\":", "0",
     ",\"voltage_power_stage_mv\":", "1234567890"] + [",\"current_power_stage_ma\":", "-1", "}"]
  }

  function MotorText(): seq<string> {
    ["\"motors\":{", "\"motor1\""] + LeftText() + [",", "\"motor2\""] + RightText() + ["}", "}"]
  }

  /** The live text of the example. */
  lemma ExampleText(f: Format)
    ensures Live(Example(), f) == Concat(HeadText(f) + VectorText(f) + MotorText())
  {
    hide LiveHead, HeadText, LiveMotors, MotorText, Concat;
    ExampleHead(f);
    ExampleMotors();
  }

  lemma ExampleHead(f: Format)
    ensures LiveHead(Example(), f) == HeadText(f)
  {
    Integers();
    hide Integer;
  }

  lemma ExampleMotors()
    ensures LiveMotors(Example()) == MotorText()
  {
    ExampleMotor();
    hide LiveMotor, LeftText, RightText;
  }

  lemma ExampleMotor()
    ensures LiveMotor(Example().motor1) == LeftText() && LiveMotor(Example().motor2) == RightText()
  {
    Integers();
    Numerals.Numbers();
    hide Integer;
  }
}
