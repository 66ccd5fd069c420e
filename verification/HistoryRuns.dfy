/** A run of the history reader that returns 0 with a malformed text, on rows as the gateway stores them. */
module HistoryRuns {
  import opened Basics
  import opened SampleJson
  import opened Replay
  import opened StringBuffer
  import opened History

  // -------- three ordinary rows and one refused request --------

  function FirstPart(row: Row, f: Format): string { Concat(ReplayHead(row, f) + ReplayVectors(row, f)) }

  function MotorsPart(row: Row): string { Concat(ReplayMotors(row)) }

  /** The two formatted parts are short enough for the buffer on the stack, the whole for the first heap buffer, and two
      such rows are too long for it. */
  predicate Ordinary(row: Row, f: Format) {
    && HasMotors(row) && |FirstPart(row, f)| < 512 && |MotorsPart(row)| < 512
    && 500 <= |Replayed(row, f)| <= 900
  }

  lemma ReplayedLength(row: Row, f: Format)
    requires HasMotors(row)
    ensures |Replayed(row, f)| == |FirstPart(row, f)| + |MotorsPart(row)| + 1
  {
    hide Replayed, HasMotors, Concat, ReplayHead, ReplayVectors, ReplayMotors;
    ReplayedParts(row, f);
  }

  /** Printing an ordinary row takes one request, for its first buffer of 1024. */
  lemma OrdinaryRow(h: Heap, row: Row, f: Format)
    requires h.Grants() && Ordinary(row, f)
    ensures RowTo(h, row, f).ok && RowTo(h, row, f).buf.heap == h.After()
  {
    hide Replayed, HasMotors, Concat, ReplayHead, ReplayVectors, ReplayMotors;
    ReplayedLength(row, f);
  }

  lemma OneRow(h: Heap, row: Row, rest: seq<Row>, f: Format)
    requires h.Grants() && Ordinary(row, f)
    ensures RowsTo(h, [row] + rest, f)
         == Printed([Replayed(row, f)] + RowsTo(h.After(), rest, f).rows, RowsTo(h.After(), rest, f).heap)
  {
    hide RowTo, RowsTo, Replayed, Ordinary;
    OrdinaryRow(h, row, f);
    RowsNext(h, [row] + rest, f);
    RowFacts(h, row, f);
    assert ([row] + rest)[1..] == rest;
  }

  /** The allocator grants five requests and refuses the sixth: the opening, the array of rows and the three rows take
      five, and the sixth is made for the middle row while the printed rows are put together. */
  const SIXTH_REFUSED := [true, true, true, true, true, false]

  lemma ThreeRows(newest: Row, middle: Row, oldest: Row, f: Format)
    requires Ordinary(newest, f) && Ordinary(middle, f) && Ordinary(oldest, f)
    ensures RowsTo(Heap([true, true, true, false], 0), [newest] + ([middle] + ([oldest] + [])), f)
         == Printed([Replayed(newest, f)] + ([Replayed(middle, f)] + ([Replayed(oldest, f)] + [])), Heap([false], 0))
  {
    hide RowsTo, Replayed, Ordinary;
    var h0, h1, h2, h3 := Heap([true, true, true, false], 0), Heap([true, true, false], 0),
                          Heap([true, false], 0), Heap([false], 0);
    assert h0.After() == h1 && h1.After() == h2 && h2.After() == h3;
    NoRows(h3, f);
    OneRow(h2, oldest, [], f);
    OneRow(h1, middle, [oldest] + [], f);
    OneRow(h0, newest, [middle] + ([oldest] + []), f);
  }

  lemma Start(answer: seq<Row>, f: Format)
    ensures var start := AppendTo(Buf("", 0, Heap(SIXTH_REFUSED, 0)), OPENING);
            && start.ok && start.buf.heap.Grants() && start.buf.cap == 1024 && start.buf.text == OPENING
            && PrintedRows(Heap(SIXTH_REFUSED, 0), answer, f) == RowsTo(Heap([true, true, true, false], 0), answer, f)
  {
    hide RowsTo;
    assert Heap(SIXTH_REFUSED, 0).After().After() == Heap([true, true, true, false], 0);
    assert |OPENING| < 100;
  }

  lemma GrownOnce(need: nat)
    requires 1024 < need <= 2048
    ensures Grown(1024, need) == 2048
  {
    assert Grown(2048, need) == 2048;
  }

  /** The oldest row fits behind the opening; the middle one does not and is refused; the newest gets a larger
      buffer. */
  lemma DrainThree(b: Buf, rows: seq<string>)
    requires |rows| == 3 && b.cap == 1024 && b.heap == Heap([false], 0) && 27 <= |b.text| < 100
    requires 500 <= |rows[0]| <= 900 && 500 <= |rows[1]| <= 900 && 500 <= |rows[2]| <= 900
    ensures var d := DrainTo(b, rows, 3);
            d.text == b.text + rows[2] + "," + "," + rows[0] && d.cap == 2048 && d.heap == Heap([], 1)
  {
    var b1 := AppendTo(b, rows[2]).buf;
    var b2 := AppendTo(b1, ",").buf;
    var b3 := AppendTo(b2, rows[1]).buf;
    var b4 := AppendTo(b3, ",").buf;
    var b5 := AppendTo(b4, rows[0]).buf;
    assert b3 == b2.(heap := Heap([], 1));
    GrownOnce(|b4.text| + |rows[0]| + 1);
    assert b5.cap == 2048;
    hide AppendTo;
    assert DrainTo(b, rows, 3) == DrainTo(b2, rows, 2);
    assert DrainTo(b2, rows, 2) == DrainTo(b4, rows, 1);
    assert DrainTo(b4, rows, 1) == DrainTo(b5, rows, 0) == b5;
  }

  lemma LastAppend(b: Buf)
    ensures |b.text| + 2 < b.cap ==> AppendTo(b, "]}") == Result(true, b.(text := b.text + "]}"))
  {
  }

  lemma OpeningLength()
    ensures 27 <= |OPENING| < 100
  {
  }

  /** For any three ordinary rows the source then returns 0 with a list that has nothing between two commas. */
  lemma RefusedInTheMiddle(newest: Row, middle: Row, oldest: Row, f: Format)
    requires Ordinary(newest, f) && Ordinary(middle, f) && Ordinary(oldest, f)
    ensures var o := HistoryTo(Heap(SIXTH_REFUSED, 0), [newest, middle, oldest], f);
            o.ok && o.json == OPENING + Replayed(oldest, f) + "," + "," + Replayed(newest, f) + "]}"
  {
    hide Replayed, HasMotors, FirstPart, MotorsPart, RowsTo, DrainTo, PrintedRows, AppendTo;
    var answer := [newest, middle, oldest];
    ThreeRows(newest, middle, oldest, f);
    assert answer == [newest] + ([middle] + ([oldest] + []));
    Start(answer, f);
    OpeningLength();
    var rows := PrintedRows(Heap(SIXTH_REFUSED, 0), answer, f).rows;
    var start := AppendTo(Buf("", 0, Heap(SIXTH_REFUSED, 0)), OPENING).buf.(heap := Heap([false], 0));
    DrainThree(start, rows);
    LastAppend(DrainTo(start, rows, 3));
  }

  lemma ShorterThanWhole(answer: seq<Row>, f: Format)
    requires |answer| == 3
    ensures HistoryText(answer, f)
         != OPENING + Replayed(answer[2], f) + "," + "," + Replayed(answer[0], f) + "]}"
  {
    hide Replayed, HistoryText;
    var texts := Texts(answer, f);
    TextByDraining(answer, 3, f);
    assert answer[..3] == answer;
    ReplayedIsSomething(answer[1], f);
    DrainedThree(texts);
  }

  lemma DrainedThree(rows: seq<string>)
    requires |rows| == 3
    ensures |Drained(rows, 3)| == |rows[0]| + |rows[1]| + |rows[2]| + 2
  {
    assert Drained(rows, 1) == rows[0] + "" + "";
    assert Drained(rows, 2) == rows[1] + "," + Drained(rows, 1);
  }

  // -------- how long the text of a sample at rest is --------

  lemma OnePiece(a: string, ps: seq<string>)
    ensures Concat([a] + ps) == a + Concat(ps)
  {
    assert ([a] + ps)[1..] == ps;
  }

  lemma ThreePieces(a: string, b: string, c: string, ps: seq<string>)
    ensures |Concat([a, b, c] + ps)| == |a| + |b| + |c| + |Concat(ps)|
  {
    hide Concat;
    OnePiece(c, ps);
    OnePiece(b, [c] + ps);
    OnePiece(a, [b] + ([c] + ps));
    assert [a, b, c] + ps == [a] + ([b] + ([c] + ps));
  }

  lemma NoPieces()
    ensures Concat([]) == ""
  {
  }

  lemma NinePieces(ps: seq<string>)
    requires |ps| == 9
    ensures |Concat(ps)| == |ps[0]| + |ps[1]| + |ps[2]| + |ps[3]| + |ps[4]| + |ps[5]| + |ps[6]| + |ps[7]| + |ps[8]|
  {
    hide Concat;
    NoPieces();
    ThreePieces(ps[6], ps[7], ps[8], []);
    ThreePieces(ps[3], ps[4], ps[5], [ps[6], ps[7], ps[8]] + []);
    ThreePieces(ps[0], ps[1], ps[2], [ps[3], ps[4], ps[5]] + ([ps[6], ps[7], ps[8]] + []));
    assert ps == [ps[0], ps[1], ps[2]] + ([ps[3], ps[4], ps[5]] + ([ps[6], ps[7], ps[8]] + []));
  }

  lemma SevenPieces(ps: seq<string>)
    requires |ps| == 7
    ensures |Concat(ps)| == |ps[0]| + |ps[1]| + |ps[2]| + |ps[3]| + |ps[4]| + |ps[5]| + |ps[6]|
  {
    hide Concat;
    NoPieces();
    OnePiece(ps[6], []);
    ThreePieces(ps[3], ps[4], ps[5], [ps[6]] + []);
    ThreePieces(ps[0], ps[1], ps[2], [ps[3], ps[4], ps[5]] + ([ps[6]] + []));
    assert ps == [ps[0], ps[1], ps[2]] + ([ps[3], ps[4], ps[5]] + ([ps[6]] + []));
  }

  lemma ThirteenPieces(ps: seq<string>)
    requires |ps| == 13
    ensures |Concat(ps)| == |ps[0]| + |ps[1]| + |ps[2]| + |ps[3]| + |ps[4]| + |ps[5]| + |ps[6]| + |ps[7]| + |ps[8]|
                          + |ps[9]| + |ps[10]| + |ps[11]| + |ps[12]|
  {
    hide Concat;
    NoPieces();
    OnePiece(ps[12], []);
    ThreePieces(ps[9], ps[10], ps[11], [ps[12]] + []);
    var last := [ps[9], ps[10], ps[11]] + ([ps[12]] + []);
    NinePieces(ps[..9]);
    ConcatJoin(ps[..9], last);
    assert ps == ps[..9] + last;
  }

  lemma ZeroIsShort()
    ensures Integer(0) == "0"
  {
  }

  lemma HeadAtRest(t: int, f: Format)
    ensures LiveHead(AtRest(t), f)
         == ["{\"type\":\"telemetry\",\"t\":", f.seconds(t), ",\"t_ns\":", Integer(t),
             ",\"seq\":", "0", ",\"msg_ts_ns\":", "0", ","]
          + ["\"robot_id\":\"", "robot", "\",\"imu_id\":\"", "imu0", "\",\"tilt_id\":\"", "tilt0",
             "\",\"tilt_status\":", "0", ","]
  {
    ZeroIsShort();
    hide Integer;
  }

  lemma HeadLength(t: int, f: Format)
    ensures |Concat(LiveHead(AtRest(t), f))| == 124 + |f.seconds(t)| + |Integer(t)|
  {
    hide Concat, LiveHead, Integer;
    var ps := ["{\"type\":\"telemetry\",\"t\":", f.seconds(t), ",\"t_ns\":", Integer(t),
               ",\"seq\":", "0", ",\"msg_ts_ns\":", "0", ","];
    var qs := ["\"robot_id\":\"", "robot", "\",\"imu_id\":\"", "imu0", "\",\"tilt_id\":\"", "tilt0",
               "\",\"tilt_status\":", "0", ","];
    HeadAtRest(t, f);
    NinePieces(ps);
    NinePieces(qs);
    ConcatJoin(ps, qs);
  }

  lemma VecLength(open: string, v: Vec, f: Format)
    requires v == Vec(ZERO, ZERO, ZERO) && |f.double(ZERO)| == 8
    ensures |Concat(LiveVec(open, v, f) + [","])| == |open| + 36
  {
    hide Concat;
    SevenPieces(LiveVec(open, v, f));
    NoPieces();
    OnePiece(",", []);
    assert [","] + [] == [","];
    ConcatJoin(LiveVec(open, v, f), [","]);
  }

  lemma VectorsLength(t: int, f: Format)
    requires |f.double(ZERO)| == 8
    ensures |Concat(LiveVectors(AtRest(t), f))| == 145
  {
    hide Concat, LiveVec;
    var v := Vec(ZERO, ZERO, ZERO);
    var x, y, z := "\"accel\":{\"x\":", "\"gyro\":{\"x\":", "\"tilt\":{\"x\":";
    VecLength(x, v, f);
    VecLength(y, v, f);
    VecLength(z, v, f);
    var a, b, c := LiveVec(x, v, f) + [","], LiveVec(y, v, f) + [","], LiveVec(z, v, f) + [","];
    ConcatJoin(a, b);
    ConcatJoin(a + b, c);
    assert LiveVectors(AtRest(t), f) == a + b + c;
  }

  lemma MotorLength(id: string)
    ensures |Concat(LiveMotor(Motor(id, 0, 0, 0, 0, 0)))| == 99 + |id|
  {
    hide Concat;
    ZeroIsShort();
    hide Integer;
    ThirteenPieces(LiveMotor(Motor(id, 0, 0, 0, 0, 0)));
  }

  lemma MotorsLength(t: int)
    ensures |Concat(LiveMotors(AtRest(t)))| == 239
  {
    hide Concat, LiveMotor;
    var a, b := LiveMotor(AtRest(t).motor1), LiveMotor(AtRest(t).motor2);
    MotorLength("motor1");
    MotorLength("motor2");
    var p, q, r := ["\"motors\":{", "\"motor1\""], [",", "\"motor2\""], ["}", "}"];
    TwoPieces(p);
    TwoPieces(q);
    TwoPieces(r);
    ConcatJoin(p, a);
    ConcatJoin(p + a, q);
    ConcatJoin(p + a + q, b);
    ConcatJoin(p + a + q + b, r);
    assert LiveMotors(AtRest(t)) == p + a + q + b + r;
  }

  lemma TwoPieces(ps: seq<string>)
    requires |ps| == 2
    ensures |Concat(ps)| == |ps[0]| + |ps[1]|
  {
    hide Concat;
    NoPieces();
    OnePiece(ps[1], []);
    OnePiece(ps[0], [ps[1]] + []);
    assert ps == [ps[0]] + ([ps[1]] + []);
  }

  function Pow10(k: nat): (r: nat)
    ensures r > 0
  {
    if k == 0 then 1 else 10 * Pow10(k - 1)
  }

  lemma {:induction false} DecimalLength(n: nat, k: nat)
    requires 0 < k && n < Pow10(k)
    ensures |Decimal(n)| <= k
  {
    if n >= 10 { DecimalLength(n / 10, k - 1); }
  }

  /** How printf writes a zero and a reception time in seconds; a double holds at most 9223372036.854775. */
  ghost predicate LikePrintf(f: Format) {
    && f.double(ZERO) == "0.000000"
    && forall t :: 0 <= t < TWO_63 ==> |f.seconds(t)| <= 32
  }

  // -------- the run --------

  /** A stored sample at rest is an ordinary row. */
  lemma RestingRow(row: Row, t: int, f: Format)
    requires Stores(row, AtRest(t)) && 0 <= t < TWO_63 && LikePrintf(f)
    ensures Ordinary(row, f)
  {
    hide Stores, Concat, ReplayHead, ReplayVectors, ReplayMotors, LiveHead, LiveVectors, LiveMotors, HasMotors, Integer;
    hide Distorted, Replayed;
    var s := AtRest(t);
    Undistorted(t);
    HeadAgrees(row, s, f);
    VectorsAgree(row, s, f);
    MotorsStored(row, s);
    HeadLength(t, f);
    VectorsLength(t, f);
    MotorsLength(t);
    TimeLength(t);
    Parts(ReplayHead(row, f), ReplayVectors(row, f), LiveVectors(s, f));
    MotorsParts(ReplayMotors(row), LiveMotors(s));
    ReplayedLength(row, f);
  }

  lemma Undistorted(t: int)
    requires 0 <= t < TWO_63
    ensures Distorted(AtRest(t)) == AtRest(t) && Ranges(AtRest(t)) && NamesFit(AtRest(t))
  {
  }

  lemma MotorsStored(row: Row, s: Sample)
    requires Stores(row, s) && Ranges(s)
    ensures ReplayMotors(row) + ["}"] == [","] + LiveMotors(Distorted(s)) && HasMotors(row)
  {
    hide Stores, ReplayMotors, LiveMotors, Col;
    MotorsAgree(row, s);
  }

  lemma TenToThe19()
    ensures Pow10(19) == 10_000_000_000_000_000_000
  {
    assert Pow10(2) == 100;
    assert Pow10(4) == 1_0000;
    assert Pow10(6) == 100_0000;
    assert Pow10(8) == 1_0000_0000;
    assert Pow10(10) == 100_0000_0000;
    assert Pow10(12) == 1_0000_0000_0000;
    assert Pow10(14) == 100_0000_0000_0000;
    assert Pow10(16) == 1_0000_0000_0000_0000;
    assert Pow10(18) == 100_0000_0000_0000_0000;
  }

  lemma TimeLength(t: int)
    requires 0 <= t < TWO_63
    ensures 1 <= |Integer(t)| <= 19
  {
    TenToThe19();
    DecimalLength(t, 19);
  }

  lemma Parts(head: seq<string>, vectors: seq<string>, live: seq<string>)
    requires vectors + [","] == live
    ensures |Concat(head + vectors)| + 1 == |Concat(head)| + |Concat(live)|
  {
    hide Concat;
    ConcatJoin(head, vectors);
    ConcatJoin(vectors, [","]);
    NoPieces();
    OnePiece(",", []);
    assert [","] + [] == [","];
  }

  lemma MotorsParts(motors: seq<string>, live: seq<string>)
    requires motors + ["}"] == [","] + live
    ensures |Concat(motors)| == |Concat(live)|
  {
    hide Concat;
    ConcatJoin(motors, ["}"]);
    OnePiece(",", live);
    NoPieces();
    OnePiece("}", []);
    assert ["}"] + [] == ["}"];
  }

  /** Such a run in full. Three empty messages, received one after the other and stored, are asked for while the
      allocator refuses the sixth request: the source returns 0 with the oldest and the newest row around an empty
      place. */
  lemma MalformedHistory(t: int, f: Format) returns (samples: seq<Sample>, answer: seq<Row>)
    requires 0 <= t && t + 2 < TWO_63 && LikePrintf(f)
    ensures samples == [AtRest(t + 2), AtRest(t + 1), AtRest(t)] && |answer| == 3
    ensures forall i :: 0 <= i < 3 ==> Ranges(samples[i]) && NamesFit(samples[i]) && Stores(answer[i], samples[i])
    ensures StrictlyNewestFirst(answer)
    ensures var o := HistoryTo(Heap(SIXTH_REFUSED, 0), answer, f);
            && o.ok && o.json != HistoryText(answer, f)
            && o.json == OPENING + Replayed(answer[2], f) + "," + "," + Replayed(answer[0], f) + "]}"
  {
    hide Stores, Replayed, HistoryTo, HistoryText, Ordinary, LikePrintf, Ranges, NamesFit, Time;
    var newest := StoredAtRest(t + 2, f);
    var middle := StoredAtRest(t + 1, f);
    var oldest := StoredAtRest(t, f);
    samples, answer := [AtRest(t + 2), AtRest(t + 1), AtRest(t)], [newest, middle, oldest];
    RefusedInTheMiddle(newest, middle, oldest, f);
    ShorterThanWhole(answer, f);
  }

  lemma StoredAtRest(t: int, f: Format) returns (row: Row)
    requires 0 <= t < TWO_63 && LikePrintf(f)
    ensures Stores(row, AtRest(t)) && Ordinary(row, f) && Time(row) == t
    ensures Ranges(AtRest(t)) && NamesFit(AtRest(t))
  {
    hide Stores, Ordinary, LikePrintf, Time;
    row := RowOfSample(AtRest(t));
    RestingRow(row, t, f);
    Undistorted(t);
    StoredTime(row, t);
  }

  lemma StoredTime(row: Row, t: int)
    requires Stores(row, AtRest(t)) && 0 <= t < TWO_63
    ensures Time(row) == t
  {
    hide Stores, Col, ColInt64, BindInt64, Bound, Kept;
    Columns(row, AtRest(t));
    BoundHead(AtRest(t));
    Int64RoundTrip(t);
  }
}
