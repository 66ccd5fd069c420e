/** The shared telemetry cache: any number of threads update and read it under one mutex, one cell at a time. */
module Cache {
  import opened Basics

  /** The cells in the order in which the getter copies them: acceleration, gyro and tilt by axis, the tilt status,
      and for the two motors tics, rpm, temperature, voltage and current. A value is a 32-bit pattern. */
  const CELLS := 20

  datatype Update =
    | Imu(ax: int, ay: int, az: int, gx: int, gy: int, gz: int)
    | Tilt(x: int, y: int, z: int, status: int)
    | Motor(index: int, tics: int, rpm: int, temperature: int, voltage: int, current: int)

  /** A motor update with any other index returns before it takes the mutex. */
  predicate Accepted(u: Update) { u.Motor? ==> u.index == 1 || u.index == 2 }

  datatype Store = Store(cell: nat, value: int)

  /** The stores of an update in program order. */
  function Stores(u: Update): (r: seq<Store>)
    requires Accepted(u)
    ensures 0 < |r| && forall i :: 0 <= i < |r| ==> r[i].cell < CELLS
  {
    match u
    case Imu(ax, ay, az, gx, gy, gz) =>
      [Store(0, ax), Store(1, ay), Store(2, az), Store(3, gx), Store(4, gy), Store(5, gz)]
    case Tilt(x, y, z, status) => [Store(6, x), Store(7, y), Store(8, z), Store(9, status)]
    case Motor(index, tics, rpm, temperature, voltage, current) =>
      var m := index - 1;
      [Store(10 + m, tics), Store(12 + m, rpm), Store(14 + m, temperature), Store(16 + m, voltage),
       Store(18 + m, current)]
  }

  const ZERO_CELLS: seq<int> := [0, 0, 0, 0, 0, 0, 0, 0, 0, 0] + [0, 0, 0, 0, 0, 0, 0, 0, 0, 0]

  type Cells = c: seq<int> | |c| == CELLS witness ZERO_CELLS

  type AnUpdate = u: Update | Accepted(u) witness Imu(0, 0, 0, 0, 0, 0)

  /** The cells after the first k stores of an update. */
  function Partly(c: Cells, u: AnUpdate, k: nat): Cells
    requires k <= |Stores(u)|
  {
    if k == 0 then c else Partly(c, u, k - 1)[Stores(u)[k - 1].cell := Stores(u)[k - 1].value]
  }

  function Apply(c: Cells, u: AnUpdate): Cells { Partly(c, u, |Stores(u)|) }

  const ZEROS: Cells := ZERO_CELLS

  /** The cells after a history of whole updates. */
  function Fold(history: seq<AnUpdate>): Cells {
    if history == [] then ZEROS else Apply(Fold(history[..|history| - 1]), history[|history| - 1])
  }

  // -------- threads --------

  datatype Pc =
    | Idle
    | Wanting(u: AnUpdate)             // called a setter
    | Storing(u: AnUpdate, k: nat)     // owns the mutex, k stores are done
    | Counted                          // owns the mutex, seq is incremented
    | WantingRead(called: nat)                    // called the getter
    | Copying(called: nat, got: seq<int>)         // owns the mutex, some cells are copied
    | Copied(called: nat, got: seq<int>, seqNo: nat, prefix: nat)   // owns the mutex, seq is copied too

  // A reader also remembers, for the theorem, how many updates were complete when it was called, when it copied seq
  // and when it returned.

  /** What a getter returned. */
  datatype Read = Read(cells: seq<int>, seqNo: nat, called: nat, prefix: nat, returned: nat)

  datatype State = State(
    owner: Option<nat>, pcs: map<nat, Pc>, cells: Cells, seqNo: nat, history: seq<AnUpdate>, snapshots: seq<Read>)

  const TWO_32 := 0x1_0000_0000

  function PcOf(s: State, t: nat): Pc { if t in s.pcs then s.pcs[t] else Idle }

  function Init(): State { State(None, map[], ZEROS, 0, [], []) }

  datatype Action = CallSet(u: AnUpdate) | CallGet | Lock | StoreNext | Increment | CopyNext | CopySeq | Unlock

  predicate Enabled(s: State, t: nat, a: Action) {
    match a
    case CallSet(_) => PcOf(s, t).Idle?
    case CallGet => PcOf(s, t).Idle?
    case Lock => s.owner == None && (PcOf(s, t).Wanting? || PcOf(s, t).WantingRead?)
    case StoreNext => PcOf(s, t).Storing? && PcOf(s, t).k < |Stores(PcOf(s, t).u)|
    case Increment => PcOf(s, t).Storing? && PcOf(s, t).k == |Stores(PcOf(s, t).u)|
    case CopyNext => PcOf(s, t).Copying? && |PcOf(s, t).got| < CELLS
    case CopySeq => PcOf(s, t).Copying? && |PcOf(s, t).got| == CELLS
    case Unlock => PcOf(s, t).Counted? || PcOf(s, t).Copied?
  }

  function Step(s: State, t: nat, a: Action): State
    requires Enabled(s, t, a)
  {
    var pc := PcOf(s, t);
    match a
    case CallSet(u) => s.(pcs := s.pcs[t := Wanting(u)])
    case CallGet => s.(pcs := s.pcs[t := WantingRead(|s.history|)])
    case Lock =>
      s.(owner := Some(t), pcs := s.pcs[t := if pc.Wanting? then Storing(pc.u, 0) else Copying(pc.called, [])])
    case StoreNext =>
      var store := Stores(pc.u)[pc.k];
      s.(cells := s.cells[store.cell := store.value], pcs := s.pcs[t := Storing(pc.u, pc.k + 1)])
    case Increment =>
      s.(seqNo := (s.seqNo + 1) % TWO_32, pcs := s.pcs[t := Counted], history := s.history + [pc.u])
    case CopyNext => s.(pcs := s.pcs[t := Copying(pc.called, pc.got + [s.cells[|pc.got|]])])
    case CopySeq => s.(pcs := s.pcs[t := Copied(pc.called, pc.got, s.seqNo, |s.history|)])
    case Unlock =>
      s.(owner := None, pcs := s.pcs[t := Idle],
         snapshots := if pc.Counted? then s.snapshots
                      else s.snapshots + [Read(pc.got, pc.seqNo, pc.called, pc.prefix, |s.history|)])
  }

  // -------- the invariant --------

  predicate Inside(pc: Pc) { pc.Storing? || pc.Counted? || pc.Copying? || pc.Copied? }

  /** Exactly the owner is inside the critical section. */
  ghost predicate Exclusive(s: State) {
    forall t: nat :: Inside(PcOf(s, t)) <==> s.owner == Some(t)
  }

  /** The cells are those of the completed updates and of the stores that the owner has done so far. */
  predicate Consistent(s: State) {
    && s.seqNo == |s.history| % TWO_32
    && var pc := if s.owner.Some? then PcOf(s, s.owner.value) else Idle;
       && (pc.Storing? ==> pc.k <= |Stores(pc.u)| && s.cells == Partly(Fold(s.history), pc.u, pc.k))
       && (!pc.Storing? ==> s.cells == Fold(s.history))
       && (pc.Copying? ==> |pc.got| <= CELLS && pc.got == s.cells[..|pc.got|])
       && (pc.Copied? ==> pc.got == s.cells && pc.seqNo == s.seqNo && pc.prefix == |s.history|)
  }

  /** No thread remembers more updates than there are. */
  ghost predicate Remembered(s: State) {
    forall t: nat :: var pc := PcOf(s, t);
                     pc.WantingRead? || pc.Copying? || pc.Copied? ==> pc.called <= |s.history|
  }

  /** Each read returned the fold of one prefix of the history of updates, whose length modulo 2^32 is the returned
      seq. The prefix contains every update that was complete when the getter was called, and only updates that were
      complete when it returned; later reads saw prefixes at least as long. */
  predicate Linearized(s: State) {
    && (forall i :: 0 <= i < |s.snapshots| ==>
          && s.snapshots[i].called <= s.snapshots[i].prefix <= s.snapshots[i].returned <= |s.history|
          && s.snapshots[i].cells == Fold(s.history[..s.snapshots[i].prefix])
          && s.snapshots[i].seqNo == s.snapshots[i].prefix % 0x1_0000_0000)
    && (forall i, j :: 0 <= i < j < |s.snapshots| ==> s.snapshots[i].prefix <= s.snapshots[j].prefix)
  }

  ghost predicate Inv(s: State) { Exclusive(s) && Remembered(s) && Consistent(s) && Linearized(s) }

  lemma ExclusiveKept(s: State, t: nat, a: Action)
    requires Exclusive(s) && Enabled(s, t, a)
    ensures Exclusive(Step(s, t, a))
  {
    hide Stores;
    var s' := Step(s, t, a);
    forall t': nat ensures Inside(PcOf(s', t')) <==> s'.owner == Some(t') {
      assert Inside(PcOf(s, t')) <==> s.owner == Some(t');
      assert Inside(PcOf(s, t)) <==> s.owner == Some(t);
    }
  }

  lemma RememberedKept(s: State, t: nat, a: Action)
    requires Remembered(s) && Enabled(s, t, a)
    ensures Remembered(Step(s, t, a))
  {
    hide Stores;
    var s' := Step(s, t, a);
    forall t': nat
      ensures var pc := PcOf(s', t'); pc.WantingRead? || pc.Copying? || pc.Copied? ==> pc.called <= |s'.history|
    {
      var was := PcOf(s, t');
      assert was.WantingRead? || was.Copying? || was.Copied? ==> was.called <= |s.history|;
    }
  }

  lemma ConsistentByStore(s: State, t: nat)
    requires Exclusive(s) && Consistent(s) && Enabled(s, t, StoreNext)
    ensures Consistent(Step(s, t, StoreNext))
  {
    hide Stores, Fold;
    assert Inside(PcOf(s, t)) <==> s.owner == Some(t);
  }

  lemma ConsistentByIncrement(s: State, t: nat)
    requires Exclusive(s) && Consistent(s) && Enabled(s, t, Increment)
    ensures Consistent(Step(s, t, Increment))
  {
    hide Stores, Partly;
    assert Inside(PcOf(s, t)) <==> s.owner == Some(t);
    assert (s.history + [PcOf(s, t).u])[..|s.history|] == s.history;
  }

  lemma ConsistentKept(s: State, t: nat, a: Action)
    requires Exclusive(s) && Consistent(s) && Enabled(s, t, a)
    ensures Consistent(Step(s, t, a))
  {
    if a.StoreNext? {
      ConsistentByStore(s, t);
    } else if a.Increment? {
      ConsistentByIncrement(s, t);
    } else {
      hide Stores, Fold, Partly;
      assert Inside(PcOf(s, t)) <==> s.owner == Some(t);
      if a.Lock? && PcOf(s, t).Wanting? { NothingStored(s.cells, PcOf(s, t).u); }
    }
  }

  lemma NothingStored(c: Cells, u: AnUpdate)
    ensures Partly(c, u, 0) == c
  {
  }

  lemma LinearizedKept(s: State, t: nat, a: Action)
    requires Exclusive(s) && Remembered(s) && Consistent(s) && Linearized(s) && Enabled(s, t, a)
    ensures Linearized(Step(s, t, a))
  {
    hide Stores, Fold, Partly;
    assert Inside(PcOf(s, t)) <==> s.owner == Some(t);
    assert s.history[..|s.history|] == s.history;
    if a.Increment? {
      forall i | 0 <= i < |s.snapshots|
        ensures (s.history + [PcOf(s, t).u])[..s.snapshots[i].prefix] == s.history[..s.snapshots[i].prefix]
      {
      }
    }
  }

  // -------- runs --------

  datatype Move = Move(t: nat, a: Action)

  predicate Legal(s: State, run: seq<Move>)
    decreases |run|
  {
    run == [] || (Enabled(s, run[0].t, run[0].a) && Legal(Step(s, run[0].t, run[0].a), run[1..]))
  }

  function After(s: State, run: seq<Move>): State
    requires Legal(s, run)
    decreases |run|
  {
    if run == [] then s else After(Step(s, run[0].t, run[0].a), run[1..])
  }

  lemma OneStep(s: State, run: seq<Move>)
    requires Inv(s) && Legal(s, run) && run != []
    ensures Inv(Step(s, run[0].t, run[0].a))
  {
    hide Exclusive, Remembered, Consistent, Linearized, Step, Enabled;
    RememberedKept(s, run[0].t, run[0].a);
    ExclusiveKept(s, run[0].t, run[0].a);
    ConsistentKept(s, run[0].t, run[0].a);
    LinearizedKept(s, run[0].t, run[0].a);
  }

  lemma {:induction false} InvAfter(s: State, run: seq<Move>)
    requires Inv(s) && Legal(s, run)
    ensures Inv(After(s, run))
    decreases |run|
  {
    hide Exclusive, Remembered, Consistent, Linearized, Step, Enabled;
    if run != [] {
      OneStep(s, run);
      InvAfter(Step(s, run[0].t, run[0].a), run[1..]);
    }
  }

  /** Under every interleaving of single stores and copies, snapshots are linearizable, in an order that agrees with
      that of calls and returns. */
  lemma SnapshotsAreLinearizable(run: seq<Move>)
    requires Legal(Init(), run)
    ensures Linearized(After(Init(), run))
  {
    InvAfter(Init(), run);
  }

  // -------- no read is missing --------

  /** How often a getter returns in a run: the unlocks by a thread that has copied everything. */
  function Returned(s: State, run: seq<Move>): nat
    requires Legal(s, run)
    decreases |run|
  {
    if run == [] then 0
    else
      (if run[0].a.Unlock? && PcOf(s, run[0].t).Copied? then 1 else 0)
      + Returned(Step(s, run[0].t, run[0].a), run[1..])
  }

  /** How often an action occurs in a run, in any thread. */
  function Times(run: seq<Move>, a: Action): nat {
    if run == [] then 0 else (if run[0].a == a then 1 else 0) + Times(run[1..], a)
  }

  /** One if the owner of the mutex is about to return a read. */
  function AboutToReturn(s: State): nat {
    if s.owner.Some? && PcOf(s, s.owner.value).Copied? then 1 else 0
  }

  lemma CountedOnce(s: State, t: nat, a: Action)
    requires Exclusive(s) && Enabled(s, t, a)
    ensures var s' := Step(s, t, a);
            && |s'.snapshots| == |s.snapshots| + (if a.Unlock? && PcOf(s, t).Copied? then 1 else 0)
            && |s'.snapshots| + AboutToReturn(s') == |s.snapshots| + AboutToReturn(s) + (if a == CopySeq then 1 else 0)
            && |s'.history| == |s.history| + (if a == Increment then 1 else 0)
  {
    hide Stores, Fold, Partly;
    assert Inside(PcOf(s, t)) <==> s.owner == Some(t);
  }

  lemma {:induction false} ReadsFrom(s: State, run: seq<Move>)
    requires Inv(s) && Legal(s, run)
    ensures var s' := After(s, run);
            && |s'.snapshots| == |s.snapshots| + Returned(s, run)
            && |s'.snapshots| + AboutToReturn(s') == |s.snapshots| + AboutToReturn(s) + Times(run, CopySeq)
            && |s'.history| == |s.history| + Times(run, Increment)
    decreases |run|
  {
    hide Exclusive, Remembered, Consistent, Linearized, Step, Enabled, AboutToReturn;
    if run != [] {
      CountedOnce(s, run[0].t, run[0].a);
      OneStep(s, run);
      ReadsFrom(Step(s, run[0].t, run[0].a), run[1..]);
    }
  }

  /** Every getter that returns has its read recorded, every copy of seq belongs to a read that is recorded or about to
      be, and every increment is an update of the history. */
  lemma EveryReadIsRecorded(run: seq<Move>)
    requires Legal(Init(), run)
    ensures var s := After(Init(), run);
            && |s.snapshots| == Returned(Init(), run)
            && |s.snapshots| + AboutToReturn(s) == Times(run, CopySeq)
            && |s.history| == Times(run, Increment)
  {
    ReadsFrom(Init(), run);
  }

  // -------- no update is lost or invented --------

  /** The threads that have called a setter with the update u and not yet completed it. */
  function Pending(s: State, u: AnUpdate): set<nat> {
    set t | t in s.pcs && (s.pcs[t].Wanting? || s.pcs[t].Storing?) && s.pcs[t].u == u
  }

  lemma PendingNext(s: State, t: nat, a: Action, u: AnUpdate)
    requires Exclusive(s) && Enabled(s, t, a)
    ensures Pending(Step(s, t, a), u)
         == if a == CallSet(u) then Pending(s, u) + {t}
            else if a.Increment? && PcOf(s, t).u == u then Pending(s, u) - {t} else Pending(s, u)
  {
    hide Stores, Fold, Partly;
    assert Inside(PcOf(s, t)) <==> s.owner == Some(t);
  }

  lemma UpdateCounted(s: State, t: nat, a: Action, u: AnUpdate)
    requires Exclusive(s) && Enabled(s, t, a)
    ensures var s' := Step(s, t, a);
            multiset(s'.history)[u] + |Pending(s', u)|
              == multiset(s.history)[u] + |Pending(s, u)| + if a == CallSet(u) then 1 else 0
  {
    hide Stores, Fold, Partly, Exclusive;
    PendingNext(s, t, a, u);
    if a == CallSet(u) {
      assert t !in Pending(s, u);
    } else if a.Increment? && PcOf(s, t).u == u {
      assert t in Pending(s, u);
    }
    hide Pending;
  }

  lemma {:induction false} UpdatesFrom(s: State, run: seq<Move>, u: AnUpdate)
    requires Inv(s) && Legal(s, run)
    ensures var s' := After(s, run);
            multiset(s'.history)[u] + |Pending(s', u)|
              == multiset(s.history)[u] + |Pending(s, u)| + Times(run, CallSet(u))
    decreases |run|
  {
    hide Exclusive, Remembered, Consistent, Linearized, Step, Enabled, Pending;
    if run != [] {
      UpdateCounted(s, run[0].t, run[0].a, u);
      OneStep(s, run);
      UpdatesFrom(Step(s, run[0].t, run[0].a), run[1..], u);
    }
  }

  /** Each call of a setter with an accepted update gives one update of the history, or is still under way. */
  lemma EveryUpdateIsCounted(run: seq<Move>, u: AnUpdate)
    requires Legal(Init(), run)
    ensures var s := After(Init(), run); Times(run, CallSet(u)) == multiset(s.history)[u] + |Pending(s, u)|
  {
    UpdatesFrom(Init(), run, u);
    assert Pending(Init(), u) == {};
  }

  // -------- the operations, one thread at a time --------

  lemma FoldNext(history: seq<AnUpdate>, u: AnUpdate)
    ensures Fold(history + [u]) == Apply(Fold(history), u)
  {
    assert (history + [u])[..|history|] == history;
  }

  lemma ApplyImu(c: Cells, u: AnUpdate)
    requires u.Imu?
    ensures Apply(c, u) == c[0 := u.ax][1 := u.ay][2 := u.az][3 := u.gx][4 := u.gy][5 := u.gz]
  {
    assert Partly(c, u, 1) == c[0 := u.ax];
    assert Partly(c, u, 2) == c[0 := u.ax][1 := u.ay];
    assert Partly(c, u, 3) == c[0 := u.ax][1 := u.ay][2 := u.az];
    assert Partly(c, u, 4) == c[0 := u.ax][1 := u.ay][2 := u.az][3 := u.gx];
    assert Partly(c, u, 5) == c[0 := u.ax][1 := u.ay][2 := u.az][3 := u.gx][4 := u.gy];
  }

  lemma ApplyTilt(c: Cells, u: AnUpdate)
    requires u.Tilt?
    ensures Apply(c, u) == c[6 := u.x][7 := u.y][8 := u.z][9 := u.status]
  {
    assert Partly(c, u, 1) == c[6 := u.x];
    assert Partly(c, u, 2) == c[6 := u.x][7 := u.y];
    assert Partly(c, u, 3) == c[6 := u.x][7 := u.y][8 := u.z];
  }

  lemma ApplyMotor(c: Cells, u: AnUpdate)
    requires u.Motor?
    ensures var m := u.index - 1;
            Apply(c, u)
              == c[10 + m := u.tics][12 + m := u.rpm][14 + m := u.temperature][16 + m := u.voltage][18 + m := u.current]
  {
    var m := u.index - 1;
    assert Partly(c, u, 1) == c[10 + m := u.tics];
    assert Partly(c, u, 2) == c[10 + m := u.tics][12 + m := u.rpm];
    assert Partly(c, u, 3) == c[10 + m := u.tics][12 + m := u.rpm][14 + m := u.temperature];
    assert Partly(c, u, 4) == c[10 + m := u.tics][12 + m := u.rpm][14 + m := u.temperature][16 + m := u.voltage];
  }

  /** What an update is seen as: its own cells hold its values and all others what they held. */
  lemma UpdateIsSeen(c: Cells, u: AnUpdate)
    ensures u.Imu? ==> Apply(c, u) == [u.ax, u.ay, u.az] + [u.gx, u.gy, u.gz] + c[6..]
    ensures u.Tilt? ==> Apply(c, u) == c[..6] + [u.x, u.y, u.z] + [u.status] + c[10..]
    ensures u.Motor? && u.index == 1 ==> Apply(c, u) == c[..10] + [u.tics, c[11]] + [u.rpm, c[13]]
                                           + [u.temperature, c[15]] + [u.voltage, c[17]] + [u.current, c[19]]
    ensures u.Motor? && u.index == 2 ==> Apply(c, u) == c[..10] + [c[10], u.tics] + [c[12], u.rpm]
                                           + [c[14], u.temperature] + [c[16], u.voltage] + [c[18], u.current]
  {
    match u {
      case Imu(_, _, _, _, _, _) => ApplyImu(c, u);
      case Tilt(_, _, _, _) => ApplyTilt(c, u);
      case Motor(_, _, _, _, _, _) => ApplyMotor(c, u);
    }
    hide Apply;
  }

  /** telemetry_cache_t, with its value fields as one array in the order of the getter. The critical sections of its
      operations, as seen by a thread that owns the mutex. */
  class TelemetryCache {
    const cells: array<int>
    var seqNo: nat
    ghost var history: seq<AnUpdate>

    ghost predicate Valid()
      reads this, cells
    {
      cells.Length == CELLS && cells[..] == Fold(history) && seqNo == |history| % TWO_32
    }

    constructor ()
      ensures Valid() && history == [] && fresh(cells)
    {
      cells := new int[CELLS](_ => 0);
      seqNo, history := 0, [];
      new;
      assert cells[..] == ZEROS;
    }

    /** One store. */
    method Put(cell: nat, value: int)
      requires cell < cells.Length
      modifies cells
      ensures cells[..] == old(cells[..])[cell := value]
    {
      cells[cell] := value;
    }

    method SetImu(ax: int, ay: int, az: int, gx: int, gy: int, gz: int)
      requires Valid()
      modifies this, cells
      ensures Valid() && history == old(history) + [Imu(ax, ay, az, gx, gy, gz)]
    {
      hide Fold, Apply;
      ghost var u: AnUpdate := Imu(ax, ay, az, gx, gy, gz);
      ApplyImu(cells[..], u);
      FoldNext(history, u);
      Put(0, ax);
      Put(1, ay);
      Put(2, az);
      Put(3, gx);
      Put(4, gy);
      Put(5, gz);
      seqNo, history := (seqNo + 1) % TWO_32, history + [u];
    }

    method SetTilt(x: int, y: int, z: int, status: int)
      requires Valid()
      modifies this, cells
      ensures Valid() && history == old(history) + [Tilt(x, y, z, status)]
    {
      hide Fold, Apply;
      ghost var u: AnUpdate := Tilt(x, y, z, status);
      ApplyTilt(cells[..], u);
      FoldNext(history, u);
      Put(6, x);
      Put(7, y);
      Put(8, z);
      Put(9, status);
      seqNo, history := (seqNo + 1) % TWO_32, history + [u];
    }

    /** Any index but 1 and 2 leaves the cache, and its sequence number, as they are. */
    method SetMotor(index: int, tics: int, rpm: int, temperature: int, voltage: int, current: int)
      requires Valid()
      modifies this, cells
      ensures Valid()
      ensures var u := Motor(index, tics, rpm, temperature, voltage, current);
              history == if Accepted(u) then old(history) + [u] else old(history)
    {
      hide Fold, Apply;
      if index != 1 && index != 2 { return; }
      ghost var u: AnUpdate := Motor(index, tics, rpm, temperature, voltage, current);
      ApplyMotor(cells[..], u);
      FoldNext(history, u);
      var idx := index - 1;
      Put(10 + idx, tics);
      Put(12 + idx, rpm);
      Put(14 + idx, temperature);
      Put(16 + idx, voltage);
      Put(18 + idx, current);
      seqNo, history := (seqNo + 1) % TWO_32, history + [u];
    }

    /** memcpy of n cells into an output array, if there is one. */
    method CopyOut(out: array?<int>, from: nat, n: nat)
      requires Valid() && from + n <= CELLS && out != cells && (out != null ==> out.Length == n)
      modifies out
      ensures Valid() && (out != null ==> out[..] == Fold(history)[from..from + n])
    {
      hide Fold;
      if out != null {
        forall i | 0 <= i < n { out[i] := cells[from + i]; }
        assert out[..] == cells[..][from..from + n];
      }
    }

    /** The getter; the caller passes an output array per vector, or null for a motor quantity it does not want. */
    method Get(acc: array<int>, gyro: array<int>, tilt: array<int>, motors: seq<array?<int>>)
      returns (status: int, seqOut: nat)
      requires Valid() && acc.Length == gyro.Length == tilt.Length == 3
      requires |motors| == 5 && forall i :: 0 <= i < 5 && motors[i] != null ==> motors[i].Length == 2
      requires cells != acc && cells != gyro && cells != tilt && acc != gyro && acc != tilt && gyro != tilt
      requires forall i :: 0 <= i < 5 ==>
        motors[i] != cells && motors[i] != acc && motors[i] != gyro && motors[i] != tilt
      requires forall i, j :: 0 <= i < j < 5 && motors[i] != null ==> motors[i] != motors[j]
      modifies acc, gyro, tilt, motors
      ensures Valid() && seqOut == |history| % 0x1_0000_0000
      ensures acc[..] + gyro[..] + tilt[..] + [status] == Fold(history)[..10]
      ensures forall i :: 0 <= i < 5 && motors[i] != null ==> motors[i][..] == Fold(history)[10 + 2 * i..12 + 2 * i]
    {
      hide Fold;
      CopyOut(acc, 0, 3);
      CopyOut(gyro, 3, 3);
      CopyOut(tilt, 6, 3);
      status := cells[9];
      assert acc[..] + gyro[..] + tilt[..] + [status] == cells[..][..10];
      for k := 0 to 5
        invariant Valid() && acc[..] + gyro[..] + tilt[..] + [status] == Fold(history)[..10]
        invariant forall i :: 0 <= i < k && motors[i] != null ==> motors[i][..] == Fold(history)[10 + 2 * i..12 + 2 * i]
      {
        CopyOut(motors[k], 10 + 2 * k, 2);
      }
      seqOut := seqNo;
    }
  }
}
