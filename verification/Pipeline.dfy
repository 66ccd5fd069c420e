/** The gateway pipeline as a transition system: the MQTT callback, the database writer and the thread that stops
    the gateway, interleaved step by step. running is read and written atomically, the queue mutex has at most one
    owner, and a condition wait may end without a signal. */
module Pipeline {
  import opened Basics

  /** A queued sample: its number in order of arrival and the heap buffer with its raw payload, if it has one. */
  datatype Sample = Sample(id: nat, raw: Option<nat>)

  datatype Thread = Callback | Writer | Stopper

  datatype CallbackPc =
    | Idle
    | Entered              // saw running set
    | Decoding             // counted the message
    | Allocating(s: Sample)
    | Locking(s: Sample)
    | Linking(s: Sample)   // owns the mutex
    | Signalling           // owns the mutex, the node is linked
    | Unlocking            // owns the mutex
    | Closed               // the MQTT client is gone

  datatype WriterPc =
    | Looping
    | Acquiring
    | Testing              // owns the mutex, at the wait condition
    | Waiting              // blocked in the condition wait
    | Woken                // must own the mutex again before it goes on
    | Popping              // owns the mutex
    | Popped(batch: seq<Sample>)
    | Inserting(batch: seq<Sample>, i: nat, ok: bool)
    | Ending(batch: seq<Sample>, ok: bool)
    | Counting(batch: seq<Sample>)
    | Sending(batch: seq<Sample>, i: nat)
    | Exited

  datatype StopperPc = Up | Stopping | Notifying | Releasing | Joining | Closing | Draining | Done

  datatype Outcome = BeginFailed | RolledBack | Committed

  /** A finished transaction. */
  datatype Record = Record(batch: seq<Sample>, outcome: Outcome)

  datatype Shared = Shared(max: nat, running: bool, owner: Option<Thread>, queue: seq<Sample>, maxLen: nat)

  // Each thread's part of the state also holds what only that thread writes, and its history: the samples linked,
  // popped and drained so far, and the buffers freed so far, by the place that frees them.

  datatype CallbackState = CallbackState(
    pc: CallbackPc, rx: nat, decodeFails: nat, allocDrops: nat, nextRaw: nat,
    pushed: seq<Sample>, freedDrop: multiset<nat>)

  /** latePops counts the pops after running was cleared. */
  datatype WriterState = WriterState(
    pc: WriterPc, beginDrops: nat, dbRows: nat, open: seq<Sample>, table: seq<Sample>, log: seq<Record>,
    sent: seq<Sample>, popped: seq<Sample>, latePops: nat, freedBegin: multiset<nat>, freedBatch: multiset<nat>)

  datatype StopperState = StopperState(pc: StopperPc, drained: seq<Sample>, freedDrain: multiset<nat>)

  datatype State = State(sh: Shared, cb: CallbackState, wr: WriterState, st: StopperState)

  function Init(max: nat): State {
    State(Shared(max, true, None, [], 0),
          CallbackState(Idle, 0, 0, 0, 0, [], multiset{}),
          WriterState(Looping, 0, 0, [], [], [], [], [], 0, multiset{}, multiset{}),
          StopperState(Up, [], multiset{}))
  }

  function RawOf(s: Sample): multiset<nat> { if s.raw.Some? then multiset{s.raw.value} else multiset{} }

  function Raws(ss: seq<Sample>): multiset<nat> {
    if ss == [] then multiset{} else RawOf(ss[0]) + Raws(ss[1..])
  }

  // The steps; their arguments are the choices of the environment.

  datatype CallbackAction =
    | Enter | Count | DecodeFail | Decode(copied: bool) | NoNode | Node | Lock | Link | Signal | Unlock

  datatype WriterAction =
    | Loop | Acquire | Test | Spurious | Reacquire | Pop | Begin(begun: bool) | Insert(inserted: bool) | InsertsOver
    | End | Account | Send(printed: bool) | SendsOver

  datatype StopperAction = Clear | Grab | Broadcast | Release | Join | Close | Drain | Finish

  datatype Action = Cb(c: CallbackAction) | Wr(w: WriterAction) | St(t: StopperAction)

  function Wake(wr: WriterState): WriterState { if wr.pc.Waiting? then wr.(pc := Woken) else wr }

  // -------- the callback, src/app/telemetry_gateway.c:318-402, with queue_push inlined --------

  predicate CallbackEnabled(s: State, a: CallbackAction) {
    match a
    // A message that finds running cleared is ignored; that changes nothing and is not a step.
    case Enter => s.cb.pc.Idle? && s.sh.running
    case Count => s.cb.pc.Entered?
    case DecodeFail => s.cb.pc.Decoding?
    case Decode(_) => s.cb.pc.Decoding?
    case NoNode => s.cb.pc.Allocating?
    case Node => s.cb.pc.Allocating?
    case Lock => s.cb.pc.Locking? && s.sh.owner == None
    case Link => s.cb.pc.Linking?
    case Signal => s.cb.pc.Signalling?
    case Unlock => s.cb.pc.Unlocking?
  }

  function CallbackStep(s: State, a: CallbackAction): State
    requires CallbackEnabled(s, a)
  {
    var cb := s.cb;
    match a
    case Enter => s.(cb := cb.(pc := Entered))
    case Count => s.(cb := cb.(pc := Decoding, rx := cb.rx + 1))
    case DecodeFail => s.(cb := cb.(pc := Idle, decodeFails := cb.decodeFails + 1))
    case Decode(copied) =>
      if copied then s.(cb := cb.(pc := Allocating(Sample(cb.rx, Some(cb.nextRaw))), nextRaw := cb.nextRaw + 1))
      else s.(cb := cb.(pc := Allocating(Sample(cb.rx, None))))
    case NoNode =>
      s.(cb := cb.(pc := Idle, allocDrops := cb.allocDrops + 1, freedDrop := cb.freedDrop + RawOf(cb.pc.s)))
    case Node => s.(cb := cb.(pc := Locking(cb.pc.s)))
    case Lock => s.(cb := cb.(pc := Linking(cb.pc.s)), sh := s.sh.(owner := Some(Callback)))
    case Link =>
      var q := s.sh.queue + [cb.pc.s];
      s.(cb := cb.(pc := Signalling, pushed := cb.pushed + [cb.pc.s]),
         sh := s.sh.(queue := q, maxLen := if |q| > s.sh.maxLen then |q| else s.sh.maxLen))
    case Signal => s.(cb := cb.(pc := Unlocking), wr := Wake(s.wr))
    case Unlock => s.(cb := cb.(pc := Idle), sh := s.sh.(owner := None))
  }

  // -------- the writer, src/app/telemetry_gateway.c:179-236, with queue_pop_batch inlined --------

  predicate WriterEnabled(s: State, a: WriterAction) {
    match a
    case Loop => s.wr.pc.Looping?
    case Acquire => s.wr.pc.Acquiring? && s.sh.owner == None
    case Test => s.wr.pc.Testing?
    case Spurious => s.wr.pc.Waiting?
    case Reacquire => s.wr.pc.Woken? && s.sh.owner == None
    case Pop => s.wr.pc.Popping?
    case Begin(_) | Insert(_) | InsertsOver | End | Account | Send(_) | SendsOver => OnBatch(s.wr.pc, a)
  }

  /** The steps that touch the queue or the mutex. */
  function QueueStep(s: State, a: WriterAction): State
    requires WriterEnabled(s, a)
  {
    var wr, sh := s.wr, s.sh;
    match a
    case Loop => s.(wr := wr.(pc := if sh.running then Acquiring else Exited))
    case Acquire => s.(wr := wr.(pc := Testing), sh := sh.(owner := Some(Writer)))
    case Test =>
      if sh.running && sh.queue == [] then s.(wr := wr.(pc := Waiting), sh := sh.(owner := None))
      else s.(wr := wr.(pc := Popping))
    case Spurious => s.(wr := wr.(pc := Woken))
    case Reacquire => s.(wr := wr.(pc := Testing), sh := sh.(owner := Some(Writer)))
    case Pop =>
      var n := Min(|sh.queue|, sh.max);
      var batch := sh.queue[..n];
      s.(wr := wr.(pc := if n == 0 then Looping else Popped(batch), popped := wr.popped + batch,
                   latePops := if sh.running then wr.latePops else wr.latePops + 1),
         sh := sh.(owner := None, queue := sh.queue[n..]))
    case _ => s
  }

  /** The steps on a popped batch; they read and write nothing that is shared. */
  function BatchStep(wr: WriterState, a: WriterAction): WriterState {
    match (a, wr.pc)
    case (Begin(begun), Popped(batch)) =>
      if begun then wr.(pc := Inserting(batch, 0, true), open := [])
      else wr.(pc := Looping, beginDrops := wr.beginDrops + |batch|, log := wr.log + [Record(batch, BeginFailed)],
               freedBegin := wr.freedBegin + Raws(batch))
    case (Insert(inserted), Inserting(batch, i, ok)) =>
      if i >= |batch| then wr
      else wr.(pc := Inserting(batch, i + 1, ok && inserted),
               open := if inserted then wr.open + [batch[i]] else wr.open)
    case (InsertsOver, Inserting(batch, i, ok)) => wr.(pc := Ending(batch, ok))
    case (End, Ending(batch, ok)) =>
      wr.(pc := Counting(batch), open := [], table := if ok then wr.table + wr.open else wr.table,
          log := wr.log + [Record(batch, if ok then Committed else RolledBack)])
    case (Account, Counting(batch)) => wr.(pc := Sending(batch, 0), dbRows := wr.dbRows + |batch|)
    case (Send(printed), Sending(batch, i)) =>
      if i >= |batch| then wr
      else wr.(pc := Sending(batch, i + 1), sent := if printed then wr.sent + [batch[i]] else wr.sent,
               freedBatch := wr.freedBatch + RawOf(batch[i]))
    case (SendsOver, Sending(batch, i)) => wr.(pc := Looping)
    case _ => wr
  }

  predicate OnBatch(pc: WriterPc, a: WriterAction) {
    || (a.Begin? && pc.Popped?)
    || (a.Insert? && pc.Inserting? && pc.i < |pc.batch|)
    || (a.InsertsOver? && pc.Inserting? && pc.i >= |pc.batch|)
    || (a.End? && pc.Ending?)
    || (a.Account? && pc.Counting?)
    || (a.Send? && pc.Sending? && pc.i < |pc.batch|)
    || (a.SendsOver? && pc.Sending? && pc.i >= |pc.batch|)
  }

  predicate OnQueue(a: WriterAction) {
    a.Loop? || a.Acquire? || a.Test? || a.Spurious? || a.Reacquire? || a.Pop?
  }

  function WriterStep(s: State, a: WriterAction): State
    requires WriterEnabled(s, a)
  {
    if OnQueue(a) then QueueStep(s, a) else s.(wr := BatchStep(s.wr, a))
  }

  // -------- telemetry_gateway_stop, src/app/telemetry_gateway.c:473-505 --------

  predicate StopperEnabled(s: State, a: StopperAction) {
    match a
    case Clear => s.st.pc.Up?
    case Grab => s.st.pc.Stopping? && s.sh.owner == None
    case Broadcast => s.st.pc.Notifying?
    case Release => s.st.pc.Releasing?
    case Join => s.st.pc.Joining? && s.wr.pc.Exited?
    case Close => s.st.pc.Closing? && s.cb.pc.Idle?
    case Drain => s.st.pc.Draining? && s.sh.queue != []
    case Finish => s.st.pc.Draining? && s.sh.queue == []
  }

  function StopperStep(s: State, a: StopperAction): State
    requires StopperEnabled(s, a)
  {
    var st := s.st;
    match a
    case Clear => s.(st := st.(pc := Stopping), sh := s.sh.(running := false))
    case Grab => s.(st := st.(pc := Notifying), sh := s.sh.(owner := Some(Stopper)))
    case Broadcast => s.(st := st.(pc := Releasing), wr := Wake(s.wr))
    case Release => s.(st := st.(pc := Joining), sh := s.sh.(owner := None))
    case Join => s.(st := st.(pc := Closing))
    case Close => s.(st := st.(pc := Draining), cb := s.cb.(pc := Closed))
    case Drain =>
      var head := s.sh.queue[0];
      s.(st := st.(drained := st.drained + [head], freedDrain := st.freedDrain + RawOf(head)),
         sh := s.sh.(queue := s.sh.queue[1..]))
    case Finish => s.(st := st.(pc := Done))
  }

  // -------- runs --------

  predicate Enabled(s: State, a: Action) {
    match a
    case Cb(c) => CallbackEnabled(s, c)
    case Wr(w) => WriterEnabled(s, w)
    case St(t) => StopperEnabled(s, t)
  }

  function Step(s: State, a: Action): State
    requires Enabled(s, a)
  {
    match a
    case Cb(c) => CallbackStep(s, c)
    case Wr(w) => WriterStep(s, w)
    case St(t) => StopperStep(s, t)
  }

  predicate Legal(s: State, run: seq<Action>)
    decreases |run|
  {
    run == [] || (Enabled(s, run[0]) && Legal(Step(s, run[0]), run[1..]))
  }

  function After(s: State, run: seq<Action>): State
    requires Legal(s, run)
    decreases |run|
  {
    if run == [] then s else After(Step(s, run[0]), run[1..])
  }

  ghost predicate Reachable(s: State) {
    exists max: nat, run :: max > 0 && Legal(Init(max), run) && After(Init(max), run) == s
  }
}
