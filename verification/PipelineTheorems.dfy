/** The gateway's promises, for every run. */
module PipelineTheorems {
  import opened Basics
  import opened Pipeline
  import opened PipelineProofs

  // -------- shutdown --------

  function CallbackRank(pc: CallbackPc): nat {
    match pc
    case Idle | Closed => 0
    case Unlocking => 1
    case Signalling => 2
    case Linking(_) => 3
    case Locking(_) => 4
    case Allocating(_) => 5
    case Decoding => 6
    case Entered => 7
  }

  /** The steps the writer has left once running is cleared. */
  function WriterRank(pc: WriterPc, max: nat): nat {
    match pc
    case Exited => 0
    case Looping => 1
    case Sending(batch, i) => 2 + if i <= |batch| then |batch| - i else 0
    case Counting(batch) => 3 + |batch|
    case Ending(batch, _) => 4 + |batch|
    case Inserting(batch, i, _) => 5 + |batch| + if i <= |batch| then |batch| - i else 0
    case Popped(batch) => 6 + 2 * |batch|
    case Popping => 7 + 2 * max
    case Testing => 8 + 2 * max
    case Woken | Acquiring => 9 + 2 * max
    case Waiting => 10 + 2 * max
  }

  function StopperRank(pc: StopperPc): nat {
    match pc
    case Up => 8
    case Stopping => 7
    case Notifying => 6
    case Releasing => 5
    case Joining => 4
    case Closing => 3
    case Draining => 2
    case Done => 0
  }

  function Measure(s: State): nat {
    2 * CallbackRank(s.cb.pc) + WriterRank(s.wr.pc, s.sh.max) + StopperRank(s.st.pc) + |s.sh.queue|
  }

  lemma MeasureDropsByBatch(wr: WriterState, a: WriterAction, max: nat)
    requires Recorded(wr, max) && OnBatch(wr.pc, a)
    ensures WriterRank(BatchStep(wr, a).pc, max) < WriterRank(wr.pc, max)
  {
    hide RawOf, Raws;
  }

  lemma MeasureDropsByWriter(s: State, a: WriterAction)
    requires Inv(s) && WriterEnabled(s, a) && !s.sh.running
    ensures Measure(WriterStep(s, a)) < Measure(s)
  {
    hide RawOf, Raws, Flow, Tables, Broadcasts, Owned, BatchStep;
    if !OnQueue(a) { MeasureDropsByBatch(s.wr, a, s.sh.max); }
  }

  lemma MeasureDropsByCallback(s: State, a: CallbackAction)
    requires CallbackEnabled(s, a) && !s.sh.running
    ensures Measure(CallbackStep(s, a)) < Measure(s)
  {
    hide RawOf, Raws;
  }

  lemma MeasureDropsByStopper(s: State, a: StopperAction)
    requires Sync(s) && StopperEnabled(s, a) && !s.sh.running
    ensures Measure(StopperStep(s, a)) < Measure(s)
  {
    hide RawOf, Raws;
  }

  lemma MeasureDrops(s: State, a: Action)
    requires Inv(s) && Enabled(s, a) && !s.sh.running
    ensures Measure(Step(s, a)) < Measure(s)
  {
    hide Sync, Flow, Recorded, Tables, Broadcasts, Owned, CallbackStep, WriterStep, StopperStep, Measure;
    match a {
      case Cb(c) => MeasureDropsByCallback(s, c);
      case Wr(w) => MeasureDropsByWriter(s, w);
      case St(t) => MeasureDropsByStopper(s, t);
    }
  }

  lemma StaysStoppedOnce(s: State, a: Action)
    requires Enabled(s, a) && !s.sh.running
    ensures !Step(s, a).sh.running
  {
    hide RawOf, Raws;
  }

  /** Once running is cleared, whatever the threads, the scheduler and the database do, the number of steps left is
      bounded by what the writer holds, the batch size and the queue. */
  lemma {:induction false} ShutdownIsBounded(s: State, run: seq<Action>)
    requires Inv(s) && !s.sh.running && Legal(s, run)
    ensures |run| + Measure(After(s, run)) <= Measure(s)
    decreases |run|
  {
    hide Inv, Enabled, Step, Measure;
    if run != [] {
      InvKept(s, run[0]);
      MeasureDrops(s, run[0]);
      StaysStoppedOnce(s, run[0]);
      ShutdownIsBounded(Step(s, run[0]), run[1..]);
    }
  }

  /** A thread that can take its next step: the owner of the mutex always can, and someone can while it is free. */
  function NextStep(s: State): Action
    requires Sync(s) && !s.sh.running && !s.st.pc.Done?
  {
    match s.cb.pc
    case Entered => Cb(Count)
    case Decoding => Cb(DecodeFail)
    case Allocating(_) => Cb(Node)
    case Linking(_) => Cb(Link)
    case Signalling => Cb(Signal)
    case Unlocking => Cb(Unlock)
    case Idle | Closed | Locking(_) =>
      match s.wr.pc
      case Looping => Wr(Loop)
      case Testing => Wr(Test)
      case Popping => Wr(Pop)
      case Popped(_) => Wr(Begin(true))
      case Inserting(batch, i, _) => if i < |batch| then Wr(Insert(true)) else Wr(InsertsOver)
      case Ending(_, _) => Wr(End)
      case Counting(_) => Wr(Account)
      case Sending(batch, i) => if i < |batch| then Wr(Send(true)) else Wr(SendsOver)
      case Exited | Waiting | Acquiring | Woken =>
        match s.st.pc
        case Notifying => St(Broadcast)
        case Releasing => St(Release)
        case Up | Stopping => St(Grab)
        case Joining | Closing | Draining | Done =>
          if s.cb.pc.Locking? then Cb(Lock)
          else if s.wr.pc.Acquiring? then Wr(Acquire)
          else if s.wr.pc.Woken? then Wr(Reacquire)
          else if s.st.pc.Joining? then St(Join)
          else if s.st.pc.Closing? then St(Close)
          else if s.sh.queue != [] then St(Drain)
          else St(Finish)
  }

  lemma ShutdownNeverBlocks(s: State)
    requires Sync(s) && !s.sh.running && !s.st.pc.Done?
    ensures Enabled(s, NextStep(s))
  {
    match s.sh.owner
    case None =>
    case Some(Callback) =>
    case Some(Writer) =>
    case Some(Stopper) =>
  }

  // -------- what the counters count --------

  /** How often an action occurs in a run. */
  function Times(run: seq<Action>, a: Action): nat { multiset(run)[a] }

  lemma TimesNext(run: seq<Action>, a: Action)
    requires run != []
    ensures Times(run, a) == (if run[0] == a then 1 else 0) + Times(run[1..], a)
  {
    assert run == [run[0]] + run[1..];
  }

  lemma OneMorePop(s: State, a: Action)
    requires Enabled(s, a) && !s.sh.running
    ensures Step(s, a).wr.latePops == s.wr.latePops + if a == Wr(Pop) then 1 else 0
  {
    hide RawOf, Raws;
  }

  lemma {:induction false} LatePopsFrom(s: State, run: seq<Action>)
    requires Legal(s, run) && !s.sh.running
    ensures After(s, run).wr.latePops == s.wr.latePops + Times(run, Wr(Pop))
    decreases |run|
  {
    hide Step, Enabled, Times;
    if run == [] {
      NoTimes(Wr(Pop));
    } else {
      TimesNext(run, Wr(Pop));
      OneMorePop(s, run[0]);
      StaysStoppedOnce(s, run[0]);
      LatePopsFrom(Step(s, run[0]), run[1..]);
    }
  }

  lemma NoTimes(a: Action)
    ensures Times([], a) == 0
  {
  }

  /** Once running is cleared, the writer pops at most once more. */
  lemma AtMostOnePop(s: State, run: seq<Action>)
    requires Reachable(s) && !s.sh.running && Legal(s, run)
    ensures Times(run, Wr(Pop)) <= 1
  {
    hide Enabled, Flow, Recorded, Tables, Broadcasts, Owned, Times;
    InvReachable(s);
    InvAfter(s, run);
    LatePopsFrom(s, run);
  }

  lemma CallbackCounted(s: State, a: Action)
    requires Enabled(s, a)
    ensures var cb, cb' := s.cb, Step(s, a).cb;
            && cb'.rx == cb.rx + (if a == Cb(Count) then 1 else 0)
            && cb'.decodeFails == cb.decodeFails + (if a == Cb(DecodeFail) then 1 else 0)
            && cb'.allocDrops == cb.allocDrops + (if a == Cb(NoNode) then 1 else 0)
            && cb'.nextRaw == cb.nextRaw + (if a == Cb(Decode(true)) then 1 else 0)
            && |cb'.pushed| == |cb.pushed| + (if a == Cb(Link) then 1 else 0)
  {
    hide RawOf, Raws, BatchStep;
  }

  lemma {:induction false} CallbackCountsFrom(s: State, run: seq<Action>)
    requires Legal(s, run)
    ensures var cb, cb' := s.cb, After(s, run).cb;
            && cb'.rx == cb.rx + Times(run, Cb(Count))
            && cb'.decodeFails == cb.decodeFails + Times(run, Cb(DecodeFail))
            && cb'.allocDrops == cb.allocDrops + Times(run, Cb(NoNode))
            && cb'.nextRaw == cb.nextRaw + Times(run, Cb(Decode(true)))
            && |cb'.pushed| == |cb.pushed| + Times(run, Cb(Link))
    decreases |run|
  {
    hide Step, Enabled, Times;
    if run == [] {
      forall a ensures Times([], a) == 0 { NoTimes(a); }
    } else {
      forall a ensures Times(run, a) == (if run[0] == a then 1 else 0) + Times(run[1..], a) { TimesNext(run, a); }
      CallbackCounted(s, run[0]);
      CallbackCountsFrom(Step(s, run[0]), run[1..]);
    }
  }

  /** The counters of the callback are the numbers of its steps in the run, and each copied payload is one buffer. */
  lemma CallbackCounts(max: nat, run: seq<Action>)
    requires Legal(Init(max), run)
    ensures var cb := After(Init(max), run).cb;
            && cb.rx == Times(run, Cb(Count)) && cb.decodeFails == Times(run, Cb(DecodeFail))
            && cb.allocDrops == Times(run, Cb(NoNode)) && cb.nextRaw == Times(run, Cb(Decode(true)))
            && |cb.pushed| == Times(run, Cb(Link))
  {
    CallbackCountsFrom(Init(max), run);
  }

  /** The stop therefore always completes: a run that cannot be continued has joined the writer, closed the MQTT
      client and emptied the queue; at most one batch was popped after running was cleared. */
  lemma StopCompletes(s: State, run: seq<Action>)
    requires Reachable(s) && !s.sh.running && Legal(s, run)
    requires forall a :: !Enabled(After(s, run), a)
    ensures After(s, run).st.pc.Done? && Times(run, Wr(Pop)) <= 1 && |run| <= Measure(s)
  {
    hide Enabled, Flow, Recorded, Tables, Broadcasts, Owned, Times;
    AtMostOnePop(s, run);
    InvReachable(s);
    InvAfter(s, run);
    ShutdownIsBounded(s, run);
    StaysStopped(s, run);
    var t := After(s, run);
    if !t.st.pc.Done? { ShutdownNeverBlocks(t); }
  }

  lemma {:induction false} StaysStopped(s: State, run: seq<Action>)
    requires !s.sh.running && Legal(s, run)
    ensures !After(s, run).sh.running
    decreases |run|
  {
    hide Step, Enabled;
    if run != [] { StaysStoppedOnce(s, run[0]); StaysStopped(Step(s, run[0]), run[1..]); }
  }

  /** In particular a sleeping writer has been or will be woken: after the broadcast it no longer waits, and while the
      gateway runs it waits only on an empty queue or for the signal under way. */
  lemma NoLostWakeUpEver(s: State)
    requires Reachable(s) && s.wr.pc.Waiting?
    ensures s.sh.queue != [] ==> s.cb.pc.Signalling?
    ensures !s.sh.running ==> s.st.pc.Stopping? || s.st.pc.Notifying?
  {
    InvReachable(s);
  }

  /** A pop takes min(max, length) samples; it comes back with none only when running is cleared and the queue empty. */
  lemma EmptyPopMeansStopped(s: State)
    requires Reachable(s) && WriterEnabled(s, Pop)
    ensures var t := WriterStep(s, Pop);
            && t.wr.popped == s.wr.popped + s.sh.queue[..Min(|s.sh.queue|, s.sh.max)]
            && (t.wr.popped == s.wr.popped ==> !s.sh.running && s.sh.queue == [])
  {
    InvReachable(s);
  }

  /** The greatest length of the queue in the states of a run. */
  function Peak(s: State, run: seq<Action>): nat
    requires Legal(s, run)
    decreases |run|
  {
    if run == [] then |s.sh.queue|
    else
      var later := Peak(Step(s, run[0]), run[1..]);
      if later < |s.sh.queue| then |s.sh.queue| else later
  }

  lemma OnePeak(s: State, a: Action)
    requires Enabled(s, a) && |s.sh.queue| <= s.sh.maxLen
    ensures var t := Step(s, a);
            && |t.sh.queue| <= t.sh.maxLen
            && t.sh.maxLen == if |t.sh.queue| > s.sh.maxLen then |t.sh.queue| else s.sh.maxLen
  {
    hide RawOf, Raws, BatchStep;
  }

  lemma {:induction false} PeakFrom(s: State, run: seq<Action>)
    requires Legal(s, run) && |s.sh.queue| <= s.sh.maxLen
    ensures After(s, run).sh.maxLen == if Peak(s, run) > s.sh.maxLen then Peak(s, run) else s.sh.maxLen
    decreases |run|
  {
    hide Step, Enabled;
    if run != [] {
      OnePeak(s, run[0]);
      PeakFrom(Step(s, run[0]), run[1..]);
    }
  }

  /** q_len_max is the greatest length the queue ever had. */
  lemma MaxLenIsThePeak(max: nat, run: seq<Action>)
    requires Legal(Init(max), run)
    ensures After(Init(max), run).sh.maxLen == Peak(Init(max), run)
  {
    PeakFrom(Init(max), run);
  }

  // -------- ownership --------

  lemma {:induction false} AllocatedOnce(n: nat, x: nat)
    ensures Allocated(n)[x] == if x < n then 1 else 0
  {
    if n > 0 { AllocatedOnce(n - 1, x); }
  }

  /** No buffer is ever freed twice or freed while something still holds it. */
  lemma NeverFreedTwice(s: State, x: nat)
    requires Reachable(s)
    ensures Freed(s)[x] + Live(s)[x] == if x < s.cb.nextRaw then 1 else 0
  {
    hide Live, Freed;
    InvReachable(s);
    AllocatedOnce(s.cb.nextRaw, x);
  }

  /** When the gateway has stopped, every buffer has been freed, at exactly one of the four places. */
  lemma FreedExactlyOnce(s: State, x: nat)
    requires Reachable(s) && s.st.pc.Done? && x < s.cb.nextRaw
    ensures s.cb.freedDrop[x] + s.wr.freedBegin[x] + s.wr.freedBatch[x] + s.st.freedDrain[x] == 1
  {
    NeverFreedTwice(s, x);
    InvReachable(s);
    assert Live(s) == multiset{};
  }
}
