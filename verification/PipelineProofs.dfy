/** What every reachable state of the gateway pipeline keeps. */
module PipelineProofs {
  import opened Basics
  import opened Pipeline

  // -------- control: who owns the mutex, how far the threads have come, who may sleep --------

  predicate Control(s: State) {
    && (s.sh.owner == Some(Callback) <==> s.cb.pc.Linking? || s.cb.pc.Signalling? || s.cb.pc.Unlocking?)
    && (s.sh.owner == Some(Writer) <==> s.wr.pc.Testing? || s.wr.pc.Popping?)
    && (s.sh.owner == Some(Stopper) <==> s.st.pc.Notifying? || s.st.pc.Releasing?)
    && (s.sh.running <==> s.st.pc.Up?)
    && (s.wr.pc.Exited? ==> !s.sh.running)
    && (s.st.pc.Closing? || s.st.pc.Draining? || s.st.pc.Done? ==> s.wr.pc.Exited?)
    && (s.cb.pc.Closed? <==> s.st.pc.Draining? || s.st.pc.Done?)
    && (s.st.pc.Done? ==> s.sh.queue == [])
    && (s.st.drained != [] ==> s.st.pc.Draining? || s.st.pc.Done?)
  }

  /** A writer blocked in the wait has nothing to take, unless the callback is about to signal; and either the
      gateway runs or the stopper has still to broadcast. A pop finds nothing only when the gateway is stopping. */
  predicate NoLostWakeUp(s: State) {
    && (s.wr.pc.Waiting? ==> s.sh.queue == [] || s.cb.pc.Signalling?)
    && (s.wr.pc.Waiting? ==> s.sh.running || s.st.pc.Stopping? || s.st.pc.Notifying?)
    && (s.wr.pc.Popping? ==> !s.sh.running || s.sh.queue != [])
  }

  /** At most one pop completes after running is cleared. */
  predicate OneLatePop(s: State) {
    && (s.sh.running ==> s.wr.latePops == 0)
    && s.wr.latePops <= 1
    && (s.wr.latePops == 1 ==>
          !s.wr.pc.Acquiring? && !s.wr.pc.Testing? && !s.wr.pc.Waiting? && !s.wr.pc.Woken? && !s.wr.pc.Popping?)
  }

  predicate Sync(s: State) { Control(s) && NoLostWakeUp(s) && OneLatePop(s) }

  lemma SyncByCallback(s: State, a: CallbackAction)
    requires Sync(s) && CallbackEnabled(s, a)
    ensures Sync(CallbackStep(s, a))
  {
  }

  lemma SyncByWriter(s: State, a: WriterAction)
    requires Sync(s) && WriterEnabled(s, a)
    ensures Sync(WriterStep(s, a))
  {
  }

  lemma SyncByStopper(s: State, a: StopperAction)
    requires Sync(s) && StopperEnabled(s, a)
    ensures Sync(StopperStep(s, a))
  {
  }

  // -------- order and accounting --------

  predicate HasSample(cb: CallbackPc) { cb.Allocating? || cb.Locking? || cb.Linking? }

  predicate Increasing(ss: seq<Sample>) {
    forall i, j :: 0 <= i < j < |ss| ==> ss[i].id < ss[j].id
  }

  predicate Below(ss: seq<Sample>, n: nat) { forall i :: 0 <= i < |ss| ==> ss[i].id < n }

  /** Every sample linked into the queue is still there, or was popped, or was drained at the end, in that order. */
  predicate Order(s: State) {
    && s.cb.pushed == s.wr.popped + s.st.drained + s.sh.queue
    && |s.sh.queue| <= s.sh.maxLen
  }

  /** Samples are linked in order of arrival. */
  predicate Numbered(cb: CallbackState) {
    && Increasing(cb.pushed)
    && Below(cb.pushed, if cb.pc.Decoding? || HasSample(cb.pc) then cb.rx else cb.rx + 1)
    && (HasSample(cb.pc) ==> cb.pc.s.id == cb.rx)
  }

  function InCallback(cb: CallbackPc): nat { if cb.Decoding? || HasSample(cb) then 1 else 0 }

  function InWriter(wr: WriterPc): nat {
    if wr.Popped? || wr.Inserting? || wr.Ending? || wr.Counting? then |wr.batch| else 0
  }

  /** Every counted message is accounted for exactly once. */
  predicate Accounts(s: State) {
    s.cb.rx == s.cb.decodeFails + s.cb.allocDrops + s.wr.beginDrops + s.wr.dbRows
             + InCallback(s.cb.pc) + InWriter(s.wr.pc) + |s.sh.queue| + |s.st.drained|
  }

  predicate Flow(s: State) { Order(s) && Numbered(s.cb) && Accounts(s) }

  lemma OrderByCallback(s: State, a: CallbackAction)
    requires Sync(s) && Order(s) && CallbackEnabled(s, a)
    ensures Order(CallbackStep(s, a))
  {
    hide RawOf;
    if a.Link? {
      var t := CallbackStep(s, a);
      assert t.cb.pushed == t.wr.popped + t.st.drained + t.sh.queue;
    }
  }

  lemma NumberedByCallback(s: State, a: CallbackAction)
    requires Numbered(s.cb) && CallbackEnabled(s, a)
    ensures Numbered(CallbackStep(s, a).cb)
  {
    hide RawOf;
  }

  lemma AccountsByCallback(s: State, a: CallbackAction)
    requires Accounts(s) && CallbackEnabled(s, a)
    ensures Accounts(CallbackStep(s, a))
  {
    hide RawOf;
  }

  lemma FlowByCallback(s: State, a: CallbackAction)
    requires Sync(s) && Flow(s) && CallbackEnabled(s, a)
    ensures Flow(CallbackStep(s, a))
  {
    hide Sync, Order, Numbered, Accounts, CallbackStep;
    OrderByCallback(s, a);
    NumberedByCallback(s, a);
    AccountsByCallback(s, a);
  }

  lemma FlowByPop(s: State)
    requires Sync(s) && Flow(s) && WriterEnabled(s, Pop)
    ensures Flow(QueueStep(s, Pop))
  {
    var n := Min(|s.sh.queue|, s.sh.max);
    assert s.st.drained == [] && s.sh.queue == s.sh.queue[..n] + s.sh.queue[n..];
  }

  lemma FlowByWriter(s: State, a: WriterAction)
    requires Sync(s) && Flow(s) && WriterEnabled(s, a)
    ensures Flow(WriterStep(s, a))
  {
    hide RawOf, Raws, Sync;
    if a.Pop? { FlowByPop(s); }
  }

  lemma FlowByStopper(s: State, a: StopperAction)
    requires Sync(s) && Flow(s) && StopperEnabled(s, a)
    ensures Flow(StopperStep(s, a))
  {
    hide RawOf;
    if a.Drain? {
      assert s.sh.queue == [s.sh.queue[0]] + s.sh.queue[1..];
    }
  }

  // -------- the writer's transactions --------

  function Rows(log: seq<Record>): seq<Sample> {
    if log == [] then [] else Rows(log[..|log| - 1]) + log[|log| - 1].batch
  }

  function CommittedRows(log: seq<Record>): seq<Sample> {
    if log == [] then []
    else CommittedRows(log[..|log| - 1]) + if log[|log| - 1].outcome.Committed? then log[|log| - 1].batch else []
  }

  /** The number of samples whose transaction failed to begin, and of all others. */
  function Lost(log: seq<Record>): nat {
    if log == [] then 0
    else Lost(log[..|log| - 1]) + if log[|log| - 1].outcome.BeginFailed? then |log[|log| - 1].batch| else 0
  }

  function Written(log: seq<Record>): nat {
    if log == [] then 0
    else Written(log[..|log| - 1]) + if log[|log| - 1].outcome.BeginFailed? then 0 else |log[|log| - 1].batch|
  }

  lemma Snoc(log: seq<Record>, r: Record)
    ensures Rows(log + [r]) == Rows(log) + r.batch
    ensures CommittedRows(log + [r]) == CommittedRows(log) + if r.outcome.Committed? then r.batch else []
    ensures Lost(log + [r]) == Lost(log) + if r.outcome.BeginFailed? then |r.batch| else 0
    ensures Written(log + [r]) == Written(log) + if r.outcome.BeginFailed? then 0 else |r.batch|
  {
    assert (log + [r])[..|log|] == log;
  }

  predicate HasBatch(wr: WriterPc) {
    wr.Popped? || wr.Inserting? || wr.Ending? || wr.Counting? || wr.Sending?
  }

  /** The popped batch that has no record yet. */
  function Pending(wr: WriterPc): seq<Sample> {
    if wr.Popped? || wr.Inserting? || wr.Ending? then wr.batch else []
  }

  /** What is left to broadcast of the current batch. */
  function Unsent(wr: WriterPc): seq<Sample> {
    if wr.Sending? then (if wr.i <= |wr.batch| then wr.batch[wr.i..] else [])
    else if HasBatch(wr) then wr.batch
    else []
  }

  /** As long as no insert has failed, the open transaction holds the batch so far. */
  predicate Recorded(wr: WriterState, max: nat) {
    && max > 0
    && (wr.pc.Counting? || wr.pc.Sending? ==>
          wr.log != [] && wr.log[|wr.log| - 1].batch == wr.pc.batch && !wr.log[|wr.log| - 1].outcome.BeginFailed?)
    && (HasBatch(wr.pc) ==> 0 < |wr.pc.batch| <= max)
    && (wr.pc.Inserting? || wr.pc.Sending? ==> wr.pc.i <= |wr.pc.batch|)
    && (wr.pc.Inserting? && wr.pc.ok ==> wr.open == wr.pc.batch[..wr.pc.i])
    && (wr.pc.Ending? && wr.pc.ok ==> wr.open == wr.pc.batch)
    && (forall i :: 0 <= i < |wr.log| ==> 0 < |wr.log[i].batch| <= max)
  }

  /** The popped samples are those of the finished transactions and of the current one; the table holds, in order,
      exactly the batches whose transaction began and whose every insert succeeded; the counters follow. */
  predicate Tables(wr: WriterState) {
    && wr.popped == Rows(wr.log) + Pending(wr.pc)
    && wr.table == CommittedRows(wr.log)
    && wr.beginDrops == Lost(wr.log)
    && wr.dbRows + (if wr.pc.Counting? then |wr.pc.batch| else 0) == Written(wr.log)
  }

  predicate InBegun(x: Sample, log: seq<Record>) {
    exists k :: 0 <= k < |log| && x in log[k].batch && !log[k].outcome.BeginFailed?
  }

  /** Broadcasts are of samples whose transaction began, each at most once and in order of arrival. */
  predicate Broadcasts(wr: WriterState) {
    && Increasing(wr.sent)
    && Increasing(Unsent(wr.pc))
    && (forall x :: x in wr.sent ==> InBegun(x, wr.log))
    && Before(wr.sent, Unsent(wr.pc))
  }

  predicate Writes(s: State) { Recorded(s.wr, s.sh.max) && Tables(s.wr) && Broadcasts(s.wr) }

  lemma RecordedByBatch(wr: WriterState, a: WriterAction, max: nat)
    requires Recorded(wr, max) && OnBatch(wr.pc, a)
    ensures Recorded(BatchStep(wr, a), max)
  {
    hide RawOf, Raws;
  }

  lemma TablesByBatch(wr: WriterState, a: WriterAction, max: nat)
    requires Recorded(wr, max) && Tables(wr) && OnBatch(wr.pc, a)
    ensures Tables(BatchStep(wr, a))
  {
    hide RawOf, Raws, Rows, CommittedRows, Lost, Written;
    if a.Begin? && wr.pc.Popped? {
      Snoc(wr.log, Record(wr.pc.batch, BeginFailed));
    } else if a.End? && wr.pc.Ending? {
      Snoc(wr.log, Record(wr.pc.batch, if wr.pc.ok then Committed else RolledBack));
    }
    assert wr.popped == Rows(wr.log) + Pending(wr.pc);
  }

  lemma InBegunGrows(sent: seq<Sample>, log: seq<Record>, r: Record)
    requires forall x :: x in sent ==> InBegun(x, log)
    ensures forall x :: x in sent ==> InBegun(x, log + [r])
  {
    forall x | x in sent ensures InBegun(x, log + [r]) {
      var k :| 0 <= k < |log| && x in log[k].batch && !log[k].outcome.BeginFailed?;
      assert (log + [r])[k] == log[k];
    }
  }

  predicate Before(xs: seq<Sample>, ys: seq<Sample>) {
    forall i, j :: 0 <= i < |xs| && 0 <= j < |ys| ==> xs[i].id < ys[j].id
  }

  lemma MoveOne(xs: seq<Sample>, ys: seq<Sample>)
    requires Increasing(xs) && Increasing(ys) && Before(xs, ys) && ys != []
    ensures Increasing(xs + [ys[0]]) && Increasing(ys[1..]) && Before(xs, ys[1..]) && Before(xs + [ys[0]], ys[1..])
  {
  }

  lemma SendStep(wr: WriterState, printed: bool)
    requires wr.pc.Sending? && wr.pc.i < |wr.pc.batch|
    ensures var w := BatchStep(wr, Send(printed));
            && w.log == wr.log && Unsent(wr.pc) != [] && Unsent(w.pc) == Unsent(wr.pc)[1..]
            && w.sent == if printed then wr.sent + [Unsent(wr.pc)[0]] else wr.sent
  {
    hide RawOf;
  }

  lemma BroadcastsBySend(wr: WriterState, printed: bool, max: nat)
    requires Recorded(wr, max) && Broadcasts(wr) && wr.pc.Sending? && wr.pc.i < |wr.pc.batch|
    ensures Broadcasts(BatchStep(wr, Send(printed)))
  {
    hide InBegun, Increasing, Before, BatchStep;
    SendStep(wr, printed);
    MoveOne(wr.sent, Unsent(wr.pc));
    SentInBegun(Unsent(wr.pc)[0], wr);
  }

  lemma BroadcastsByBatch(wr: WriterState, a: WriterAction, max: nat)
    requires Recorded(wr, max) && Broadcasts(wr) && OnBatch(wr.pc, a)
    ensures Broadcasts(BatchStep(wr, a))
  {
    hide RawOf, Raws, InBegun;
    if a.Begin? && wr.pc.Popped? {
      InBegunGrows(wr.sent, wr.log, Record(wr.pc.batch, BeginFailed));
    } else if a.End? && wr.pc.Ending? {
      InBegunGrows(wr.sent, wr.log, Record(wr.pc.batch, if wr.pc.ok then Committed else RolledBack));
    } else if a.Account? && wr.pc.Counting? {
      assert wr.pc.batch[0..] == wr.pc.batch;
    } else if a.Send? && wr.pc.Sending? {
      BroadcastsBySend(wr, a.printed, max);
    }
  }

  lemma SentInBegun(x: Sample, wr: WriterState)
    requires wr.log != [] && x in wr.log[|wr.log| - 1].batch && !wr.log[|wr.log| - 1].outcome.BeginFailed?
    ensures InBegun(x, wr.log)
  {
  }

  lemma {:induction false} BegunIsPopped(x: Sample, log: seq<Record>)
    requires InBegun(x, log)
    ensures x in Rows(log)
  {
    var n := |log| - 1;
    if x !in log[n].batch {
      var k :| 0 <= k < |log| && x in log[k].batch && !log[k].outcome.BeginFailed?;
      assert log[..n][k] == log[k];
      BegunIsPopped(x, log[..n]);
    }
  }

  lemma PoppedHas(wr: WriterState, x: Sample) returns (p: nat)
    requires Tables(wr) && Broadcasts(wr) && x in wr.sent
    ensures p < |wr.popped| && wr.popped[p] == x
  {
    hide Rows, CommittedRows, Lost, Written, InBegun;
    BegunIsPopped(x, wr.log);
    assert x in wr.popped;
    p :| 0 <= p < |wr.popped| && wr.popped[p] == x;
  }

  /** A newly popped batch is later than everything broadcast before. */
  lemma QueueIsLater(s: State, n: nat)
    requires Flow(s) && Tables(s.wr) && Broadcasts(s.wr) && n <= |s.sh.queue| && s.st.drained == []
    ensures Before(s.wr.sent, s.sh.queue[..n]) && Increasing(s.sh.queue[..n])
  {
    hide Tables, Broadcasts, Accounts;
    var m := |s.wr.popped|;
    assert forall j :: 0 <= j < |s.sh.queue| ==> s.cb.pushed[m + j] == s.sh.queue[j];
    forall i, j | 0 <= i < |s.wr.sent| && 0 <= j < n ensures s.wr.sent[i].id < s.sh.queue[..n][j].id {
      var p := PoppedHas(s.wr, s.wr.sent[i]);
      assert s.cb.pushed[p] == s.wr.sent[i] && s.cb.pushed[m + j] == s.sh.queue[j];
    }
    forall i, j | 0 <= i < j < n ensures s.sh.queue[..n][i].id < s.sh.queue[..n][j].id {
      assert s.cb.pushed[m + i] == s.sh.queue[i] && s.cb.pushed[m + j] == s.sh.queue[j];
    }
  }

  lemma WritesByQueue(s: State, a: WriterAction)
    requires Sync(s) && Flow(s) && Writes(s) && WriterEnabled(s, a) && OnQueue(a)
    ensures Writes(QueueStep(s, a))
  {
    hide RawOf, Raws, Rows, CommittedRows, Lost, Written, InBegun, Flow, Before, Increasing;
    if a.Pop? {
      QueueIsLater(s, Min(|s.sh.queue|, s.sh.max));
    }
    NothingIsLater(s.wr.sent);
  }

  lemma NothingIsLater(xs: seq<Sample>)
    ensures Before(xs, []) && Increasing([])
  {
  }

  lemma WritesByWriter(s: State, a: WriterAction)
    requires Sync(s) && Flow(s) && Writes(s) && WriterEnabled(s, a)
    ensures Writes(WriterStep(s, a))
  {
    hide Sync, Flow, Recorded, Tables, Broadcasts, QueueStep, BatchStep;
    if OnQueue(a) {
      WritesByQueue(s, a);
    } else {
      RecordedByBatch(s.wr, a, s.sh.max);
      TablesByBatch(s.wr, a, s.sh.max);
      BroadcastsByBatch(s.wr, a, s.sh.max);
    }
  }

  /** The other threads change nothing of the writer's but, by waking it, its program counter. */
  lemma WritesByOthers(s: State, a: Action)
    requires Writes(s) && Enabled(s, a) && !a.Wr?
    ensures Writes(Step(s, a))
  {
    hide RawOf, Raws, Rows, CommittedRows, Lost, Written, InBegun;
  }

  // -------- ownership of the raw payloads --------

  function Allocated(n: nat): multiset<nat> {
    if n == 0 then multiset{} else Allocated(n - 1) + multiset{n - 1}
  }

  function Freed(s: State): multiset<nat> { s.cb.freedDrop + s.wr.freedBegin + s.wr.freedBatch + s.st.freedDrain }

  /** The buffers in the hands of the callback, of the queue and of the writer. */
  function Live(s: State): multiset<nat> {
    (if HasSample(s.cb.pc) then RawOf(s.cb.pc.s) else multiset{}) + Raws(s.sh.queue) + Raws(Unsent(s.wr.pc))
  }

  /** Each buffer allocated so far has exactly one owner or has been freed at exactly one place. */
  predicate Owned(s: State) { Allocated(s.cb.nextRaw) == Freed(s) + Live(s) }

  lemma {:induction false} RawsJoin(x: seq<Sample>, y: seq<Sample>)
    ensures Raws(x + y) == Raws(x) + Raws(y)
  {
    hide RawOf;
    if x == [] {
      assert x + y == y;
    } else {
      assert (x + y)[1..] == x[1..] + y;
      RawsJoin(x[1..], y);
    }
  }

  lemma RawsOfOne(s: Sample)
    ensures Raws([s]) == RawOf(s) && Raws([]) == multiset{}
  {
    hide RawOf;
    assert [s][1..] == [];
  }

  lemma OneMore(n: nat, id: nat)
    ensures Allocated(n + 1) == Allocated(n) + RawOf(Sample(id, Some(n)))
    ensures RawOf(Sample(id, None)) == multiset{}
  {
  }

  lemma OwnedByDecode(s: State, copied: bool)
    requires Owned(s) && CallbackEnabled(s, Decode(copied))
    ensures Owned(CallbackStep(s, Decode(copied)))
  {
    hide RawOf, Raws, Allocated;
    OneMore(s.cb.nextRaw, s.cb.rx);
  }

  lemma OwnedByDrop(s: State)
    requires Owned(s) && CallbackEnabled(s, NoNode)
    ensures Owned(CallbackStep(s, NoNode))
  {
    hide RawOf, Raws, Allocated;
  }

  lemma OwnedByLink(s: State)
    requires Owned(s) && CallbackEnabled(s, Link)
    ensures Owned(CallbackStep(s, Link))
  {
    hide RawOf, Raws, Allocated;
    RawsJoin(s.sh.queue, [s.cb.pc.s]);
    RawsOfOne(s.cb.pc.s);
  }

  /** The other steps of the callback move no buffer. */
  lemma OwnedByOthers(s: State, a: CallbackAction)
    requires CallbackEnabled(s, a) && !a.Decode? && !a.NoNode? && !a.Link?
    ensures Freed(CallbackStep(s, a)) == Freed(s) && Live(CallbackStep(s, a)) == Live(s)
    ensures CallbackStep(s, a).cb.nextRaw == s.cb.nextRaw
  {
    hide RawOf, Raws;
  }

  lemma OwnedByCallback(s: State, a: CallbackAction)
    requires Owned(s) && CallbackEnabled(s, a)
    ensures Owned(CallbackStep(s, a))
  {
    hide Freed, Live, Allocated, CallbackStep, CallbackEnabled;
    if a.Decode? {
      OwnedByDecode(s, a.copied);
    } else if a.NoNode? {
      OwnedByDrop(s);
    } else if a.Link? {
      OwnedByLink(s);
    } else {
      OwnedByOthers(s, a);
    }
  }

  /** The buffers of the writer: those it has freed and those it still holds. */
  function InWritersHands(wr: WriterState): multiset<nat> { wr.freedBegin + wr.freedBatch + Raws(Unsent(wr.pc)) }

  lemma OwnedByBegin(wr: WriterState, begun: bool)
    requires wr.pc.Popped?
    ensures InWritersHands(BatchStep(wr, Begin(begun))) == InWritersHands(wr)
  {
    hide RawOf, Raws;
    RawsOfOne(Sample(0, None));
  }

  lemma OwnedBySend(wr: WriterState, printed: bool)
    requires wr.pc.Sending? && wr.pc.i < |wr.pc.batch|
    ensures InWritersHands(BatchStep(wr, Send(printed))) == InWritersHands(wr)
  {
    hide RawOf, Raws;
    RawsFrom(wr.pc.batch, wr.pc.i);
  }

  lemma OwnedInBetween(wr: WriterState, a: WriterAction, max: nat)
    requires Recorded(wr, max) && OnBatch(wr.pc, a) && !a.Begin? && !a.Send?
    ensures var w := BatchStep(wr, a);
            w.freedBegin == wr.freedBegin && w.freedBatch == wr.freedBatch && Unsent(w.pc) == Unsent(wr.pc)
  {
    hide RawOf, Raws;
  }

  lemma OwnedByBatch(wr: WriterState, a: WriterAction, max: nat)
    requires Recorded(wr, max) && OnBatch(wr.pc, a)
    ensures InWritersHands(BatchStep(wr, a)) == InWritersHands(wr)
  {
    hide Raws, Recorded, BatchStep, Unsent;
    if a.Begin? {
      OwnedByBegin(wr, a.begun);
    } else if a.Send? {
      OwnedBySend(wr, a.printed);
    } else {
      OwnedInBetween(wr, a, max);
    }
  }

  lemma OwnedByPop(s: State)
    requires Owned(s) && WriterEnabled(s, Pop)
    ensures Owned(QueueStep(s, Pop))
  {
    hide RawOf, Raws, Allocated;
    RawsOfOne(Sample(0, None));
    var n := Min(|s.sh.queue|, s.sh.max);
    assert s.sh.queue == s.sh.queue[..n] + s.sh.queue[n..];
    RawsJoin(s.sh.queue[..n], s.sh.queue[n..]);
  }

  lemma Regroup(s: State)
    ensures Freed(s) + Live(s)
         == InWritersHands(s.wr) + (s.cb.freedDrop + s.st.freedDrain)
          + ((if HasSample(s.cb.pc) then RawOf(s.cb.pc.s) else multiset{}) + Raws(s.sh.queue))
  {
    hide RawOf, Raws;
  }

  lemma OwnedByWriter(s: State, a: WriterAction)
    requires Recorded(s.wr, s.sh.max) && Owned(s) && WriterEnabled(s, a)
    ensures Owned(WriterStep(s, a))
  {
    hide RawOf, Raws, Allocated, BatchStep, Recorded;
    if a.Pop? {
      OwnedByPop(s);
    } else if !OnQueue(a) {
      OwnedByBatch(s.wr, a, s.sh.max);
      Regroup(s);
      Regroup(WriterStep(s, a));
    }
  }

  lemma RawsFrom(ss: seq<Sample>, i: nat)
    requires i <= |ss|
    ensures i < |ss| ==> Raws(ss[i..]) == RawOf(ss[i]) + Raws(ss[i + 1..])
    ensures i == |ss| ==> Raws(ss[i..]) == multiset{}
  {
    hide RawOf;
    if i < |ss| { assert ss[i..][1..] == ss[i + 1..]; }
  }

  lemma OwnedByStopper(s: State, a: StopperAction)
    requires Sync(s) && Owned(s) && StopperEnabled(s, a)
    ensures Owned(StopperStep(s, a))
  {
    hide RawOf, Raws, Allocated;
    if a.Drain? {
      assert s.sh.queue[0..] == s.sh.queue;
      RawsFrom(s.sh.queue, 0);
    }
  }

  // -------- all of it, in every reachable state --------

  predicate Inv(s: State) { Sync(s) && Flow(s) && Writes(s) && Owned(s) }

  lemma InvKept(s: State, a: Action)
    requires Inv(s) && Enabled(s, a)
    ensures Inv(Step(s, a))
  {
    hide Sync, Flow, Recorded, Tables, Broadcasts, Owned, CallbackStep, WriterStep, StopperStep;
    match a {
      case Cb(c) =>
        SyncByCallback(s, c);
        FlowByCallback(s, c);
        WritesByOthers(s, a);
        OwnedByCallback(s, c);
      case Wr(w) =>
        SyncByWriter(s, w);
        FlowByWriter(s, w);
        WritesByWriter(s, w);
        OwnedByWriter(s, w);
      case St(t) =>
        SyncByStopper(s, t);
        FlowByStopper(s, t);
        WritesByOthers(s, a);
        OwnedByStopper(s, t);
    }
  }

  lemma {:induction false} InvAfter(s: State, run: seq<Action>)
    requires Inv(s) && Legal(s, run)
    ensures Inv(After(s, run))
    decreases |run|
  {
    hide Inv, Step, Enabled;
    if run != [] {
      InvKept(s, run[0]);
      InvAfter(Step(s, run[0]), run[1..]);
    }
  }

  lemma InvReachable(s: State)
    requires Reachable(s)
    ensures Inv(s)
  {
    var max: nat, run :| max > 0 && Legal(Init(max), run) && After(Init(max), run) == s;
    InvInit(max);
    InvAfter(Init(max), run);
  }

  lemma InvInit(max: nat)
    requires max > 0
    ensures Inv(Init(max))
  {
    hide Sync, Flow, Writes, Owned;
    SyncInit(max);
    FlowInit(max);
    WritesInit(max);
    OwnedInit(max);
  }

  lemma SyncInit(max: nat)
    ensures Sync(Init(max))
  {
  }

  lemma FlowInit(max: nat)
    ensures Flow(Init(max))
  {
  }

  lemma WritesInit(max: nat)
    requires max > 0
    ensures Writes(Init(max))
  {
    hide RawOf, Raws;
  }

  lemma OwnedInit(max: nat)
    ensures Owned(Init(max))
  {
  }
}
