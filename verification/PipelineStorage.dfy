/** What the gateway stores and broadcasts, as a function of what the environment answered: for every run, and from its
    actions alone, which transactions began, which of their inserts succeeded and which samples could be printed. */
module PipelineStorage {
  import opened Basics
  import opened Pipeline
  import opened PipelineProofs

  // -------- the answers of the environment --------

  /** Whether BEGIN succeeded, and the results of the inserts and of the JSON conversions so far. */
  datatype Answers = Answers(begun: bool, inserts: seq<bool>, prints: seq<bool>)

  function Answered(ts: seq<Answers>, a: Action): seq<Answers> {
    var n := |ts| - 1;
    match a
    case Wr(Begin(begun)) => ts + [Answers(begun, [], [])]
    case Wr(Insert(inserted)) => if n < 0 then ts else ts[n := ts[n].(inserts := ts[n].inserts + [inserted])]
    case Wr(Send(printed)) => if n < 0 then ts else ts[n := ts[n].(prints := ts[n].prints + [printed])]
    case _ => ts
  }

  /** The answers in a run, transaction by transaction. */
  function Transactions(run: seq<Action>): seq<Answers> {
    if run == [] then [] else Answered(Transactions(run[..|run| - 1]), run[|run| - 1])
  }

  predicate AllInserted(t: Answers) { t.begun && false !in t.inserts }

  function Verdict(t: Answers): Outcome {
    if !t.begun then BeginFailed else if AllInserted(t) then Committed else RolledBack
  }

  /** The batches whose transaction began and whose every insert succeeded. */
  function StoredRows(log: seq<Record>, ts: seq<Answers>): seq<Sample>
    requires |log| <= |ts|
  {
    if log == [] then []
    else StoredRows(log[..|log| - 1], ts) + if AllInserted(ts[|log| - 1]) then log[|log| - 1].batch else []
  }

  /** The samples of a batch that could be printed. */
  function Printed(batch: seq<Sample>, prints: seq<bool>): seq<Sample> {
    if prints == [] then []
    else
      var n := |prints| - 1;
      Printed(batch, prints[..n]) + if prints[n] && n < |batch| then [batch[n]] else []
  }

  function SentRows(log: seq<Record>, ts: seq<Answers>): seq<Sample>
    requires |log| <= |ts|
  {
    if log == [] then []
    else SentRows(log[..|log| - 1], ts) + Printed(log[|log| - 1].batch, ts[|log| - 1].prints)
  }

  // -------- the writer follows the answers --------

  predicate InTransaction(pc: WriterPc) { pc.Inserting? || pc.Ending? }

  /** How many samples of batch k have been converted so far. */
  function Converted(wr: WriterState, k: nat): nat
    requires k < |wr.log|
  {
    if wr.log[k].outcome.BeginFailed? then 0
    else if k == |wr.log| - 1 && wr.pc.Counting? then 0
    else if k == |wr.log| - 1 && wr.pc.Sending? then wr.pc.i
    else |wr.log[k].batch|
  }

  predicate Settled(wr: WriterState, ts: seq<Answers>, k: nat)
    requires k < |wr.log| <= |ts|
  {
    && wr.log[k].outcome == Verdict(ts[k])
    && |ts[k].inserts| == (if ts[k].begun then |wr.log[k].batch| else 0)
    && |ts[k].prints| == Converted(wr, k)
  }

  /** The transaction under way has as many answers as inserts done, and ok says whether all of them were good. */
  predicate Open(pc: WriterPc, t: Answers)
    requires InTransaction(pc)
  {
    && t.begun && t.prints == []
    && |t.inserts| == (if pc.Inserting? then pc.i else |pc.batch|)
    && (pc.ok <==> false !in t.inserts)
  }

  ghost predicate Follows(wr: WriterState, ts: seq<Answers>) {
    && |ts| == |wr.log| + (if InTransaction(wr.pc) then 1 else 0)
    && (forall k :: 0 <= k < |wr.log| ==> Settled(wr, ts, k))
    && (InTransaction(wr.pc) ==> Open(wr.pc, ts[|ts| - 1]))
    && wr.sent == SentRows(wr.log, ts)
  }

  lemma {:induction false} SentRowsLocal(log: seq<Record>, ts: seq<Answers>, us: seq<Answers>)
    requires |log| <= |ts| && |log| <= |us| && forall k :: 0 <= k < |log| ==> ts[k].prints == us[k].prints
    ensures SentRows(log, ts) == SentRows(log, us)
  {
    if log != [] { SentRowsLocal(log[..|log| - 1], ts, us); }
  }

  lemma SentRowsNext(log: seq<Record>, r: Record, ts: seq<Answers>)
    requires |log| < |ts|
    ensures SentRows(log + [r], ts) == SentRows(log, ts) + Printed(r.batch, ts[|log|].prints)
  {
    assert (log + [r])[..|log|] == log;
  }

  lemma PrintedNext(batch: seq<Sample>, prints: seq<bool>, printed: bool)
    requires |prints| < |batch|
    ensures Printed(batch, prints + [printed])
         == Printed(batch, prints) + if printed then [batch[|prints|]] else []
  {
    assert (prints + [printed])[..|prints|] == prints;
  }

  lemma FollowsByBegin(wr: WriterState, begun: bool, ts: seq<Answers>, max: nat)
    requires Recorded(wr, max) && Follows(wr, ts) && wr.pc.Popped?
    ensures Follows(BatchStep(wr, Begin(begun)), Answered(ts, Wr(Begin(begun))))
  {
    hide SentRows, Recorded, Raws, RawOf;
    var us := ts + [Answers(begun, [], [])];
    SentRowsLocal(wr.log, ts, us);
    if !begun {
      SentRowsNext(wr.log, Record(wr.pc.batch, BeginFailed), us);
    }
    var w := BatchStep(wr, Begin(begun));
    forall k | 0 <= k < |w.log| ensures Settled(w, us, k) {
      if k < |wr.log| { assert Settled(wr, ts, k); }
    }
  }

  lemma FollowsByInsert(wr: WriterState, inserted: bool, ts: seq<Answers>)
    requires Follows(wr, ts) && wr.pc.Inserting? && wr.pc.i < |wr.pc.batch|
    ensures Follows(BatchStep(wr, Insert(inserted)), Answered(ts, Wr(Insert(inserted))))
  {
    hide SentRows, Raws, RawOf;
    var us := Answered(ts, Wr(Insert(inserted)));
    SentRowsLocal(wr.log, ts, us);
    var w := BatchStep(wr, Insert(inserted));
    forall k | 0 <= k < |w.log| ensures Settled(w, us, k) {
      assert Settled(wr, ts, k);
    }
  }

  lemma FollowsByEnd(wr: WriterState, ts: seq<Answers>)
    requires Follows(wr, ts) && wr.pc.Ending?
    ensures Follows(BatchStep(wr, End), ts)
  {
    hide SentRows, Raws, RawOf;
    var w := BatchStep(wr, End);
    SentRowsNext(wr.log, w.log[|wr.log|], ts);
    forall k | 0 <= k < |w.log| ensures Settled(w, ts, k) {
      if k < |wr.log| { assert Settled(wr, ts, k); }
    }
  }

  lemma SentRowsMore(log: seq<Record>, ts: seq<Answers>, printed: bool)
    requires 0 < |log| == |ts| && |ts[|log| - 1].prints| < |log[|log| - 1].batch|
    ensures var n := |log| - 1;
            SentRows(log, Answered(ts, Wr(Send(printed))))
              == SentRows(log, ts) + if printed then [log[n].batch[|ts[n].prints|]] else []
  {
    hide Printed;
    var us, n := Answered(ts, Wr(Send(printed))), |log| - 1;
    SentRowsLocal(log[..n], ts, us);
    PrintedNext(log[n].batch, ts[n].prints, printed);
  }

  lemma FollowsBySend(wr: WriterState, printed: bool, ts: seq<Answers>, max: nat)
    requires Recorded(wr, max) && Follows(wr, ts) && wr.pc.Sending? && wr.pc.i < |wr.pc.batch|
    ensures Follows(BatchStep(wr, Send(printed)), Answered(ts, Wr(Send(printed))))
  {
    hide SentRows, Raws, RawOf, Verdict;
    var us, n := Answered(ts, Wr(Send(printed))), |wr.log| - 1;
    assert Settled(wr, ts, n);
    SentRowsMore(wr.log, ts, printed);
    var w := BatchStep(wr, Send(printed));
    forall k | 0 <= k < |w.log| ensures Settled(w, us, k) {
      assert Settled(wr, ts, k);
      SameVerdict(ts[k], us[k]);
    }
  }

  lemma SameVerdict(t: Answers, u: Answers)
    requires t.begun == u.begun && t.inserts == u.inserts
    ensures Verdict(t) == Verdict(u)
  {
  }

  lemma FollowsByBatch(wr: WriterState, a: WriterAction, ts: seq<Answers>, max: nat)
    requires Recorded(wr, max) && Follows(wr, ts) && OnBatch(wr.pc, a)
    ensures Follows(BatchStep(wr, a), Answered(ts, Wr(a)))
  {
    hide SentRows, Raws, RawOf;
    if a.Begin? {
      FollowsByBegin(wr, a.begun, ts, max);
    } else if a.Insert? {
      FollowsByInsert(wr, a.inserted, ts);
    } else if a.End? {
      FollowsByEnd(wr, ts);
    } else if a.Send? {
      FollowsBySend(wr, a.printed, ts, max);
    } else {
      forall k | 0 <= k < |wr.log| ensures Settled(BatchStep(wr, a), ts, k) {
        assert Settled(wr, ts, k);
      }
    }
  }

  /** All other steps leave the writer's log, its broadcasts and the answers as they are. */
  lemma FollowsElsewhere(s: State, a: Action, ts: seq<Answers>)
    requires Enabled(s, a) && Follows(s.wr, ts) && (a.Wr? ==> OnQueue(a.w))
    ensures Follows(Step(s, a).wr, Answered(ts, a))
  {
    hide SentRows, Raws, RawOf;
    var w := Step(s, a).wr;
    forall k | 0 <= k < |w.log| ensures Settled(w, ts, k) {
      assert Settled(s.wr, ts, k);
    }
  }

  lemma FollowsKept(s: State, a: Action, ts: seq<Answers>)
    requires Inv(s) && Enabled(s, a) && Follows(s.wr, ts)
    ensures Follows(Step(s, a).wr, Answered(ts, a))
  {
    hide Sync, Flow, Recorded, Tables, Broadcasts, Owned, Follows, BatchStep, QueueStep, Answered;
    if a.Wr? && !OnQueue(a.w) {
      FollowsByBatch(s.wr, a.w, ts, s.sh.max);
    } else {
      FollowsElsewhere(s, a, ts);
    }
  }

  // -------- runs --------

  /** The run leads from some initial state to s. */
  ghost predicate Reaches(run: seq<Action>, s: State) {
    exists max: nat :: max > 0 && Legal(Init(max), run) && After(Init(max), run) == s
  }

  lemma {:induction false} LastStep(s: State, run: seq<Action>)
    requires Legal(s, run) && run != []
    ensures var init := run[..|run| - 1];
            && Legal(s, init) && Enabled(After(s, init), run[|run| - 1])
            && After(s, run) == Step(After(s, init), run[|run| - 1])
    decreases |run|
  {
    hide Enabled, Step;
    if |run| > 1 {
      LastStep(Step(s, run[0]), run[1..]);
      assert run[1..][..|run| - 2] == run[..|run| - 1][1..];
    }
  }

  lemma {:induction false} FollowsAfter(max: nat, run: seq<Action>)
    requires max > 0 && Legal(Init(max), run)
    ensures Follows(After(Init(max), run).wr, Transactions(run))
    decreases |run|
  {
    hide Enabled, Step, Inv, Follows, Answered;
    if run == [] {
      NothingYet(max);
    } else {
      LastStep(Init(max), run);
      var init := run[..|run| - 1];
      FollowsAfter(max, init);
      InvInit(max);
      InvAfter(Init(max), init);
      FollowsKept(After(Init(max), init), run[|run| - 1], Transactions(init));
    }
  }

  lemma NothingYet(max: nat)
    ensures Follows(Init(max).wr, [])
  {
  }

  lemma FollowsReaches(run: seq<Action>, s: State)
    requires Reaches(run, s)
    ensures Inv(s) && Follows(s.wr, Transactions(run)) && Reachable(s)
  {
    hide Inv, Follows, Transactions;
    var max: nat :| max > 0 && Legal(Init(max), run) && After(Init(max), run) == s;
    FollowsAfter(max, run);
    InvReachable(s);
  }

  // -------- conservation --------

  lemma {:induction false} StoredIsCommitted(log: seq<Record>, ts: seq<Answers>)
    requires |log| <= |ts| && forall k :: 0 <= k < |log| ==> log[k].outcome == Verdict(ts[k])
    ensures StoredRows(log, ts) == CommittedRows(log)
  {
    if log != [] {
      var init := log[..|log| - 1];
      assert forall k :: 0 <= k < |init| ==> init[k] == log[k];
      StoredIsCommitted(init, ts);
    }
  }

  lemma Outcomes(wr: WriterState, ts: seq<Answers>)
    requires Follows(wr, ts)
    ensures |wr.log| <= |ts| && forall k :: 0 <= k < |wr.log| ==> wr.log[k].outcome == Verdict(ts[k])
  {
    hide SentRows, Verdict;
    forall k | 0 <= k < |wr.log| ensures wr.log[k].outcome == Verdict(ts[k]) {
      assert Settled(wr, ts, k);
    }
  }

  /** In every run: what was linked is what was popped, what was drained and what is queued, in order of arrival; every
      counted message is in exactly one place; the table holds, in order, exactly the batches whose BEGIN and every
      insert the environment let succeed; and exactly the samples that could be printed have been broadcast. */
  lemma ConservationAlways(run: seq<Action>, s: State)
    requires Reaches(run, s)
    ensures s.cb.pushed == s.wr.popped + s.st.drained + s.sh.queue && Increasing(s.cb.pushed)
    ensures s.cb.rx == s.cb.decodeFails + s.cb.allocDrops + s.wr.beginDrops + s.wr.dbRows
                     + InCallback(s.cb.pc) + InWriter(s.wr.pc) + |s.sh.queue| + |s.st.drained|
    ensures s.wr.popped == Rows(s.wr.log) + Pending(s.wr.pc)
    ensures var ts := Transactions(run);
            && |s.wr.log| <= |ts| && s.wr.table == StoredRows(s.wr.log, ts) && s.wr.sent == SentRows(s.wr.log, ts)
  {
    hide Sync, Recorded, Broadcasts, Owned, SentRows, StoredRows, Transactions;
    FollowsReaches(run, s);
    Outcomes(s.wr, Transactions(run));
    StoredIsCommitted(s.wr.log, Transactions(run));
  }

  /** When the gateway has stopped, every counted message failed to decode, was dropped for want of memory, belonged
      to a transaction that failed to begin, was counted in db_rows, or was drained. What was linked was popped or
      drained in the order of arrival; every popped sample belongs to a finished transaction, and one that began has
      had all its inserts and all its conversions answered. */
  lemma ConservationAtTheEnd(run: seq<Action>, s: State)
    requires Reaches(run, s) && s.st.pc.Done?
    ensures s.cb.rx == s.cb.decodeFails + s.cb.allocDrops + s.wr.beginDrops + s.wr.dbRows + |s.st.drained|
    ensures s.cb.pushed == s.wr.popped + s.st.drained && Increasing(s.cb.pushed)
    ensures s.wr.popped == Rows(s.wr.log) && s.wr.beginDrops == Lost(s.wr.log) && s.wr.dbRows == Written(s.wr.log)
    ensures var ts := Transactions(run);
            && |ts| == |s.wr.log|
            && forall k :: 0 <= k < |ts| && ts[k].begun ==>
                 |ts[k].inserts| == |ts[k].prints| == |s.wr.log[k].batch|
  {
    hide Recorded, Broadcasts, Owned, SentRows, Transactions;
    FollowsReaches(run, s);
    var ts := Transactions(run);
    assert s.cb.pushed == s.wr.popped + s.st.drained + [] == s.wr.popped + s.st.drained;
    forall k | 0 <= k < |ts| && ts[k].begun ensures |ts[k].inserts| == |ts[k].prints| == |s.wr.log[k].batch| {
      assert Settled(s.wr, ts, k);
    }
  }

  lemma {:induction false} WrittenOrRolledBack(log: seq<Record>)
    requires forall i :: 0 <= i < |log| ==> log[i].batch != []
    ensures |CommittedRows(log)| <= Written(log)
    ensures |CommittedRows(log)| == Written(log) <==> forall i :: 0 <= i < |log| ==> !log[i].outcome.RolledBack?
  {
    if log != [] {
      var init := log[..|log| - 1];
      assert forall i :: 0 <= i < |init| ==> init[i] == log[i];
      WrittenOrRolledBack(init);
    }
  }

  /** db_rows is the number of rows stored if and only if every insert of every begun transaction succeeded; otherwise
      it is more. */
  lemma DbRowsAreRowsStored(run: seq<Action>, s: State)
    requires Reaches(run, s) && !s.wr.pc.Counting?
    ensures |s.wr.table| <= s.wr.dbRows && |s.wr.log| <= |Transactions(run)|
    ensures s.wr.dbRows == |s.wr.table|
       <==> forall k :: 0 <= k < |s.wr.log| && Transactions(run)[k].begun ==> false !in Transactions(run)[k].inserts
  {
    hide Sync, Flow, Broadcasts, Owned, SentRows, Transactions;
    FollowsReaches(run, s);
    Outcomes(s.wr, Transactions(run));
    WrittenOrRolledBack(s.wr.log);
  }

  // -------- one sample --------

  lemma {:induction false} CommittedRowsHold(x: Sample, log: seq<Record>)
    ensures x in CommittedRows(log) <==> exists k :: 0 <= k < |log| && log[k].outcome.Committed? && x in log[k].batch
  {
    if log != [] {
      var n := |log| - 1;
      CommittedRowsHold(x, log[..n]);
      forall k | 0 <= k < n ensures log[..n][k] == log[k] {}
      assert x in CommittedRows(log) <==>
        x in CommittedRows(log[..n]) || (log[n].outcome.Committed? && x in log[n].batch);
      if k :| 0 <= k < n && log[..n][k].outcome.Committed? && x in log[..n][k].batch {
        assert log[k].outcome.Committed?;
      }
      if k :| 0 <= k < |log| && log[k].outcome.Committed? && x in log[k].batch && k != n {
        assert log[..n][k].outcome.Committed?;
      }
    }
  }

  lemma {:induction false} RowsPrefix(log: seq<Record>, k: nat)
    requires k <= |log|
    ensures Rows(log[..k]) <= Rows(log)
  {
    if k == |log| {
      assert log[..k] == log;
    } else {
      RowsPrefix(log[..|log| - 1], k);
      assert log[..|log| - 1][..k] == log[..k];
    }
  }

  lemma MoreRows(log: seq<Record>, j: nat, k: nat)
    requires j <= k <= |log|
    ensures |Rows(log[..j])| <= |Rows(log[..k])|
  {
    RowsPrefix(log[..k], j);
    assert log[..k][..j] == log[..j];
  }

  lemma RowAt(log: seq<Record>, k: nat, j: nat) returns (p: nat)
    requires k < |log| && j < |log[k].batch|
    ensures p == |Rows(log[..k])| + j && p < |Rows(log[..k + 1])| <= |Rows(log)| && Rows(log)[p] == log[k].batch[j]
  {
    RowsPrefix(log, k + 1);
    assert log[..k + 1][..k] == log[..k];
    p := |Rows(log[..k])| + j;
    assert Rows(log)[p] == Rows(log[..k + 1])[p];
  }

  /** A sample has one place in one batch only. */
  lemma OnePlace(log: seq<Record>, k: nat, j: nat, l: nat, i: nat)
    requires Increasing(Rows(log)) && k <= l < |log| && j < |log[k].batch| && i < |log[l].batch|
    requires log[k].batch[j] == log[l].batch[i]
    ensures k == l && j == i
  {
    hide Rows;
    var p := RowAt(log, k, j);
    var q := RowAt(log, l, i);
    if k < l {
      MoreRows(log, k + 1, l);
    }
  }

  lemma RowsIncrease(s: State)
    requires Flow(s) && Tables(s.wr)
    ensures Increasing(Rows(s.wr.log))
  {
    hide Rows, Accounts;
    var rows := Rows(s.wr.log);
    forall i, j | 0 <= i < j < |rows| ensures rows[i].id < rows[j].id {
      assert s.cb.pushed[i] == rows[i] && s.cb.pushed[j] == rows[j];
    }
  }

  /** A sample of a finished transaction is stored if and only if BEGIN and every insert of its batch succeeded. */
  lemma StoredExactlyWhen(run: seq<Action>, s: State, k: nat, j: nat)
    requires Reaches(run, s) && k < |s.wr.log| && j < |s.wr.log[k].batch|
    ensures |s.wr.log| <= |Transactions(run)|
    ensures s.wr.log[k].batch[j] in s.wr.table
       <==> Transactions(run)[k].begun && false !in Transactions(run)[k].inserts
  {
    hide Sync, Recorded, Broadcasts, Owned, CommittedRows, Rows, SentRows, Transactions;
    FollowsReaches(run, s);
    RowsIncrease(s);
    var log, x := s.wr.log, s.wr.log[k].batch[j];
    Outcomes(s.wr, Transactions(run));
    CommittedRowsHold(x, log);
    forall l | 0 <= l < |log| && x in log[l].batch ensures l == k {
      var i :| 0 <= i < |log[l].batch| && log[l].batch[i] == x;
      if k <= l { OnePlace(log, k, j, l, i); } else { OnePlace(log, l, i, k, j); }
    }
  }

  lemma {:induction false} PrintedHold(x: Sample, batch: seq<Sample>, prints: seq<bool>)
    ensures x in Printed(batch, prints) <==> exists j :: 0 <= j < |prints| && j < |batch| && prints[j] && batch[j] == x
  {
    if prints != [] {
      var n := |prints| - 1;
      var init := prints[..n];
      assert forall j :: 0 <= j < n ==> init[j] == prints[j];
      PrintedHold(x, batch, init);
      if j :| 0 <= j < |prints| && j < |batch| && prints[j] && batch[j] == x {
        assert j == n || init[j];
      }
    }
  }

  lemma {:induction false} SentRowsHold(x: Sample, log: seq<Record>, ts: seq<Answers>)
    requires |log| <= |ts|
    ensures x in SentRows(log, ts) <==> exists k :: 0 <= k < |log| && x in Printed(log[k].batch, ts[k].prints)
  {
    hide Printed;
    if log != [] {
      var n := |log| - 1;
      var init := log[..n];
      assert forall k :: 0 <= k < n ==> init[k] == log[k];
      SentRowsHold(x, init, ts);
      if k :| 0 <= k < |log| && x in Printed(log[k].batch, ts[k].prints) {
        assert k == n || x in Printed(init[k].batch, ts[k].prints);
      }
      if k :| 0 <= k < n && x in Printed(init[k].batch, ts[k].prints) {
        assert x in Printed(log[k].batch, ts[k].prints);
      }
    }
  }

  /** A sample of a finished transaction is broadcast if and only if its conversion has succeeded, whatever became of
      the transaction; and all broadcasts are in order of arrival, so each is made once. */
  lemma SentExactlyWhen(run: seq<Action>, s: State, k: nat, j: nat)
    requires Reaches(run, s) && k < |s.wr.log| && j < |s.wr.log[k].batch|
    ensures Increasing(s.wr.sent) && |s.wr.log| <= |Transactions(run)|
    ensures var prints := Transactions(run)[k].prints;
            s.wr.log[k].batch[j] in s.wr.sent <==> j < |prints| && prints[j]
  {
    hide Sync, Recorded, Owned, CommittedRows, Rows, SentRows, Printed, Transactions;
    FollowsReaches(run, s);
    RowsIncrease(s);
    var log, ts, x := s.wr.log, Transactions(run), s.wr.log[k].batch[j];
    SentRowsHold(x, log, ts);
    PrintedHold(x, log[k].batch, ts[k].prints);
    forall l | 0 <= l < |log| && x in Printed(log[l].batch, ts[l].prints)
      ensures l == k && j < |ts[k].prints| && ts[k].prints[j]
    {
      PrintedHold(x, log[l].batch, ts[l].prints);
      var i :| 0 <= i < |ts[l].prints| && i < |log[l].batch| && ts[l].prints[i] && log[l].batch[i] == x;
      if k <= l { OnePlace(log, k, j, l, i); } else { OnePlace(log, l, i, k, j); }
    }
  }

  /** Every broadcast sample has a place in a finished transaction, at which its conversion succeeded. */
  lemma PlaceOfSent(run: seq<Action>, s: State, x: Sample) returns (k: nat, j: nat)
    requires Reaches(run, s) && x in s.wr.sent
    ensures k < |s.wr.log| <= |Transactions(run)| && j < |s.wr.log[k].batch| && s.wr.log[k].batch[j] == x
    ensures j < |Transactions(run)[k].prints| && Transactions(run)[k].prints[j]
  {
    hide Inv, SentRows, Printed, Transactions;
    FollowsReaches(run, s);
    var log, ts := s.wr.log, Transactions(run);
    SentRowsHold(x, log, ts);
    k :| 0 <= k < |log| && x in Printed(log[k].batch, ts[k].prints);
    PrintedHold(x, log[k].batch, ts[k].prints);
    j :| 0 <= j < |ts[k].prints| && j < |log[k].batch| && ts[k].prints[j] && log[k].batch[j] == x;
  }

  lemma PrintsMeanBegun(run: seq<Action>, s: State, k: nat)
    requires Reaches(run, s) && k < |s.wr.log|
    ensures |s.wr.log| <= |Transactions(run)|
    ensures var t := Transactions(run)[k]; |t.prints| <= |s.wr.log[k].batch| && (t.prints != [] ==> t.begun)
  {
    hide Sync, Flow, Tables, Broadcasts, Owned, SentRows, Transactions;
    FollowsReaches(run, s);
    assert Settled(s.wr, Transactions(run), k);
  }

  /** The documented promise is that a sample is broadcast after it has been persisted. The code broadcasts after a
      rollback as well, so a run keeps the promise exactly when no transaction with a failed insert has a sample that
      could be printed. */
  lemma BroadcastIsStored(run: seq<Action>, s: State)
    requires Reaches(run, s)
    ensures (forall x :: x in s.wr.sent ==> x in s.wr.table)
       <==> forall t :: t in Transactions(run) ==> false !in t.inserts || true !in t.prints
  {
    hide Reaches, Transactions;
    var log, ts := s.wr.log, Transactions(run);
    LogIsAnswered(run, s);
    if forall x :: x in s.wr.sent ==> x in s.wr.table {
      forall k | 0 <= k < |ts| && true in ts[k].prints ensures false !in ts[k].inserts {
        PrintsMeanBegun(run, s, k);
        var j :| 0 <= j < |ts[k].prints| && ts[k].prints[j];
        SentExactlyWhen(run, s, k, j);
        StoredExactlyWhen(run, s, k, j);
      }
    }
    if forall t :: t in ts ==> false !in t.inserts || true !in t.prints {
      forall x | x in s.wr.sent ensures x in s.wr.table {
        var k, j := PlaceOfSent(run, s, x);
        assert ts[k] in ts;
        PrintsMeanBegun(run, s, k);
        StoredExactlyWhen(run, s, k, j);
      }
    }
  }

  lemma LogIsAnswered(run: seq<Action>, s: State)
    requires Reaches(run, s)
    ensures |s.wr.log| <= |Transactions(run)|
    ensures forall k :: |s.wr.log| <= k < |Transactions(run)| ==> Transactions(run)[k].prints == []
  {
    hide Inv, SentRows, Transactions;
    FollowsReaches(run, s);
  }

  lemma {:induction false} AfterOneMore(s: State, run: seq<Action>, a: Action)
    requires Legal(s, run) && Enabled(After(s, run), a)
    ensures Legal(s, run + [a]) && After(s, run + [a]) == Step(After(s, run), a)
    decreases |run|
  {
    hide Enabled, Step;
    if run == [] {
      assert [] + [a] == [a] && [a][1..] == [];
    } else {
      assert (run + [a])[1..] == run[1..] + [a];
      AfterOneMore(Step(s, run[0]), run[1..], a);
    }
  }

  lemma ReachableStep(s: State, a: Action)
    requires Reachable(s) && Enabled(s, a)
    ensures Reachable(Step(s, a))
  {
    hide Enabled, Step;
    var max: nat, run :| max > 0 && Legal(Init(max), run) && After(Init(max), run) == s;
    AfterOneMore(Init(max), run, a);
  }

  lemma Next(s: State, a: Action) returns (t: State)
    requires Reachable(s) && Enabled(s, a)
    ensures Reachable(t) && t == Step(s, a)
  {
    hide Enabled, Step;
    ReachableStep(s, a);
    t := Step(s, a);
  }

  /** The first message, decoded. */
  lemma OneDecoded() returns (s: State)
    ensures Reachable(s) && s.wr == Init(1).wr && s.sh == Init(1).sh && s.cb.pc == Locking(Sample(1, None))
  {
    s := Init(1);
    assert Legal(s, []) && After(s, []) == s;
    s := Next(s, Cb(Enter));
    s := Next(s, Cb(Count));
    s := Next(s, Cb(Decode(false)));
    s := Next(s, Cb(Node));
  }

  /** The first message, linked into the queue. */
  lemma OneLinked() returns (s: State)
    ensures Reachable(s) && s.wr == Init(1).wr && s.sh == Shared(1, true, None, [Sample(1, None)], 1)
  {
    hide Reachable, RawOf, Raws;
    s := OneDecoded();
    s := Next(s, Cb(Lock));
    s := Next(s, Cb(Link));
    assert s.sh.queue == [Sample(1, None)];
    s := Next(s, Cb(Signal));
    s := Next(s, Cb(Unlock));
  }

  /** The first message, popped by the writer. */
  lemma OnePopped() returns (s: State)
    ensures Reachable(s) && s.wr.pc == Popped([Sample(1, None)]) && s.wr.table == [] && s.wr.sent == []
  {
    hide Reachable, RawOf, Raws;
    s := OneLinked();
    s := Next(s, Wr(Loop));
    s := Next(s, Wr(Acquire));
    s := Next(s, Wr(Test));
    s := Next(s, Wr(Pop));
  }

  /** Its transaction, whose insert fails. */
  lemma OneInsertFailed() returns (s: State)
    ensures Reachable(s) && s.wr.pc == Inserting([Sample(1, None)], 1, false) && s.wr.table == [] && s.wr.sent == []
  {
    hide Reachable, RawOf, Raws;
    s := OnePopped();
    s := Next(s, Wr(Begin(true)));
    s := Next(s, Wr(Insert(false)));
  }

  lemma OneRolledBack() returns (s: State)
    ensures Reachable(s) && s.wr.pc == Counting([Sample(1, None)]) && s.wr.table == [] && s.wr.sent == []
  {
    hide Reachable, RawOf, Raws;
    s := OneInsertFailed();
    s := Next(s, Wr(InsertsOver));
    s := Next(s, Wr(End));
  }

  /** And the promise does fail: when its insert fails, a sample is broadcast but never stored. */
  lemma BroadcastWithoutStorage() returns (s: State, x: Sample)
    ensures Reachable(s) && x in s.wr.sent && x !in s.wr.table
  {
    s := OneRolledBack();
    x := Sample(1, None);
    s := Next(s, Wr(Account));
    s := Next(s, Wr(Send(true)));
    assert s.wr.sent == [x] && s.wr.table == [];
  }
}
