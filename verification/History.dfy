/** The answer to a history request: the newest rows, printed oldest first. */
module History {
  import opened Basics
  import opened SampleJson
  import opened Replay
  import opened StringBuffer
  import Scanner

  // -------- the query --------

  function Time(row: Row): int { ColInt64(Col(row, 0)) }

  /** The rows are ordered by the time of reception. */
  lemma TimeOfReception(row: Row, s: Sample)
    requires Stores(row, s) && Ranges(s)
    ensures Time(row) == s.receivedAt && Time(row) == ColInt64(row(ReceivedAt))
  {
    hide Stores;
    StoredRow(row, s);
  }

  ghost predicate NewestFirst(rows: seq<Row>) {
    forall i, j :: 0 <= i < j < |rows| ==> Time(rows[i]) >= Time(rows[j])
  }

  ghost predicate DistinctTimes(rows: multiset<Row>) {
    && (forall r :: r in rows ==> rows[r] == 1)
    && (forall r, s :: r in rows && s in rows && r != s ==> Time(r) != Time(s))
  }

  /** What SELECT ... ORDER BY received_at_ns DESC LIMIT may return; SQL leaves the order of equal times open. */
  ghost predicate IsAnswer(answer: seq<Row>, table: seq<Row>, limit: nat) {
    exists all :: NewestFirst(all) && multiset(all) == multiset(table) && answer == all[..Min(limit, |all|)]
  }

  function Reversed<T>(s: seq<T>): (r: seq<T>)
    ensures |r| == |s| && forall i :: 0 <= i < |s| ==> r[i] == s[|s| - 1 - i]
  {
    seq(|s|, i requires 0 <= i < |s| => s[|s| - 1 - i])
  }

  ghost predicate NoneNewer(left: seq<Row>, kept: seq<Row>) {
    forall i, j :: 0 <= i < |kept| && 0 <= j < |left| ==> Time(left[j]) <= Time(kept[i])
  }

  lemma TakenAndLeft(all: seq<Row>, n: nat)
    requires NewestFirst(all) && n <= |all|
    ensures multiset(all) == multiset(all[..n]) + multiset(all[n..])
    ensures NoneNewer(all[n..], all[..n])
  {
    hide Time;
    assert all == all[..n] + all[n..];
  }

  /** The items of a history are as many of the table's rows as the limit allows, none of them older than a row left
      out, in order of reception. */
  lemma ItemsAreTheNewest(answer: seq<Row>, table: seq<Row>, limit: nat)
    requires IsAnswer(answer, table, limit)
    ensures |answer| == Min(limit, |table|)
    ensures exists left: seq<Row> :: multiset(table) == multiset(answer) + multiset(left) && NoneNewer(left, answer)
    ensures forall i, j :: 0 <= i < j < |answer| ==> Time(Reversed(answer)[i]) <= Time(Reversed(answer)[j])
  {
    hide Time;
    var all :| NewestFirst(all) && multiset(all) == multiset(table) && answer == all[..Min(limit, |all|)];
    assert |all| == |multiset(all)| == |multiset(table)| == |table|;
    TakenAndLeft(all, Min(limit, |all|));
  }

  ghost predicate StrictlyNewestFirst(rows: seq<Row>) {
    forall i, j :: 0 <= i < j < |rows| ==> Time(rows[i]) > Time(rows[j])
  }

  lemma NoRepeat(rows: seq<Row>, i: nat, j: nat)
    requires i < j < |rows| && multiset(rows)[rows[i]] == 1
    ensures rows[i] != rows[j]
  {
    assert rows == rows[..j] + ([rows[j]] + rows[j + 1..]);
    assert rows[i] in rows[..j];
  }

  lemma Strict(rows: seq<Row>)
    requires NewestFirst(rows) && DistinctTimes(multiset(rows))
    ensures StrictlyNewestFirst(rows)
  {
    hide Time;
    forall i, j | 0 <= i < j < |rows| ensures Time(rows[i]) > Time(rows[j]) {
      assert rows[i] in multiset(rows) && rows[j] in multiset(rows);
      NoRepeat(rows, i, j);
    }
  }

  ghost predicate Among(xs: seq<Row>, ys: seq<Row>) {
    forall i :: 0 <= i < |xs| ==> xs[i] in ys
  }

  lemma {:induction false} OneOrder(xs: seq<Row>, ys: seq<Row>)
    requires StrictlyNewestFirst(xs) && StrictlyNewestFirst(ys) && Among(xs, ys) && Among(ys, xs)
    ensures xs == ys
  {
    hide Time;
    assert (ys != [] ==> ys[0] in xs) && (xs != [] ==> xs[0] in ys);
    if xs != [] {
      assert xs[0] in ys && ys[0] in xs;
      var i :| 0 <= i < |ys| && ys[i] == xs[0];
      var j :| 0 <= j < |xs| && xs[j] == ys[0];
      assert i == 0;
      TailAmong(xs, ys);
      TailAmong(ys, xs);
      OneOrder(xs[1..], ys[1..]);
      assert xs == [xs[0]] + xs[1..] && ys == [ys[0]] + ys[1..];
    }
  }

  lemma TailAmong(xs: seq<Row>, ys: seq<Row>)
    requires StrictlyNewestFirst(xs) && Among(xs, ys) && xs != [] && ys != [] && xs[0] == ys[0]
    ensures Among(xs[1..], ys[1..]) && StrictlyNewestFirst(xs[1..])
  {
    hide Time;
    forall i | 0 <= i < |xs| - 1 ensures xs[1..][i] in ys[1..] {
      assert xs[1 + i] in ys && xs[1 + i] != ys[0];
      var j :| 0 <= j < |ys| && ys[j] == xs[1 + i];
      assert ys[1..][j - 1] == ys[j];
    }
  }

  lemma SameElements(xs: seq<Row>, ys: seq<Row>)
    requires multiset(xs) == multiset(ys)
    ensures Among(xs, ys)
  {
    forall i | 0 <= i < |xs| ensures xs[i] in ys {
      assert xs[i] in multiset(ys);
    }
  }

  lemma ReversedPrefix(a: seq<Row>, b: seq<Row>)
    requires a <= b
    ensures Reversed(a) == Reversed(b)[|b| - |a|..]
  {
  }

  /** With distinct reception times a smaller limit gives the tail of what a larger one gives. */
  lemma SmallerLimitIsSuffix(a: seq<Row>, b: seq<Row>, table: seq<Row>, k: nat, l: nat)
    requires k <= l
    ensures IsAnswer(a, table, k) && IsAnswer(b, table, l) && DistinctTimes(multiset(table))
        ==> |a| <= |b| && Reversed(a) == Reversed(b)[|b| - |a|..]
  {
    hide Reversed, DistinctTimes, NewestFirst, StrictlyNewestFirst, Among;
    if !(IsAnswer(a, table, k) && IsAnswer(b, table, l) && DistinctTimes(multiset(table))) { return; }
    var xs :| NewestFirst(xs) && multiset(xs) == multiset(table) && a == xs[..Min(k, |xs|)];
    var ys :| NewestFirst(ys) && multiset(ys) == multiset(table) && b == ys[..Min(l, |ys|)];
    Strict(xs);
    Strict(ys);
    SameElements(xs, ys);
    SameElements(ys, xs);
    OneOrder(xs, ys);
    ReversedPrefix(a, b);
  }

  // -------- the text --------

  function Joined(items: seq<string>): string {
    if items == [] then "" else if |items| == 1 then items[0] else items[0] + "," + Joined(items[1..])
  }

  function Texts(rows: seq<Row>, f: Format): (r: seq<string>)
    ensures |r| == |rows|
  {
    seq(|rows|, i requires 0 <= i < |rows| => Replayed(rows[i], f))
  }

  const OPENING := "{\"type\":\"history\",\"items\":["

  /** The rows of an answer, which come newest first, as a JSON list that is oldest first. */
  function HistoryText(answer: seq<Row>, f: Format): string {
    OPENING + Joined(Texts(Reversed(answer), f)) + "]}"
  }

  /** No row, one row, and two rows of which x is the newer. */
  lemma ShortHistories(x: Row, y: Row, f: Format)
    ensures HistoryText([], f) == "{\"type\":\"history\",\"items\":[" + "]}"
    ensures HistoryText([x], f) == "{\"type\":\"history\",\"items\":[" + Replayed(x, f) + "]}"
    ensures HistoryText([x, y], f)
         == "{\"type\":\"history\",\"items\":[" + (Replayed(y, f) + "," + Replayed(x, f)) + "]}"
  {
    hide Replayed;
    assert Reversed<Row>([]) == [] && Texts([], f) == [];
    assert Reversed([x]) == [x] && Texts([x], f) == [Replayed(x, f)];
    assert Reversed([x, y]) == [y, x] && Texts([y, x], f) == [Replayed(y, f), Replayed(x, f)];
    assert Texts([y, x], f)[1..] == [Replayed(x, f)];
    assert OPENING + "" == OPENING;
    hide Texts, Reversed;
  }

  // -------- the printing, request for request to the allocator --------

  predicate HasMotors(row: Row) { Col(row, 16) != Null || Col(row, 22) != Null }

  /** append_row_as_sample_json on an empty buffer. */
  function RowTo(h: Heap, row: Row, f: Format): Result {
    var first := AppendFormattedTo(Buf("", 0, h), Concat(ReplayHead(row, f) + ReplayVectors(row, f)));
    if !first.ok then first else
    var second := if HasMotors(row) then AppendFormattedTo(first.buf, Concat(ReplayMotors(row))) else first;
    if !second.ok then second else AppendTo(second.buf, "}")
  }

  datatype Printed = Printed(rows: seq<string>, heap: Heap)

  /** The rows are printed in turn until a request is refused. */
  function RowsTo(h: Heap, answer: seq<Row>, f: Format): (r: Printed)
    ensures |r.rows| <= |answer|
    decreases |answer|
  {
    if answer == [] then Printed([], h) else
    var one := RowTo(h, answer[0], f);
    if !one.ok then Printed([], one.buf.heap) else
    var rest := RowsTo(one.buf.heap, answer[1..], f);
    Printed([one.buf.text] + rest.rows, rest.heap)
  }

  /** The first i printed rows are appended, the last one first. A refused append is passed over. */
  function DrainTo(b: Buf, rows: seq<string>, i: nat): Buf
    requires i <= |rows|
    decreases i
  {
    if i == 0 then b
    else
      var row := AppendTo(b, rows[i - 1]).buf;
      DrainTo(if i != 1 then AppendTo(row, ",").buf else row, rows, i - 1)
  }

  datatype Outcome = Outcome(ok: bool, json: string, heap: Heap)

  /** The rows that db_reader_history_last_json gets to print. */
  function PrintedRows(h: Heap, answer: seq<Row>, f: Format): Printed {
    RowsTo(AppendTo(Buf("", 0, h), OPENING).buf.heap.After(), answer, f)
  }

  /** db_reader_history_last_json once the query has answered. */
  function HistoryTo(h: Heap, answer: seq<Row>, f: Format): Outcome {
    var start := AppendTo(Buf("", 0, h), OPENING);
    if !start.ok then Outcome(false, "", start.buf.heap)
    else if !start.buf.heap.Grants() then Outcome(false, "", start.buf.heap.After())
    else
      var printed := PrintedRows(h, answer, f);
      var drained := DrainTo(start.buf.(heap := printed.heap), printed.rows, |printed.rows|);
      var closed := AppendTo(drained, "]}");
      Outcome(closed.ok, if closed.ok then closed.buf.text else "", closed.buf.heap)
  }

  // -------- what it prints --------

  lemma AppendFacts(b: Buf, s: string)
    ensures var r := AppendTo(b, s);
            && r.buf.text == (if r.ok then b.text + s else b.text)
            && r.buf.heap.refused == (if r.ok then b.heap.refused else b.heap.refused + 1)
            && (b.heap.Ample() ==> r.ok && r.buf.heap.Ample())
  {
  }

  lemma AppendFormattedFacts(b: Buf, s: string)
    ensures var r := AppendFormattedTo(b, s);
            && r.buf.text == (if r.ok then b.text + s else b.text)
            && r.buf.heap.refused == (if r.ok then b.heap.refused else b.heap.refused + 1)
            && (b.heap.Ample() ==> r.ok && r.buf.heap.Ample())
  {
  }

  /** Printing a row gives the whole replay text, or is refused one request and stops there. */
  lemma RowFacts(h: Heap, row: Row, f: Format)
    ensures var r := RowTo(h, row, f);
            && (r.ok ==> r.buf.text == Replayed(row, f))
            && r.buf.heap.refused == (if r.ok then h.refused else h.refused + 1)
            && (h.Ample() ==> r.ok && r.buf.heap.Ample())
  {
    hide Replayed, HasMotors, Concat, AppendFormattedTo, AppendTo, Heap.Ample, Heap.Grants, Heap.After;
    ReplayedParts(row, f);
    var start := Buf("", 0, h);
    var text, motors := Concat(ReplayHead(row, f) + ReplayVectors(row, f)), Concat(ReplayMotors(row));
    hide ReplayHead, ReplayVectors, ReplayMotors;
    AppendFormattedFacts(start, text);
    assert "" + text == text;
    var first := AppendFormattedTo(start, text);
    if first.ok {
      if HasMotors(row) {
        AppendFormattedFacts(first.buf, motors);
        AppendFacts(AppendFormattedTo(first.buf, motors).buf, "}");
      } else {
        AppendFacts(first.buf, "}");
      }
    }
  }

  lemma ReplayedParts(row: Row, f: Format)
    ensures var text := Concat(ReplayHead(row, f) + ReplayVectors(row, f));
            Replayed(row, f) == if HasMotors(row) then text + Concat(ReplayMotors(row)) + "}" else text + "}"
  {
    hide Col, ReplayHead, ReplayVectors, ReplayMotors, Concat;
  }

  lemma NoTexts(f: Format)
    ensures Texts([], f) == []
  {
  }

  lemma TextsNext(answer: seq<Row>, n: nat, f: Format)
    requires n < |answer|
    ensures Texts(answer[..n + 1], f) == [Replayed(answer[0], f)] + Texts(answer[1..][..n], f)
  {
    hide Replayed;
  }

  /** The printed rows are the first ones of the answer, and all of them unless one is refused. */
  lemma {:induction false} RowsFacts(h: Heap, answer: seq<Row>, f: Format)
    ensures var r := RowsTo(h, answer, f);
            && r.rows == Texts(answer[..|r.rows|], f)
            && r.heap.refused == (if |r.rows| == |answer| then h.refused else h.refused + 1)
            && (h.Ample() ==> |r.rows| == |answer| && r.heap.Ample())
    decreases |answer|
  {
    hide RowTo, Replayed, Texts;
    NoTexts(f);
    if answer != [] {
      RowFacts(h, answer[0], f);
      var one := RowTo(h, answer[0], f);
      if one.ok {
        RowsFacts(one.buf.heap, answer[1..], f);
        TextsNext(answer, |RowsTo(one.buf.heap, answer[1..], f).rows|, f);
      }
    }
  }

  /** What the draining loop appends for the rows below i if nothing is refused, the last one first. */
  function Drained(rows: seq<string>, i: nat): string
    requires i <= |rows|
  {
    if i == 0 then "" else rows[i - 1] + (if i != 1 then "," else "") + Drained(rows, i - 1)
  }

  lemma {:induction false} DrainedIsJoined(rows: seq<string>, i: nat)
    requires i <= |rows|
    ensures Drained(rows, i) == Joined(Reversed(rows[..i]))
  {
    if i > 1 {
      DrainedIsJoined(rows, i - 1);
      assert Reversed(rows[..i]) == [rows[i - 1]] + Reversed(rows[..i - 1]);
      assert Reversed(rows[..i])[1..] == Reversed(rows[..i - 1]);
    }
  }

  predicate NoneEmpty(rows: seq<string>) { forall i :: 0 <= i < |rows| ==> rows[i] != "" }

  /** Compared with what should have been appended, nothing is missing as long as nothing is refused; after a refusal
      something is. */
  predicate Appended(before: Buf, after: Buf, s: string) {
    && before.heap.refused <= after.heap.refused
    && (after.heap.refused == before.heap.refused ==> after.text == before.text + s)
    && (after.heap.refused > before.heap.refused ==> |after.text| < |before.text| + |s|)
  }

  lemma AppendedOne(b: Buf, s: string)
    requires s != ""
    ensures Appended(b, AppendTo(b, s).buf, s)
  {
    hide AppendTo;
    AppendFacts(b, s);
  }

  lemma AppendedTwo(b: Buf, c: Buf, d: Buf, s: string, t: string)
    requires Appended(b, c, s) && Appended(c, d, t)
    ensures Appended(b, d, s + t)
  {
    assert (b.text + s) + t == b.text + (s + t);
  }

  /** The draining loop appends everything exactly when nothing is refused. */
  lemma {:induction false} DrainExactlyWhen(b: Buf, rows: seq<string>, i: nat)
    requires i <= |rows| && NoneEmpty(rows)
    ensures Appended(b, DrainTo(b, rows, i), Drained(rows, i))
    decreases i
  {
    if i > 0 {
      hide AppendTo, Appended;
      var row := AppendTo(b, rows[i - 1]).buf;
      var next := if i != 1 then AppendTo(row, ",").buf else row;
      AppendedOne(b, rows[i - 1]);
      DrainExactlyWhen(next, rows, i - 1);
      if i != 1 {
        AppendedOne(row, ",");
        AppendedTwo(b, row, next, rows[i - 1], ",");
        AppendedTwo(b, next, DrainTo(next, rows, i - 1), rows[i - 1] + ",", Drained(rows, i - 1));
      } else {
        AppendedTwo(b, next, DrainTo(next, rows, 0), rows[0], "");
      }
    }
  }

  lemma {:induction false} DrainedGrows(rows: seq<string>, i: nat, j: nat)
    requires i < j <= |rows| && NoneEmpty(rows)
    ensures |Drained(rows, i)| < |Drained(rows, j)|
    decreases j
  {
    if i < j - 1 { DrainedGrows(rows, i, j - 1); }
  }

  lemma ReplayedIsSomething(row: Row, f: Format)
    ensures Replayed(row, f) != ""
  {
    hide Col, ReplayHead, ReplayVectors, ReplayMotors, Concat;
  }

  lemma TextsAreSomething(answer: seq<Row>, f: Format)
    ensures NoneEmpty(Texts(answer, f))
  {
    hide Replayed;
    forall i | 0 <= i < |answer| ensures Texts(answer, f)[i] != "" {
      ReplayedIsSomething(answer[i], f);
    }
  }

  lemma ReversedTexts(rows: seq<Row>, f: Format)
    ensures Reversed(Texts(rows, f)) == Texts(Reversed(rows), f)
  {
    hide Replayed;
  }

  /** The text of the first n rows of an answer is what draining their texts appends between the brackets. */
  lemma TextByDraining(answer: seq<Row>, n: nat, f: Format)
    requires n <= |answer|
    ensures HistoryText(answer[..n], f) == OPENING + Drained(Texts(answer, f), n) + "]}"
  {
    hide Joined, Reversed, Replayed, Drained;
    DrainedIsJoined(Texts(answer, f), n);
    ReversedTexts(answer[..n], f);
    assert Texts(answer, f)[..n] == Texts(answer[..n], f);
  }

  /** What draining and closing make of n printed rows. */
  lemma Finished(before: Buf, answer: seq<Row>, f: Format)
    requires before.text == OPENING
    ensures var d := DrainTo(before, Texts(answer, f), |answer|); var closed := AppendTo(d, "]}");
            closed.ok ==> Appended(before.(text := ""), closed.buf, HistoryText(answer, f))
  {
    hide AppendTo, DrainTo, HistoryText, Texts, NoneEmpty, Drained;
    var rows := Texts(answer, f);
    TextsAreSomething(answer, f);
    DrainExactlyWhen(before, rows, |answer|);
    AppendFacts(DrainTo(before, rows, |answer|), "]}");
    TextByDraining(answer, |answer|, f);
    assert answer[..|answer|] == answer;
  }

  /** When the source returns 0, the text has the brackets around what the draining loop managed to append; it is the
      history of the rows that were printed if and only if no append was refused while draining. */
  lemma WellFormedExactlyWhen(h: Heap, answer: seq<Row>, f: Format)
    ensures HistoryTo(h, answer, f).ok ==>
      var o, p := HistoryTo(h, answer, f), PrintedRows(h, answer, f);
      && |p.rows| <= |answer| && h.refused <= p.heap.refused <= o.heap.refused
      && (|p.rows| == |answer| <==> p.heap.refused == h.refused)
      && |o.json| <= |HistoryText(answer[..|p.rows|], f)|
      && (o.json == HistoryText(answer[..|p.rows|], f) <==> o.heap.refused == p.heap.refused)
  {
    hide AppendTo, RowsTo, DrainTo, HistoryText, Texts;
    var start, p := AppendTo(Buf("", 0, h), OPENING), PrintedRows(h, answer, f);
    AppendFacts(Buf("", 0, h), OPENING);
    RowsFacts(start.buf.heap.After(), answer, f);
    if start.ok {
      Finished(start.buf.(heap := p.heap), answer[..|p.rows|], f);
    }
  }

  lemma HistoriesGrow(answer: seq<Row>, n: nat, f: Format)
    requires n < |answer|
    ensures |HistoryText(answer[..n], f)| < |HistoryText(answer, f)|
  {
    hide Drained, HistoryText, Texts, NoneEmpty;
    TextsAreSomething(answer, f);
    TextByDraining(answer, n, f);
    TextByDraining(answer, |answer|, f);
    assert answer[..|answer|] == answer;
    DrainedGrows(Texts(answer, f), n, |answer|);
  }

  /** Every outcome: the call returns 0 with the whole history if and only if the allocator refused nothing. */
  lemma CompleteExactlyWhen(h: Heap, answer: seq<Row>, f: Format)
    ensures var o := HistoryTo(h, answer, f);
            o.ok && o.json == HistoryText(answer, f) <==> o.heap.refused == h.refused
  {
    hide AppendTo, RowsTo, DrainTo, HistoryText;
    var o, p := HistoryTo(h, answer, f), PrintedRows(h, answer, f);
    if o.ok {
      WellFormedExactlyWhen(h, answer, f);
      assert answer[..|answer|] == answer;
      if |p.rows| < |answer| { HistoriesGrow(answer, |p.rows|, f); }
    } else {
      FailureMeansRefusal(h, answer, f);
    }
  }

  lemma {:induction false} DrainRefuses(b: Buf, rows: seq<string>, i: nat)
    requires i <= |rows|
    ensures b.heap.refused <= DrainTo(b, rows, i).heap.refused
    ensures b.heap.Ample() ==> DrainTo(b, rows, i).heap.Ample() && DrainTo(b, rows, i).heap.refused == b.heap.refused
    decreases i
  {
    hide AppendTo;
    if i > 0 {
      AppendFacts(b, rows[i - 1]);
      var row := AppendTo(b, rows[i - 1]).buf;
      AppendFacts(row, ",");
      DrainRefuses(if i != 1 then AppendTo(row, ",").buf else row, rows, i - 1);
    }
  }

  lemma FailureMeansRefusal(h: Heap, answer: seq<Row>, f: Format)
    ensures !HistoryTo(h, answer, f).ok ==> HistoryTo(h, answer, f).heap.refused > h.refused
  {
    hide AppendTo, RowsTo, DrainTo;
    var start, p := AppendTo(Buf("", 0, h), OPENING), PrintedRows(h, answer, f);
    AppendFacts(Buf("", 0, h), OPENING);
    RowsFacts(start.buf.heap.After(), answer, f);
    var before := start.buf.(heap := p.heap);
    DrainRefuses(before, p.rows, |p.rows|);
    AppendFacts(DrainTo(before, p.rows, |p.rows|), "]}");
  }

  lemma AmpleIsComplete(h: Heap, answer: seq<Row>, f: Format)
    requires h.Ample()
    ensures var o := HistoryTo(h, answer, f); o.ok && o.json == HistoryText(answer, f) && o.heap.refused == h.refused
  {
    hide AppendTo, RowsTo, DrainTo, HistoryText;
    var start, p := AppendTo(Buf("", 0, h), OPENING), PrintedRows(h, answer, f);
    AppendFacts(Buf("", 0, h), OPENING);
    RowsFacts(start.buf.heap.After(), answer, f);
    var before := start.buf.(heap := p.heap);
    DrainRefuses(before, p.rows, |p.rows|);
    AppendFacts(DrainTo(before, p.rows, |p.rows|), "]}");
    CompleteExactlyWhen(h, answer, f);
  }

  // -------- the rows that the query delivers --------

  /** A running query: its answer, and the row at which a step of the engine fails, if one does. The source takes every
      result of a step but a row for the end of the answer. */
  datatype Query = Query(answer: seq<Row>, failsAt: Option<nat>)

  /** The rows that a loop over the steps gets to see. */
  function Delivered(q: Query): (r: seq<Row>)
    ensures r <= q.answer
  {
    if q.failsAt.Some? && q.failsAt.value < |q.answer| then q.answer[..q.failsAt.value] else q.answer
  }

  /** The first rows of an answer, at most limit of them. */
  function Upto(answer: seq<Row>, limit: nat): (r: seq<Row>)
    ensures r <= answer && |r| == Min(|answer|, limit)
  {
    answer[..Min(|answer|, limit)]
  }

  lemma DeliveredUpto(q: Query, limit: nat)
    ensures Upto(Delivered(q), limit) <= Upto(q.answer, limit)
    ensures Upto(Delivered(q), limit) == Upto(q.answer, limit)
       <==> q.failsAt.None? || q.failsAt.value >= Min(|q.answer|, limit)
  {
    if Upto(Delivered(q), limit) == Upto(q.answer, limit) {
      assert |Upto(Delivered(q), limit)| == Min(|q.answer|, limit);
    }
  }

  /** Every outcome: the call returns 0 with all rows of the answer up to the limit if and only if no request for memory
      is refused and no step fails before the last of these rows. */
  lemma AllRowsExactlyWhen(h: Heap, q: Query, limit: nat, f: Format)
    ensures var o := HistoryTo(h, Upto(Delivered(q), limit), f);
            (o.ok && o.json == HistoryText(Upto(q.answer, limit), f))
              <==> o.heap.refused == h.refused && (q.failsAt.None? || q.failsAt.value >= Min(|q.answer|, limit))
  {
    hide HistoryTo, HistoryText, Delivered, Upto;
    DeliveredUpto(q, limit);
    var seen, all := Upto(Delivered(q), limit), Upto(q.answer, limit);
    UptoFacts(q.answer, limit);
    CompleteExactlyWhen(h, seen, f);
    if seen != all {
      assert |seen| < |all| && all[..|seen|] == seen;
      HistoriesGrow(all, |seen|, f);
      NeverLonger(h, seen, f);
    }
  }

  lemma UptoFacts(answer: seq<Row>, limit: nat)
    ensures |Upto(answer, limit)| == Min(|answer|, limit)
  {
  }

  /** Nothing longer than the history of the delivered rows is ever returned. */
  lemma NeverLonger(h: Heap, answer: seq<Row>, f: Format)
    ensures HistoryTo(h, answer, f).ok ==> |HistoryTo(h, answer, f).json| <= |HistoryText(answer, f)|
  {
    hide HistoryTo, HistoryText, PrintedRows;
    if HistoryTo(h, answer, f).ok {
      WellFormedExactlyWhen(h, answer, f);
      var n := |PrintedRows(h, answer, f).rows|;
      assert answer[..|answer|] == answer;
      if n < |answer| { HistoriesGrow(answer, n, f); }
    }
  }

  /** A failing step goes unnoticed: with enough memory the call still returns 0, with a well-formed but shorter
      list. */
  lemma FailedStepUnnoticed(h: Heap, q: Query, limit: nat, f: Format)
    requires h.Ample() && q.failsAt.Some? && q.failsAt.value < Min(|q.answer|, limit)
    ensures var o := HistoryTo(h, Upto(Delivered(q), limit), f);
            && o.ok && o.json == HistoryText(q.answer[..q.failsAt.value], f)
            && |o.json| < |HistoryText(Upto(q.answer, limit), f)|
  {
    hide HistoryTo, HistoryText;
    var seen, all := Upto(Delivered(q), limit), Upto(q.answer, limit);
    assert seen == q.answer[..q.failsAt.value] == all[..q.failsAt.value];
    AmpleIsComplete(h, seen, f);
    HistoriesGrow(all, q.failsAt.value, f);
  }

  // -------- the code --------

  /** The statement that delivers the rows of a query. */
  class Statement {
    const query: Query
    var pos: nat

    constructor (query: Query)
      ensures this.query == query && pos == 0
    {
      this.query, pos := query, 0;
    }

    /** sqlite3_step: a row, or the end, or a failure, which the source does not tell from the end. */
    method Step() returns (row: Option<Row>)
      requires pos <= |Delivered(query)|
      modifies this
      ensures old(pos) < |Delivered(query)| ==> row == Some(Delivered(query)[old(pos)]) && pos == old(pos) + 1
      ensures old(pos) >= |Delivered(query)| ==> row == None && pos == old(pos)
    {
      if pos == |query.answer| || query.failsAt == Some(pos) { return None; }
      row := Some(query.answer[pos]);
      pos := pos + 1;
    }
  }

  /** append_row_as_sample_json on an empty buffer. */
  method PrintRow(row: Row, f: Format, mem: Memory) returns (ok: bool, json: string)
    modifies mem
    ensures var r := RowTo(old(mem.heap), row, f); ok == r.ok && mem.heap == r.buf.heap && (ok ==> json == r.buf.text)
  {
    hide Col, ReplayHead, ReplayVectors, ReplayMotors, Concat;
    hide StrBuf.Valid, StrBuf.Contents, AppendTo, AppendFormattedTo;
    var one := new StrBuf();
    json := "";
    ok := one.AppendFormatted(Concat(ReplayHead(row, f) + ReplayVectors(row, f)), mem);
    if !ok { return; }
    if Col(row, 16) != Null || Col(row, 22) != Null {
      ok := one.AppendFormatted(Concat(ReplayMotors(row)), mem);
      if !ok { return; }
    }
    ok := one.Append("}", mem);
    if !ok { return; }
    json := one.Text();
  }

  lemma RowsNext(h: Heap, answer: seq<Row>, f: Format)
    requires answer != []
    ensures var one := RowTo(h, answer[0], f);
            RowsTo(h, answer, f)
              == if !one.ok then Printed([], one.buf.heap)
                 else var rest := RowsTo(one.buf.heap, answer[1..], f);
                      Printed([one.buf.text] + rest.rows, rest.heap)
  {
    hide RowTo;
  }

  lemma NoRows(h: Heap, f: Format)
    ensures RowsTo(h, [], f) == Printed([], h)
  {
  }

  /** What is printed in all, when rows are printed already. */
  function Behind(rows: seq<string>, rest: Printed): Printed { Printed(rows + rest.rows, rest.heap) }

  lemma BehindNext(rows: seq<string>, h: Heap, answer: seq<Row>, f: Format)
    requires answer != []
    ensures var one := RowTo(h, answer[0], f);
            Behind(rows, RowsTo(h, answer, f))
              == if one.ok then Behind(rows + [one.buf.text], RowsTo(one.buf.heap, answer[1..], f))
                 else Printed(rows, one.buf.heap)
  {
    hide RowTo, RowsTo;
    RowsNext(h, answer, f);
    var one := RowTo(h, answer[0], f);
    if one.ok {
      var rest := RowsTo(one.buf.heap, answer[1..], f);
      assert rows + ([one.buf.text] + rest.rows) == (rows + [one.buf.text]) + rest.rows;
    }
  }

  lemma BehindNothing(rows: seq<string>, h: Heap, f: Format)
    ensures Behind(rows, RowsTo(h, [], f)) == Printed(rows, h)
    ensures Behind([], Printed(rows, h)) == Printed(rows, h)
  {
  }

  lemma Suffix(wanted: seq<Row>, n: nat)
    requires n < |wanted|
    ensures wanted[n..][0] == wanted[n] && wanted[n..][1..] == wanted[n + 1..]
  {
  }

  /** The loop that prints the rows that the steps deliver, at most limit of them. */
  method PrintRows(st: Statement, limit: nat, f: Format, mem: Memory) returns (rows: seq<string>)
    requires st.pos == 0
    modifies st, mem
    ensures Printed(rows, mem.heap) == RowsTo(old(mem.heap), Upto(Delivered(st.query), limit), f)
  {
    hide RowTo, RowsTo, Behind, Delivered;
    ghost var wanted := Upto(Delivered(st.query), limit);
    ghost var all := RowsTo(mem.heap, wanted, f);
    rows := [];
    assert wanted[0..] == wanted;
    BehindNothing(all.rows, all.heap, f);
    var row := st.Step();
    while row.Some? && |rows| < limit
      invariant |rows| <= |wanted| && all == Behind(rows, RowsTo(mem.heap, wanted[|rows|..], f))
      invariant st.pos <= |Delivered(st.query)|
      invariant if row.Some? then st.pos == |rows| + 1 && row.value == Delivered(st.query)[|rows|]
                else |rows| == |Delivered(st.query)|
      decreases limit - |rows|
    {
      Suffix(wanted, |rows|);
      BehindNext(rows, mem.heap, wanted[|rows|..], f);
      var ok, json := PrintRow(row.value, f, mem);
      if !ok { return; }
      rows := rows + [json];
      row := st.Step();
    }
    assert |rows| == |wanted|;
    BehindNothing(rows, mem.heap, f);
  }

  /** The loop that appends the printed rows in reverse; it ignores failures. */
  method AppendReversed(sb: StrBuf, rows: seq<string>, mem: Memory)
    requires sb.Valid()
    modifies sb, sb.buf, mem
    ensures sb.Valid() && (sb.buf == old(sb.buf) || fresh(sb.buf))
    ensures sb.State(mem) == DrainTo(old(sb.State(mem)), rows, |rows|)
  {
    hide AppendTo, StrBuf.Valid, StrBuf.Contents;
    ghost var all := DrainTo(sb.State(mem), rows, |rows|);
    var i := |rows|;
    while i > 0
      invariant 0 <= i <= |rows| && sb.Valid() && (sb.buf == old(sb.buf) || fresh(sb.buf))
      invariant DrainTo(sb.State(mem), rows, i) == all
    {
      var ok := sb.Append(rows[i - 1], mem);
      if i - 1 != 0 {
        ok := sb.Append(",", mem);
      }
      i := i - 1;
    }
  }

  /** The part of db_reader_history_last_json after the limit is clamped and bound. */
  method BuildHistory(st: Statement, limit: nat, f: Format, mem: Memory) returns (ok: bool, json: string)
    requires st.pos == 0
    modifies st, mem
    ensures Outcome(ok, json, mem.heap) == HistoryTo(old(mem.heap), Upto(Delivered(st.query), limit), f)
  {
    hide AppendTo, RowsTo, DrainTo, StrBuf.Valid, StrBuf.Contents, Delivered, Upto;
    json := "";
    var sb := new StrBuf();
    ok := sb.Append(OPENING, mem);
    if !ok { return; }
    ok := mem.Grant();
    if !ok { return; }
    var rows := PrintRows(st, limit, f, mem);
    AppendReversed(sb, rows, mem);
    ok := sb.Append("]}", mem);
    if !ok { return; }
    json := sb.Text();
  }

  /** db_reader_history_last_json, given how the query for each limit goes, if the statement can be prepared: it returns
      0 with the newest rows up to the clamped limit, oldest first, if and only if the statement is prepared, no request
      for memory is refused and no step fails before the last of these rows. */
  method HistoryLastJson(db: nat -> Option<Query>, limit: int, f: Format, mem: Memory) returns (ok: bool, json: string)
    modifies mem
    ensures var l := Scanner.Clamp(limit);
            match db(l)
            case None => !ok && mem.heap == old(mem.heap)
            case Some(q) =>
              && Outcome(ok, json, mem.heap) == HistoryTo(old(mem.heap), Upto(Delivered(q), l), f)
              && ((ok && json == HistoryText(Upto(q.answer, l), f))
                  <==> mem.heap.refused == old(mem.heap).refused
                       && (q.failsAt.None? || q.failsAt.value >= Min(|q.answer|, l)))
  {
    hide HistoryTo, HistoryText, Upto, Delivered;
    var l := limit;
    if l <= 0 { l := 300; }
    if l > 5000 { l := 5000; }
    var q := db(l);
    if q == None { return false, ""; }
    AllRowsExactlyWhen(mem.heap, q.value, l, f);
    var st := new Statement(q.value);
    ok, json := BuildHistory(st, l, f, mem);
  }

  // -------- from request to answer --------

  /** The list of these items has the newest rows of the table, as many as wanted, oldest first. */
  ghost predicate ListsNewest(items: seq<Row>, table: seq<Row>, wanted: nat) {
    && |items| == Min(wanted, |table|)
    && (exists left: seq<Row> :: multiset(table) == multiset(items) + multiset(left) && NoneNewer(left, items))
    && forall i, j :: 0 <= i < j < |items| ==> Time(items[i]) <= Time(items[j])
  }

  lemma ReversedSame(s: seq<Row>)
    ensures multiset(Reversed(s)) == multiset(s)
  {
    if s != [] {
      var init, last := s[..|s| - 1], s[|s| - 1];
      assert s == init + [last];
      assert Reversed(s) == [last] + Reversed(init);
      ReversedSame(init);
    }
  }

  lemma AnswerListsNewest(answer: seq<Row>, table: seq<Row>, wanted: nat)
    requires IsAnswer(answer, table, wanted)
    ensures ListsNewest(Reversed(answer), table, wanted)
  {
    hide Time, IsAnswer;
    ItemsAreTheNewest(answer, table, wanted);
    ReversedSame(answer);
    var left: seq<Row> :| multiset(table) == multiset(answer) + multiset(left) && NoneNewer(left, answer);
    assert NoneNewer(left, Reversed(answer));
  }

  lemma ClampOfScanned(last: int, l: Scanner.Literal)
    requires l.Literal? ==> l.digits != []
    requires Scanner.Reads(l, 300, last)
    ensures (l.Literal? ==> forall i :: 0 <= i < |l.digits| ==> Scanner.IsDigit(l.digits[i]))
    ensures Scanner.Clamp(last) == Scanner.RowsWanted(l)
  {
    hide Scanner.Number;
  }

  /** From the text of a request to the text of its answer: the answer lists the newest rows of the table, as many as
      the request asks for but at most 5000 and 300 when it asks for nothing positive, oldest first, if and only if no
      memory is refused and the engine delivers every row of the query's answer. */
  method AnswerRequest(txt: string, db: nat -> Option<Query>, ghost table: seq<Row>, f: Format, mem: Memory)
    returns (ok: bool, json: string, ghost items: seq<Row>)
    requires forall l :: 0 < l <= 5000 && db(l).Some? ==> IsAnswer(db(l).value.answer, table, l)
    modifies mem
    ensures var l := Scanner.RowsWanted(Scanner.FieldLiteral(txt, "\"last\""));
            if db(l).None? then !ok else
              && ListsNewest(items, table, l)
              && ((ok && json == OPENING + Joined(Texts(items, f)) + "]}")
                  <==> mem.heap.refused == old(mem.heap).refused && Delivered(db(l).value) == db(l).value.answer)
  {
    hide Joined, Texts, Reversed, ListsNewest, HistoryTo, IsAnswer, Delivered, Upto;
    hide Scanner.FieldLiteral, Scanner.RowsWanted;
    var last := Scanner.JsonFindInt(txt, "\"last\"", 300);
    LiteralHasDigits(txt);
    ClampOfScanned(last, Scanner.FieldLiteral(txt, "\"last\""));
    var l := Scanner.Clamp(last);
    ok, json := HistoryLastJson(db, last, f, mem);
    items := [];
    if db(l).Some? {
      var answer := db(l).value.answer;
      AnswerListsNewest(answer, table, l);
      AnswerFits(db(l).value, table, l);
      items := Reversed(answer);
    }
  }

  lemma LiteralHasDigits(txt: string)
    ensures var l := Scanner.FieldLiteral(txt, "\"last\""); l.Literal? ==> l.digits != []
  {
  }

  lemma AnswerFits(q: Query, table: seq<Row>, l: nat)
    requires IsAnswer(q.answer, table, l)
    ensures Upto(q.answer, l) == q.answer && Min(|q.answer|, l) == |q.answer|
    ensures Delivered(q) == q.answer <==> q.failsAt.None? || q.failsAt.value >= |q.answer|
  {
    ItemsAreTheNewest(q.answer, table, l);
  }
}
