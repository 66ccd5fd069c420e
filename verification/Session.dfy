/** A WebSocket connection after its handshake: the server's read loop and whole streams of frames. */
module Session {
  import opened Basics
  import opened Transport
  import opened FrameSpec
  import opened Frames
  import opened Delivery
  import Scanner

  type Blob = b: seq<byte> | |b| < 0x8000_0000_0000_0000 witness []

  /** A payload read as a C string: it ends at its first NUL. */
  function CString(payload: seq<byte>): string {
    if payload == [] || payload[0] == 0 then "" else [ToNat(payload[0]) as char] + CString(payload[1..])
  }

  const STATUS := "{\"type\":\"status\",\"status\":\"online\"}"
  const NO_DB := "{\"type\":\"error\",\"message\":\"db_not_available\"}"
  const QUERY_FAILED := "{\"type\":\"error\",\"message\":\"history_query_failed\"}"

  /** The history reader: the answer to a limit at the k-th frame, unless the query fails. */
  datatype Db = NoDb | Db(query: (nat, int) -> Option<Blob>)

  function TextMessage(text: Blob): Frame { Frame(true, 1, [], text) }

  function Control(opcode: nat, payload: seq<byte>): Frame
    requires opcode < 16
  {
    Frame(true, opcode, [], payload[..Min(|payload|, 125)])
  }

  /** The frames sent in reply to the k-th received message. */
  function Reply(m: Message, k: nat, db: Db): (r: seq<Frame>) {
    if m.opcode == 9 then [Control(10, m.payload)]
    else if m.opcode == 1 && Scanner.IsHistoryRequest(CString(m.payload)) then
      match db
      case NoDb => [TextMessage(Ascii(NO_DB))]
      case Db(query) =>
        var limit := Scanner.RowsWanted(Scanner.FieldLiteral(CString(m.payload), "\"last\""));
        match query(k, limit)
        case None => [TextMessage(Ascii(QUERY_FAILED))]
        case Some(json) => [TextMessage(json)]
    else []
  }

  /** Everything the server sends for the messages it reads, from the k-th on, in at most turns rounds. A close
      frame is answered by an empty one and ends the session. */
  function Replies(ms: seq<Message>, k: nat, turns: nat, db: Db): seq<Frame> {
    if ms == [] || turns == 0 then []
    else if ms[0].opcode == 8 then [Control(8, [])]
    else Reply(ms[0], k, db) + Replies(ms[1..], k + 1, turns - 1, db)
  }

  /** All frames of a session in which the server reads the messages ms. */
  function ServerFrames(ms: seq<Message>, turns: nat, db: Db): seq<Frame> {
    [TextMessage(Ascii(STATUS))] + Replies(ms, 0, turns, db)
  }

  lemma ReplyFrames(f: Frame)
    ensures f.fin && f.opcode == 1 && f.key == [] ==> Encode(f, MinimalForm(|f.payload|)) == TextFrame(f.payload)
    ensures f.fin && f.key == [] && |f.payload| <= 125 ==>
      Encode(f, MinimalForm(|f.payload|)) == ControlFrame(f.opcode, f.payload)
  {
    hide LengthBytes;
    if |f.payload| <= 125 {
      assert f.payload[..Min(|f.payload|, 125)] == f.payload;
    }
  }

  lemma ReplyBytes(f: Frame)
    requires f.fin && f.key == [] && (f.opcode == 1 || |f.payload| <= 125)
    ensures FrameBytes(f) == if f.opcode == 1 then TextFrame(f.payload) else ControlFrame(f.opcode, f.payload)
  {
    hide Encode, TextFrame, ControlFrame;
    ReplyFrames(f);
  }

  /** ws_send_text; like the source's callers, the model's ignore whether it succeeds. */
  method SendTextMessage(sock: Socket, text: Blob)
    modifies sock`sent, sock`sendPlan
    ensures SentSome(old(sock.sent), FrameBytes(TextMessage(text)), sock.sent)
    ensures Smooth(old(sock.sendPlan)) ==>
      Smooth(sock.sendPlan) && sock.sent == old(sock.sent) + FrameBytes(TextMessage(text))
  {
    hide FrameBytes, TextFrame;
    ReplyBytes(TextMessage(text));
    var ok := SendText(sock, text);
  }

  method SendControlMessage(sock: Socket, opcode: nat, payload: seq<byte>)
    requires opcode < 16 && opcode != 1
    modifies sock`sent, sock`sendPlan
    ensures SentSome(old(sock.sent), FrameBytes(Control(opcode, payload)), sock.sent)
    ensures Smooth(old(sock.sendPlan)) ==>
      Smooth(sock.sendPlan) && |sock.sent| == |old(sock.sent)| + |FrameBytes(Control(opcode, payload))|
  {
    hide FrameBytes;
    var f := Control(opcode, payload);
    ReplyBytes(f);
    assert ControlFrame(opcode, payload) == ControlFrame(opcode, f.payload) by {
      assert f.payload[..Min(|f.payload|, 125)] == f.payload;
    }
    hide ControlFrame;
    var ok := SendControl(sock, opcode, payload);
  }

  /** At most one frame, of which a part is sent, and all of it over a socket without faults. */
  ghost predicate SentReply(before: seq<byte>, fs: seq<Frame>, after: seq<byte>, smooth: bool) {
    && |fs| <= 1
    && (fs == [] ==> after == before)
    && (fs != [] ==> SentSome(before, FrameBytes(fs[0]), after))
    && (fs != [] && smooth ==> |after| == |before| + |FrameBytes(fs[0])|)
  }

  /** The part of the read loop that handles one message other than a close. */
  method Answer(sock: Socket, opcode: nat, payload: seq<byte>, k: nat, db: Db)
    modifies sock`sent, sock`sendPlan
    ensures SentReply(old(sock.sent), Reply(Message(opcode, payload), k, db), sock.sent, Smooth(old(sock.sendPlan)))
    ensures Smooth(old(sock.sendPlan)) ==> Smooth(sock.sendPlan)
  {
    hide FrameBytes, SentSome, Scanner.IsHistoryRequest, Scanner.RowsWanted, Ascii, Control, TextMessage;
    if opcode == 9 {
      SendControlMessage(sock, 10, payload);
      return;
    } else if opcode != 1 {
      return;
    }
    var text := CString(payload);
    if Scanner.IsHistoryRequest(text) {
      var limit := Scanner.HistoryLimit(text);
      match db {
        case NoDb => SendTextMessage(sock, Ascii(NO_DB));
        case Db(query) =>
          match query(k, limit) {
            case Some(json) => SendTextMessage(sock, json);
            case None => SendTextMessage(sock, Ascii(QUERY_FAILED));
          }
      }
    }
  }

  /** ws_recv_frame, seen as taking the next message off the stream. */
  method NextMessage(sock: Socket) returns (ok: bool, m: Message)
    modifies sock`incoming, sock`recvPlan
    ensures ok ==> |sock.incoming| < |old(sock.incoming)|
    ensures ok ==> ParseStream(old(sock.incoming), MAX_PAYLOAD) == [m] + ParseStream(sock.incoming, MAX_PAYLOAD)
    ensures Smooth(old(sock.recvPlan)) ==>
      Smooth(sock.recvPlan) && (!ok ==> ParseStream(old(sock.incoming), MAX_PAYLOAD) == [])
  {
    hide ParseFrame;
    var opcode, payload, len;
    ok, opcode, payload, len := RecvFrame(sock);
    m := Message(opcode, if ok then payload[..len] else []);
  }

  /** What the read loop sends on one message. */
  function TurnFrames(m: Message, k: nat, db: Db): seq<Frame> {
    if m.opcode == 8 then [Control(8, [])] else Reply(m, k, db)
  }

  /** The read loop on one message; after a close it ends. */
  method Turn(sock: Socket, m: Message, k: nat, db: Db)
    modifies sock`sent, sock`sendPlan
    ensures SentReply(old(sock.sent), TurnFrames(m, k, db), sock.sent, Smooth(old(sock.sendPlan)))
    ensures Smooth(old(sock.sendPlan)) ==> Smooth(sock.sendPlan)
  {
    hide Reply, Control, FrameBytes, SentSome;
    if m.opcode == 8 {
      SendControlMessage(sock, 8, []);
    } else {
      Answer(sock, m.opcode, m.payload, k, db);
    }
  }

  // -------- the replies to a growing list of messages --------

  predicate NoClose(ms: seq<Message>) { forall i :: 0 <= i < |ms| ==> ms[i].opcode != 8 }

  lemma {:induction false} RepliesGrow(ms: seq<Message>, m: Message, k: nat, turns: nat, db: Db)
    requires NoClose(ms) && |ms| < turns
    ensures Replies(ms + [m], k, turns, db) == Replies(ms, k, turns, db) + TurnFrames(m, k + |ms|, db)
  {
    hide Replies, Reply, Control;
    if ms == [] {
      NoReplies([], k, turns, db);
      RepliesNext(m, [], k, turns, db);
      NoReplies([], k + 1, turns - 1, db);
      assert [] + [m] == [m] + [];
    } else {
      assert ms + [m] == [ms[0]] + (ms[1..] + [m]) && ms == [ms[0]] + ms[1..];
      RepliesNext(ms[0], ms[1..] + [m], k, turns, db);
      RepliesNext(ms[0], ms[1..], k, turns, db);
      RepliesGrow(ms[1..], m, k + 1, turns - 1, db);
    }
  }

  /** Behind a close, and when the loop has run its turns, nothing more is answered. */
  lemma {:induction false} RepliesEnd(ms: seq<Message>, rest: seq<Message>, k: nat, turns: nat, db: Db)
    requires |ms| >= turns || !NoClose(ms)
    ensures Replies(ms + rest, k, turns, db) == Replies(ms, k, turns, db)
  {
    hide Replies, Reply, Control;
    if turns == 0 {
      NoReplies(ms, k, 0, db);
      NoReplies(ms + rest, k, 0, db);
    } else {
      assert ms + rest == [ms[0]] + (ms[1..] + rest) && ms == [ms[0]] + ms[1..];
      RepliesNext(ms[0], ms[1..] + rest, k, turns, db);
      RepliesNext(ms[0], ms[1..], k, turns, db);
      if ms[0].opcode != 8 { RepliesEnd(ms[1..], rest, k + 1, turns - 1, db); }
    }
  }

  lemma FramesGrow(ms: seq<Message>, m: Message, turns: nat, db: Db)
    requires NoClose(ms) && |ms| < turns
    ensures ServerFrames(ms + [m], turns, db) == ServerFrames(ms, turns, db) + TurnFrames(m, |ms|, db)
  {
    hide Replies, TextMessage, TurnFrames;
    RepliesGrow(ms, m, 0, turns, db);
  }

  lemma FramesEnd(ms: seq<Message>, rest: seq<Message>, turns: nat, db: Db)
    requires |ms| >= turns || !NoClose(ms) || rest == []
    ensures ServerFrames(ms + rest, turns, db) == ServerFrames(ms, turns, db)
  {
    hide Replies, TextMessage;
    if rest == [] { assert ms + rest == ms; } else { RepliesEnd(ms, rest, 0, turns, db); }
  }

  lemma NoMessages(turns: nat, db: Db)
    ensures ServerFrames([], turns, db) == [TextMessage(Ascii(STATUS))]
  {
  }

  /** Of each frame a part, given by cuts, has been sent behind before; all of it over a socket without faults. */
  ghost predicate SentFrames(before: seq<byte>, fs: seq<Frame>, cuts: seq<nat>, after: seq<byte>, smooth: bool) {
    && Cuts(fs, cuts)
    && after == before + CutWire(fs, cuts)
    && (smooth ==> AllWhole(fs, cuts))
  }

  lemma NothingSent(before: seq<byte>, smooth: bool)
    ensures SentFrames(before, [], [], before, smooth)
  {
  }

  lemma OneReplySent(before: seq<byte>, fs: seq<Frame>, cuts: seq<nat>, mid: seq<byte>, reply: seq<Frame>,
                     after: seq<byte>, smooth: bool, now: bool)
    returns (more: seq<nat>)
    requires SentFrames(before, fs, cuts, mid, smooth) && SentReply(mid, reply, after, now) && (smooth ==> now)
    ensures SentFrames(before, fs + reply, more, after, smooth)
  {
    hide FrameBytes, CutWire, AllWhole, Cuts;
    if reply == [] {
      more := cuts;
      assert fs + reply == fs;
    } else {
      var k :| 0 <= k <= |FrameBytes(reply[0])| && after == mid + FrameBytes(reply[0])[..k];
      more := cuts + [k];
      OneMoreFrame(fs, cuts, reply[0], k);
      assert reply == [reply[0]];
      Behind(before, CutWire(fs, cuts), FrameBytes(reply[0])[..k]);
    }
  }

  lemma Behind(a: seq<byte>, b: seq<byte>, c: seq<byte>)
    ensures (a + b) + c == a + (b + c)
  {
  }

  /** client_thread after the handshake. The loop condition reads two flags that other threads may clear at any
      time; turns is how often it finds them set. Whatever reads and writes fail, the server has sent, of each frame
      in reply to the messages ms that it has read, the part that cuts gives, one behind the other. */
  method ClientLoop(sock: Socket, turns: nat, db: Db) returns (ghost ms: seq<Message>, ghost cuts: seq<nat>)
    modifies sock
    ensures ms <= ParseStream(old(sock.incoming), MAX_PAYLOAD)
    ensures SentFrames(old(sock.sent), ServerFrames(ms, turns, db), cuts, sock.sent, Smooth(old(sock.sendPlan)))
    ensures Smooth(old(sock.recvPlan)) ==>
      ServerFrames(ms, turns, db) == ServerFrames(ParseStream(old(sock.incoming), MAX_PAYLOAD), turns, db)
    ensures Smooth(old(sock.sendPlan)) && Smooth(old(sock.recvPlan)) ==>
      sock.sent == old(sock.sent) + Wire(ServerFrames(ParseStream(old(sock.incoming), MAX_PAYLOAD), turns, db))
  {
    hide Wire, Reply, Control, ParseStream, Ascii, ServerFrames, TextMessage, TurnFrames;
    hide Smooth, SentFrames, SentReply, CutWire, AllWhole;
    ghost var all, before := ParseStream(sock.incoming, MAX_PAYLOAD), sock.sent;
    ghost var smooth, readable := Smooth(sock.sendPlan), Smooth(sock.recvPlan);
    ms := [];
    NoMessages(turns, db);
    NothingSent(before, smooth);
    SendTextMessage(sock, Ascii(STATUS));
    StatusSent(before, TextMessage(Ascii(STATUS)), sock.sent, smooth);
    cuts := OneReplySent(before, [], [], before, [TextMessage(Ascii(STATUS))], sock.sent,
                         smooth, smooth);
    assert [] + [TextMessage(Ascii(STATUS))] == [TextMessage(Ascii(STATUS))];
    ghost var rest := all;
    assert all == [] + rest;
    var k := 0;
    while k < turns
      invariant k == |ms| <= turns && NoClose(ms)
      invariant rest == ParseStream(sock.incoming, MAX_PAYLOAD) && all == ms + rest
      invariant (smooth ==> Smooth(sock.sendPlan)) && (readable ==> Smooth(sock.recvPlan))
      invariant SentFrames(before, ServerFrames(ms, turns, db), cuts, sock.sent, smooth)
    {
      var ok, m := NextMessage(sock);
      if !ok {
        assert readable ==> rest == [];
        break;
      }
      rest := ParseStream(sock.incoming, MAX_PAYLOAD);
      FramesGrow(ms, m, turns, db);
      ghost var mid, now := sock.sent, Smooth(sock.sendPlan);
      Turn(sock, m, k, db);
      cuts := OneReplySent(before, ServerFrames(ms, turns, db), cuts, mid, TurnFrames(m, |ms|, db), sock.sent,
                           smooth, now);
      assert all == (ms + [m]) + rest;
      ms := ms + [m];
      if m.opcode == 8 {
        assert ms[|ms| - 1].opcode == 8;
        break;
      }
      k := k + 1;
    }
    FramesEnd(ms, if readable || |ms| >= turns || !NoClose(ms) then rest else [], turns, db);
    AllSent(before, ServerFrames(ms, turns, db), cuts, sock.sent, smooth);
  }

  lemma StatusSent(before: seq<byte>, f: Frame, after: seq<byte>, smooth: bool)
    requires SentSome(before, FrameBytes(f), after) && (smooth ==> |after| == |before| + |FrameBytes(f)|)
    ensures SentReply(before, [f], after, smooth)
  {
    hide SentSome, FrameBytes;
  }

  lemma AllSent(before: seq<byte>, fs: seq<Frame>, cuts: seq<nat>, after: seq<byte>, smooth: bool)
    requires SentFrames(before, fs, cuts, after, smooth)
    ensures smooth ==> after == before + Wire(fs)
  {
    hide Wire, CutWire, FrameBytes;
    if smooth { WholeIsWire(fs, cuts); }
  }

  lemma NoReplies(ms: seq<Message>, k: nat, turns: nat, db: Db)
    ensures ms == [] || turns == 0 ==> Replies(ms, k, turns, db) == []
  {
  }

  lemma RepliesNext(m: Message, rest: seq<Message>, k: nat, turns: nat, db: Db)
    requires turns > 0
    ensures Replies([m] + rest, k, turns, db)
         == if m.opcode == 8 then [Control(8, [])] else Reply(m, k, db) + Replies(rest, k + 1, turns - 1, db)
  {
    hide Reply, Control;
    assert ([m] + rest)[1..] == rest;
  }

  // -------- whole streams --------

  /** ws_recv_frame until it fails. */
  method ReceiveAll(sock: Socket) returns (ms: seq<Message>)
    modifies sock`incoming, sock`recvPlan
    ensures Smooth(old(sock.recvPlan)) ==> ms == ParseStream(old(sock.incoming), MAX_PAYLOAD)
  {
    hide ParseStream, Smooth;
    ms := [];
    ghost var smooth, all := Smooth(sock.recvPlan), ParseStream(sock.incoming, MAX_PAYLOAD);
    var more := true;
    while more
      invariant smooth ==> Smooth(sock.recvPlan)
      invariant smooth ==> all == ms + if more then ParseStream(sock.incoming, MAX_PAYLOAD) else []
      decreases more, |sock.incoming|
    {
      var m;
      more, m := NextMessage(sock);
      if more {
        ms := ms + [m];
      }
    }
  }

  function Texts(texts: seq<Blob>): (r: seq<Frame>)
    ensures |r| == |texts|
  {
    seq(|texts|, i requires 0 <= i < |texts| => TextMessage(texts[i]))
  }

  /** Texts of up to 1 MiB, sent with ws_send_text over any schedule of short or interrupted writes and read with
      ws_recv_frame over any schedule of short or interrupted reads, arrive exactly once each and in order. */
  method Exchange(texts: seq<Blob>, sendPlan: seq<Event>, recvPlan: seq<Event>) returns (ms: seq<Message>)
    requires forall i :: 0 <= i < |texts| ==> |texts[i]| <= MAX_PAYLOAD
    requires Smooth(sendPlan) && Smooth(recvPlan)
    ensures |ms| == |texts| && forall i :: 0 <= i < |texts| ==> ms[i] == Message(1, texts[i])
  {
    hide Wire, ParseStream;
    EmptyWire();
    var writer := new Socket([], [], sendPlan);
    for i := 0 to |texts|
      invariant Smooth(writer.sendPlan) && writer.sent == Wire(Texts(texts[..i]))
    {
      WireAppend(Texts(texts[..i]), TextMessage(texts[i]));
      assert Texts(texts[..i + 1]) == Texts(texts[..i]) + [TextMessage(texts[i])];
      SendTextMessage(writer, texts[i]);
    }
    assert texts[..|texts|] == texts;
    var reader := new Socket(writer.sent, recvPlan, []);
    ms := ReceiveAll(reader);
    WireRoundTrip(Texts(texts), MAX_PAYLOAD);
  }

  lemma WireRoundTrip(fs: seq<Frame>, max: nat)
    requires forall i :: 0 <= i < |fs| ==> |fs[i].payload| <= max
    ensures var ms := ParseStream(Wire(fs), max);
            |ms| == |fs| && forall i :: 0 <= i < |fs| ==> ms[i] == Message(fs[i].opcode, fs[i].payload)
  {
    hide ParseStream, Accepted;
    StreamRoundTrip(Minimal(fs), max);
    AllAccepted(Minimal(fs), max);
  }

  lemma AllAccepted(cs: seq<Coded>, max: nat)
    requires forall i :: 0 <= i < |cs| ==> |cs[i].frame.payload| <= max
    ensures Accepted(cs, max) == cs
  {
  }

  /** The frames that a client writes, with any keys and in any length forms, are read over any schedule of short or
      interrupted reads as exactly their opcodes and payloads, up to the first one of more than 1 MiB. */
  method ReceiveFrames(cs: seq<Coded>, recvPlan: seq<Event>) returns (ms: seq<Message>)
    requires Smooth(recvPlan)
    ensures ms == Messages(Accepted(cs, MAX_PAYLOAD))
  {
    hide EncodeAll, ParseStream;
    var reader := new Socket(EncodeAll(cs), recvPlan, []);
    ms := ReceiveAll(reader);
    StreamRoundTrip(cs, MAX_PAYLOAD);
  }

  /** A whole conversation: whatever frames a client writes, in whatever coding, the messages it can decode from the
      server's output are the status text and then the replies to exactly the messages it sent before the first one
      that the server refuses. */
  lemma Conversation(cs: seq<Coded>, turns: nat, db: Db)
    ensures var out := ServerFrames(Messages(Accepted(cs, MAX_PAYLOAD)), turns, db);
            var ms := ParseStream(Wire(ServerFrames(ParseStream(EncodeAll(cs), MAX_PAYLOAD), turns, db)), NO_LIMIT);
            |ms| == |out| && forall i :: 0 <= i < |out| ==> ms[i] == Message(out[i].opcode, out[i].payload)
  {
    hide Wire, ParseStream, EncodeAll, ServerFrames, Accepted;
    StreamRoundTrip(cs, MAX_PAYLOAD);
    WireRoundTrip(ServerFrames(Messages(Accepted(cs, MAX_PAYLOAD)), turns, db), NO_LIMIT);
  }

  lemma {:induction false} RepliesUnmasked(ms: seq<Message>, k: nat, turns: nat, db: Db)
    ensures Unmasked(Replies(ms, k, turns, db))
  {
    if ms != [] && turns > 0 && ms[0].opcode != 8 {
      RepliesUnmasked(ms[1..], k + 1, turns - 1, db);
    }
  }

  /** The client's side of ClientLoop: after any failures of reads and writes, what it decodes starts with the messages
      of all frames before the first incomplete one, and it decodes exactly the status text and all replies if and only
      if each of these frames was sent whole. */
  lemma ClientDecodes(ms: seq<Message>, cuts: seq<nat>, turns: nat, db: Db, j: nat)
    requires Cuts(ServerFrames(ms, turns, db), cuts)
    requires j <= |cuts| && forall i :: 0 <= i < j ==> cuts[i] == |FrameBytes(ServerFrames(ms, turns, db)[i])|
    ensures var fs := ServerFrames(ms, turns, db); var got := ParseStream(CutWire(fs, cuts), NO_LIMIT);
            && MessagesOf(fs[..j]) <= got
            && (got == MessagesOf(fs) <==> AllWhole(fs, cuts))
  {
    hide FrameBytes, CutWire, ParseStream, MessagesOf, ServerFrames, AllWhole, Unmasked;
    FramesUnmasked(ms, turns, db);
    DecodesBeforeCut(ServerFrames(ms, turns, db), cuts, j);
    DecodesAllExactlyWhen(ServerFrames(ms, turns, db), cuts);
  }

  lemma FramesUnmasked(ms: seq<Message>, turns: nat, db: Db)
    ensures Unmasked(ServerFrames(ms, turns, db))
  {
    hide Replies, TextMessage;
    RepliesUnmasked(ms, 0, turns, db);
    TextUnmasked(Ascii(STATUS));
  }

  lemma TextUnmasked(text: Blob)
    ensures TextMessage(text).key == []
  {
  }

  lemma PingIsEchoed(m: Message, k: nat, db: Db)
    requires m.opcode == 9 && |m.payload| <= 125
    ensures Reply(m, k, db) == [Frame(true, 10, [], m.payload)]
  {
    assert m.payload[..|m.payload|] == m.payload;
  }

  /** Pings of legal size are echoed as pongs, one each, in order, until a close is answered and ends the session;
      whatever comes later is not. */
  lemma {:induction false} PingsThenClose(ms: seq<Message>, later: seq<Message>, k: nat, turns: nat, db: Db)
    requires ms != [] && |ms| <= turns && ms[|ms| - 1].opcode == 8
    requires forall i :: 0 <= i < |ms| - 1 ==> ms[i].opcode == 9 && |ms[i].payload| <= 125
    ensures var fs := Replies(ms + later, k, turns, db);
            |fs| == |ms| && fs[|ms| - 1] == Frame(true, 8, [], [])
            && forall i :: 0 <= i < |ms| - 1 ==> fs[i] == Frame(true, 10, [], ms[i].payload)
  {
    hide Replies, Reply;
    assert ms + later == [ms[0]] + (ms[1..] + later);
    RepliesNext(ms[0], ms[1..] + later, k, turns, db);
    if |ms| > 1 {
      PingIsEchoed(ms[0], k, db);
      PingsThenClose(ms[1..], later, k + 1, turns - 1, db);
    }
  }
}
