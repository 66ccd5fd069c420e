/** What a client's text message gets for an answer. */
module Requests {
  import opened Basics
  import opened FrameSpec
  import opened Session
  import Scanner
  import SampleJson
  import Numerals

  /** A text of one-byte characters without a NUL. */
  predicate OneByte(s: string) { forall i :: 0 <= i < |s| ==> 0 < s[i] as int < 256 }

  lemma AsciiOf(c: char)
    requires 0 < c as int < 256
    ensures ToNat(ToByte(c as nat)) as char == c && ToByte(c as nat) != 0
  {
    ByteRoundTrip(c as nat);
    assert ToNat(0) == 0;
    hide ToByte, ToNat;
  }

  /** Such a text is read back from its bytes, whatever follows a NUL behind them. */
  lemma {:induction false} CStringOfAscii(s: string, rest: seq<byte>)
    requires OneByte(s)
    ensures CString(Ascii(s) + [0] + rest) == s && CString(Ascii(s)) == s
  {
    hide ToByte, ToNat;
    if s != "" {
      AsciiOf(s[0]);
      CStringOfAscii(s[1..], rest);
      assert Ascii(s)[1..] == Ascii(s[1..]);
      assert (Ascii(s) + [0] + rest)[1..] == Ascii(s[1..]) + [0] + rest;
    }
  }

  // -------- which texts are history requests --------

  /** pat occurs somewhere, and word at or behind an occurrence of it. */
  ghost predicate WordBehind(s: string, pat: string, word: string) {
    exists p, h :: 0 <= p <= h && Scanner.OccursAt(s, pat, p) && Scanner.OccursAt(s, word, h)
  }

  ghost predicate Occurs(s: string, pat: string) { exists p :: 0 <= p && Scanner.OccursAt(s, pat, p) }

  lemma FindIn(s: string, pat: string, from: nat)
    ensures Scanner.Find(s, pat, from).Some? <==> exists p :: from <= p && Scanner.OccursAt(s, pat, p)
  {
    var r := Scanner.Find(s, pat, from);
    if r.None? {
      forall p | from <= p ensures !Scanner.OccursAt(s, pat, p) {}
    }
  }

  lemma FirstThenWord(s: string, pat: string, word: string)
    ensures var p := Scanner.Find(s, pat, 0);
            p.Some? && Scanner.Find(s, word, p.value).Some? <==> WordBehind(s, pat, word)
  {
    hide Scanner.OccursAt;
    var p := Scanner.Find(s, pat, 0);
    FindIn(s, pat, 0);
    if p.Some? {
      FindIn(s, word, p.value);
      if WordBehind(s, pat, word) {
        var q, h :| 0 <= q <= h && Scanner.OccursAt(s, pat, q) && Scanner.OccursAt(s, word, h);
        assert p.value <= q;
      }
    }
  }

  /** A text is taken for a history request if and only if "history" occurs in it behind "type" in quotation marks or,
      should these not occur at all, behind a bare type. */
  lemma IsRequestExactlyWhen(s: string)
    ensures Scanner.IsHistoryRequest(s)
       <==> WordBehind(s, if Occurs(s, "\"type\"") then "\"type\"" else "type", "history")
  {
    hide Scanner.OccursAt, Scanner.Find, WordBehind;
    FindIn(s, "\"type\"", 0);
    FirstThenWord(s, "\"type\"", "history");
    FirstThenWord(s, "type", "history");
  }

  // -------- the answers --------

  /** The answer to a request: the query's text for the limit that the request means, or one of two error messages. */
  lemma RequestIsAnswered(text: string, k: nat, query: (nat, int) -> Option<Blob>)
    requires OneByte(text) && Scanner.IsHistoryRequest(text)
    ensures var m := Message(1, Ascii(text));
            var limit := Scanner.RowsWanted(Scanner.FieldLiteral(text, "\"last\""));
            && Reply(m, k, NoDb) == [Frame(true, 1, [], Ascii("{\"type\":\"error\",\"message\":\"db_not_available\"}"))]
            && Reply(m, k, Db(query)) == [Frame(true, 1, [],
                 match query(k, limit)
                 case Some(json) => json
                 case None => Ascii("{\"type\":\"error\",\"message\":\"history_query_failed\"}"))]
  {
    CStringOfAscii(text, []);
    hide Ascii, CString, Scanner.IsHistoryRequest, Scanner.FieldLiteral, Scanner.RowsWanted;
  }

  /** Every session opens with the status text, whatever is read. */
  lemma StatusFirst(ms: seq<Message>, turns: nat, db: Db)
    ensures ServerFrames(ms, turns, db) != []
    ensures ServerFrames(ms, turns, db)[0] == Frame(true, 1, [], Ascii("{\"type\":\"status\",\"status\":\"online\"}"))
    ensures ServerFrames(ms, turns, db)[1..] == Replies(ms, 0, turns, db)
  {
    hide Ascii, Replies;
  }

  /** A request without "last", or with a negative number there, is one for 300. */
  lemma LimitByDefault(text: string)
    ensures !Occurs(text, "\"last\"") ==> Scanner.RowsWanted(Scanner.FieldLiteral(text, "\"last\"")) == 300
    ensures var l := Scanner.FieldLiteral(text, "\"last\""); l.Literal? && l.negative ==> Scanner.RowsWanted(l) == 300
  {
    hide Scanner.OccursAt, Scanner.LiteralAt, Scanner.Find;
    FindIn(text, "\"last\"", 0);
  }

  /** Everything else gets no answer, except a ping, whose payload comes back cut to 125 bytes. */
  lemma OthersAreNot(m: Message, k: nat, db: Db)
    ensures m.opcode == 9 ==> Reply(m, k, db) == [Frame(true, 10, [], m.payload[..Min(|m.payload|, 125)])]
    ensures m.opcode != 9 && m.opcode != 1 ==> Reply(m, k, db) == []
    ensures m.opcode == 1 && !WordBehind(CString(m.payload), "type", "history") ==> Reply(m, k, db) == []
  {
    hide Scanner.OccursAt, CString, Scanner.FieldLiteral, Scanner.RowsWanted, Ascii;
    IsRequestExactlyWhen(CString(m.payload));
    if Occurs(CString(m.payload), "\"type\"") { QuotedIsBare(CString(m.payload)); }
  }

  lemma PartOf(s: string, i: nat, t: string, a: nat, b: nat)
    requires i + |t| <= |s| && s[i..i + |t|] == t && a <= b <= |t|
    ensures s[i + a..i + b] == t[a..b]
  {
    forall k | 0 <= k < b - a ensures s[i + a..i + b][k] == t[a..b][k] {
      assert t[a + k] == s[i..i + |t|][a + k] == s[i + a + k];
    }
  }

  lemma QuotedType()
    ensures "\"type\""[1..5] == "type"
  {
  }

  lemma QuotedIsBare(s: string)
    ensures WordBehind(s, "\"type\"", "history") ==> WordBehind(s, "type", "history")
  {
    if WordBehind(s, "\"type\"", "history") {
      var p, h :| 0 <= p <= h && Scanner.OccursAt(s, "\"type\"", p) && Scanner.OccursAt(s, "history", h);
      PartOf(s, p, "\"type\"", 1, 5);
      QuotedType();
      assert s[h] == s[h..h + 7][0] == 'h' && s[p] == s[p..p + 6][0] == '"';
      assert Scanner.OccursAt(s, "type", p + 1);
    }
  }

  // -------- the documented request --------

  /** What the web page sends for the last n samples. */
  function HistoryRequest(n: nat): string { "{\"type\":\"history\"" + (",\"last\":" + SampleJson.Decimal(n)) + "}" }

  lemma RequestLetters(n: nat)
    ensures var s, e := HistoryRequest(n), 25 + |SampleJson.Decimal(n)|;
            && |s| == e + 1 && s[..17] == "{\"type\":\"history\"" && s[17..25] == ",\"last\":"
            && s[25..e] == SampleJson.Decimal(n) && s[e] == '}'
  {
  }

  lemma NotYet(s: string, j: nat)
    requires |s| >= 25 && s[..17] == "{\"type\":\"history\"" && s[17..25] == ",\"last\":" && j < 18
    ensures !Scanner.OccursAt(s, "\"last\"", j)
  {
    assert s[j + 1] != 'l' by {
      if j + 1 < 17 { assert s[j + 1] == s[..17][j + 1]; } else { assert s[j + 1] == s[17..25][j - 16]; }
    }
    assert j + 6 <= |s| ==> s[j..j + 6][1] == s[j + 1];
  }

  lemma QuotedLast()
    ensures ",\"last\":"[1..7] == "\"last\""
  {
  }

  lemma HistoryType()
    ensures "{\"type\":\"history\""[1..7] == "\"type\"" && "{\"type\":\"history\""[9..16] == "history"
  {
  }

  lemma LastFound(s: string, e: nat)
    requires 25 < e < |s| && s[..17] == "{\"type\":\"history\"" && s[17..25] == ",\"last\":"
    requires (forall i :: 25 <= i < e ==> Scanner.IsDigit(s[i])) && s[e] == '}'
    ensures Scanner.FieldLiteral(s, "\"last\"") == Scanner.Literal(false, s[25..e])
  {
    forall j | 0 <= j < 18 ensures !Scanner.OccursAt(s, "\"last\"", j) { NotYet(s, j); }
    PartOf(s, 17, ",\"last\":", 1, 7);
    QuotedLast();
    forall i | 18 <= i < 25 ensures s[i] == s[17..25][i - 17] {}
    assert Scanner.OccursAt(s, "\"last\"", 18) && s[24] == ':' && Scanner.IsDigit(s[25]);
    hide Scanner.OccursAt, Scanner.FieldLiteral;
    Scanner.FieldFound(s, "\"last\"", 18, 24, 25, 25, e);
  }

  lemma TypeThenHistory(s: string)
    requires |s| >= 25 && s[..17] == "{\"type\":\"history\""
    ensures Scanner.IsHistoryRequest(s)
  {
    PartOf(s, 0, "{\"type\":\"history\"", 1, 7);
    PartOf(s, 0, "{\"type\":\"history\"", 9, 16);
    assert s[0..17] == s[..17];
    HistoryType();
    assert Scanner.OccursAt(s, "\"type\"", 1) && Scanner.OccursAt(s, "history", 9);
    hide Scanner.OccursAt, Scanner.IsHistoryRequest;
    IsRequestExactlyWhen(s);
  }

  lemma RequestRead(n: nat)
    ensures Scanner.IsHistoryRequest(HistoryRequest(n)) && OneByte(HistoryRequest(n))
    ensures Scanner.FieldLiteral(HistoryRequest(n), "\"last\"") == Scanner.Literal(false, SampleJson.Decimal(n))
  {
    var s, d := HistoryRequest(n), SampleJson.Decimal(n);
    var e := 25 + |d|;
    RequestLetters(n);
    Numerals.DecimalDenotes(n);
    hide HistoryRequest, SampleJson.Decimal, Scanner.Number, Scanner.IsHistoryRequest, Scanner.FieldLiteral;
    forall i | 25 <= i < e ensures Scanner.IsDigit(s[i]) { assert s[i] == d[i - 25]; }
    TypeThenHistory(s);
    LastFound(s, e);
    forall i | 0 <= i < |s| ensures 0 < s[i] as int < 256 {
      if i < 17 { assert s[i] == s[..17][i]; } else if i < 25 { assert s[i] == s[17..25][i - 17]; }
    }
  }

  function Limit(n: nat): int { if n == 0 then 300 else if n > 5000 then 5000 else n }

  /** A request for the last n samples is answered with what the query gives for n, for 300 when n is 0, and for 5000
      when n is more than that. */
  lemma LastNSamples(n: nat, k: nat, query: (nat, int) -> Option<Blob>)
    ensures query(k, Limit(n)).Some? ==>
      Reply(Message(1, Ascii(HistoryRequest(n))), k, Db(query)) == [Frame(true, 1, [], query(k, Limit(n)).value)]
  {
    RequestRead(n);
    Numerals.DecimalDenotes(n);
    RequestIsAnswered(HistoryRequest(n), k, query);
    hide HistoryRequest, Reply, Scanner.FieldLiteral, Ascii, SampleJson.Decimal, Scanner.Number;
  }

  function RequestMessages(ns: seq<nat>): (r: seq<Message>)
    ensures |r| == |ns|
  {
    seq(|ns|, i requires 0 <= i < |ns| => Message(1, Ascii(HistoryRequest(ns[i]))))
  }

  /** Requests are answered one by one and in order, each with what the query gives at its turn. */
  lemma {:induction false} RequestsInOrder(ns: seq<nat>, k: nat, turns: nat, query: (nat, int) -> Option<Blob>)
    requires |ns| <= turns && forall j, limit :: query(j, limit).Some?
    ensures var fs := Replies(RequestMessages(ns), k, turns, Db(query));
            |fs| == |ns| && forall i :: 0 <= i < |ns| ==> fs[i] == Frame(true, 1, [], query(k + i, Limit(ns[i])).value)
  {
    hide Replies, Reply, HistoryRequest, Ascii, Limit;
    if ns == [] {
      NoReplies([], k, turns, Db(query));
    } else {
      var ms := RequestMessages(ns);
      LastNSamples(ns[0], k, query);
      assert ms[1..] == RequestMessages(ns[1..]) && ms == [ms[0]] + ms[1..];
      RepliesNext(ms[0], ms[1..], k, turns, Db(query));
      RequestsInOrder(ns[1..], k + 1, turns - 1, query);
    }
  }
}
