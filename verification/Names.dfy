/** The names in the texts: neither printer escapes them, so a reader gets them back only if they need no escape. */
module Names {
  import opened Basics
  import opened SampleJson
  import opened Replay

  // -------- strings of section 7 of RFC 8259 --------

  function HexDigit(c: char): Option<nat> {
    if '0' <= c <= '9' then Some(c as int - '0' as int)
    else if 'a' <= c <= 'f' then Some(c as int - 'a' as int + 10)
    else if 'A' <= c <= 'F' then Some(c as int - 'A' as int + 10)
    else None
  }

  /** The character that \u and four digits stand for; half of a surrogate pair is replaced. */
  function Unicode(s: string): Option<char>
    requires |s| == 4
  {
    match (HexDigit(s[0]), HexDigit(s[1]), HexDigit(s[2]), HexDigit(s[3]))
    case (Some(a), Some(b), Some(c), Some(d)) =>
      var n := 0x1000 * a + 0x100 * b + 0x10 * c + d;
      Some(if n < 0xD800 || 0xE000 <= n < 0x1_0000 then n as char else 0xFFFD as char)
    case _ => None
  }

  function Escape(c: char): Option<char> {
    if c == '"' || c == '\\' || c == '/' then Some(c)
    else if c == 'b' then Some(0x08 as char)
    else if c == 'f' then Some(0x0C as char)
    else if c == 'n' then Some('\n')
    else if c == 'r' then Some('\r')
    else if c == 't' then Some('\t')
    else None
  }

  /** A string behind its opening quotation mark: its value and what follows its closing one. */
  function ReadString(s: string): Option<(string, string)> {
    if s == "" then None
    else if s[0] == '"' then Some(("", s[1..]))
    else if s[0] < ' ' then None
    else if s[0] != '\\' then Before(s[0], ReadString(s[1..]))
    else if |s| < 2 then None
    else if s[1] != 'u' then
      match Escape(s[1]) { case None => None case Some(c) => Before(c, ReadString(s[2..])) }
    else if |s| < 6 then None
    else match Unicode(s[2..6]) { case None => None case Some(c) => Before(c, ReadString(s[6..])) }
  }

  function Before(c: char, r: Option<(string, string)>): Option<(string, string)> {
    match r case None => None case Some((value, rest)) => Some(([c] + value, rest))
  }

  /** No quotation mark, no backslash and no control character. */
  predicate Plain(name: string) {
    forall i :: 0 <= i < |name| ==> name[i] != '"' && name[i] != '\\' && name[i] >= ' '
  }

  lemma OneEscape(e: char)
    requires e != 'u'
    ensures ReadString(['\\', e, '"']) == match Escape(e) case Some(c) => Some(([c], "")) case None => None
  {
    var s := ['\\', e, '"'];
    assert s[2..] == "\"" && s[2..][1..] == "" && ReadString(s[2..]) == Some(("", ""));
    if Escape(e).Some? { assert [Escape(e).value] + "" == [Escape(e).value]; }
  }

  /** Each short escape on its own, in the code points of RFC 8259, and one that there is not. */
  lemma ShortEscapes()
    ensures ReadString(['\\', '"', '"']) == Some((['"'], "")) && ReadString(['\\', '\\', '"']) == Some((['\\'], ""))
    ensures ReadString(['\\', '/', '"']) == Some((['/'], "")) && ReadString(['\\', 'b', '"']) == Some(([8 as char], ""))
    ensures ReadString(['\\', 'f', '"']) == Some(([12 as char], ""))
    ensures ReadString(['\\', 'n', '"']) == Some(([10 as char], ""))
    ensures ReadString(['\\', 'r', '"']) == Some(([13 as char], ""))
    ensures ReadString(['\\', 't', '"']) == Some(([9 as char], ""))
    ensures ReadString(['\\', 'x', '"']) == None
  {
    hide ReadString;
    forall e: char | e != 'u'
      ensures ReadString(['\\', e, '"']) == match Escape(e) case Some(c) => Some(([c], "")) case None => None {
      OneEscape(e);
    }
  }

  /** A long escape stands for the character with that code. */
  lemma LongEscape(a: char, b: char, c: char, d: char)
    ensures Unicode(['0', '0', '4', '1']) == Some('A') && Unicode(['d', '8', '0', '0']) == Some(0xFFFD as char)
    ensures ReadString(['\\', 'u', a, b, c, d, '"'])
         == match Unicode([a, b, c, d]) case Some(u) => Some(([u], "")) case None => None
  {
    hide Escape;
    var s := ['\\', 'u', a, b, c, d, '"'];
    assert s[6..] == "\"" && s[6..][1..] == "" && ReadString(s[6..]) == Some(("", "")) && s[2..6] == [a, b, c, d];
    var u := Unicode([a, b, c, d]);
    if u.Some? { assert [u.value] + "" == [u.value]; }
  }

  lemma {:induction false} ReadShrinks(s: string)
    ensures ReadString(s).Some? ==> |ReadString(s).value.0| + 1 + |ReadString(s).value.1| <= |s|
  {
    hide Escape, Unicode;
    if s != "" && s[0] != '"' && s[0] >= ' ' {
      if s[0] != '\\' {
        ReadShrinks(s[1..]);
      } else if |s| >= 2 {
        ReadShrinks(s[2..]);
        if |s| >= 6 { ReadShrinks(s[6..]); }
      }
    }
  }

  lemma {:induction false} PlainIsRead(name: string, rest: string)
    requires Plain(name)
    ensures ReadString(name + "\"" + rest) == Some((name, rest))
  {
    hide Escape, Unicode;
    var s := name + "\"" + rest;
    if name == "" {
      assert s[0] == '"' && s[1..] == rest;
    } else {
      PlainIsRead(name[1..], rest);
      assert s[0] == name[0] && s[1..] == name[1..] + "\"" + rest;
      assert [name[0]] + name[1..] == name;
    }
  }

  /** A value as long as what was read for it came from plain characters only. */
  lemma {:induction false} LongValueIsPlain(s: string)
    requires ReadString(s).Some? && |ReadString(s).value.0| + 1 + |ReadString(s).value.1| == |s|
    ensures Plain(ReadString(s).value.0)
  {
    hide Escape, Unicode;
    if s[0] == '"' {
    } else if s[0] != '\\' {
      LongValueIsPlain(s[1..]);
    } else {
      ReadShrinks(s[2..]);
      if |s| >= 6 { ReadShrinks(s[6..]); }
    }
  }

  /** A name printed between quotation marks is read back, up to its own closing mark, if and only if it is plain. */
  lemma ReadBackExactlyWhen(name: string, rest: string)
    ensures ReadString(name + "\"" + rest) == Some((name, rest)) <==> Plain(name)
  {
    if Plain(name) {
      PlainIsRead(name, rest);
    } else if ReadString(name + "\"" + rest) == Some((name, rest)) {
      LongValueIsPlain(name + "\"" + rest);
    }
  }

  // -------- the names of a sample --------

  datatype Name = Robot | ImuId | TiltId | FirstMotor | SecondMotor

  function NameOf(s: Sample, n: Name): string {
    match n
    case Robot => s.robot
    case ImuId => s.imu
    case TiltId => s.tiltId
    case FirstMotor => s.motor1.id
    case SecondMotor => s.motor2.id
  }

  /** The pieces of the live text before the name, which end in a quotation mark. */
  function Front(s: Sample, f: Format, n: Name): seq<string> {
    match n
    case Robot => LiveHead(s, f)[..10]
    case ImuId => LiveHead(s, f)[..12]
    case TiltId => LiveHead(s, f)[..14]
    case FirstMotor => LiveHead(s, f) + LiveVectors(s, f) + LiveMotors(s)[..3]
    case SecondMotor => LiveHead(s, f) + LiveVectors(s, f) + LiveMotors(s)[..18]
  }

  /** The pieces behind the name, which start with one. */
  function Back(s: Sample, f: Format, n: Name): seq<string> {
    match n
    case Robot => LiveHead(s, f)[11..] + LiveVectors(s, f) + LiveMotors(s)
    case ImuId => LiveHead(s, f)[13..] + LiveVectors(s, f) + LiveMotors(s)
    case TiltId => LiveHead(s, f)[15..] + LiveVectors(s, f) + LiveMotors(s)
    case FirstMotor => LiveMotors(s)[4..]
    case SecondMotor => LiveMotors(s)[19..]
  }

  lemma HeadAt(s: Sample, f: Format)
    ensures |LiveHead(s, f)| == 18
    ensures LiveHead(s, f)[10] == s.robot && LiveHead(s, f)[12] == s.imu && LiveHead(s, f)[14] == s.tiltId
    ensures LiveHead(s, f)[9] == "\"robot_id\":\"" && LiveHead(s, f)[11] == "\",\"imu_id\":\""
    ensures LiveHead(s, f)[13] == "\",\"tilt_id\":\"" && LiveHead(s, f)[15] == "\",\"tilt_status\":"
  {
    hide Integer;
  }

  lemma MotorsAt(s: Sample)
    ensures |LiveMotors(s)| == 32 && LiveMotors(s)[3] == s.motor1.id && LiveMotors(s)[18] == s.motor2.id
    ensures LiveMotors(s)[2] == LiveMotors(s)[17] == ":{\"id\":\""
    ensures LiveMotors(s)[4] == LiveMotors(s)[19] == "\",\"tics\":"
  {
    hide Integer;
  }

  /** Where a name stands. */
  lemma NameInPlace(s: Sample, f: Format, n: Name)
    ensures LivePieces(s, f) == Front(s, f, n) + [NameOf(s, n)] + Back(s, f, n)
    ensures Front(s, f, n) != [] && Back(s, f, n) != []
    ensures Ends(Front(s, f, n)[|Front(s, f, n)| - 1]) && Starts(Back(s, f, n)[0])
  {
    HeadAt(s, f);
    MotorsAt(s);
    hide LiveHead, LiveVectors, LiveMotors;
    var h, v, m := LiveHead(s, f), LiveVectors(s, f), LiveMotors(s);
    assert h == h[..10] + [h[10]] + h[11..] == h[..12] + [h[12]] + h[13..] == h[..14] + [h[14]] + h[15..];
    assert m == m[..3] + [m[3]] + m[4..] == m[..18] + [m[18]] + m[19..];
  }

  predicate Ends(piece: string) { piece != "" && piece[|piece| - 1] == '"' }

  predicate Starts(piece: string) { piece != "" && piece[0] == '"' }

  /** The text up to and with the opening quotation mark of a name, and from the closing one on. */
  function TextBefore(s: Sample, f: Format, n: Name): string { Concat(Front(s, f, n)) }

  function TextBehind(s: Sample, f: Format, n: Name): string { Concat(Back(s, f, n)) }

  lemma ConcatFirst(ps: seq<string>)
    requires ps != [] && Starts(ps[0])
    ensures Starts(Concat(ps))
  {
  }

  lemma {:induction false} ConcatLast(ps: seq<string>)
    requires ps != [] && Ends(ps[|ps| - 1])
    ensures Ends(Concat(ps))
  {
    if |ps| == 1 {
      assert Concat(ps) == ps[0] + "";
    } else {
      ConcatLast(ps[1..]);
    }
  }

  lemma OneName(name: string)
    ensures Concat([name]) == name
  {
    assert Concat([name]) == name + Concat([]);
  }

  /** Every name stands in the live text between quotation marks, and reading it there gives the name back if and only
      if the name is plain. A name with a quotation mark, a backslash or a control character is read as something else,
      or not at all. */
  lemma NameIsReadExactlyWhen(s: Sample, f: Format, n: Name)
    ensures Ends(TextBefore(s, f, n)) && Starts(TextBehind(s, f, n))
    ensures Live(s, f) == TextBefore(s, f, n) + (NameOf(s, n) + TextBehind(s, f, n))
    ensures ReadString(NameOf(s, n) + TextBehind(s, f, n)) == Some((NameOf(s, n), TextBehind(s, f, n)[1..]))
       <==> Plain(NameOf(s, n))
  {
    hide Concat, Front, Back, LivePieces, ReadString, Plain, NameOf;
    NameInPlace(s, f, n);
    var front, name, back := Front(s, f, n), NameOf(s, n), Back(s, f, n);
    ConcatLast(front);
    ConcatFirst(back);
    OneName(name);
    ConcatJoin(front, [name]);
    ConcatJoin(front + [name], back);
    var before, behind := TextBefore(s, f, n), TextBehind(s, f, n);
    assert (before + name) + behind == before + (name + behind);
    assert name + behind == name + "\"" + behind[1..];
    ReadBackExactlyWhen(name, behind[1..]);
  }

  /** The names survive storage: in the replayed text they stand at the same places of the same text. */
  lemma ReplayedNameIsReadExactlyWhen(row: Row, s: Sample, f: Format, n: Name)
    requires Stores(row, s) && Ranges(s)
    ensures var d := Distorted(s); Replayed(row, f) == TextBefore(d, f, n) + (NameOf(s, n) + TextBehind(d, f, n))
    ensures Ends(TextBefore(Distorted(s), f, n)) && Starts(TextBehind(Distorted(s), f, n))
    ensures var behind := TextBehind(Distorted(s), f, n);
            ReadString(NameOf(s, n) + behind) == Some((NameOf(s, n), behind[1..])) <==> Plain(NameOf(s, n))
  {
    hide Stores, Replayed, Live, TextBefore, TextBehind, ReadString, Plain, Ranges;
    ReplayIsLive(row, s, f);
    NameIsReadExactlyWhen(Distorted(s), f, n);
  }
}
