/** WebSocket frames as sections 5.2 and 5.3 of RFC 6455 lay them out. */
module FrameSpec {
  import opened Basics

  const MAX_PAYLOAD := 0x10_0000

  /** The three ways to give a payload length. */
  datatype Form = Short | Medium | Long

  /** A frame without its length form. The key is empty on unmasked frames and four bytes long on masked ones. */
  datatype FrameData = Frame(fin: bool, opcode: nat, key: seq<byte>, payload: seq<byte>) {
    predicate Valid() {
      opcode < 16 && (|key| == 0 || |key| == 4) && |payload| < 0x8000_0000_0000_0000
    }
  }

  type Frame = f: FrameData | f.Valid() witness Frame(false, 0, [], [])

  predicate Fits(form: Form, n: nat) {
    match form
    case Short => n < 126
    case Medium => n < 0x1_0000
    case Long => n < 0x8000_0000_0000_0000
  }

  /** n as k bytes, most significant first. */
  function BigEndian(n: nat, k: nat): (r: seq<byte>)
    ensures |r| == k
  {
    if k == 0 then [] else BigEndian(n / 256, k - 1) + [ToByte(n % 256)]
  }

  function Value(s: seq<byte>): nat {
    if s == [] then 0 else 256 * Value(s[..|s| - 1]) + ToNat(s[|s| - 1])
  }

  function Pow256(k: nat): (r: nat)
    ensures r > 0
  {
    if k == 0 then 1 else 256 * Pow256(k - 1)
  }

  lemma ValueNext(s: seq<byte>, b: byte)
    ensures Value(s + [b]) == 256 * Value(s) + ToNat(b)
  {
    hide ToNat;
    assert (s + [b])[..|s|] == s;
  }

  lemma {:induction false} ValueOfBigEndian(n: nat, k: nat)
    requires n < Pow256(k)
    ensures Value(BigEndian(n, k)) == n
  {
    hide ToByte, ToNat, Value;
    if k == 0 {
      NoValue();
    } else {
      ValueOfBigEndian(n / 256, k - 1);
      ByteRoundTrip(n % 256);
      ValueNext(BigEndian(n / 256, k - 1), ToByte(n % 256));
    }
  }

  lemma NoValue()
    ensures Value([]) == 0
  {
  }

  /** Section 5.3: octet i of the transformed data is octet i of the original xor octet i mod 4 of the key. */
  function Mask(key: seq<byte>, data: seq<byte>): (r: seq<byte>)
    requires |key| == 4
    ensures |r| == |data|
  {
    seq(|data|, i requires 0 <= i < |data| => data[i] ^ key[i % 4])
  }

  lemma MaskTwice(key: seq<byte>, data: seq<byte>)
    requires |key| == 4
    ensures Mask(key, Mask(key, data)) == data
  {
    forall i | 0 <= i < |data| ensures Mask(key, Mask(key, data))[i] == data[i] {
      assert (data[i] ^ key[i % 4]) ^ key[i % 4] == data[i];
    }
  }

  function LengthBytes(form: Form, maskBit: nat, n: nat): seq<byte>
    requires Fits(form, n) && maskBit < 2
  {
    match form
    case Short => [ToByte(128 * maskBit + n)]
    case Medium => [ToByte(128 * maskBit + 126)] + BigEndian(n, 2)
    case Long => [ToByte(128 * maskBit + 127)] + BigEndian(n, 8)
  }

  function Encode(f: Frame, form: Form): seq<byte>
    requires Fits(form, |f.payload|)
  {
    var head := [ToByte((if f.fin then 128 else 0) + f.opcode)];
    if f.key == [] then head + LengthBytes(form, 0, |f.payload|) + f.payload
    else head + LengthBytes(form, 1, |f.payload|) + f.key + Mask(f.key, f.payload)
  }

  function MinimalForm(n: nat): Form {
    if n <= 125 then Short else if n <= 65535 then Medium else Long
  }

  /** The frame a server sends for one whole text message. */
  function TextFrame(text: seq<byte>): seq<byte>
    requires |text| < 0x8000_0000_0000_0000
  {
    Encode(Frame(true, 1, [], text), MinimalForm(|text|))
  }

  /** Section 5.2 demands the minimal number of bytes for the length. */
  lemma MinimalFormIsMinimal(f: Frame, form: Form)
    requires Fits(form, |f.payload|)
    ensures Fits(MinimalForm(|f.payload|), |f.payload|)
    ensures |Encode(f, MinimalForm(|f.payload|))| <= |Encode(f, form)|
    ensures |Encode(f, MinimalForm(|f.payload|))| == |Encode(f, form)| ==> form == MinimalForm(|f.payload|)
  {
  }

  // -------- reading --------

  datatype Parsed = Parsed(opcode: nat, payload: seq<byte>, rest: seq<byte>)

  /** The payload length that starts at s[1] and the number of bytes before the masking key. */
  function ParseLength(s: seq<byte>): (r: Option<(nat, nat)>)
    ensures |s| < 2 ==> r == None
    ensures r.Some? ==> 2 <= r.value.1 <= |s|
  {
    if |s| < 2 then None else
    var len := ToNat(s[1]) % 128;
    if len == 126 then if |s| < 4 then None else Some((Value(s[2..4]), 4))
    else if len == 127 then if |s| < 10 then None else Some((Value(s[2..10]), 10))
    else Some((len, 2))
  }

  /** The first frame of s and what follows it, for a reader that refuses payloads of more than max bytes. The FIN and
      RSV bits are not looked at. */
  function ParseFrame(s: seq<byte>, max: nat): (r: Option<Parsed>)
    ensures r.Some? ==> |r.value.rest| < |s|
  {
    match ParseLength(s)
    case None => None
    case Some((len, head)) =>
      var masked := ToNat(s[1]) >= 128;
      var start := if masked then head + 4 else head;
      if len > max || |s| < start + len then None else
      var data := s[start..start + len];
      Some(Parsed(ToNat(s[0]) % 16, if masked then Mask(s[head..head + 4], data) else data, s[start + len..]))
  }

  /** The bytes before the masking key, by the second byte of a frame. */
  function KeyOffset(b: byte): nat {
    var n := ToNat(b) % 128; if n == 126 then 4 else if n == 127 then 10 else 2
  }

  /** The payload of a frame, octet by octet of the stream that starts with the frame: each octet of a masked one is
      octet i of the data xor octet i mod 4 of the key before it. */
  ghost predicate Carries(s: seq<byte>, payload: seq<byte>) {
    && |s| >= 2
    && var at := KeyOffset(s[1]);
       if ToNat(s[1]) >= 128 then
         |s| >= at + 4 + |payload| && forall i :: 0 <= i < |payload| ==> payload[i] == s[at + 4 + i] ^ s[at + i % 4]
       else
         |s| >= at + |payload| && forall i :: 0 <= i < |payload| ==> payload[i] == s[at + i]
  }

  /** What is parsed is what the frame carries, its opcode is the low half of the first byte, and its length is the last
      seven bits of the second byte or the big-endian number behind it. */
  lemma ParsedCarries(s: seq<byte>, max: nat)
    requires ParseFrame(s, max).Some?
    ensures var p := ParseFrame(s, max).value;
            && Carries(s, p.payload) && |p.payload| <= max && p.opcode == ToNat(s[0]) % 16
            && p.rest == s[KeyOffset(s[1]) + (if ToNat(s[1]) >= 128 then 4 else 0) + |p.payload|..]
            && match ToNat(s[1]) % 128
               case 126 => |p.payload| == 0x100 * ToNat(s[2]) + ToNat(s[3])
               case 127 => |p.payload| == Value(s[2..10])
               case n => |p.payload| == n
  {
    hide ToNat, Value, KeyOffset, ParseLength;
    ParsedLength(s);
    var at, n := KeyOffset(s[1]), |ParseFrame(s, max).value.payload|;
    if ToNat(s[1]) >= 128 { MaskedSlice(s, at, n); } else { SliceAt(s, at, n); }
    hide Mask;
  }

  lemma ParsedLength(s: seq<byte>)
    requires ParseLength(s).Some?
    ensures ParseLength(s).value.1 == KeyOffset(s[1])
    ensures match ToNat(s[1]) % 128
            case 126 => ParseLength(s).value.0 == 0x100 * ToNat(s[2]) + ToNat(s[3])
            case 127 => ParseLength(s).value.0 == Value(s[2..10])
            case n => ParseLength(s).value.0 == n
  {
    hide ToNat, Value;
    if ToNat(s[1]) % 128 == 126 { ValueOfPair(s[2..4]); }
  }

  lemma MaskedSlice(s: seq<byte>, at: nat, n: nat)
    requires |s| >= at + 4 + n
    ensures var r := Mask(s[at..at + 4], s[at + 4..at + 4 + n]);
            forall i :: 0 <= i < n ==> r[i] == s[at + 4 + i] ^ s[at + i % 4]
  {
    forall i | 0 <= i < n ensures s[at..at + 4][i % 4] == s[at + i % 4] {}
    SliceAt(s, at + 4, n);
  }

  lemma SliceAt(s: seq<byte>, at: nat, n: nat)
    requires |s| >= at + n
    ensures var d := s[at..at + n]; forall i :: 0 <= i < n ==> d[i] == s[at + i]
  {
  }

  lemma ValueOfPair(d: seq<byte>)
    requires |d| == 2
    ensures Value(d) == 0x100 * ToNat(d[0]) + ToNat(d[1])
  {
    hide ToNat, Value;
    NoValue();
    ValueNext([], d[0]);
    ValueNext([d[0]], d[1]);
    assert [] + [d[0]] == [d[0]] && d == [d[0]] + [d[1]];
  }

  lemma Pow256Values()
    ensures Pow256(2) == 0x1_0000 && Pow256(8) == 0x1_0000_0000_0000_0000
  {
    assert Pow256(4) == 0x1_0000_0000;
  }

  /** The bytes before the masking key. */
  function HeadLength(form: Form): nat {
    match form case Short => 2 case Medium => 4 case Long => 10
  }

  lemma ParseLengthBytes(s: seq<byte>, form: Form, bit: nat, n: nat)
    requires Fits(form, n) && bit < 2 && |s| >= HeadLength(form)
    requires s[1..HeadLength(form)] == LengthBytes(form, bit, n)
    ensures ParseLength(s) == Some((n, HeadLength(form)))
    ensures ToNat(s[1]) / 128 == bit
  {
    hide ToByte, ToNat, Value, BigEndian, Pow256;
    Pow256Values();
    match form {
      case Short =>
        ByteRoundTrip(128 * bit + n);
        assert s[1] == s[1..2][0];
      case Medium =>
        ByteRoundTrip(128 * bit + 126);
        ValueOfBigEndian(n, 2);
        assert s[1] == s[1..4][0] && s[2..4] == s[1..4][1..];
      case Long =>
        ByteRoundTrip(128 * bit + 127);
        ValueOfBigEndian(n, 8);
        assert s[1] == s[1..10][0] && s[2..10] == s[1..10][1..];
    }
  }

  lemma Slices(a: byte, l: seq<byte>, k: seq<byte>, d: seq<byte>, rest: seq<byte>)
    ensures var s := [a] + l + k + d + rest; var i := 1 + |l|; var j := i + |k|;
            && s[0] == a && s[1..i] == l && s[i..j] == k
            && s[j..j + |d|] == d && s[j + |d|..] == rest
  {
  }

  lemma ParseSlices(s: seq<byte>, a: byte, form: Form, bit: nat, key: seq<byte>, data: seq<byte>, rest: seq<byte>,
                    max: nat)
    requires Fits(form, |data|) && bit < 2 && |key| == 4 * bit
    requires s == [a] + LengthBytes(form, bit, |data|) + key + data + rest
    ensures ParseFrame(s, max) == if |data| > max then None
                             else Some(Parsed(ToNat(a) % 16, if bit == 1 then Mask(key, data) else data, rest))
  {
    hide ToByte, ToNat, Value, BigEndian, Pow256, Mask, ParseLength;
    LengthBytesLength(form, bit, |data|);
    Slices(a, LengthBytes(form, bit, |data|), key, data, rest);
    hide LengthBytes;
    ParseLengthBytes(s, form, bit, |data|);
  }

  /** Reading undoes writing for every frame, key and length form up to the limit; larger ones are refused. */
  lemma ParseEncoded(f: Frame, form: Form, rest: seq<byte>, max: nat)
    requires Fits(form, |f.payload|)
    ensures ParseFrame(Encode(f, form) + rest, max)
         == if |f.payload| <= max then Some(Parsed(f.opcode, f.payload, rest)) else None
  {
    hide ToByte, ToNat, Mask, ParseFrame, LengthBytes;
    var opening := (if f.fin then 128 else 0) + f.opcode;
    ByteRoundTrip(opening);
    var bit := if f.key == [] then 0 else 1;
    var data := if f.key == [] then f.payload else Mask(f.key, f.payload);
    ParseSlices(Encode(f, form) + rest, ToByte(opening), form, bit, f.key, data, rest, max);
    if f.key != [] { MaskTwice(f.key, f.payload); }
  }

  lemma LengthBytesLength(form: Form, bit: nat, n: nat)
    requires Fits(form, n) && bit < 2
    ensures |LengthBytes(form, bit, n)| == HeadLength(form) - 1
  {
  }

  // -------- streams --------

  datatype Message = Message(opcode: nat, payload: seq<byte>)

  /** A frame together with the length form it is written in. */
  datatype CodedData = Coded(frame: Frame, form: Form)

  type Coded = c: CodedData | Fits(c.form, |c.frame.payload|) witness Coded(Frame(false, 0, [], []), Short)

  function EncodeAll(cs: seq<Coded>): seq<byte> {
    if cs == [] then [] else Encode(cs[0].frame, cs[0].form) + EncodeAll(cs[1..])
  }

  function Messages(cs: seq<Coded>): (r: seq<Message>)
    ensures |r| == |cs|
  {
    seq(|cs|, i requires 0 <= i < |cs| => Message(cs[i].frame.opcode, cs[i].frame.payload))
  }

  /** Frame after frame, up to the first one that is incomplete or refused. */
  function ParseStream(s: seq<byte>, max: nat): seq<Message>
    decreases |s|
  {
    match ParseFrame(s, max)
    case None => []
    case Some(p) => [Message(p.opcode, p.payload)] + ParseStream(p.rest, max)
  }

  /** The frames before the first one whose payload is refused. */
  function Accepted(cs: seq<Coded>, max: nat): (r: seq<Coded>)
    ensures (forall i :: 0 <= i < |cs| ==> |cs[i].frame.payload| <= max) ==> r == cs
  {
    if cs == [] || |cs[0].frame.payload| > max then [] else [cs[0]] + Accepted(cs[1..], max)
  }

  /** Any list of frames, masked or not and in any length form, is read back exactly, up to the first refused one. */
  lemma {:induction false} StreamRoundTrip(cs: seq<Coded>, max: nat)
    ensures ParseStream(EncodeAll(cs), max) == Messages(Accepted(cs, max))
  {
    hide Encode, ParseFrame;
    if cs == [] {
      assert ParseFrame([], max) == None by { NothingToParse(max); }
    } else {
      ParseEncoded(cs[0].frame, cs[0].form, EncodeAll(cs[1..]), max);
      StreamRoundTrip(cs[1..], max);
      MessagesNext(cs[0], Accepted(cs[1..], max));
    }
  }

  lemma MessagesNext(c: Coded, cs: seq<Coded>)
    ensures Messages([c] + cs) == [Message(c.frame.opcode, c.frame.payload)] + Messages(cs)
  {
  }

  lemma NothingToParse(max: nat)
    ensures ParseFrame([], max) == None
  {
  }

  /** Frames in their minimal length forms. */
  function Minimal(fs: seq<Frame>): (r: seq<Coded>)
    ensures |r| == |fs|
  {
    seq(|fs|, i requires 0 <= i < |fs| => Coded(fs[i], MinimalForm(|fs[i].payload|)))
  }

  function Wire(fs: seq<Frame>): seq<byte> { EncodeAll(Minimal(fs)) }

  lemma {:induction false} EncodeAllAppend(cs: seq<Coded>, c: Coded)
    ensures EncodeAll(cs + [c]) == EncodeAll(cs) + Encode(c.frame, c.form)
  {
    hide Encode;
    if cs == [] {
      assert cs + [c] == [c];
    } else {
      assert (cs + [c])[1..] == cs[1..] + [c];
      EncodeAllAppend(cs[1..], c);
    }
  }

  lemma WireAppend(fs: seq<Frame>, f: Frame)
    ensures Wire(fs + [f]) == Wire(fs) + Encode(f, MinimalForm(|f.payload|))
  {
    hide Encode;
    assert Minimal(fs + [f]) == Minimal(fs) + [Coded(f, MinimalForm(|f.payload|))];
    EncodeAllAppend(Minimal(fs), Coded(f, MinimalForm(|f.payload|)));
  }
}
