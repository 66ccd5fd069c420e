/** What a peer decodes when some frames have been sent only in part. */
module Delivery {
  import opened Basics
  import opened FrameSpec

  function FrameBytes(f: Frame): seq<byte> { Encode(f, MinimalForm(|f.payload|)) }

  /** The number of bytes of each frame that were sent. */
  predicate Cuts(fs: seq<Frame>, cuts: seq<nat>) {
    |cuts| == |fs| && forall i :: 0 <= i < |fs| ==> cuts[i] <= |FrameBytes(fs[i])|
  }

  predicate AllWhole(fs: seq<Frame>, cuts: seq<nat>)
    requires Cuts(fs, cuts)
  {
    forall i :: 0 <= i < |fs| ==> cuts[i] == |FrameBytes(fs[i])|
  }

  /** What is on the wire: the sent part of one frame after that of the other. */
  function CutWire(fs: seq<Frame>, cuts: seq<nat>): seq<byte>
    requires Cuts(fs, cuts)
  {
    if fs == [] then []
    else
      var n := |fs| - 1;
      CutWire(fs[..n], cuts[..n]) + FrameBytes(fs[n])[..cuts[n]]
  }

  lemma OneMoreFrame(fs: seq<Frame>, cuts: seq<nat>, f: Frame, cut: nat)
    requires Cuts(fs, cuts) && cut <= |FrameBytes(f)|
    ensures Cuts(fs + [f], cuts + [cut])
    ensures CutWire(fs + [f], cuts + [cut]) == CutWire(fs, cuts) + FrameBytes(f)[..cut]
    ensures AllWhole(fs + [f], cuts + [cut]) <==> AllWhole(fs, cuts) && cut == |FrameBytes(f)|
  {
    hide FrameBytes;
    assert (fs + [f])[..|fs|] == fs && (cuts + [cut])[..|cuts|] == cuts;
    WholeMore(fs, cuts, f, cut);
    hide AllWhole;
  }

  lemma WholeMore(fs: seq<Frame>, cuts: seq<nat>, f: Frame, cut: nat)
    requires Cuts(fs, cuts) && cut <= |FrameBytes(f)|
    ensures Cuts(fs + [f], cuts + [cut])
    ensures AllWhole(fs + [f], cuts + [cut]) <==> AllWhole(fs, cuts) && cut == |FrameBytes(f)|
  {
    hide FrameBytes;
    var gs, ks := fs + [f], cuts + [cut];
    assert forall i :: 0 <= i < |fs| ==> gs[i] == fs[i] && ks[i] == cuts[i];
    assert gs[|fs|] == f && ks[|fs|] == cut;
  }

  lemma {:induction false} WholeIsWire(fs: seq<Frame>, cuts: seq<nat>)
    requires Cuts(fs, cuts) && AllWhole(fs, cuts)
    ensures CutWire(fs, cuts) == Wire(fs)
  {
    hide Encode, Wire;
    if fs == [] {
      EmptyWire();
    } else {
      var n := |fs| - 1;
      WholeIsWire(fs[..n], cuts[..n]);
      WireAppend(fs[..n], fs[n]);
      assert fs == fs[..n] + [fs[n]];
    }
  }

  lemma EmptyWire()
    ensures Wire([]) == []
  {
  }

  // -------- lengths --------

  function Total(fs: seq<Frame>): nat {
    if fs == [] then 0 else Total(fs[..|fs| - 1]) + |FrameBytes(fs[|fs| - 1])|
  }

  lemma {:induction false} CutWireLength(fs: seq<Frame>, cuts: seq<nat>)
    requires Cuts(fs, cuts)
    ensures |CutWire(fs, cuts)| <= Total(fs)
    ensures |CutWire(fs, cuts)| == Total(fs) <==> AllWhole(fs, cuts)
  {
    hide FrameBytes;
    if fs != [] {
      var n := |fs| - 1;
      CutWireLength(fs[..n], cuts[..n]);
    }
  }

  /** The least number of bytes that can carry a message. */
  function LeastLength(m: Message): nat { HeadLength(MinimalForm(|m.payload|)) + |m.payload| }

  function LeastTotal(ms: seq<Message>): nat {
    if ms == [] then 0 else LeastLength(ms[0]) + LeastTotal(ms[1..])
  }

  lemma {:induction false} LeastTotalNext(ms: seq<Message>, m: Message)
    ensures LeastTotal(ms + [m]) == LeastTotal(ms) + LeastLength(m)
  {
    hide LeastLength;
    if ms == [] {
      assert [] + [m] == [m] && [m][1..] == [];
    } else {
      assert (ms + [m])[1..] == ms[1..] + [m];
      LeastTotalNext(ms[1..], m);
    }
  }

  lemma {:induction false} ValueBelow(s: seq<byte>)
    ensures Value(s) < Pow256(|s|)
  {
    hide ToNat;
    if s != [] {
      ValueBelow(s[..|s| - 1]);
      ByteLimit(s[|s| - 1]);
    }
  }

  /** A length field has the minimal number of bytes or more. */
  lemma LengthFieldIsLongEnough(s: seq<byte>)
    requires ParseLength(s).Some?
    ensures ParseLength(s).value.1 >= HeadLength(MinimalForm(ParseLength(s).value.0))
  {
    hide ToNat, Value, Pow256;
    Pow256Values();
    if |s| >= 4 { ValueBelow(s[2..4]); }
  }

  lemma FrameIsLongEnough(s: seq<byte>, max: nat)
    requires ParseFrame(s, max).Some?
    ensures var p := ParseFrame(s, max).value;
            |s| >= LeastLength(Message(p.opcode, p.payload)) + |p.rest|
  {
    hide ToNat, Mask, ParseLength;
    LengthOf(s);
    LengthFieldIsLongEnough(s);
    hide HeadLength, MinimalForm;
  }

  lemma LengthOf(s: seq<byte>)
    ensures ParseLength(s).Some? ==> 2 <= ParseLength(s).value.1 <= |s|
    ensures forall key: seq<byte>, data: seq<byte> :: |key| == 4 ==> |Mask(key, data)| == |data|
  {
  }

  /** However they are coded, messages take no fewer bytes than their minimal unmasked frames. */
  lemma {:induction false} StreamIsLongEnough(s: seq<byte>, max: nat)
    ensures LeastTotal(ParseStream(s, max)) <= |s|
    decreases |s|
  {
    hide ParseFrame, LeastLength;
    match ParseFrame(s, max)
    case None =>
    case Some(p) =>
      Shrinks(s, max);
      FrameIsLongEnough(s, max);
      StreamIsLongEnough(p.rest, max);
      var ms := ParseStream(s, max);
      assert ms[0] == Message(p.opcode, p.payload) && ms[1..] == ParseStream(p.rest, max);
  }

  lemma Shrinks(s: seq<byte>, max: nat)
    ensures ParseFrame(s, max).Some? ==> |ParseFrame(s, max).value.rest| < |s|
  {
  }

  // -------- decoding --------

  function MessagesOf(fs: seq<Frame>): (r: seq<Message>)
    ensures |r| == |fs|
  {
    seq(|fs|, i requires 0 <= i < |fs| => Message(fs[i].opcode, fs[i].payload))
  }

  predicate Unmasked(fs: seq<Frame>) { forall i :: 0 <= i < |fs| ==> fs[i].key == [] }

  lemma FrameLength(f: Frame)
    requires f.key == []
    ensures |FrameBytes(f)| == LeastLength(Message(f.opcode, f.payload))
  {
    hide ToByte, BigEndian;
    LengthBytesLength(MinimalForm(|f.payload|), 0, |f.payload|);
    hide LengthBytes;
  }

  lemma {:induction false} TotalIsLeast(fs: seq<Frame>)
    requires Unmasked(fs)
    ensures Total(fs) == LeastTotal(MessagesOf(fs))
  {
    hide FrameBytes, LeastLength;
    if fs != [] {
      var n := |fs| - 1;
      TotalIsLeast(fs[..n]);
      FrameLength(fs[n]);
      LeastTotalNext(MessagesOf(fs[..n]), Message(fs[n].opcode, fs[n].payload));
      assert MessagesOf(fs) == MessagesOf(fs[..n]) + [Message(fs[n].opcode, fs[n].payload)];
    }
  }

  /** Beyond every payload length that a frame can carry; a browser sets no other limit. */
  const NO_LIMIT := 0x8000_0000_0000_0000

  /** Complete frames are decoded, whatever follows them. */
  lemma {:induction false} DecodesInFront(fs: seq<Frame>, rest: seq<byte>)
    ensures ParseStream(Wire(fs) + rest, NO_LIMIT) == MessagesOf(fs) + ParseStream(rest, NO_LIMIT)
    decreases |fs|
  {
    hide Encode, ParseFrame;
    if fs == [] {
      assert Wire(fs) + rest == rest;
    } else {
      WireFront(fs);
      hide Wire;
      var f, tail := fs[0], Wire(fs[1..]) + rest;
      assert Wire(fs) + rest == FrameBytes(f) + tail;
      ParseEncoded(f, MinimalForm(|f.payload|), tail, NO_LIMIT);
      DecodesInFront(fs[1..], rest);
      assert MessagesOf(fs) == [Message(f.opcode, f.payload)] + MessagesOf(fs[1..]);
    }
  }

  lemma WireFront(fs: seq<Frame>)
    requires fs != []
    ensures Wire(fs) == FrameBytes(fs[0]) + Wire(fs[1..])
  {
    hide Encode;
    assert Minimal(fs)[1..] == Minimal(fs[1..]);
  }

  /** Everything sent before the first incomplete frame is decoded. */
  lemma DecodesBeforeCut(fs: seq<Frame>, cuts: seq<nat>, j: nat)
    requires Cuts(fs, cuts) && j <= |fs| && forall i :: 0 <= i < j ==> cuts[i] == |FrameBytes(fs[i])|
    ensures MessagesOf(fs[..j]) <= ParseStream(CutWire(fs, cuts), NO_LIMIT)
  {
    hide Wire, FrameBytes, ParseStream, MessagesOf;
    var rest := CutInTwo(fs, cuts, j);
    WholeIsWire(fs[..j], cuts[..j]);
    DecodesInFront(fs[..j], rest);
  }

  lemma {:induction false} CutInTwo(fs: seq<Frame>, cuts: seq<nat>, j: nat) returns (rest: seq<byte>)
    requires Cuts(fs, cuts) && j <= |fs|
    ensures CutWire(fs, cuts) == CutWire(fs[..j], cuts[..j]) + rest
  {
    hide FrameBytes;
    if j == |fs| {
      assert fs[..j] == fs && cuts[..j] == cuts;
      rest := [];
    } else {
      var n := |fs| - 1;
      var front := CutInTwo(fs[..n], cuts[..n], j);
      assert fs[..n][..j] == fs[..j] && cuts[..n][..j] == cuts[..j];
      rest := front + FrameBytes(fs[n])[..cuts[n]];
    }
  }

  /** A peer decodes exactly the messages of all frames if and only if every frame was sent whole. Whatever it makes of
      the bytes behind an incomplete frame, there are too few of them to carry the same messages. */
  lemma DecodesAllExactlyWhen(fs: seq<Frame>, cuts: seq<nat>)
    requires Cuts(fs, cuts) && Unmasked(fs)
    ensures ParseStream(CutWire(fs, cuts), NO_LIMIT) == MessagesOf(fs) <==> AllWhole(fs, cuts)
  {
    hide Wire, FrameBytes, ParseStream, MessagesOf, Total, LeastTotal, CutWire;
    CutWireLength(fs, cuts);
    TotalIsLeast(fs);
    StreamIsLongEnough(CutWire(fs, cuts), NO_LIMIT);
    if AllWhole(fs, cuts) {
      WholeIsWire(fs, cuts);
      DecodesInFront(fs, []);
      NothingLeft();
      assert Wire(fs) + [] == Wire(fs) && MessagesOf(fs) + [] == MessagesOf(fs);
    }
  }

  lemma NothingLeft()
    ensures ParseStream([], NO_LIMIT) == []
  {
    NothingToParse(NO_LIMIT);
  }
}
