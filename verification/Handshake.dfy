/** The Sec-WebSocket-Accept value, section 4.2.2 of RFC 6455. */
module Handshake {
  import opened Basics
  import opened Sha1Spec
  import Sha1
  import Base64

  const GUID := "258EAFA5-E914" + "-47DA-95CA-C5" + "AB0DC85B11"

  /** The value the standard prescribes for a key. */
  function AcceptValue(key: seq<byte>): (r: string)
    ensures |r| == 28
  {
    hide Digest, Base64.Encode;
    Base64.Encode(Digest(key + Ascii(GUID)))
  }

  /** snprintf into 256 bytes keeps at most 255 characters. */
  function Truncated(s: seq<byte>): seq<byte> { s[..Min(|s|, 255)] }

  /** compute_accept_key on a C string, into a buffer of 64 characters. It never fails. */
  method ComputeAcceptKey(key: seq<byte>, out: array<char>) returns (ok: bool)
    requires out.Length == 64
    modifies out
    ensures ok && out[28] == '\0' && out[..28] == ComputedValue(key)
    ensures |key| <= 219 ==> out[..28] == AcceptValue(key)
  {
    hide Digest, Base64.Encode;
    var cat := Truncated(key + Ascii(GUID));
    ShortKeysFit(key);
    var digest := Sha1Of(cat);
    var r := Base64.EncodeInto(digest, out);
    ok := r >= 0;
  }

  /** The value of what snprintf leaves of the key and the GUID. */
  function ComputedValue(key: seq<byte>): string {
    Base64.Encode(Digest(Truncated(key + Ascii(GUID))))
  }

  lemma ShortKeysFit(key: seq<byte>)
    ensures Truncated(key + Ascii(GUID)) == key + Ascii(GUID) <==> |key| <= 219
  {
    assert |GUID| == 36;
    if |key| > 219 {
      assert |Truncated(key + Ascii(GUID))| == 255 < |key + Ascii(GUID)|;
    }
  }

  /** The computed value is the prescribed one if and only if the key has at most 219 characters, so that nothing is
      cut off, or what is left by the cut happens to have the SHA-1 digest of the whole. */
  lemma PrescribedExactlyWhen(key: seq<byte>)
    ensures ComputedValue(key) == AcceptValue(key)
       <==> |key| <= 219 || Digest(Truncated(key + Ascii(GUID))) == Digest(key + Ascii(GUID))
  {
    hide Digest, Base64.Encode, Base64.Decode, Truncated;
    ShortKeysFit(key);
    Base64.DecodeEncode(Digest(Truncated(key + Ascii(GUID))));
    Base64.DecodeEncode(Digest(key + Ascii(GUID)));
  }

  method Sha1Of(data: seq<byte>) returns (digest: seq<byte>)
    ensures digest == Digest(data)
  {
    hide Digest;
    var input := new byte[|data|](i requires 0 <= i < |data| => data[i]);
    var ctx := new Sha1.Context();
    ctx.Update(input, |data|);
    assert input[..|data|] == data && ctx.msg == data;
    var out := new byte[20](_ => 0);
    ctx.Final(out);
    digest := out[..];
  }

  /** No two digests share an accept value, so the value is as good a check of the key as the digest itself. */
  lemma AcceptValueDeterminesDigest(k1: seq<byte>, k2: seq<byte>)
    ensures AcceptValue(k1) == AcceptValue(k2) <==> Digest(k1 + Ascii(GUID)) == Digest(k2 + Ascii(GUID))
  {
    hide Digest, Base64.Encode, Base64.Decode;
    Base64.DecodeEncode(Digest(k1 + Ascii(GUID)));
    Base64.DecodeEncode(Digest(k2 + Ascii(GUID)));
  }
}
