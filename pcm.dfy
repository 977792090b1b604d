/**
 * Decoding of the raw capture bytes: interleaved stereo, signed 16-bit,
 * little-endian PCM (struct format "<hh...h"), and extraction of the left
 * channel (the samples at even positions).
 */
module Pcm {
  import opened Wrappers

  newtype byte = x: int | 0 <= x < 256

  /** The range of a signed 16-bit sample. */
  predicate IsSample(v: int) {
    -32768 <= v <= 32767
  }

  /** One little-endian signed 16-bit word: low byte first, two's complement. */
  function DecodeSample(lo: byte, hi: byte): (v: int)
    ensures IsSample(v)
    ensures (v + 65536) % 65536 == lo as int + 256 * hi as int
  {
    var u := lo as int + 256 * hi as int;
    if u >= 32768 then u - 65536 else u
  }

  /** The inverse of DecodeSample: the two bytes that encode a sample. */
  function EncodeSample(v: int): (b: seq<byte>)
    requires IsSample(v)
    ensures |b| == 2 && DecodeSample(b[0], b[1]) == v
  {
    var u := if v < 0 then v + 65536 else v;
    [(u % 256) as byte, (u / 256) as byte]
  }

  lemma EncodeDecodeSample(lo: byte, hi: byte)
    ensures EncodeSample(DecodeSample(lo, hi)) == [lo, hi]
  {
    var v := DecodeSample(lo, hi);
    var u := if v < 0 then v + 65536 else v;
    assert u == lo as int + 256 * hi as int;
  }

  /** Every word of an even-length byte string, in order. */
  function DecodeWords(b: seq<byte>): (vs: seq<int>)
    requires |b| % 2 == 0
    ensures |vs| == |b| / 2
    ensures forall i :: 0 <= i < |vs| ==> vs[i] == DecodeSample(b[2 * i], b[2 * i + 1])
    decreases |b|
  {
    if |b| == 0 then [] else [DecodeSample(b[0], b[1])] + DecodeWords(b[2..])
  }

  /**
   * struct.unpack("<" + "h" * (len(b) // 2), b): the format needs exactly
   * 2 * (len(b) // 2) bytes, so an odd-length byte string is an error.
   */
  function Decode(b: seq<byte>): (r: Option<seq<int>>)
    ensures r.Some? <==> |b| % 2 == 0
    ensures r.Some? ==> |r.value| == |b| / 2
    ensures r.Some? ==> forall i :: 0 <= i < |r.value| ==> IsSample(r.value[i])
  {
    if |b| % 2 != 0 then None else Some(DecodeWords(b))
  }

  /** The byte string that a capture device delivers for the given words. */
  function Encode(vs: seq<int>): (b: seq<byte>)
    requires forall i :: 0 <= i < |vs| ==> IsSample(vs[i])
    ensures |b| == 2 * |vs|
  {
    if |vs| == 0 then [] else EncodeSample(vs[0]) + Encode(vs[1..])
  }

  lemma {:induction false} DecodeEncode(vs: seq<int>)
    requires forall i :: 0 <= i < |vs| ==> IsSample(vs[i])
    ensures Decode(Encode(vs)) == Some(vs)
  {
    if |vs| > 0 {
      DecodeEncode(vs[1..]);
      var b := Encode(vs);
      var e := EncodeSample(vs[0]);
      assert b == e + Encode(vs[1..]);
      assert b[0] == e[0] && b[1] == e[1];
      assert b[2..] == Encode(vs[1..]);
      assert DecodeWords(b)[1..] == DecodeWords(b[2..]);
      assert DecodeWords(b) == [vs[0]] + vs[1..];
      assert vs == [vs[0]] + vs[1..];
      assert |b| % 2 == 0;
      assert Decode(b) == Some(DecodeWords(b));
    }
  }

  lemma {:induction false} EncodeDecode(b: seq<byte>)
    requires |b| % 2 == 0
    ensures Decode(b).Some? && Encode(Decode(b).value) == b
    decreases |b|
  {
    if |b| > 0 {
      EncodeDecode(b[2..]);
      var vs := DecodeWords(b);
      assert vs[1..] == DecodeWords(b[2..]);
      EncodeDecodeSample(b[0], b[1]);
      assert b == [b[0], b[1]] + b[2..];
    }
  }

  /** s[0::2]: the left channel of an interleaved stereo word sequence. */
  function LeftChannel(s: seq<int>): (l: seq<int>)
    ensures |l| == (|s| + 1) / 2
    ensures forall i :: 0 <= i < |l| ==> l[i] == s[2 * i]
    decreases |s|
  {
    if |s| == 0 then []
    else if |s| == 1 then [s[0]]
    else [s[0]] + LeftChannel(s[2..])
  }
}
