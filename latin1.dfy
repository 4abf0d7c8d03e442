/** Node's "binary" (latin1) string encoding: every byte is one character
    whose code is the byte value, so positions in the decoded string are
    positions in the byte buffer. */
module Latin1 {

  type Byte = b: int | 0 <= b < 256

  /** `chunk.toString("binary")` */
  function Decode(bytes: seq<Byte>): (s: string)
    ensures |s| == |bytes|
    ensures forall i :: 0 <= i < |bytes| ==> s[i] as int == bytes[i]
  {
    seq(|bytes|, i requires 0 <= i < |bytes| => bytes[i] as char)
  }

  /** `Buffer.from(s, "binary")`: each character keeps its low eight bits. */
  function Encode(s: string): (bytes: seq<Byte>)
    ensures |bytes| == |s|
    ensures forall i :: 0 <= i < |s| ==> bytes[i] == (s[i] as int) % 256
  {
    seq(|s|, i requires 0 <= i < |s| => (s[i] as int) % 256)
  }

  /** Concatenation of the request's data chunks, in arrival order. */
  function Flatten(chunks: seq<seq<Byte>>): (bytes: seq<Byte>)
  {
    if |chunks| == 0 then [] else Flatten(chunks[..|chunks| - 1]) + chunks[|chunks| - 1]
  }

  /** Re-encoding a decoded buffer gives back every byte unchanged. */
  lemma EncodeDecode(bytes: seq<Byte>)
    ensures Encode(Decode(bytes)) == bytes
  {
    var s := Decode(bytes);
    forall i | 0 <= i < |bytes|
      ensures Encode(s)[i] == bytes[i]
    {
      assert s[i] as int == bytes[i];
    }
  }

  /** Decoding chunk by chunk is decoding the whole: the encoding carries no
      state across a chunk boundary. */
  lemma DecodeAppend(a: seq<Byte>, b: seq<Byte>)
    ensures Decode(a + b) == Decode(a) + Decode(b)
  {
    var l, r := Decode(a + b), Decode(a) + Decode(b);
    forall i | 0 <= i < |a + b|
      ensures l[i] == r[i]
    {
      assert l[i] as int == (a + b)[i];
      if i < |a| {
        assert r[i] as int == a[i];
      } else {
        assert r[i] as int == b[i - |a|];
      }
    }
  }

  /** A slice of the decoded string is the decoding of the same byte slice. */
  lemma DecodeSlice(bytes: seq<Byte>, lo: nat, hi: nat)
    requires lo <= hi <= |bytes|
    ensures Decode(bytes)[lo..hi] == Decode(bytes[lo..hi])
  {
    var l, r := Decode(bytes)[lo..hi], Decode(bytes[lo..hi]);
    forall i | 0 <= i < hi - lo
      ensures l[i] == r[i]
    {
      assert l[i] as int == bytes[lo + i];
      assert r[i] as int == bytes[lo..hi][i];
    }
  }
}
