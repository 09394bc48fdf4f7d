/** `IntArrayAttribute`: a simulator attribute holding an `int[]`, stored as a
    four-byte element count followed by four bytes per element, and shown as
    `[a, b, c]` with each element formatted by the name/hash service. */
module IntArrays {
  import opened Results
  import opened Encoding
  import opened Text
  import opened Streams
  import opened ArrayCodec
  import opened Seqs

  /** The longest array whose `getSize()` does not wrap around in Java `int`
      arithmetic: 4 + 4 * n <= 2^31 - 1. */
  const MAX_SIZED: nat := 536_870_910

  /** `getSize()` for an array of `n` elements, computed in Java `int` arithmetic. */
  function SizeOf(n: nat): Int32
  {
    Wrap32(4 + 4 * n)
  }

  /** What `write` emits: `value.length`, then the elements. */
  function Encode(e: Endian, vs: seq<Int32>): (r: seq<byte>)
    requires |vs| <= INT32_MAX
    ensures |r| == 4 + 4 * |vs|
  {
    EncodeInt32(e, |vs|) + EncodeInts(e, vs)
  }

  /** What `read` makes of the bytes `s` ahead of the cursor: a count, then exactly
      that many elements. A negative count is refused before anything else is read;
      a count that runs past the end of the stream fails as truncated. */
  function Decode(e: Endian, s: seq<byte>): (r: Result<seq<Int32>>)
    ensures r.Success? ==> |r.value| <= INT32_MAX && |s| >= 4 + 4 * |r.value|
    ensures r.Success? ==> |r.value| == DecodeInt32(e, s[..4])
    ensures r.Failure? && r.error.NegativeCount? ==> |s| >= 4 && DecodeInt32(e, s[..4]) < 0
  {
    if |s| < 4 then Failure(Truncated)
    else
      var n := DecodeInt32(e, s[..4]);
      if n < 0 then Failure(NegativeCount(n))
      else if |s| < 4 + 4 * n then Failure(Truncated)
      else Success(DecodeInts(e, s[4..], n))
  }

  /** The count prefix of an encoded array reads back as its length. */
  lemma DecodeCountPrefix(e: Endian, vs: seq<Int32>, rest: seq<byte>)
    requires |vs| <= INT32_MAX
    ensures (Encode(e, vs) + rest)[..4] == EncodeInt32(e, |vs|)
    ensures DecodeInt32(e, (Encode(e, vs) + rest)[..4]) == |vs|
    ensures (Encode(e, vs) + rest)[4..] == EncodeInts(e, vs) + rest
  {
    var count := EncodeInt32(e, |vs|);
    var body := EncodeInts(e, vs);
    AppendAssoc(count, body, rest);
    SliceOfAppendRight(count, body + rest);
    DecodeEncodeInt32(e, |vs|);
  }

  /** Reading what `write` produced restores the array element for element and
      consumes exactly its bytes; whatever follows is not looked at. */
  lemma DecodeEncode(e: Endian, vs: seq<Int32>, rest: seq<byte>)
    requires |vs| <= INT32_MAX
    ensures Decode(e, Encode(e, vs) + rest) == Success(vs)
  {
    var s := Encode(e, vs) + rest;
    DecodeCountPrefix(e, vs, rest);
    DecodeEncodeInts(e, vs, rest);
  }

  /** A successful read consumed exactly the bytes that writing its result emits:
      the count prefix and the elements, nothing more. */
  lemma EncodeDecode(e: Endian, s: seq<byte>)
    requires Decode(e, s).Success?
    ensures var vs := Decode(e, s).value;
      Encode(e, vs) == s[..4 + 4 * |vs|]
  {
    var vs := Decode(e, s).value;
    var n := |vs|;
    EncodeDecodeInt32(e, s[..4]);
    assert vs == DecodeInts(e, s[4..], n);
    EncodeIntsOfDecoded(e, s[4..], n);
    PrefixSplit(s, 4, 4 + 4 * n);
    assert s[4..][..4 * n] == s[4..4 + 4 * n];
  }

  /** `write` emits `4 + 4 * value.length` bytes, which is what `getSize()` reports
      for every array short enough that Java's `int` arithmetic does not wrap. */
  lemma EncodeSize(e: Endian, vs: seq<Int32>)
    requires |vs| <= INT32_MAX
    ensures |Encode(e, vs)| == 4 + 4 * |vs|
    ensures |vs| <= MAX_SIZED <==> SizeOf(|vs|) == |Encode(e, vs)|
  {
  }

  class IntArrayAttribute {
    var value: array<Int32>

    /** A Java array is at most `Integer.MAX_VALUE` long. */
    ghost predicate Valid()
      reads this
    {
      value.Length <= INT32_MAX
    }

    constructor (vs: seq<Int32>)
      requires |vs| <= INT32_MAX
      ensures Valid() && fresh(value) && value[..] == vs
    {
      value := new Int32[|vs|](i requires 0 <= i < |vs| => vs[i]);
    }

    /** `read(stream, size)`: allocates an array of the count read from the stream
        and fills it from the stream. `size` plays no part. When the count is
        negative nothing is allocated; when the elements run past the end of the
        stream the fresh array has the count's length but not all its elements. */
    method Read(stream: StreamReader, e: Endian, size: int) returns (err: Option<ReadError>)
      requires stream.Valid() && Valid()
      modifies this, stream
      ensures stream.Valid() && Valid()
      ensures var d := Decode(e, stream.data[old(stream.pos)..]);
        && (d.Success? ==> err == None && fresh(value) && value[..] == d.value
                           && stream.pos == old(stream.pos) + 4 + 4 * value.Length)
        && (d.Failure? ==> err == Some(d.error))
        && (d.Failure? && (d.error.NegativeCount? || old(stream.pos) + 4 > |stream.data|) ==> value == old(value))
        && (d.Failure? && d.error.Truncated? && old(stream.pos) + 4 <= |stream.data| ==>
              fresh(value) && value.Length == DecodeInt32(e, stream.data[old(stream.pos)..][..4]))
    {
      ghost var p := stream.pos;
      ghost var s := stream.data[p..];
      var count := stream.ReadInt(e);
      if count.None? {
        return Some(Truncated);
      }
      assert s[..4] == stream.data[p..p + 4];
      if count.value < 0 {
        return Some(NegativeCount(count.value));
      }
      value := new Int32[count.value];
      var ok := stream.ReadInts(e, value);
      if !ok {
        return Some(Truncated);
      }
      assert stream.data[p + 4..] == s[4..];
      err := None;
    }

    /** `write`: the length, then every element in order. */
    method Write(stream: StreamWriter, e: Endian)
      requires Valid()
      modifies stream
      ensures stream.data == old(stream.data) + Encode(e, value[..])
    {
      ghost var before := stream.data;
      stream.WriteInt(e, value.Length);
      stream.WriteInts(e, value);
      AppendAssoc(before, EncodeInt32(e, value.Length), EncodeInts(e, value[..]));
    }

    /** `getSize()`: 4 bytes of count and 4 per element, in `int` arithmetic. */
    function GetSize(): (n: Int32)
      reads this
      requires Valid()
      ensures value.Length <= MAX_SIZED ==> n == 4 + 4 * value.Length
    {
      SizeOf(value.Length)
    }

    /** `toString(tabulation)`: "[", the formatted elements separated by ", ", "]". */
    method ToString(formatInt32: Int32 -> string, tabulation: string) returns (s: string)
      ensures s == "[" + RenderList(formatInt32, value[..]) + "]"
    {
      s := "[";
      var i := 0;
      while i < value.Length
        invariant 0 <= i <= value.Length
        invariant s == "[" + RenderList(formatInt32, value[..i]) + (if 0 < i < value.Length then ", " else "")
      {
        RenderStep(formatInt32, value[..], i, "[");
        assert value[..][..i + 1] == value[..i + 1] && value[..][..i] == value[..i];
        s := s + formatInt32(value[i]);
        if i + 1 < value.Length {
          s := s + ", ";
        }
        i := i + 1;
      }
      assert value[..value.Length] == value[..];
      s := s + "]";
    }

    /** `toXmlString(tabulation)`: the same list without the brackets. */
    method ToXmlString(formatInt32: Int32 -> string, tabulation: string) returns (s: string)
      ensures s == RenderList(formatInt32, value[..])
    {
      s := "";
      var i := 0;
      while i < value.Length
        invariant 0 <= i <= value.Length
        invariant s == RenderList(formatInt32, value[..i]) + (if 0 < i < value.Length then ", " else "")
      {
        RenderStep(formatInt32, value[..], i, "");
        assert value[..][..i + 1] == value[..i + 1] && value[..][..i] == value[..i];
        assert "" + RenderList(formatInt32, value[..i]) == RenderList(formatInt32, value[..i]);
        assert "" + RenderList(formatInt32, value[..i + 1]) == RenderList(formatInt32, value[..i + 1]);
        s := s + formatInt32(value[i]);
        if i + 1 < value.Length {
          s := s + ", ";
        }
        i := i + 1;
      }
      assert value[..value.Length] == value[..];
    }
  }
}
