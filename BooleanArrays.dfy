/** `BooleanArrayAttribute`: a simulator attribute holding a `boolean[]`, stored as a
    four-byte element count followed by one byte per element, and shown as
    `[true, false, ...]`. */
module BooleanArrays {
  import opened Results
  import opened Encoding
  import opened Text
  import opened Streams
  import opened ArrayCodec
  import opened Seqs

  /** The longest array whose `getSize()` does not wrap around in Java `int`
      arithmetic: 4 + n <= 2^31 - 1. */
  const MAX_SIZED: nat := 0x7FFF_FFFB

  /** `getSize()` for an array of `n` elements, computed in Java `int` arithmetic. */
  function SizeOf(n: nat): Int32
  {
    Wrap32(4 + n)
  }

  /** What `write` emits: `value.length`, then the booleans. */
  function Encode(e: Endian, bs: seq<bool>): (r: seq<byte>)
    requires |bs| <= INT32_MAX
    ensures |r| == 4 + |bs|
  {
    EncodeInt32(e, |bs|) + EncodeBools(bs)
  }

  /** What `read` makes of the bytes `s` ahead of the cursor: a count, then exactly
      that many booleans. A negative count is refused before anything else is read;
      a count that runs past the end of the stream fails as truncated. */
  function Decode(e: Endian, s: seq<byte>): (r: Result<seq<bool>>)
    ensures r.Success? ==> |r.value| <= INT32_MAX && |s| >= 4 + |r.value|
    ensures r.Success? ==> |r.value| == DecodeInt32(e, s[..4])
    ensures r.Failure? && r.error.NegativeCount? ==> |s| >= 4 && DecodeInt32(e, s[..4]) < 0
  {
    if |s| < 4 then Failure(Truncated)
    else
      var n := DecodeInt32(e, s[..4]);
      if n < 0 then Failure(NegativeCount(n))
      else if |s| < 4 + n then Failure(Truncated)
      else Success(DecodeBools(s[4..], n))
  }

  /** The count prefix of an encoded array reads back as its length. */
  lemma DecodeCountPrefix(e: Endian, bs: seq<bool>, rest: seq<byte>)
    requires |bs| <= INT32_MAX
    ensures (Encode(e, bs) + rest)[..4] == EncodeInt32(e, |bs|)
    ensures DecodeInt32(e, (Encode(e, bs) + rest)[..4]) == |bs|
    ensures (Encode(e, bs) + rest)[4..] == EncodeBools(bs) + rest
  {
    var count := EncodeInt32(e, |bs|);
    var body := EncodeBools(bs);
    assert Encode(e, bs) + rest == count + (body + rest);
    DecodeEncodeInt32(e, |bs|);
  }

  /** Reading what `write` produced restores the array and consumes exactly its
      bytes; whatever follows is not looked at. */
  lemma DecodeEncode(e: Endian, bs: seq<bool>, rest: seq<byte>)
    requires |bs| <= INT32_MAX
    ensures Decode(e, Encode(e, bs) + rest) == Success(bs)
  {
    DecodeCountPrefix(e, bs, rest);
    assert DecodeBools(EncodeBools(bs) + rest, |bs|) == bs;
  }

  /** Writing what was read reproduces the bytes consumed exactly when every
      element byte was 0 or 1; `write` never emits any other byte for a boolean. */
  lemma EncodeDecode(e: Endian, s: seq<byte>)
    requires Decode(e, s).Success?
    ensures var bs := Decode(e, s).value;
      Encode(e, bs) == s[..4 + |bs|] <==> forall i :: 4 <= i < 4 + |bs| ==> s[i] <= 1
  {
    var bs := Decode(e, s).value;
    var n := |bs|;
    EncodeDecodeInt32(e, s[..4]);
    var r := Encode(e, bs);
    assert r[..4] == s[..4];
    if forall i :: 4 <= i < 4 + n ==> s[i] <= 1 {
      forall j | 0 <= j < 4 + n
        ensures r[j] == s[j]
      {
        if j < 4 {
          assert r[j] == r[..4][j];
        } else {
          assert bs[j - 4] == (s[4..][j - 4] != 0);
        }
      }
    } else {
      var i :| 4 <= i < 4 + n && s[i] > 1;
      assert r[i] <= 1;
    }
  }

  /** `write` emits `4 + value.length` bytes, which is what `getSize()` reports
      for every array short enough that Java's `int` arithmetic does not wrap. */
  lemma EncodeSize(e: Endian, bs: seq<bool>)
    requires |bs| <= INT32_MAX
    ensures |Encode(e, bs)| == 4 + |bs|
    ensures |bs| <= MAX_SIZED <==> SizeOf(|bs|) == |Encode(e, bs)|
  {
  }

  /** `Boolean.toString`. */
  function BoolString(b: bool): string
  {
    if b then "true" else "false"
  }

  /** Reads back a list rendered by `RenderList(BoolString, _)`: nothing for the
      empty list; otherwise "true" or "false", then either the end or ", " and
      more. */
  function ParseBools(s: string): (r: Option<seq<bool>>)
    decreases |s|
  {
    if s == "" then Some([])
    else if s == "true" then Some([true])
    else if s == "false" then Some([false])
    else if |s| > 6 && s[..6] == "true, " then
      var rest := ParseBools(s[6..]);
      if rest.Some? then Some([true] + rest.value) else None
    else if |s| > 7 && s[..7] == "false, " then
      var rest := ParseBools(s[7..]);
      if rest.Some? then Some([false] + rest.value) else None
    else None
  }

  /** The rendered list determines the array: reading it back gives every element
      in order, and the empty array comes back from "". */
  lemma {:induction false} ParseBoolsRoundTrip(bs: seq<bool>)
    ensures ParseBools(RenderList(BoolString, bs)) == Some(bs)
  {
    if |bs| == 0 {
      assert Formatted(BoolString, bs) == [];
    } else if |bs| == 1 {
      assert Formatted(BoolString, bs) == [BoolString(bs[0])];
      assert RenderList(BoolString, bs) == BoolString(bs[0]);
      assert bs == [bs[0]];
    } else {
      var rest := bs[1..];
      assert bs == [bs[0]] + rest;
      RenderListCons(BoolString, bs[0], rest);
      var s := RenderList(BoolString, bs);
      var head := BoolString(bs[0]) + ", ";
      assert s == head + RenderList(BoolString, rest);
      assert s[..|head|] == head;
      assert s[|head|..] == RenderList(BoolString, rest);
      ParseBoolsRoundTrip(rest);
      var tail := RenderList(BoolString, rest);
      assert |tail| >= 1 by {
        assert ParseBools("") == Some([]) && ParseBools(tail) == Some(rest) && rest != [];
      }
      assert |s| > |head|;
      if bs[0] {
        assert s != "true" && s != "false";
        assert ParseBools(s) == Some([true] + rest);
      } else {
        assert s != "true" && s != "false";
        assert s[..6] != "true, " by { assert s[..6][0] == 'f'; }
        assert ParseBools(s) == Some([false] + rest);
      }
    }
  }

  class BooleanArrayAttribute {
    var value: array<bool>

    /** A Java array is at most `Integer.MAX_VALUE` long. */
    ghost predicate Valid()
      reads this
    {
      value.Length <= INT32_MAX
    }

    constructor (bs: seq<bool>)
      requires |bs| <= INT32_MAX
      ensures Valid() && fresh(value) && value[..] == bs
    {
      value := new bool[|bs|](i requires 0 <= i < |bs| => bs[i]);
    }

    /** `read(stream, size)`: allocates an array of the count read from the stream
        and fills it from the stream. `size` plays no part. When the count is
        negative nothing is allocated; when the elements run past the end of the
        stream the fresh array has the count's length but not all its elements. */
    method Read(stream: StreamReader, e: Endian, size: int) returns (err: Option<ReadError>)
      requires stream.Valid() && Valid()
      modifies this, stream
      ensures stream.Valid() && Valid()
      ensures var d := Decode(e, stream.data[old(stream.pos)..]);
        && (d.Success? ==> err == None && fresh(value) && value[..] == d.value
                           && stream.pos == old(stream.pos) + 4 + value.Length)
        && (d.Failure? ==> err == Some(d.error))
        && (d.Failure? && (d.error.NegativeCount? || old(stream.pos) + 4 > |stream.data|) ==> value == old(value))
        && (d.Failure? && d.error.Truncated? && old(stream.pos) + 4 <= |stream.data| ==>
              fresh(value) && value.Length == DecodeInt32(e, stream.data[old(stream.pos)..][..4]))
    {
      ghost var p := stream.pos;
      ghost var s := stream.data[p..];
      var count := stream.ReadInt(e);
      if count.None? {
        return Some(Truncated);
      }
      assert s[..4] == stream.data[p..p + 4];
      if count.value < 0 {
        return Some(NegativeCount(count.value));
      }
      value := new bool[count.value];
      var ok := stream.ReadBooleans(value);
      if !ok {
        return Some(Truncated);
      }
      assert stream.data[p + 4..] == s[4..];
      err := None;
    }

    /** `write`: the length, then one byte per boolean in order. */
    method Write(stream: StreamWriter, e: Endian)
      requires Valid()
      modifies stream
      ensures stream.data == old(stream.data) + Encode(e, value[..])
    {
      ghost var before := stream.data;
      stream.WriteInt(e, value.Length);
      stream.WriteBooleans(value);
      AppendAssoc(before, EncodeInt32(e, value.Length), EncodeBools(value[..]));
    }

    /** `getSize()`: 4 bytes of count and 1 per element, in `int` arithmetic. */
    function GetSize(): (n: Int32)
      reads this
      requires Valid()
      ensures value.Length <= MAX_SIZED ==> n == 4 + value.Length
    {
      SizeOf(value.Length)
    }

    /** `toString(tabulation)`: "[", "true"/"false" per element separated by ", ",
        "]". */
    method ToString(tabulation: string) returns (s: string)
      ensures s == "[" + RenderList(BoolString, value[..]) + "]"
    {
      s := "[";
      var i := 0;
      while i < value.Length
        invariant 0 <= i <= value.Length
        invariant s == "[" + RenderList(BoolString, value[..i]) + (if 0 < i < value.Length then ", " else "")
      {
        RenderStep(BoolString, value[..], i, "[");
        assert value[..][..i + 1] == value[..i + 1] && value[..][..i] == value[..i];
        s := s + BoolString(value[i]);
        if i + 1 < value.Length {
          s := s + ", ";
        }
        i := i + 1;
      }
      assert value[..value.Length] == value[..];
      s := s + "]";
    }

    /** `toXmlString(tabulation)`: the same list without the brackets. */
    method ToXmlString(tabulation: string) returns (s: string)
      ensures s == RenderList(BoolString, value[..])
    {
      s := "";
      var i := 0;
      while i < value.Length
        invariant 0 <= i <= value.Length
        invariant s == RenderList(BoolString, value[..i]) + (if 0 < i < value.Length then ", " else "")
      {
        RenderStep(BoolString, value[..], i, "");
        assert value[..][..i + 1] == value[..i + 1] && value[..][..i] == value[..i];
        assert "" + RenderList(BoolString, value[..i]) == RenderList(BoolString, value[..i]);
        assert "" + RenderList(BoolString, value[..i + 1]) == RenderList(BoolString, value[..i + 1]);
        s := s + BoolString(value[i]);
        if i + 1 < value.Length {
          s := s + ", ";
        }
        i := i + 1;
      }
      assert value[..value.Length] == value[..];
    }
  }
}
