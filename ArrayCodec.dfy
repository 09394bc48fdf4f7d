/** Runs of array elements as the stream's `readInts` / `writeInts` and
    `readBooleans` / `writeBooleans` lay them out: elements end to end, with no
    count and no padding. */
module ArrayCodec {
  import opened Encoding
  import opened Seqs

  /** The elements, four bytes each, in order, with no padding between them. */
  function EncodeInts(e: Endian, vs: seq<Int32>): (r: seq<byte>)
    ensures |r| == 4 * |vs|
  {
    if vs == [] then [] else EncodeInts(e, vs[..|vs| - 1]) + EncodeInt32(e, vs[|vs| - 1])
  }

  /** Element `i` sits at bytes 4i..4i+3. */
  lemma {:induction false} EncodeIntsAt(e: Endian, vs: seq<Int32>, i: nat)
    requires i < |vs|
    ensures EncodeInts(e, vs)[4 * i..4 * i + 4] == EncodeInt32(e, vs[i])
  {
    var n := |vs|;
    var front := vs[..n - 1];
    var a := EncodeInts(e, front);
    var b := EncodeInt32(e, vs[n - 1]);
    assert EncodeInts(e, vs) == a + b;
    if i < n - 1 {
      assert (a + b)[4 * i..4 * i + 4] == EncodeInt32(e, vs[i]) by {
        EncodeIntsAt(e, front, i);
        SliceOfAppendLeft(a, b, 4 * i, 4 * i + 4);
        assert front[i] == vs[i];
      }
    } else {
      assert (a + b)[4 * i..4 * i + 4] == b by {
        SliceOfAppendRight(a, b);
        assert |a| == 4 * i && |a| + |b| == 4 * i + 4;
      }
    }
  }

  /** Writing one more element appends its four bytes. */
  lemma EncodeIntsSnoc(e: Endian, vs: seq<Int32>, i: nat)
    requires i < |vs|
    ensures EncodeInts(e, vs[..i + 1]) == EncodeInts(e, vs[..i]) + EncodeInt32(e, vs[i])
  {
    assert vs[..i + 1][..i] == vs[..i];
  }

  /** `n` elements read from the front of `s`. */
  function DecodeInts(e: Endian, s: seq<byte>, n: nat): (r: seq<Int32>)
    requires |s| >= 4 * n
    ensures |r| == n
  {
    seq(n, i requires 0 <= i < n => DecodeInt32(e, s[4 * i..4 * i + 4]))
  }

  /** A sequence whose every element was read from its own four bytes of `s` is
      what `DecodeInts` reads. */
  lemma DecodeIntsByElement(e: Endian, s: seq<byte>, vs: seq<Int32>)
    requires |s| >= 4 * |vs|
    requires forall k :: 0 <= k < |vs| ==> vs[k] == DecodeInt32(e, s[4 * k..4 * k + 4])
    ensures DecodeInts(e, s, |vs|) == vs
  {
  }

  /** The elements read back from their own encoding are the elements. */
  lemma DecodeEncodeInts(e: Endian, vs: seq<Int32>, rest: seq<byte>)
    ensures DecodeInts(e, EncodeInts(e, vs) + rest, |vs|) == vs
  {
    var enc := EncodeInts(e, vs);
    var body := enc + rest;
    var r := DecodeInts(e, body, |vs|);
    forall i | 0 <= i < |vs|
      ensures r[i] == vs[i]
    {
      calc {
        r[i];
        DecodeInt32(e, body[4 * i..4 * i + 4]);
        { SliceOfAppendLeft(enc, rest, 4 * i, 4 * i + 4); }
        DecodeInt32(e, enc[4 * i..4 * i + 4]);
        { EncodeIntsAt(e, vs, i); }
        DecodeInt32(e, EncodeInt32(e, vs[i]));
        { DecodeEncodeInt32(e, vs[i]); }
        vs[i];
      }
    }
  }

  /** Encoding the first `n` elements read is encoding the first `n - 1` and then
      the last one. */
  lemma EncodeDecodedSnoc(e: Endian, b: seq<byte>, n: nat)
    requires 0 < n && |b| >= 4 * n
    ensures EncodeInts(e, DecodeInts(e, b, n))
         == EncodeInts(e, DecodeInts(e, b, n - 1)) + EncodeInt32(e, DecodeInt32(e, b[4 * (n - 1)..4 * n]))
  {
    var vs := DecodeInts(e, b, n);
    assert vs[..n - 1] == DecodeInts(e, b, n - 1);
    assert vs[n - 1] == DecodeInt32(e, b[4 * (n - 1)..4 * n]);
  }

  /** Encoding elements that were each read from their own four bytes gives those
      bytes back. */
  lemma {:induction false} EncodeIntsOfDecoded(e: Endian, b: seq<byte>, n: nat)
    requires |b| >= 4 * n
    ensures EncodeInts(e, DecodeInts(e, b, n)) == b[..4 * n]
  {
    if n > 0 {
      var last := b[4 * (n - 1)..4 * n];
      calc {
        EncodeInts(e, DecodeInts(e, b, n));
        { EncodeDecodedSnoc(e, b, n); }
        EncodeInts(e, DecodeInts(e, b, n - 1)) + EncodeInt32(e, DecodeInt32(e, last));
        { EncodeIntsOfDecoded(e, b, n - 1); EncodeDecodeInt32(e, last); }
        b[..4 * (n - 1)] + last;
        { PrefixSplit(b, 4 * (n - 1), 4 * n); }
        b[..4 * n];
      }
    }
  }

  /** One byte per boolean: 1 for true, 0 for false. */
  function EncodeBools(bs: seq<bool>): (r: seq<byte>)
    ensures |r| == |bs|
  {
    seq(|bs|, i requires 0 <= i < |bs| => if bs[i] then 1 else 0)
  }

  /** `n` booleans from the front of `s`; any non-zero byte is true. */
  function DecodeBools(s: seq<byte>, n: nat): (r: seq<bool>)
    requires |s| >= n
    ensures |r| == n
  {
    seq(n, i requires 0 <= i < n => s[i] != 0)
  }

}
