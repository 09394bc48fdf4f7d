/** Byte streams with a cursor, as the `StreamReader` / `StreamWriter` calls made by
    the records use them. A reader holds its bytes and a position; every read
    either consumes exactly its width or fails with `Truncated` and leaves the
    position where it was. A writer only ever appends. */
module Streams {
  import opened Results
  import opened Encoding
  import opened ArrayCodec
  import opened Seqs

  class StreamReader {
    const data: seq<byte>
    var pos: nat

    ghost predicate Valid()
      reads this
    {
      pos <= |data|
    }

    constructor (data: seq<byte>)
      ensures Valid() && this.data == data && pos == 0
    {
      this.data := data;
      pos := 0;
    }

    /** Takes the next `n` bytes. */
    method ReadBytes(n: nat) returns (r: Option<seq<byte>>)
      requires Valid()
      modifies this
      ensures Valid()
      ensures old(pos) + n <= |data| ==> r == Some(data[old(pos)..old(pos) + n]) && pos == old(pos) + n
      ensures old(pos) + n > |data| ==> r == None && pos == old(pos)
    {
      if pos + n <= |data| {
        r := Some(data[pos..pos + n]);
        pos := pos + n;
      } else {
        r := None;
      }
    }

    /** `skip(n)`: steps over `n` bytes without interpreting them. */
    method Skip(n: nat) returns (ok: bool)
      requires Valid()
      modifies this
      ensures Valid()
      ensures ok <==> old(pos) + n <= |data|
      ensures pos == if ok then old(pos) + n else old(pos)
    {
      ok := pos + n <= |data|;
      if ok {
        pos := pos + n;
      }
    }

    /** `readInt` (byte order `e`) and `readLEInt` (`e == Little`). */
    method ReadInt(e: Endian) returns (r: Option<Int32>)
      requires Valid()
      modifies this
      ensures Valid()
      ensures old(pos) + 4 <= |data| ==> r == Some(DecodeInt32(e, data[old(pos)..old(pos) + 4])) && pos == old(pos) + 4
      ensures old(pos) + 4 > |data| ==> r == None && pos == old(pos)
    {
      var bs := ReadBytes(4);
      r := if bs.Some? then Some(DecodeInt32(e, bs.value)) else None;
    }

    /** `readLEUShort`. */
    method ReadLEUShort() returns (r: Option<nat>)
      requires Valid()
      modifies this
      ensures Valid()
      ensures old(pos) + 2 <= |data| ==> r == Some(DecodeLEUShort(data[old(pos)..old(pos) + 2])) && pos == old(pos) + 2
      ensures old(pos) + 2 > |data| ==> r == None && pos == old(pos)
    {
      var bs := ReadBytes(2);
      r := if bs.Some? then Some(DecodeLEUShort(bs.value)) else None;
    }

    /** `readUByte`. */
    method ReadUByte() returns (r: Option<byte>)
      requires Valid()
      modifies this
      ensures Valid()
      ensures old(pos) + 1 <= |data| ==> r == Some(data[old(pos)]) && pos == old(pos) + 1
      ensures old(pos) + 1 > |data| ==> r == None && pos == old(pos)
    {
      var bs := ReadBytes(1);
      r := if bs.Some? then Some(bs.value[0]) else None;
    }

    /** `readInts(a)`: fills `a` with consecutive `int`s. Fails when the stream
        ends first, leaving the elements read so far in `a`. */
    method ReadInts(e: Endian, a: array<Int32>) returns (ok: bool)
      requires Valid()
      modifies this, a
      ensures Valid()
      ensures ok <==> old(pos) + 4 * a.Length <= |data|
      ensures ok ==> pos == old(pos) + 4 * a.Length && a[..] == DecodeInts(e, data[old(pos)..], a.Length)
    {
      ghost var start := pos;
      ghost var body := data[pos..];
      var i := 0;
      while i < a.Length
        invariant Valid() && 0 <= i <= a.Length
        invariant pos == start + 4 * i
        invariant forall k :: 0 <= k < i ==> a[k] == DecodeInt32(e, body[4 * k..4 * k + 4])
      {
        var x := ReadInt(e);
        if x.None? {
          assert start + 4 * i + 4 <= start + 4 * a.Length;
          return false;
        }
        assert data[start + 4 * i..start + 4 * i + 4] == body[4 * i..4 * i + 4];
        assert x.value == DecodeInt32(e, body[4 * i..4 * i + 4]);
        a[i] := x.value;
        i := i + 1;
      }
      DecodeIntsByElement(e, body, a[..]);
      ok := true;
    }

    /** `readBooleans(a)`: fills `a` with one boolean per byte, any non-zero byte
        being true. Fails when the stream ends first, leaving the elements read so
        far in `a`. */
    method ReadBooleans(a: array<bool>) returns (ok: bool)
      requires Valid()
      modifies this, a
      ensures Valid()
      ensures ok <==> old(pos) + a.Length <= |data|
      ensures ok ==> pos == old(pos) + a.Length && a[..] == DecodeBools(data[old(pos)..], a.Length)
    {
      ghost var start := pos;
      ghost var body := data[pos..];
      var i := 0;
      while i < a.Length
        invariant Valid() && 0 <= i <= a.Length
        invariant pos == start + i
        invariant forall k :: 0 <= k < i ==> a[k] == (body[k] != 0)
      {
        var b := ReadUByte();
        if b.None? {
          return false;
        }
        a[i] := b.value != 0;
        i := i + 1;
      }
      assert a[..] == DecodeBools(body, a.Length);
      ok := true;
    }
  }

  class StreamWriter {
    var data: seq<byte>

    constructor ()
      ensures data == []
    {
      data := [];
    }

    method WriteBytes(bs: seq<byte>)
      modifies this
      ensures data == old(data) + bs
    {
      data := data + bs;
    }

    /** `writeInt` (byte order `e`) and `writeLEInt` (`e == Little`). */
    method WriteInt(e: Endian, x: Int32)
      modifies this
      ensures data == old(data) + EncodeInt32(e, x)
    {
      WriteBytes(EncodeInt32(e, x));
    }

    /** `writeLEUShort`: the low 16 bits of `x`. */
    method WriteLEUShort(x: int)
      modifies this
      ensures data == old(data) + EncodeLEUShort(x)
    {
      WriteBytes(EncodeLEUShort(x));
    }

    /** `writeUByte`: the low 8 bits of `x`. */
    method WriteUByte(x: int)
      modifies this
      ensures data == old(data) + [x % 256]
    {
      WriteBytes([x % 256]);
    }

    /** `writeInts(a)`: every element of `a`, in order. */
    method WriteInts(e: Endian, a: array<Int32>)
      modifies this
      ensures data == old(data) + EncodeInts(e, a[..])
    {
      ghost var start := data;
      var i := 0;
      while i < a.Length
        invariant 0 <= i <= a.Length
        invariant data == start + EncodeInts(e, a[..i])
      {
        ghost var done := EncodeInts(e, a[..i]);
        ghost var next := EncodeInt32(e, a[i]);
        WriteInt(e, a[i]);
        EncodeIntsSnoc(e, a[..], i);
        assert a[..][..i + 1] == a[..i + 1] && a[..][..i] == a[..i];
        AppendAssoc(start, done, next);
        i := i + 1;
      }
      assert a[..a.Length] == a[..];
    }

    /** `writeBooleans(a)`: one byte per element, 1 for true and 0 for false. */
    method WriteBooleans(a: array<bool>)
      modifies this
      ensures data == old(data) + EncodeBools(a[..])
    {
      ghost var start := data;
      var i := 0;
      while i < a.Length
        invariant 0 <= i <= a.Length
        invariant data == start + EncodeBools(a[..i])
      {
        ghost var done := EncodeBools(a[..i]);
        WriteUByte(if a[i] then 1 else 0);
        assert EncodeBools(a[..i + 1]) == done + [if a[i] then 1 else 0];
        AppendAssoc(start, done, [if a[i] then 1 else 0]);
        i := i + 1;
      }
      assert a[..a.Length] == a[..];
    }

    /** `writePadding(n)`: `n` zero bytes. */
    method WritePadding(n: nat)
      modifies this
      ensures data == old(data) + Zeros(n)
    {
      WriteBytes(Zeros(n));
    }
  }
}
