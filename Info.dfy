/** The `info` keyframe of an animation channel (`InfoComponent`): its binary
    record and its one-line text form. */
module Info {
  import opened Results
  import opened Encoding
  import opened Text
  import opened Streams
  import opened Seqs

  /** The component id that `info` blocks carry: the characters "INFO" read as a
      little-endian `int`. */
  const HEADER: Int32 := 0x4F46_4E49
  /** The component type bits that an `info` component starts with. */
  const TYPE: Int32 := 0
  /** The keyword that opens an `info` block. */
  const KEYWORD: string := "info"

  /** Bytes consumed by `read`. */
  const READ_SIZE: nat := 16
  /** Bytes emitted by `write`: the 16 of the record and 4 of trailing padding. */
  const WRITE_SIZE: nat := 20

  /** One keyframe. `eventStartIndex` and `eventCount` are non-negative `int`s in
      the source (a list size, an argument count, or an unsigned field read from
      the file); on the wire they take 16 and 8 bits. */
  datatype InfoComponent = InfoComponent(time: Int32, eventStartIndex: nat, eventCount: nat, flags: Int32)

  /** A keyframe as `new InfoComponent()` leaves it. */
  const DEFAULT_KEYFRAME := InfoComponent(0, 0, 0, 0)

  /** The record `read` takes from the front of `s`: `time` at 0x0, four skipped
      bytes, `eventStartIndex` at 0x8 (unsigned 16 bits), `eventCount` at 0xA
      (unsigned 8 bits), one skipped byte, `flags` at 0xC. Fails when fewer than 16
      bytes remain. */
  function Decode(s: seq<byte>): (r: Option<InfoComponent>)
    ensures r.Some? <==> |s| >= READ_SIZE
    ensures r.Some? ==> r.value.eventStartIndex < 0x1_0000 && r.value.eventCount < 0x100
  {
    if |s| < READ_SIZE then None
    else Some(InfoComponent(DecodeInt32(Little, s[0..4]), DecodeLEUShort(s[8..10]), s[10], DecodeInt32(Little, s[12..16])))
  }

  /** The bytes `write` emits. */
  function Encode(c: InfoComponent): (r: seq<byte>)
    ensures |r| == WRITE_SIZE
    ensures r[4..8] == Zeros(4) && r[11] == 0 && r[16..] == Zeros(4)
  {
    var r := EncodeInt32(Little, c.time) + EncodeInt32(Little, 0) + EncodeLEUShort(c.eventStartIndex)
      + [c.eventCount % 256] + Zeros(1) + EncodeInt32(Little, c.flags) + Zeros(4);
    assert r[4..8] == EncodeLE(0, 4) == Zeros(4);
    r
  }

  /** `read` looks at the first 16 bytes only: whatever follows them, including the
      four padding bytes that `write` adds, is left for the next reader. */
  lemma DecodeReadsSixteenBytes(s: seq<byte>, rest: seq<byte>)
    requires |s| >= READ_SIZE
    ensures Decode(s + rest) == Decode(s) == Decode(s[..READ_SIZE])
  {
    assert (s + rest)[0..4] == s[0..4] == s[..READ_SIZE][0..4];
    assert (s + rest)[8..10] == s[8..10] == s[..READ_SIZE][8..10];
    assert (s + rest)[12..16] == s[12..16] == s[..READ_SIZE][12..16];
  }

  /** Reading what `write` produced restores `time` and `flags`, and restores
      `eventStartIndex` and `eventCount` modulo 2^16 and 2^8 — exactly whenever
      they fit those widths. */
  lemma DecodeEncode(c: InfoComponent)
    ensures Decode(Encode(c)) == Some(c.(eventStartIndex := c.eventStartIndex % 0x1_0000, eventCount := c.eventCount % 0x100))
    ensures c.eventStartIndex < 0x1_0000 && c.eventCount < 0x100 <==> Decode(Encode(c)) == Some(c)
  {
    var r := Encode(c);
    assert r[0..4] == EncodeInt32(Little, c.time);
    assert r[8..10] == EncodeLEUShort(c.eventStartIndex);
    assert r[12..16] == EncodeInt32(Little, c.flags);
    DecodeEncodeInt32(Little, c.time);
    DecodeEncodeInt32(Little, c.flags);
    DecodeEncodeLEUShort(c.eventStartIndex);
    var w := c.(eventStartIndex := c.eventStartIndex % 0x1_0000, eventCount := c.eventCount % 0x100);
    assert Decode(r) == Some(w);
    if c.eventStartIndex < 0x1_0000 && c.eventCount < 0x100 {
      assert w == c;
    } else {
      assert w.eventStartIndex != c.eventStartIndex || w.eventCount != c.eventCount;
    }
  }

  /** Writing a record that was read reproduces its 16 bytes, followed by the four
      padding bytes, provided its reserved bytes (0x4..0x7 and 0xB) were zero:
      `write` never reproduces anything else there. */
  lemma EncodeDecode(s: seq<byte>)
    requires |s| >= READ_SIZE
    requires s[4..8] == Zeros(4) && s[11] == 0
    ensures Encode(Decode(s).value) == s[..READ_SIZE] + Zeros(4)
  {
    var c := Decode(s).value;
    EncodeDecodeInt32(Little, s[0..4]);
    EncodeDecodeInt32(Little, s[12..16]);
    EncodeDecodeLEUShort(s[8..10]);
    assert EncodeInt32(Little, 0) == EncodeLE(0, 4) == s[4..8];
    assert c.eventCount == s[10] < 256;
    assert [c.eventCount % 256] == s[10..11];
    assert Zeros(1) == s[11..12];
    assert Encode(c) == s[0..4] + s[4..8] + s[8..10] + s[10..11] + s[11..12] + s[12..16] + Zeros(4);
    assert s[..READ_SIZE] == s[0..4] + s[4..8] + s[8..10] + s[10..11] + s[11..12] + s[12..16] by {
      PrefixSplit(s, 0, 4);
      PrefixSplit(s, 4, 8);
      PrefixSplit(s, 8, 10);
      PrefixSplit(s, 10, 11);
      PrefixSplit(s, 11, 12);
      PrefixSplit(s, 12, 16);
    }
  }

  /** `read`: fills a fresh keyframe from the stream, field by field. */
  method Read(stream: StreamReader) returns (c: Option<InfoComponent>)
    requires stream.Valid()
    modifies stream
    ensures stream.Valid()
    ensures c == Decode(stream.data[old(stream.pos)..])
    ensures c.Some? ==> stream.pos == old(stream.pos) + READ_SIZE
  {
    ghost var s := stream.data[stream.pos..];
    ghost var p := stream.pos;
    c := None;
    var time := stream.ReadInt(Little);  // 0x0
    if time.None? { return; }
    var ok := stream.Skip(4);  // 0x4
    if !ok { return; }
    var eventStartIndex := stream.ReadLEUShort();  // 0x8
    if eventStartIndex.None? { return; }
    var eventCount := stream.ReadUByte();  // 0xA
    if eventCount.None? { return; }
    ok := stream.Skip(1);
    if !ok { return; }
    var flags := stream.ReadInt(Little);  // 0xC
    if flags.None? { return; }
    assert stream.data[p..p + 4] == s[0..4];
    assert stream.data[p + 8..p + 10] == s[8..10];
    assert stream.data[p + 12..p + 16] == s[12..16];
    c := Some(InfoComponent(time.value, eventStartIndex.value, eventCount.value, flags.value));
  }

  /** `write`: the record's fields, a zero `int`, and the padding bytes. */
  method Write(c: InfoComponent, stream: StreamWriter)
    modifies stream
    ensures stream.data == old(stream.data) + Encode(c)
  {
    stream.WriteInt(Little, c.time);
    stream.WriteInt(Little, 0);  // reserved, 0x4
    stream.WriteLEUShort(c.eventStartIndex);
    stream.WriteUByte(c.eventCount);
    stream.WritePadding(1);
    stream.WriteInt(Little, c.flags);
    stream.WritePadding(4);
  }

  /** What an `ArgScriptWriter` receives: positional arguments and option names
      (the arguments after an option belong to it). */
  datatype ArgToken = Argument(text: string) | OptionName(name: string)

  class ArgScriptWriter {
    var tokens: seq<ArgToken>

    constructor ()
      ensures tokens == []
    {
      tokens := [];
    }

    /** `ints(x)`: one decimal argument. */
    method Ints(x: Int32)
      modifies this
      ensures tokens == old(tokens) + [Argument(DecimalString(x))]
    {
      tokens := tokens + [Argument(DecimalString(x))];
    }

    /** `option(name)`: starts an option; the arguments that follow are its own. */
    method Option(name: string)
      modifies this
      ensures tokens == old(tokens) + [OptionName(name)]
    {
      tokens := tokens + [OptionName(name)];
    }

    /** `arguments(text)`. */
    method Arguments(text: string)
      modifies this
      ensures tokens == old(tokens) + [Argument(text)]
    {
      tokens := tokens + [Argument(text)];
    }
  }

  /** The name under which the event at `index` of the animation's event list is
      written. */
  function EventName(index: int): string
  {
    "event" + DecimalString(index)
  }

  function EventArguments(start: nat, n: nat): (r: seq<ArgToken>)
  {
    seq(n, i requires 0 <= i < n => Argument(EventName(start + i)))
  }

  /** One more event argument names the next event. */
  lemma EventArgumentsSnoc(start: nat, n: nat)
    ensures EventArguments(start, n + 1) == EventArguments(start, n) + [Argument(EventName(start + n))]
  {
    var a := EventArguments(start, n + 1);
    var b := EventArguments(start, n) + [Argument(EventName(start + n))];
    forall k | 0 <= k < n + 1
      ensures a[k] == b[k]
    {
    }
  }

  /** The tokens `toArgScript` writes for `c`. */
  function ArgScript(c: InfoComponent): (r: seq<ArgToken>)
    ensures |r| == 1 + (if c.flags != 0 then 2 else 0) + (if c.eventCount > 0 then 1 + c.eventCount else 0)
    ensures r[0] == Argument(DecimalString(c.time))
  {
    [Argument(DecimalString(c.time))]
    + (if c.flags != 0 then [OptionName("flags"), Argument("0x" + HexString(c.flags))] else [])
    + (if c.eventCount > 0 then [OptionName("event")] + EventArguments(c.eventStartIndex, c.eventCount) else [])
  }

  /** The text form always starts with `time`; the `flags` option directly follows
      it with one argument exactly when `flags` is not 0; the `event` option closes
      the line exactly when `eventCount` is positive, with exactly `eventCount`
      arguments naming consecutive events from `eventStartIndex` on. */
  lemma ArgScriptShape(c: InfoComponent)
    ensures var t := ArgScript(c);
      var f := if c.flags != 0 then 2 else 0;
      && |t| == 1 + f + (if c.eventCount > 0 then 1 + c.eventCount else 0)
      && t[0] == Argument(DecimalString(c.time))
      && (c.flags != 0 ==> t[1..3] == [OptionName("flags"), Argument("0x" + HexString(c.flags))])
      && (c.eventCount > 0 ==> t[1 + f] == OptionName("event") && t[2 + f..] == EventArguments(c.eventStartIndex, c.eventCount))
  {
    var t := ArgScript(c);
    var head := [Argument(DecimalString(c.time))];
    var fl := if c.flags != 0 then [OptionName("flags"), Argument("0x" + HexString(c.flags))] else [];
    var ev := if c.eventCount > 0 then [OptionName("event")] + EventArguments(c.eventStartIndex, c.eventCount) else [];
    assert t == head + fl + ev;
    if c.eventCount > 0 {
      assert t[1 + |fl|..] == ev;
      assert ev[1..] == EventArguments(c.eventStartIndex, c.eventCount);
    }
  }

  /** Each option is written exactly when its field differs from the default. */
  lemma ArgScriptOptions(c: InfoComponent)
    ensures OptionName("flags") in ArgScript(c) <==> c.flags != 0
    ensures OptionName("event") in ArgScript(c) <==> c.eventCount > 0
    ensures forall name :: OptionName(name) in ArgScript(c) ==> name == "flags" || name == "event"
  {
    var t := ArgScript(c);
    var head := [Argument(DecimalString(c.time))];
    var fl := if c.flags != 0 then [OptionName("flags"), Argument("0x" + HexString(c.flags))] else [];
    var args := EventArguments(c.eventStartIndex, c.eventCount);
    var ev := if c.eventCount > 0 then [OptionName("event")] + args else [];
    assert t == head + fl + ev;
    assert forall k :: 0 <= k < |args| ==> args[k].Argument?;
    if c.eventCount > 0 { assert ev[0] == OptionName("event"); }
    if c.flags != 0 { assert fl[0] == OptionName("flags"); }
  }

  /** An event name reads back as its index. */
  lemma EventNameReadsBack(index: int)
    ensures EventName(index)[..5] == "event"
    ensures ParseDecimal(EventName(index)[5..]) == Some(index)
  {
    DecimalRoundTrip(index);
    assert EventName(index)[5..] == DecimalString(index);
  }

  /** `time` reads back from its decimal argument, and `flags` from the hexadecimal
      of its 32-bit pattern after "0x", so re-parsing the rendered numbers gives
      the keyframe's own values. */
  lemma ArgScriptReadsBack(c: InfoComponent)
    ensures ParseDecimal(ArgScript(c)[0].text) == Some(c.time as int)
    ensures c.flags != 0 ==> var hex := ArgScript(c)[2].text;
      && hex[..2] == "0x"
      && StringToNat(hex[2..], 16) == Some(ToUnsigned32(c.flags))
      && FromUnsigned32(ToUnsigned32(c.flags)) == c.flags
  {
    ArgScriptShape(c);
    DecimalRoundTrip(c.time);
    if c.flags != 0 {
      HexRoundTrip(c.flags);
      assert ArgScript(c)[1..3][1] == ArgScript(c)[2];
      assert ArgScript(c)[2].text[2..] == HexString(c.flags);
    }
  }

  /** `toArgScript`: writes `time`, then `-flags 0x<hex>` when flags are set, then
      `-event` with one name per event of the keyframe. */
  method ToArgScript(c: InfoComponent, writer: ArgScriptWriter)
    modifies writer
    ensures writer.tokens == old(writer.tokens) + ArgScript(c)
  {
    ghost var t0 := writer.tokens;
    ghost var head := [Argument(DecimalString(c.time))];
    writer.Ints(c.time);
    ghost var fl: seq<ArgToken> := [];
    if c.flags != 0 {
      writer.Option("flags");
      writer.Arguments("0x" + HexString(c.flags));
      fl := [OptionName("flags"), Argument("0x" + HexString(c.flags))];
      assert writer.tokens == t0 + head + fl;
    } else {
      assert writer.tokens == t0 + head + fl;
    }
    ghost var before := writer.tokens;
    ghost var ev: seq<ArgToken> := [];
    if c.eventCount > 0 {
      writer.Option("event");
      var i := 0;
      while i < c.eventCount
        invariant 0 <= i <= c.eventCount
        invariant writer.tokens == before + [OptionName("event")] + EventArguments(c.eventStartIndex, i)
      {
        ghost var done := EventArguments(c.eventStartIndex, i);
        writer.Arguments(EventName(c.eventStartIndex + i));
        EventArgumentsSnoc(c.eventStartIndex, i);
        AppendAssoc(before + [OptionName("event")], done, [Argument(EventName(c.eventStartIndex + i))]);
        i := i + 1;
      }
      ev := [OptionName("event")] + EventArguments(c.eventStartIndex, c.eventCount);
      AppendAssoc(before, [OptionName("event")], EventArguments(c.eventStartIndex, c.eventCount));
    } else {
      assert before + ev == before;
    }
    assert ArgScript(c) == head + fl + ev;
    assert writer.tokens == t0 + (head + fl + ev) by {
      AppendAssoc(t0 + head, fl, ev);
      AppendAssoc(t0, head, fl + ev);
      AppendAssoc(head, fl, ev);
    }
  }
}
