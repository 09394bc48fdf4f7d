# SporeModder FX: `info` keyframes and array attributes, in Dafny

This project models two small parts of SporeModder FX's file formats and proves what they promise.

**The `info` keyframe of an animation channel (`InfoComponent`).**
- Its 16-byte binary record is read and written by `read`/`write`: `time`, four reserved bytes, `eventStartIndex` as an unsigned 16-bit value, `eventCount` as an unsigned byte, one reserved byte, `flags`. `write` adds four bytes of padding.
- Its one-line text form (`toArgScript`): the time, an optional `-flags 0x<hex>`, and an optional `-event event<k> ...`.
- The special block that parses keyframes back from text:
  - `parse` handles the opening `info` line;
  - `processLine` handles each keyframe line;
  - `onBlockEnd` handles `end`.

**The length-prefixed array attributes of the simulator (`IntArrayAttribute`, `BooleanArrayAttribute`).**
- Each stores a four-byte element count, then four bytes per `int` or one byte per `boolean`.
- Each reports its size (`getSize`) and renders as `[a, b, c]` (`toString`) or `a, b, c` (`toXmlString`).

Modules, one per file:
- `Encoding`: Java `int` as `Int32`, four-byte and two-byte codecs, 32-bit wrap-around, saturation and bitwise OR.
- `Streams`: a reader over a byte sequence with a cursor, and a writer that appends.
- `ArrayCodec`: element codecs for the array attributes.
- `Text`: `Integer.toString` and `Integer.toHexString` with their parsers, and the `", "`-joined list the renderers build.
- `Info`: the keyframe value, its record, and its text form.
- `InfoBlock`: the block parser. It has two layers:
  - pure functions over an explicit document `Session` and `BlockState`, which say what each callback does;
  - the classes `ParseContext`, `AnimChannel` and `InfoBlockParser`, whose methods carry the callbacks out step by step and are proved to agree with those functions.
- `IntArrays` and `BooleanArrays`: the attribute classes.
- `Results` and `Seqs`: an option/result type and sequence facts.

Behaviours of the code worth noting:
- Undefined event names are reported while each keyframe line is processed, against the event table as it stands at that moment, not when the block closes.
- An array count is read with `readInt`, in the stream's own byte order, not with a little-endian call. The model therefore keeps the byte order as a parameter (`Endian`), and every array property holds for both orders.
- A negative count makes Java's array allocation throw before anything else is read. The model reports this as `NegativeCount`.

## Model

| member | source | states |
|---|---|---|
| Info.Decode | src/sporemodder/file/anim/InfoComponent.java:47-54 | a record is read exactly when at least 16 bytes remain; the decoded event start index is below 2^16 and the event count below 2^8 |
| Info.Encode | src/sporemodder/file/anim/InfoComponent.java:56-64 | `write` emits exactly 20 bytes; the reserved int at 0x4, the byte at 0xB and the 4 trailing padding bytes are zero |
| Info.DecodeReadsSixteenBytes | src/sporemodder/file/anim/InfoComponent.java:47-54 | `read` depends on the first 16 bytes only, so the trailing padding of `write` and anything after it is left unread |
| Info.DecodeEncode | src/sporemodder/file/anim/InfoComponent.java:47-64 | reading what `write` emitted restores `time` and `flags` and restores the event fields modulo 2^16 and 2^8; the keyframe comes back exactly if and only if both event fields fit |
| Info.EncodeDecode | src/sporemodder/file/anim/InfoComponent.java:47-64 | writing a record that was read reproduces its 16 bytes plus 4 zero bytes, when its reserved bytes were zero |
| Info.Read | src/sporemodder/file/anim/InfoComponent.java:47-54 | reading field by field through the stream yields the decoded record and advances the cursor by exactly 16; on a short stream it fails |
| Info.Write | src/sporemodder/file/anim/InfoComponent.java:56-64 | writing field by field appends exactly the encoded record to the stream |
| Info.ArgScriptShape | src/sporemodder/file/anim/InfoComponent.java:66-77 | the text form starts with the decimal time; `-flags` with one argument follows if and only if flags are non-zero; `-event` closes the line if and only if `eventCount > 0`, with exactly `eventCount` arguments naming consecutive events from `eventStartIndex` |
| Info.ArgScriptOptions | src/sporemodder/file/anim/InfoComponent.java:68-76 | each option appears if and only if its field differs from 0, and no other option is ever written |
| Info.ArgScriptReadsBack | src/sporemodder/file/anim/InfoComponent.java:67-69 | the time argument parses back as the time; the `-flags` argument is "0x" followed by hex digits that read back as the flags' 32-bit pattern |
| Info.EventNameReadsBack | src/sporemodder/file/anim/InfoComponent.java:74 | an event argument is "event" followed by a decimal that parses back as the event index |
| Info.ArgScript | src/sporemodder/file/anim/InfoComponent.java:66-77 | the token list `toArgScript` writes: one time argument first, two more tokens when flags are non-zero, and one option plus `eventCount` arguments when `eventCount > 0` |
| Info.ToArgScript | src/sporemodder/file/anim/InfoComponent.java:66-77 | the writer receives exactly the tokens of the text form, appended after what it already held |
| Text.DecimalRoundTrip | src/sporemodder/file/anim/InfoComponent.java:67 | a decimal rendering with optional '-' parses back as the same integer |
| Text.HexRoundTrip | src/sporemodder/file/anim/InfoComponent.java:69 | the hex rendering of an `int` reads back as its unsigned 32-bit pattern, and that pattern maps back to the same `int` |
| Text.NatToStringRoundTrip | src/sporemodder/file/anim/InfoComponent.java:69 | the digits of a natural number in base 10 or 16 parse back as that number |
| InfoBlock.NewKeyframe | src/sporemodder/file/anim/InfoComponent.java:126-142 | the keyframe a line yields: its time is 0 or within [0, length - 1]; it has events if and only if `-event` has names, and then they start at the event list's size before the line |
| InfoBlock.AfterParse | src/sporemodder/file/anim/InfoComponent.java:97-119 | after `parse` the channel has one more component and the block fills that new, last one |
| InfoBlock.AfterProcessLine | src/sporemodder/file/anim/InfoComponent.java:121-157 | after `processLine` the channel has as many components as before and the block's component has exactly one more keyframe |
| InfoBlock.AfterBlockEnd | src/sporemodder/file/anim/InfoComponent.java:88-95 | after `onBlockEnd` the block is closed, the components are unchanged, and the errors have grown by at most one |
| InfoBlock.ParseOpensBlock | src/sporemodder/file/anim/InfoComponent.java:97-119 | `parse` appends exactly one component at the end: id `HEADER`, index 0, flags `TYPE` OR the `-flags` value, no keyframes. Earlier components are untouched. The prepared keyframe-count error carries the opening line, and the block waits for "end" |
| InfoBlock.ProcessLineAppendsKeyframe | src/sporemodder/file/anim/InfoComponent.java:121-157 | every keyframe line appends exactly one keyframe to the block's component, whatever its arguments hold, and leaves that component's id, index and flags as they were. No other component changes, the event list only grows, and the errors grow by the line's errors |
| InfoBlock.KeyframeTime | src/sporemodder/file/anim/InfoComponent.java:129-132 | the time is the first argument when it lies in [0, length - 1]; otherwise it stays 0 and, if and only if so, an invalid-number error at argument 0 is the line's first error |
| InfoBlock.KeyframeFlags | src/sporemodder/file/anim/InfoComponent.java:134-137 | the keyframe's flags are the `-flags` value OR-ed into 0, and 0 when there is no valid value |
| InfoBlock.KeyframeEvents | src/sporemodder/file/anim/InfoComponent.java:139-151 | with `-event n1..nk` the keyframe's events start at the event list's prior size and number k; the list grows by the events of the defined names in order, the errors end with one error per undefined name. Without the option the event list is unchanged and the keyframe has no events |
| InfoBlock.ResolveEventsCount | src/sporemodder/file/anim/InfoComponent.java:143-151 | every event name is either resolved or reported, never both |
| InfoBlock.ResolvedEventsAppend | src/sporemodder/file/anim/InfoComponent.java:143-147 | resolution keeps argument order: the events of a + b are those of a followed by those of b |
| InfoBlock.ResolvedEventsAllDefined | src/sporemodder/file/anim/InfoComponent.java:143-147 | when every name is defined, exactly the named events are appended in order and no error is reported |
| InfoBlock.UndefinedEventErrorsExact | src/sporemodder/file/anim/InfoComponent.java:148-150 | an undefined name at position i gets an error at option argument 1 + i, and every reported error is of that form |
| InfoBlock.KeyframeEventWindow | src/sporemodder/file/anim/InfoComponent.java:139-151 | when every name is defined, the keyframe's window in the event list holds exactly the named events and ends at the list's end, and no event error is reported |
| InfoBlock.KeyframeEventWindowEnd | src/sporemodder/file/anim/InfoComponent.java:139-151 | the event count is the number of names, undefined ones included, so the keyframe's window never ends before the event list does; it ends exactly at the list's end if and only if every name is defined, and otherwise runs past it |
| InfoBlock.BlockEndChecksKeyframeCount | src/sporemodder/file/anim/InfoComponent.java:88-95 | `onBlockEnd` always closes the block. It adds the prepared error, with the opening line, if and only if the channel has components and the keyframe counts differ. It adds nothing else, and it never reports for the first component |
| InfoBlock.ProcessLines | src/sporemodder/file/anim/InfoComponent.java:121-157 | a run of keyframe lines adds one keyframe per line to the block's component and keeps its id, index and flags, leaves other components alone, only adds errors, and advances the line number per line |
| InfoBlock.BlockKeyframeCount | src/sporemodder/file/anim/InfoComponent.java:88-119 | across a whole block, the new component has one keyframe per line and keeps the id, index and flags `parse` gave it. One extra error, on the opening line, is reported exactly when an earlier first component has a different keyframe count. The block ends closed |
| InfoBlock.ParseContext.ParseNumber | src/sporemodder/file/anim/InfoComponent.java:130 | `parseInt` yields the bounded value or reports an invalid-number error on the current line and changes nothing else |
| InfoBlock.ParseContext.ResolveEvents | src/sporemodder/file/anim/InfoComponent.java:143-151 | the event loop appends the resolved events to the event list and the undefined-name errors to the error list, both in argument order |
| InfoBlock.ParseContext.ReadKeyframe | src/sporemodder/file/anim/InfoComponent.java:126-151 | the keyframe read off a line is the specified one; its time, flags and event errors are reported in that order |
| InfoBlock.InfoBlockParser.Parse | src/sporemodder/file/anim/InfoComponent.java:97-119 | the opening-line callback leaves the document and block state exactly as the `parse` specification says |
| InfoBlock.InfoBlockParser.ProcessLine | src/sporemodder/file/anim/InfoComponent.java:121-157 | each line callback returns true and leaves the document exactly as the `processLine` specification says |
| InfoBlock.InfoBlockParser.OnBlockEnd | src/sporemodder/file/anim/InfoComponent.java:88-95 | the `end` callback leaves the document exactly as the `onBlockEnd` specification says |
| Streams.StreamReader.ReadInt | src/sporemodder/file/anim/InfoComponent.java:48 | reads a four-byte `int` in the given byte order if four bytes remain and advances by 4; otherwise fails and leaves the cursor |
| Streams.StreamReader.Skip | src/sporemodder/file/anim/InfoComponent.java:49 | steps over n bytes if they remain; otherwise fails and leaves the cursor |
| Streams.StreamReader.ReadLEUShort | src/sporemodder/file/anim/InfoComponent.java:50 | reads two bytes, least significant first, as an unsigned value if they remain and advances by 2; otherwise fails |
| Streams.StreamReader.ReadUByte | src/sporemodder/file/anim/InfoComponent.java:51 | reads one byte as an unsigned value if it remains and advances by 1; otherwise fails |
| Streams.StreamWriter.WriteInt | src/sporemodder/file/anim/InfoComponent.java:57-58 | appends the four bytes of the `int` in the given byte order |
| Streams.StreamWriter.WriteLEUShort | src/sporemodder/file/anim/InfoComponent.java:59 | appends the low 16 bits, least significant byte first |
| Streams.StreamWriter.WriteUByte | src/sporemodder/file/anim/InfoComponent.java:60 | appends the low 8 bits as one byte |
| Streams.StreamWriter.WritePadding | src/sporemodder/file/anim/InfoComponent.java:61-63 | appends n zero bytes |
| Encoding.DecodeEncodeInt32 | src/sporemodder/file/anim/InfoComponent.java:48-62 | a four-byte `int` reads back as written, in either byte order |
| Encoding.EncodeDecodeInt32 | src/sporemodder/file/anim/InfoComponent.java:48-62 | every four bytes are the encoding of the `int` they decode to, so the codec is a bijection |
| Encoding.DecodeEncodeLEUShort | src/sporemodder/file/anim/InfoComponent.java:50-59 | an unsigned short reads back as the written value modulo 2^16 |
| Encoding.OrZeroLeft | src/sporemodder/file/anim/InfoComponent.java:136 | OR-ing a value into a zero field gives the value |
| Encoding.Wrap32 | src/sporemodder/file/simulator/attributes/IntArrayAttribute.java:44 | Java `int` arithmetic keeps the value modulo 2^32 and leaves in-range values unchanged |
| Encoding.Clamp32 | src/sporemodder/file/anim/InfoComponent.java:130 | narrowing the float length to `int` gives the `int` nearest to it: no `int` is closer, and an in-range value is kept |
| ArrayCodec.DecodeEncodeInts | src/sporemodder/file/simulator/attributes/IntArrayAttribute.java:31-40 | decoding the written elements gives them back, whatever follows them |
| ArrayCodec.EncodeIntsOfDecoded | src/sporemodder/file/simulator/attributes/IntArrayAttribute.java:31-40 | re-encoding decoded elements reproduces the bytes they were read from |
| Streams.StreamReader.ReadInts | src/sporemodder/file/simulator/attributes/IntArrayAttribute.java:33 | filling an array from the stream succeeds if and only if enough bytes remain. It then consumes exactly 4 bytes per element and stores the decoded elements in order |
| Streams.StreamWriter.WriteInts | src/sporemodder/file/simulator/attributes/IntArrayAttribute.java:39 | writing an array appends exactly the encodings of its elements in order |
| Streams.StreamReader.ReadBooleans | src/sporemodder/file/simulator/attributes/BooleanArrayAttribute.java:32 | filling a boolean array succeeds if and only if enough bytes remain. It then consumes one byte per element; a byte is true exactly when it is non-zero |
| Streams.StreamWriter.WriteBooleans | src/sporemodder/file/simulator/attributes/BooleanArrayAttribute.java:38 | writing a boolean array appends one byte per element, 1 or 0, in order |
| IntArrays.Encode | src/sporemodder/file/simulator/attributes/IntArrayAttribute.java:37-40 | `write` emits 4 bytes of count and 4 bytes per element |
| IntArrays.Decode | src/sporemodder/file/simulator/attributes/IntArrayAttribute.java:31-34 | a successful read yields exactly as many elements as the count prefix says; a negative count is refused |
| IntArrays.DecodeCountPrefix | src/sporemodder/file/simulator/attributes/IntArrayAttribute.java:37-40 | the written count prefix reads back as the array's length, followed by the element bytes |
| IntArrays.DecodeEncode | src/sporemodder/file/simulator/attributes/IntArrayAttribute.java:31-40 | reading what `write` produced restores the array element for element, whatever follows |
| IntArrays.EncodeDecode | src/sporemodder/file/simulator/attributes/IntArrayAttribute.java:31-40 | writing what was read reproduces exactly the bytes consumed |
| IntArrays.EncodeSize | src/sporemodder/file/simulator/attributes/IntArrayAttribute.java:37-45 | `write` emits 4 + 4n bytes, and `getSize()` equals that if and only if the arithmetic does not wrap |
| IntArrays.IntArrayAttribute.Read | src/sporemodder/file/simulator/attributes/IntArrayAttribute.java:31-34 | `read` installs a fresh array holding exactly the decoded elements and consumes the count and elements, ignoring `size`. Each failure is reported as the decoder's error. No array is allocated for a missing or negative count; when the elements run short, the fresh array has the count's length |
| IntArrays.IntArrayAttribute.Write | src/sporemodder/file/simulator/attributes/IntArrayAttribute.java:37-40 | `write` appends the count and every element in order |
| IntArrays.IntArrayAttribute.GetSize | src/sporemodder/file/simulator/attributes/IntArrayAttribute.java:43-45 | `getSize()` is 4 + 4 * length for every array whose size fits in an `int` |
| IntArrays.IntArrayAttribute.ToString | src/sporemodder/file/simulator/attributes/IntArrayAttribute.java:48-61 | the text is "[", the elements through the formatter in order joined by ", ", and "]" |
| IntArrays.IntArrayAttribute.ToXmlString | src/sporemodder/file/simulator/attributes/IntArrayAttribute.java:64-74 | the XML text is the same joined list without brackets, so `toString` is "[" + `toXmlString` + "]" |
| Text.RenderListAppend | src/sporemodder/file/simulator/attributes/IntArrayAttribute.java:51-57 | an empty array renders as "" (so "[]" in brackets); rendering keeps element order, with one ", " between consecutive elements and none at the end |
| Text.RenderListCons | src/sporemodder/file/simulator/attributes/IntArrayAttribute.java:51-57 | the first element comes first, followed by ", " and the rest |
| BooleanArrays.Encode | src/sporemodder/file/simulator/attributes/BooleanArrayAttribute.java:36-39 | `write` emits 4 bytes of count and 1 byte per element |
| BooleanArrays.Decode | src/sporemodder/file/simulator/attributes/BooleanArrayAttribute.java:30-33 | a successful read yields exactly as many booleans as the count prefix says; a negative count is refused |
| BooleanArrays.DecodeCountPrefix | src/sporemodder/file/simulator/attributes/BooleanArrayAttribute.java:36-39 | the written count prefix reads back as the array's length, followed by the element bytes |
| BooleanArrays.DecodeEncode | src/sporemodder/file/simulator/attributes/BooleanArrayAttribute.java:30-39 | reading what `write` produced restores the array, whatever follows |
| BooleanArrays.EncodeDecode | src/sporemodder/file/simulator/attributes/BooleanArrayAttribute.java:30-39 | writing what was read reproduces the bytes consumed if and only if every element byte was 0 or 1 |
| BooleanArrays.EncodeSize | src/sporemodder/file/simulator/attributes/BooleanArrayAttribute.java:36-44 | `write` emits 4 + n bytes, and `getSize()` equals that if and only if the arithmetic does not wrap |
| BooleanArrays.BooleanArrayAttribute.Read | src/sporemodder/file/simulator/attributes/BooleanArrayAttribute.java:30-33 | `read` installs a fresh array holding exactly the decoded booleans and ignores `size`. Each failure is reported as the decoder's error. No array is allocated for a missing or negative count; when the elements run short, the fresh array has the count's length |
| BooleanArrays.BooleanArrayAttribute.Write | src/sporemodder/file/simulator/attributes/BooleanArrayAttribute.java:36-39 | `write` appends the count and one byte per boolean in order |
| BooleanArrays.BooleanArrayAttribute.GetSize | src/sporemodder/file/simulator/attributes/BooleanArrayAttribute.java:42-44 | `getSize()` is 4 + length for every array whose size fits in an `int` |
| BooleanArrays.BooleanArrayAttribute.ToString | src/sporemodder/file/simulator/attributes/BooleanArrayAttribute.java:47-60 | the text is "[", "true"/"false" per element in order joined by ", ", and "]" |
| BooleanArrays.BooleanArrayAttribute.ToXmlString | src/sporemodder/file/simulator/attributes/BooleanArrayAttribute.java:63-73 | the XML text is the same list without brackets |
| BooleanArrays.ParseBoolsRoundTrip | src/sporemodder/file/simulator/attributes/BooleanArrayAttribute.java:47-60 | the rendered list of every array, the empty one ("") included, reads back as that array, so the rendering loses nothing |

## Left out

- The name/hash service `HashManager.get().formatInt32` is an arbitrary function parameter `Int32 -> string` of the int renderers.
- The ArgScript tokenizer (`preprocess`, `getSplitsAsArguments`, `getArguments`, `getOptionArguments`) is not modelled. A line arrives already tokenised as a `KeyframeLine` or `OpenLine`.
- The errors that `getOptionArguments` itself reports for a wrong argument count are not modelled. Such an option simply counts as absent.
- The error that `getArguments(args, 0)` reports when the opening `info` line has positional arguments is not modelled; the opening line carries only its `-flags` option.
- Error message text and `createError*` formatting are not modelled. An error is a line, a site and a kind.
- `AnimationComponentData.parseFlags`, `AnimChannelParser` and `SPAnimation` are not part of this model. Only the fields the block uses are kept.
- InfoBlock.ParseOpensBlock: the new component's flags are `TYPE` OR the `-flags` value only; any bits that `parseFlags` sets from the opening line are left out, since that method is not part of this model.
- `stream.addSyntax` is editor syntax highlighting; it is not modelled.
- The animation length is a float in the source. It is an integer here, and `(int)(length - 1)` is modelled as a saturating narrowing of `length - 1`.
- Info.Read: returns the keyframe as a value rather than assigning the fields of an existing object. On a short stream, the fields the source has already assigned before the failure are not modelled.
- Stream failures (`IOException`, end of stream) are modelled as a failed result, and the cursor is left unchanged by the failing read. A Java stream may have consumed part of the bytes.
- The byte order of `readInt`/`writeInt` on the stream is a parameter. The stream's configuration that picks it is not modelled.
- Info.EventName: `"event" + (eventStartIndex + i)` is formed with unbounded integers; a Java `int` overflow of that sum is not modelled.
- InfoBlock.InfoBlockParser.ProcessLine: the source adds the keyframe object to the component first and fills in its fields afterwards through the shared reference; the model builds the keyframe first and then appends it, which gives the same final state.
- `src/sporemodder/file/effects/EffectFileElement.java` declares only abstract signatures and a trivial default; there is no behaviour to model.
- When the element data of an array attribute runs short, the model promises the fresh array and its length but not which elements were filled before the failure.
