/** The special block in which an animation channel's `info` component is written:

      info [-flags <n>]
        <time> [-flags <n>] [-event <name> <name> ...]
        ...
      end

    `parse` handles the opening line, `processLine` each keyframe line and
    `onBlockEnd` the terminator. The state the source keeps in the block object
    (`compData`, `keyframesError`) and in the document (animation length, event
    table, event list, errors, current line, the channel's components) is explicit
    here: `Session` and `BlockState` hold it, the functions `AfterParse`,
    `AfterProcessLine` and `AfterBlockEnd` say what each callback makes of it, and
    the classes at the end carry it out step by step. */
module InfoBlock {
  import opened Results
  import opened Encoding
  import opened Info

  /** The line that closes an `info` block. */
  const END_KEYWORD: string := "end"

  /** An animation event, as the document's event table maps names to it. Its own
      fields play no part here. */
  datatype AnimEvent = AnimEvent(name: string)

  datatype ErrorKind = KeyframesMismatch | InvalidNumber | UndefinedEvent(name: string)

  /** Where on its line an error points: the line as a whole, a positional argument,
      or an argument of a named option (1 is the option's first argument). */
  datatype ErrorSite = AtLine | AtArgument(index: nat) | AtOptionArgument(option: string, index: nat)

  /** A diagnostic: collected, never thrown. */
  datatype DocError = DocError(line: nat, site: ErrorSite, kind: ErrorKind)

  /** An argument as the number parser sees it: a Java `int`, or text that is not
      one. */
  datatype NumToken = Number(value: Int32) | NotANumber

  /** The opening line, tokenised: the arguments of `-flags` if the option is
      there. */
  datatype OpenLine = OpenLine(flags: Option<seq<NumToken>>)

  /** A keyframe line, tokenised: the first word, the arguments of `-flags` and of
      `-event` if those options are there. */
  datatype KeyframeLine = KeyframeLine(time: NumToken, flags: Option<seq<NumToken>>, events: Option<seq<string>>)

  /** `AnimationComponentData`, with the fields the block uses. */
  datatype ComponentData = ComponentData(id: Int32, index: int, flags: Int32, keyframes: seq<InfoComponent>)

  /** The document state the block reads and changes: the animation's length, its
      event table and event list, the errors so far, the current line, the
      components of the channel being parsed, and the terminator of the open
      special block, if any. */
  datatype Session = Session(
    length: int,
    eventMap: map<string, AnimEvent>,
    eventList: seq<AnimEvent>,
    errors: seq<DocError>,
    line: nat,
    components: seq<ComponentData>,
    block: Option<string>)

  /** What the block object keeps between callbacks: which component it is filling
      (`compData`) and the error prepared on the opening line (`keyframesError`). */
  datatype BlockState = BlockState(comp: nat, keyframesError: DocError)

  datatype Opened = Opened(session: Session, state: BlockState)

  /** The block's component is one of the channel's. */
  predicate Filling(s: Session, b: BlockState)
  {
    b.comp < |s.components|
  }

  /** `stream.parseInt(args, i, min, max)`: the value of a number within the bounds. */
  function ParseInt(t: NumToken, min: int, max: int): (r: Option<Int32>)
    ensures r.Some? <==> t.Number? && min <= t.value <= max
    ensures r.Some? ==> r.value == t.value
  {
    if t.Number? && min <= t.value <= max then Some(t.value) else None
  }

  /** The largest time a keyframe may have: `(int) (length - 1)`. */
  function MaxTime(length: int): Int32
  {
    Clamp32(length - 1)
  }

  /** `getOptionArguments(args, "flags", 1)`: the one argument of `-flags`. */
  function FlagsArgument(opt: Option<seq<NumToken>>): Option<NumToken>
  {
    if opt.Some? && |opt.value| == 1 then Some(opt.value[0]) else None
  }

  /** The value a `-flags` option contributes, if any. */
  function FlagsValue(opt: Option<seq<NumToken>>): Option<Int32>
  {
    var arg := FlagsArgument(opt);
    if arg.Some? then ParseInt(arg.value, INT32_MIN, INT32_MAX) else None
  }

  /** The error the number parser reports for a `-flags` argument that is not a
      number. */
  function FlagsErrors(opt: Option<seq<NumToken>>, line: nat): seq<DocError>
  {
    var arg := FlagsArgument(opt);
    if arg.Some? && ParseInt(arg.value, INT32_MIN, INT32_MAX).None?
    then [DocError(line, AtOptionArgument("flags", 1), InvalidNumber)]
    else []
  }

  /** `getOptionArguments(args, "event", 1, Integer.MAX_VALUE)`: the names after
      `-event`, when there is at least one. */
  function EventNames(l: KeyframeLine): Option<seq<string>>
  {
    if l.events.Some? && |l.events.value| >= 1 then l.events else None
  }

  /** The events of the names found in the table, in argument order. */
  function ResolvedEvents(table: map<string, AnimEvent>, names: seq<string>): (r: seq<AnimEvent>)
    ensures |r| <= |names|
  {
    if names == [] then []
    else
      var last := names[|names| - 1];
      ResolvedEvents(table, names[..|names| - 1]) + (if last in table then [table[last]] else [])
  }

  /** One error per name not in the table, pointing at that name's position among
      the option's arguments. */
  function UndefinedEventErrors(table: map<string, AnimEvent>, names: seq<string>, line: nat): (r: seq<DocError>)
    ensures |r| <= |names|
  {
    if names == [] then []
    else
      var i := |names| - 1;
      UndefinedEventErrors(table, names[..i], line)
        + (if names[i] in table then [] else [DocError(line, AtOptionArgument("event", 1 + i), UndefinedEvent(names[i]))])
  }

  /** The keyframe a line describes, read against the document as it stands. */
  function NewKeyframe(s: Session, l: KeyframeLine): (r: InfoComponent)
    ensures 0 <= r.time && (r.time == 0 || r.time <= s.length - 1)
    ensures r.eventCount > 0 <==> EventNames(l).Some?
    ensures r.eventCount > 0 ==> r.eventStartIndex == |s.eventList|
  {
    var time := ParseInt(l.time, 0, MaxTime(s.length));
    var flags := FlagsValue(l.flags);
    var names := EventNames(l);
    InfoComponent(
      if time.Some? then time.value else DEFAULT_KEYFRAME.time,
      if names.Some? then |s.eventList| else DEFAULT_KEYFRAME.eventStartIndex,
      if names.Some? then |names.value| else DEFAULT_KEYFRAME.eventCount,
      if flags.Some? then Or32(DEFAULT_KEYFRAME.flags, flags.value) else DEFAULT_KEYFRAME.flags)
  }

  /** The error for a first word that is not a time within [0, MaxTime]. */
  function TimeErrors(s: Session, l: KeyframeLine): seq<DocError>
  {
    if ParseInt(l.time, 0, MaxTime(s.length)).None? then [DocError(s.line, AtArgument(0), InvalidNumber)] else []
  }

  /** The errors for the names after `-event` that are not in the table. */
  function EventErrors(s: Session, l: KeyframeLine): seq<DocError>
  {
    var names := EventNames(l);
    if names.Some? then UndefinedEventErrors(s.eventMap, names.value, s.line) else []
  }

  /** The errors a keyframe line reports, in the order they are found. */
  function LineErrors(s: Session, l: KeyframeLine): seq<DocError>
  {
    TimeErrors(s, l) + FlagsErrors(l.flags, s.line) + EventErrors(s, l)
  }

  /** `parse`: adds a fresh component (id `HEADER`, index 0, flags `TYPE` OR the
      `-flags` value), prepares the keyframe-count error on the current line, and
      opens a special block closed by "end". */
  function AfterParse(s: Session, l: OpenLine): (r: Opened)
    ensures Filling(r.session, r.state)
    ensures |r.session.components| == |s.components| + 1 && r.state.comp == |s.components|
  {
    var flags := FlagsValue(l.flags);
    var comp := ComponentData(HEADER, 0, if flags.Some? then Or32(TYPE, flags.value) else TYPE, []);
    Opened(
      s.(components := s.components + [comp],
         errors := s.errors + FlagsErrors(l.flags, s.line),
         block := Some(END_KEYWORD)),
      BlockState(|s.components|, DocError(s.line, AtLine, KeyframesMismatch)))
  }

  /** `processLine`: appends the line's keyframe to the block's component, appends
      the events it names that are defined, and reports the rest. */
  function AfterProcessLine(s: Session, b: BlockState, l: KeyframeLine): (r: Session)
    requires Filling(s, b)
    ensures Filling(r, b)
    ensures |r.components| == |s.components|
    ensures |r.components[b.comp].keyframes| == |s.components[b.comp].keyframes| + 1
  {
    var comp := s.components[b.comp];
    var names := EventNames(l);
    s.(components := s.components[b.comp := comp.(keyframes := comp.keyframes + [NewKeyframe(s, l)])],
       eventList := s.eventList + (if names.Some? then ResolvedEvents(s.eventMap, names.value) else []),
       errors := s.errors + TimeErrors(s, l) + FlagsErrors(l.flags, s.line) + EventErrors(s, l))
  }

  /** `onBlockEnd`: reports the prepared error when the block's component has a
      different number of keyframes than the channel's first one, and closes the
      block. */
  function AfterBlockEnd(s: Session, b: BlockState): (r: Session)
    requires Filling(s, b)
    ensures r.block == None && r.components == s.components
    ensures s.errors <= r.errors && |r.errors| <= |s.errors| + 1
  {
    var mismatch := |s.components| > 0 && |s.components[b.comp].keyframes| != |s.components[0].keyframes|;
    s.(errors := s.errors + (if mismatch then [b.keyframesError] else []), block := None)
  }

  // ---------------------------------------------------------------------------
  // What each callback does

  /** `parse` adds exactly one component, at the end, with id `HEADER`, index 0,
      no keyframes and the `-flags` value as its flags (`TYPE` is 0); the prepared
      error remembers the opening line; the block now waits for "end". */
  lemma ParseOpensBlock(s: Session, l: OpenLine)
    ensures var r := AfterParse(s, l);
      && r.session.components[..|s.components|] == s.components
      && |r.session.components| == |s.components| + 1
      && r.state.comp == |s.components|
      && r.session.components[r.state.comp] == ComponentData(HEADER, 0, if FlagsValue(l.flags).Some? then FlagsValue(l.flags).value else 0, [])
      && r.state.keyframesError == DocError(s.line, AtLine, KeyframesMismatch)
      && r.session.block == Some("end")
      && r.session.errors == s.errors + FlagsErrors(l.flags, s.line)
      && r.session.eventList == s.eventList && r.session.line == s.line
  {
    if FlagsValue(l.flags).Some? {
      OrZeroLeft(FlagsValue(l.flags).value);
    }
  }

  /** `processLine` appends exactly one keyframe to the block's component, whatever
      the line holds, and changes no other component. */
  lemma ProcessLineAppendsKeyframe(s: Session, b: BlockState, l: KeyframeLine)
    requires Filling(s, b)
    ensures var r := AfterProcessLine(s, b, l);
      && |r.components| == |s.components|
      && r.components[b.comp] == s.components[b.comp].(keyframes := s.components[b.comp].keyframes + [NewKeyframe(s, l)])
      && (forall j :: 0 <= j < |s.components| && j != b.comp ==> r.components[j] == s.components[j])
      && r.errors == s.errors + LineErrors(s, l)
      && s.eventList <= r.eventList
      && r.eventMap == s.eventMap && r.line == s.line && r.length == s.length && r.block == s.block
  {
    var r := AfterProcessLine(s, b, l);
    var comp := s.components[b.comp];
    assert r.components == s.components[b.comp := comp.(keyframes := comp.keyframes + [NewKeyframe(s, l)])];
    var t, f, e := TimeErrors(s, l), FlagsErrors(l.flags, s.line), EventErrors(s, l);
    assert s.errors + t + f + e == s.errors + (t + f + e);
  }

  /** A keyframe's time is the line's first number when it lies in
      [0, length - 1]; otherwise it stays 0 and the line reports an invalid number
      at argument 0. */
  lemma KeyframeTime(s: Session, l: KeyframeLine)
    ensures var inRange := l.time.Number? && 0 <= l.time.value <= s.length - 1;
      && NewKeyframe(s, l).time == (if inRange then l.time.value else 0)
      && (!inRange <==> |LineErrors(s, l)| >= 1 && LineErrors(s, l)[0] == DocError(s.line, AtArgument(0), InvalidNumber))
  {
    var ok := ParseInt(l.time, 0, MaxTime(s.length)).Some?;
    var flagsErrors := FlagsErrors(l.flags, s.line);
    var eventErrors := if EventNames(l).Some? then UndefinedEventErrors(s.eventMap, EventNames(l).value, s.line) else [];
    if ok {
      assert LineErrors(s, l) == flagsErrors + eventErrors;
      if |flagsErrors| >= 1 {
        assert LineErrors(s, l)[0] == flagsErrors[0];
      } else if |eventErrors| >= 1 {
        var names := EventNames(l).value;
        assert LineErrors(s, l)[0] == eventErrors[0];
        UndefinedEventErrorsExact(s.eventMap, names, s.line);
        assert eventErrors[0] in UndefinedEventErrors(s.eventMap, names, s.line);
      }
    }
  }

  /** A keyframe's flags are the single argument of `-flags` OR-ed into 0, and 0
      when the option is missing, has another number of arguments, or its argument
      is not a number. */
  lemma KeyframeFlags(s: Session, l: KeyframeLine)
    ensures var arg := FlagsArgument(l.flags);
      NewKeyframe(s, l).flags == if arg.Some? && arg.value.Number? then arg.value.value else 0
  {
    var v := FlagsValue(l.flags);
    if v.Some? {
      OrZeroLeft(v.value);
    }
  }

  /** With `-event n1 .. nk`, the keyframe's events start at the event list's size
      before the line and number k; the list grows by the events of the defined
      names, in argument order, and by nothing else. Without the option the list is
      unchanged and the keyframe has no events. */
  lemma KeyframeEvents(s: Session, b: BlockState, l: KeyframeLine)
    requires Filling(s, b)
    ensures var r := AfterProcessLine(s, b, l);
      var c := NewKeyframe(s, l);
      if l.events.Some? && |l.events.value| >= 1 then
        && c.eventStartIndex == |s.eventList| && c.eventCount == |l.events.value|
        && r.eventList == s.eventList + ResolvedEvents(s.eventMap, l.events.value)
        && r.errors[|r.errors| - |UndefinedEventErrors(s.eventMap, l.events.value, s.line)|..]
           == UndefinedEventErrors(s.eventMap, l.events.value, s.line)
      else
        c.eventStartIndex == 0 && c.eventCount == 0 && r.eventList == s.eventList
  {
  }

  // ---------------------------------------------------------------------------
  // Event resolution

  /** Every name is either resolved or reported, never both. */
  lemma {:induction false} ResolveEventsCount(table: map<string, AnimEvent>, names: seq<string>, line: nat)
    ensures |ResolvedEvents(table, names)| + |UndefinedEventErrors(table, names, line)| == |names|
  {
    if names != [] {
      ResolveEventsCount(table, names[..|names| - 1], line);
    }
  }

  /** Resolution follows argument order: the events of `a + b` are those of `a`,
      then those of `b`. */
  lemma {:induction false} ResolvedEventsAppend(table: map<string, AnimEvent>, a: seq<string>, b: seq<string>)
    ensures ResolvedEvents(table, a + b) == ResolvedEvents(table, a) + ResolvedEvents(table, b)
    decreases |b|
  {
    if b == [] {
      assert a + b == a;
    } else {
      var b' := b[..|b| - 1];
      assert (a + b)[..|a + b| - 1] == a + b';
      assert (a + b)[|a + b| - 1] == b[|b| - 1];
      ResolvedEventsAppend(table, a, b');
    }
  }

  /** When every name is defined, the events appended are exactly the named ones, in
      order, and nothing is reported. */
  lemma {:induction false} ResolvedEventsAllDefined(table: map<string, AnimEvent>, names: seq<string>, line: nat)
    requires forall n :: n in names ==> n in table
    ensures ResolvedEvents(table, names) == seq(|names|, i requires 0 <= i < |names| => table[names[i]])
    ensures UndefinedEventErrors(table, names, line) == []
  {
    if names != [] {
      var front := names[..|names| - 1];
      assert forall n :: n in front ==> n in names;
      ResolvedEventsAllDefined(table, front, line);
      assert names[|names| - 1] in names;
    }
  }

  /** The errors for a name list: name `i` (0-based) that is not in the table gets
      exactly one error, at option argument `1 + i`, on the current line; every
      error is one of these. */
  lemma {:induction false} UndefinedEventErrorsExact(table: map<string, AnimEvent>, names: seq<string>, line: nat)
    ensures forall i :: 0 <= i < |names| && names[i] !in table ==>
      DocError(line, AtOptionArgument("event", 1 + i), UndefinedEvent(names[i])) in UndefinedEventErrors(table, names, line)
    ensures forall e :: e in UndefinedEventErrors(table, names, line) ==>
      exists i :: 0 <= i < |names| && names[i] !in table
        && e == DocError(line, AtOptionArgument("event", 1 + i), UndefinedEvent(names[i]))
  {
    if names != [] {
      var k := |names| - 1;
      var front := names[..k];
      UndefinedEventErrorsExact(table, front, line);
      var errs := UndefinedEventErrors(table, names, line);
      assert errs == UndefinedEventErrors(table, front, line)
        + (if names[k] in table then [] else [DocError(line, AtOptionArgument("event", 1 + k), UndefinedEvent(names[k]))]);
      forall i | 0 <= i < |names| && names[i] !in table
        ensures DocError(line, AtOptionArgument("event", 1 + i), UndefinedEvent(names[i])) in errs
      {
        if i < k {
          assert front[i] == names[i];
        }
      }
      forall e | e in errs
        ensures exists i :: (0 <= i < |names| && names[i] !in table
          && e == DocError(line, AtOptionArgument("event", 1 + i), UndefinedEvent(names[i])))
      {
        if e in UndefinedEventErrors(table, front, line) {
          var i :| 0 <= i < |front| && front[i] !in table
            && e == DocError(line, AtOptionArgument("event", 1 + i), UndefinedEvent(front[i]));
          assert names[i] == front[i];
        } else {
          assert names[k] !in table;
        }
      }
    }
  }

  /** When every name is defined, the keyframe's event window in the list holds
      exactly the named events, in order. */
  lemma KeyframeEventWindow(s: Session, b: BlockState, l: KeyframeLine)
    requires Filling(s, b)
    requires l.events.Some? && |l.events.value| >= 1
    requires forall n :: n in l.events.value ==> n in s.eventMap
    ensures var r := AfterProcessLine(s, b, l);
      var c := NewKeyframe(s, l);
      && c.eventStartIndex + c.eventCount == |r.eventList|
      && (forall i :: 0 <= i < c.eventCount ==>
            r.eventList[c.eventStartIndex + i] == s.eventMap[l.events.value[i]])
      && r.errors == s.errors + TimeErrors(s, l) + FlagsErrors(l.flags, s.line)
  {
    var names := l.events.value;
    var r := AfterProcessLine(s, b, l);
    var resolved := ResolvedEvents(s.eventMap, names);
    ResolvedEventsAllDefined(s.eventMap, names, s.line);
    assert EventNames(l) == Some(names);
    assert r.eventList == s.eventList + resolved;
    assert EventErrors(s, l) == [];
    var t, f := TimeErrors(s, l), FlagsErrors(l.flags, s.line);
    assert r.errors == s.errors + t + f + [];
  }

  /** The keyframe's event count is the number of names, defined or not, so its
      window never falls short of the end of the event list, and it ends exactly
      there if and only if every name is defined; with an undefined name it runs
      past the end. */
  lemma KeyframeEventWindowEnd(s: Session, b: BlockState, l: KeyframeLine)
    requires Filling(s, b)
    requires l.events.Some? && |l.events.value| >= 1
    ensures var r := AfterProcessLine(s, b, l);
      var c := NewKeyframe(s, l);
      && c.eventStartIndex + c.eventCount >= |r.eventList|
      && (c.eventStartIndex + c.eventCount == |r.eventList| <==> forall n :: n in l.events.value ==> n in s.eventMap)
  {
    var names := l.events.value;
    ResolveEventsCount(s.eventMap, names, s.line);
    if forall n :: n in names ==> n in s.eventMap {
      ResolvedEventsAllDefined(s.eventMap, names, s.line);
    } else {
      var n :| n in names && n !in s.eventMap;
      var i :| 0 <= i < |names| && names[i] == n;
      UndefinedEventErrorsExact(s.eventMap, names, s.line);
      assert DocError(s.line, AtOptionArgument("event", 1 + i), UndefinedEvent(names[i]))
        in UndefinedEventErrors(s.eventMap, names, s.line);
    }
  }

  // ---------------------------------------------------------------------------
  // Closing the block

  /** `onBlockEnd` adds at most the prepared error, and adds it exactly when the
      channel has components and the block's component's keyframe count differs
      from the first one's; the error carries the line recorded by `parse`, not the
      current one. A component that is itself the first never reports. The block is
      closed in every case. */
  lemma BlockEndChecksKeyframeCount(s: Session, b: BlockState)
    requires Filling(s, b)
    ensures var r := AfterBlockEnd(s, b);
      var mismatch := |s.components[b.comp].keyframes| != |s.components[0].keyframes|;
      && r.block == None
      && s.errors <= r.errors && |r.errors| <= |s.errors| + 1
      && (mismatch <==> |r.errors| == |s.errors| + 1)
      && (mismatch ==> r.errors[|s.errors|] == b.keyframesError)
      && (b.comp == 0 ==> r.errors == s.errors)
      && r.components == s.components && r.eventList == s.eventList && r.line == s.line
  {
  }

  /** The engine feeding keyframe lines to an open block, one line further each. */
  function ProcessLines(s: Session, b: BlockState, lines: seq<KeyframeLine>): (r: Session)
    requires Filling(s, b)
    ensures Filling(r, b)
    ensures |r.components| == |s.components|
    ensures |r.components[b.comp].keyframes| == |s.components[b.comp].keyframes| + |lines|
    ensures r.components[b.comp].(keyframes := []) == s.components[b.comp].(keyframes := [])
    ensures forall j :: 0 <= j < |s.components| && j != b.comp ==> r.components[j] == s.components[j]
    ensures s.errors <= r.errors
    ensures r.line == s.line + |lines|
    decreases |lines|
  {
    if lines == [] then s
    else ProcessLines(AfterProcessLine(s.(line := s.line + 1), b, lines[0]), b, lines[1..])
  }

  /** A whole block: the opening line, its keyframe lines, and "end". */
  function RunBlock(s: Session, open: OpenLine, lines: seq<KeyframeLine>): Session
  {
    var o := AfterParse(s, open);
    AfterBlockEnd(ProcessLines(o.session, o.state, lines), o.state)
  }

  /** The keyframe-count check across a whole block: the new component has one
      keyframe per line; when an earlier component exists and its keyframe count
      differs from the number of lines, exactly one more error is reported, pointing
      at the opening line although the document has moved past it; otherwise none.
      Bad lines never stop the block. */
  lemma BlockKeyframeCount(s: Session, open: OpenLine, lines: seq<KeyframeLine>)
    ensures var o := AfterParse(s, open);
      var mid := ProcessLines(o.session, o.state, lines);
      var r := RunBlock(s, open, lines);
      var mismatch := |s.components| > 0 && |lines| != |s.components[0].keyframes|;
      && |r.components| == |s.components| + 1
      && |r.components[|s.components|].keyframes| == |lines|
      && r.components[|s.components|].(keyframes := []) == o.session.components[|s.components|]
      && r.components[..|s.components|] == s.components
      && r.errors == mid.errors + (if mismatch then [DocError(s.line, AtLine, KeyframesMismatch)] else [])
      && r.line == s.line + |lines|
      && r.block == None
  {
    var o := AfterParse(s, open);
    ParseOpensBlock(s, open);
    var mid := ProcessLines(o.session, o.state, lines);
    assert |mid.components| == |s.components| + 1;
    if |s.components| > 0 {
      assert mid.components[0] == s.components[0];
    }
    assert mid.components[..|s.components|] == s.components;
  }

  // ---------------------------------------------------------------------------
  // The block as the source runs it

  /** The ArgScript stream and the document data it parses into. */
  class ParseContext {
    var length: int
    var eventMap: map<string, AnimEvent>
    var eventList: seq<AnimEvent>
    var errors: seq<DocError>
    var currentLine: nat
    var block: Option<string>

    constructor (length: int, eventMap: map<string, AnimEvent>)
      ensures this.length == length && this.eventMap == eventMap
      ensures eventList == [] && errors == [] && currentLine == 0 && block == None
    {
      this.length := length;
      this.eventMap := eventMap;
      eventList := [];
      errors := [];
      currentLine := 0;
      block := None;
    }

    /** `parseInt`: the number if it lies within the bounds, otherwise an error on
        the current line at `site`. */
    method ParseNumber(t: NumToken, min: int, max: int, site: ErrorSite) returns (v: Option<Int32>)
      modifies this
      ensures v == ParseInt(t, min, max)
      ensures errors == old(errors) + (if v.None? then [DocError(currentLine, site, InvalidNumber)] else [])
      ensures length == old(length) && eventMap == old(eventMap) && eventList == old(eventList)
      ensures currentLine == old(currentLine) && block == old(block)
    {
      v := ParseInt(t, min, max);
      if v.None? {
        errors := errors + [DocError(currentLine, site, InvalidNumber)];
      }
    }

    /** The event loop of `processLine`: each name in the table appends its event
        to the event list; each other name reports an error at its position among
        the `-event` arguments. */
    method ResolveEvents(names: seq<string>)
      modifies this
      ensures eventList == old(eventList) + ResolvedEvents(eventMap, names)
      ensures errors == old(errors) + UndefinedEventErrors(eventMap, names, currentLine)
      ensures length == old(length) && eventMap == old(eventMap)
      ensures currentLine == old(currentLine) && block == old(block)
    {
      var i := 0;
      while i < |names|
        invariant 0 <= i <= |names|
        invariant eventList == old(eventList) + ResolvedEvents(eventMap, names[..i])
        invariant errors == old(errors) + UndefinedEventErrors(eventMap, names[..i], currentLine)
        invariant length == old(length) && eventMap == old(eventMap)
        invariant currentLine == old(currentLine) && block == old(block)
      {
        assert names[..i + 1][..i] == names[..i];
        var name := names[i];
        if name in eventMap {
          eventList := eventList + [eventMap[name]];
        } else {
          errors := errors + [DocError(currentLine, AtOptionArgument("event", 1 + i), UndefinedEvent(name))];
        }
        i := i + 1;
      }
      assert names[..|names|] == names;
    }
    /** The part of `processLine` that reads the keyframe off the line: the time,
        the `-flags` value and the `-event` names, each reporting its own errors
        in that order. `s` is the document this context holds on entry. */
    method ReadKeyframe(ghost s: Session, line: KeyframeLine) returns (c: InfoComponent)
      requires s.length == length && s.eventMap == eventMap && s.eventList == eventList
      requires s.errors == errors && s.line == currentLine
      modifies this
      ensures c == NewKeyframe(s, line)
      ensures errors == s.errors + TimeErrors(s, line) + FlagsErrors(line.flags, s.line) + EventErrors(s, line)
      ensures var names := EventNames(line);
        eventList == s.eventList + (if names.Some? then ResolvedEvents(s.eventMap, names.value) else [])
      ensures length == old(length) && eventMap == old(eventMap)
      ensures currentLine == old(currentLine) && block == old(block)
    {
      ghost var k := NewKeyframe(s, line);
      c := DEFAULT_KEYFRAME;
      var time := ParseNumber(line.time, 0, MaxTime(length), AtArgument(0));
      if time.Some? {
        c := c.(time := time.value);
      }
      assert c.time == k.time;
      var arg := FlagsArgument(line.flags);
      if arg.Some? {
        var v := ParseNumber(arg.value, INT32_MIN, INT32_MAX, AtOptionArgument("flags", 1));
        if v.Some? {
          c := c.(flags := Or32(c.flags, v.value));
        }
      }
      assert c.flags == k.flags;
      assert errors == s.errors + TimeErrors(s, line) + FlagsErrors(line.flags, s.line);
      if line.events.Some? && |line.events.value| >= 1 {
        c := c.(eventStartIndex := |eventList|, eventCount := |line.events.value|);
        ResolveEvents(line.events.value);
      }
    }
  }

  /** The channel whose components the block adds to. */
  class AnimChannel {
    var components: seq<ComponentData>

    constructor (components: seq<ComponentData>)
      ensures this.components == components
    {
      this.components := components;
    }
  }

  function SessionOf(ctx: ParseContext, channel: AnimChannel): Session
    reads ctx, channel
  {
    Session(ctx.length, ctx.eventMap, ctx.eventList, ctx.errors, ctx.currentLine, channel.components, ctx.block)
  }

  /** The `info` block parser of one channel. */
  class InfoBlockParser {
    const channel: AnimChannel
    var compIndex: nat
    var keyframesError: DocError

    constructor (channel: AnimChannel)
      ensures this.channel == channel
    {
      this.channel := channel;
      compIndex := 0;
      keyframesError := DocError(0, AtLine, KeyframesMismatch);
    }

    ghost predicate Valid()
      reads this, channel
    {
      compIndex < |channel.components|
    }

    function State(): BlockState
      reads this
    {
      BlockState(compIndex, keyframesError)
    }

    /** `parse(line)`, run on the opening line. */
    method Parse(ctx: ParseContext, line: OpenLine)
      modifies this, ctx, channel
      ensures Valid()
      ensures Opened(SessionOf(ctx, channel), State()) == AfterParse(old(SessionOf(ctx, channel)), line)
    {
      // The source adds the component first and ORs the flags into it afterwards;
      // the component is built whole here, to the same effect.
      var flags := TYPE;
      var arg := FlagsArgument(line.flags);
      if arg.Some? {
        var v := ctx.ParseNumber(arg.value, INT32_MIN, INT32_MAX, AtOptionArgument("flags", 1));
        if v.Some? {
          flags := Or32(flags, v.value);
        }
      }
      compIndex := |channel.components|;
      channel.components := channel.components + [ComponentData(HEADER, 0, flags, [])];
      keyframesError := DocError(ctx.currentLine, AtLine, KeyframesMismatch);
      ctx.block := Some(END_KEYWORD);
    }

    /** `processLine(line)`, run on every line until "end". */
    method ProcessLine(ctx: ParseContext, line: KeyframeLine) returns (consumed: bool)
      requires Valid()
      modifies ctx, channel
      ensures Valid() && consumed
      ensures SessionOf(ctx, channel) == AfterProcessLine(old(SessionOf(ctx, channel)), State(), line)
    {
      ghost var s := SessionOf(ctx, channel);
      // The source adds the keyframe to the component first and fills in its
      // fields afterwards through the reference; it is read whole here instead.
      var c := ctx.ReadKeyframe(s, line);
      var comp := channel.components[compIndex];
      channel.components := channel.components[compIndex := comp.(keyframes := comp.keyframes + [c])];
      consumed := true;
    }

    /** `onBlockEnd()`, run on "end". */
    method OnBlockEnd(ctx: ParseContext)
      requires Valid()
      modifies ctx
      ensures Valid()
      ensures SessionOf(ctx, channel) == AfterBlockEnd(old(SessionOf(ctx, channel)), State())
    {
      if |channel.components| > 0
        && |channel.components[compIndex].keyframes| != |channel.components[0].keyframes|
      {
        ctx.errors := ctx.errors + [keyframesError];
      }
      ctx.block := None;
    }
  }
}
