/** `PItoADHEvent`: one PI point value as read from a stream, with its three
    quality flags and, for a digital or faulted point, a system state code
    and the name of that state. Rendered with the invariant culture, which is the
    `culture` every function and method below takes. */
module AdhEvent {
  import opened Common
  import opened Rendering

  datatype Event = Event(
    timestamp: DateTime,
    value: Option<Float32>,
    isQuestionable: bool,
    isSubstituted: bool,
    isAnnotated: bool,
    systemStateCode: Option<Int32>,
    digitalStateName: Option<string>)

  /** What `new PItoADHEvent()` holds before an initialiser sets properties. */
  const Default := Event(DateTime(0), None, false, false, false, None, None)

  function ValueSegments(e: Event, culture: Culture): seq<Segment> {
    match e.value
    case None => []
    case Some(v) => [Segment(Value, culture.floatText(v))]
  }

  function FlagSegments(e: Event): seq<Segment> {
    [Segment(IsQuestionable, BoolText(e.isQuestionable)),
     Segment(IsSubstituted, BoolText(e.isSubstituted)),
     Segment(IsAnnotated, BoolText(e.isAnnotated))]
  }

  /** The state pair is keyed on the code alone: a null name still shows. */
  function StateSegments(e: Event, culture: Culture): seq<Segment> {
    match e.systemStateCode
    case None => []
    case Some(k) =>
      [Segment(SystemStateCode, culture.intText(k)),
       Segment(DigitalStateName, StringText(e.digitalStateName))]
  }

  /** The segments of the rendering, in the order they are shown. */
  function Segments(e: Event, culture: Culture): seq<Segment> {
    [Segment(Timestamp, culture.dateTimeText(e.timestamp))]
      + ValueSegments(e, culture) + FlagSegments(e) + StateSegments(e, culture)
  }

  /** The rendering as a value, for the lemmas below. */
  function Text(e: Event, culture: Culture): string {
    Joined(Shown(Segments(e, culture)))
  }

  /** `ToString`: appends to a builder under the two null checks; the result is
      the segments with one separator between neighbours and none at the ends. */
  method ToString(e: Event, culture: Culture) returns (text: string)
    ensures text == Joined(Shown(Segments(e, culture)))
  {
    var ts := Show(Segment(Timestamp, culture.dateTimeText(e.timestamp)));
    text := ts + ", ";
    ghost var shown := [ts];

    if e.value.Some? {
      var v := Show(Segment(Value, culture.floatText(e.value.value)));
      AppendAfterSeparator(text, shown, v);
      text := text + v + ", ";
      shown := shown + [v];
      ShownSingle(Segment(Value, culture.floatText(e.value.value)));
    }
    assert shown == [ts] + Shown(ValueSegments(e, culture));

    var q := Show(Segment(IsQuestionable, BoolText(e.isQuestionable)));
    AppendAfterSeparator(text, shown, q);
    text := text + q + ", ";
    shown := shown + [q];
    var s := Show(Segment(IsSubstituted, BoolText(e.isSubstituted)));
    AppendAfterSeparator(text, shown, s);
    text := text + s + ", ";
    shown := shown + [s];
    var a := Show(Segment(IsAnnotated, BoolText(e.isAnnotated)));
    AppendAfterSeparator(text, shown, a);
    text := text + a;
    shown := shown + [a];
    ghost var lead := shown;
    FlagsShown(e);
    assert lead == [ts] + Shown(ValueSegments(e, culture)) + Shown(FlagSegments(e));

    if e.systemStateCode.Some? {
      var k := Show(Segment(SystemStateCode, culture.intText(e.systemStateCode.value)));
      AppendAfterSeparator(text + ", ", shown, k);
      text := text + ", " + k + ", ";
      shown := shown + [k];
      var d := Show(Segment(DigitalStateName, StringText(e.digitalStateName)));
      AppendAfterSeparator(text, shown, d);
      text := text + d;
      shown := shown + [d];
      StateShown(e, culture);
    }
    assert shown == lead + Shown(StateSegments(e, culture));
    ShownSegments(e, culture);
    assert shown == Shown(Segments(e, culture));
  }

  lemma ShownSingle(g: Segment)
    ensures Shown([g]) == [Show(g)]
  {
  }

  lemma FlagsShown(e: Event)
    ensures Shown(FlagSegments(e))
      == [Show(Segment(IsQuestionable, BoolText(e.isQuestionable))),
          Show(Segment(IsSubstituted, BoolText(e.isSubstituted))),
          Show(Segment(IsAnnotated, BoolText(e.isAnnotated)))]
  {
  }

  lemma StateShown(e: Event, culture: Culture)
    requires e.systemStateCode.Some?
    ensures Shown(StateSegments(e, culture))
      == [Show(Segment(SystemStateCode, culture.intText(e.systemStateCode.value))),
          Show(Segment(DigitalStateName, StringText(e.digitalStateName)))]
  {
  }

  /** The shown segments, one piece at a time. */
  lemma ShownSegments(e: Event, culture: Culture)
    ensures Shown(Segments(e, culture))
      == [Show(Segment(Timestamp, culture.dateTimeText(e.timestamp)))]
         + Shown(ValueSegments(e, culture)) + Shown(FlagSegments(e)) + Shown(StateSegments(e, culture))
  {
    var head := [Segment(Timestamp, culture.dateTimeText(e.timestamp))];
    ShownAppend(head + ValueSegments(e, culture) + FlagSegments(e), StateSegments(e, culture));
    ShownAppend(head + ValueSegments(e, culture), FlagSegments(e));
    ShownAppend(head, ValueSegments(e, culture));
  }

  /** The rendering opens with the timestamp and a separator; the value, when
      there is one, comes next, and otherwise the first flag does. */
  lemma {:induction false} TextOpening(e: Event, culture: Culture)
    ensures var head := Show(Segment(Timestamp, culture.dateTimeText(e.timestamp))) + ", ";
      && head <= Text(e, culture)
      && (e.value.Some? ==>
            head + Show(Segment(Value, culture.floatText(e.value.value))) + ", " <= Text(e, culture))
      && (e.value.None? ==>
            head + Show(Segment(IsQuestionable, BoolText(e.isQuestionable))) + ", " <= Text(e, culture))
  {
    var ts := Show(Segment(Timestamp, culture.dateTimeText(e.timestamp)));
    var q := Show(Segment(IsQuestionable, BoolText(e.isQuestionable)));
    var s := Show(Segment(IsSubstituted, BoolText(e.isSubstituted)));
    var a := Show(Segment(IsAnnotated, BoolText(e.isAnnotated)));
    var state := Shown(StateSegments(e, culture));
    ShownSegments(e, culture);
    FlagsShown(e);
    if e.value.Some? {
      var v := Show(Segment(Value, culture.floatText(e.value.value)));
      ShownSingle(Segment(Value, culture.floatText(e.value.value)));
      assert Shown(Segments(e, culture)) == [ts, v] + ([q, s, a] + state);
      JoinedOpening(ts, v, [q, s, a] + state);
    } else {
      assert Shown(Segments(e, culture)) == [ts, q] + ([s, a] + state);
      JoinedOpening(ts, q, [s, a] + state);
    }
  }

  /** Which segments appear: the value exactly when it is non-null, the three
      flags always, and both state segments exactly when the code is non-null,
      whether or not the state name is. */
  lemma {:induction false} SegmentPresence(e: Event, culture: Culture)
    ensures var ns := Fields(Segments(e, culture));
      && (Value in ns <==> e.value.Some?)
      && IsQuestionable in ns && IsSubstituted in ns && IsAnnotated in ns
      && (SystemStateCode in ns <==> e.systemStateCode.Some?)
      && (DigitalStateName in ns <==> e.systemStateCode.Some?)
      && |ns| == 4 + (if e.value.Some? then 1 else 0) + (if e.systemStateCode.Some? then 2 else 0)
  {
    var ns := Fields(Segments(e, culture));
    var flags := [IsQuestionable, IsSubstituted, IsAnnotated];
    var state := [SystemStateCode, DigitalStateName];
    match (e.value, e.systemStateCode)
    case (Some(_), Some(_)) => assert ns == [Timestamp, Value] + flags + state;
    case (Some(_), None) => assert ns == [Timestamp, Value] + flags;
    case (None, Some(_)) => assert ns == [Timestamp] + flags + state;
    case (None, None) => assert ns == [Timestamp] + flags;
  }

  /** The flags are shown together, in declaration order; the annotation
      flag closes the text unless the state pair follows it. */
  lemma {:induction false} TextClosing(e: Event, culture: Culture)
    ensures e.systemStateCode.None? ==> EndsWith(Text(e, culture), ", " + Joined(Shown(FlagSegments(e))))
    ensures e.systemStateCode.Some? ==>
      EndsWith(Text(e, culture), ", " + Joined(Shown(FlagSegments(e) + StateSegments(e, culture))))
    ensures e.systemStateCode.None? ==>
      EndsWith(Text(e, culture), Show(Segment(IsAnnotated, BoolText(e.isAnnotated))))
  {
    var head := [Segment(Timestamp, culture.dateTimeText(e.timestamp))] + ValueSegments(e, culture);
    var tail := FlagSegments(e) + StateSegments(e, culture);
    assert Segments(e, culture) == head + tail;
    assert e.systemStateCode.None? ==> tail == FlagSegments(e);
    ShownAppend(head, tail);
    JoinedSuffix(Shown(head), Shown(tail));
    JoinedLast(Shown(Segments(e, culture)));
  }

  /** The value-only event of the end-to-end test: flags at their defaults and
      no state segments at all. */
  lemma {:induction false} ValueOnlyTestEvent(ts: DateTime, v: Float32, culture: Culture)
    ensures var e := Default.(timestamp := ts, value := Some(v));
      && Segments(e, culture)
         == [Segment(Timestamp, culture.dateTimeText(ts)), Segment(Value, culture.floatText(v)),
             Segment(IsQuestionable, "False"), Segment(IsSubstituted, "False"),
             Segment(IsAnnotated, "False")]
      && SystemStateCode !in Fields(Segments(e, culture))
      && DigitalStateName !in Fields(Segments(e, culture))
  {
  }

  /** The state-only event of the end-to-end test: no value segment, and the
      state name after the code. */
  lemma {:induction false} StateOnlyTestEvent(ts: DateTime, culture: Culture)
    ensures var e := Default.(timestamp := ts, systemStateCode := Some(246),
                              digitalStateName := Some("I/O Timeout"));
      && Segments(e, culture)
         == [Segment(Timestamp, culture.dateTimeText(ts)),
             Segment(IsQuestionable, "False"), Segment(IsSubstituted, "False"),
             Segment(IsAnnotated, "False"),
             Segment(SystemStateCode, culture.intText(246)),
             Segment(DigitalStateName, "I/O Timeout")]
      && Value !in Fields(Segments(e, culture))
  {
  }

  /** Nothing keeps a value and a state code apart: an event holding both
      shows both, the value after the timestamp and the state pair at the end. */
  lemma {:induction false} ValueAndStateBothShown(e: Event, culture: Culture)
    requires e.value.Some? && e.systemStateCode.Some?
    ensures Fields(Segments(e, culture))
            == [Timestamp, Value, IsQuestionable, IsSubstituted, IsAnnotated, SystemStateCode, DigitalStateName]
  {
  }
}
