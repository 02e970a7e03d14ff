/** `PItoADHFloatType`: the same PI point fields as `PItoADHEvent`, rendered
    with the current culture and with a different separator layout: every
    segment up to the annotation flag is followed by a separator, and the
    state code and state name are run together with none. */
module AdhFloatType {
  import opened Common
  import opened Rendering
  import AdhEvent

  datatype FloatType = FloatType(
    timestamp: DateTime,
    value: Option<Float32>,
    isQuestionable: bool,
    isSubstituted: bool,
    isAnnotated: bool,
    systemStateCode: Option<Int32>,
    digitalStateName: Option<string>)

  /** Timestamp, the value when non-null, and the three flags. */
  function Leading(e: FloatType, culture: Culture): seq<Segment> {
    [Segment(Timestamp, culture.dateTimeText(e.timestamp))]
      + (match e.value
         case None => []
         case Some(v) => [Segment(Value, culture.floatText(v))])
      + [Segment(IsQuestionable, BoolText(e.isQuestionable)),
         Segment(IsSubstituted, BoolText(e.isSubstituted)),
         Segment(IsAnnotated, BoolText(e.isAnnotated))]
  }

  /** The state pair, keyed on the code alone. */
  function State(e: FloatType, culture: Culture): seq<Segment> {
    match e.systemStateCode
    case None => []
    case Some(k) =>
      [Segment(SystemStateCode, culture.intText(k)),
       Segment(DigitalStateName, StringText(e.digitalStateName))]
  }

  function Text(e: FloatType, culture: Culture): string {
    Terminated(Shown(Leading(e, culture))) + Concatenated(Shown(State(e, culture)))
  }

  /** `ToString`: each leading segment is appended with its separator, the
      state segments without one. */
  method ToString(e: FloatType, culture: Culture) returns (text: string)
    ensures text == Terminated(Shown(Leading(e, culture))) + Concatenated(Shown(State(e, culture)))
  {
    var ts := Show(Segment(Timestamp, culture.dateTimeText(e.timestamp)));
    AppendTerminated([], ts);
    assert [] + [ts] == [ts];
    text := ts + ", ";
    ghost var shown := [ts];

    if e.value.Some? {
      var v := Show(Segment(Value, culture.floatText(e.value.value)));
      AppendTerminated(shown, v);
      text := text + v + ", ";
      shown := shown + [v];
      assert text == Terminated(shown);
    }
    assert text == Terminated(shown);

    var q := Show(Segment(IsQuestionable, BoolText(e.isQuestionable)));
    AppendTerminated(shown, q);
    text := text + q + ", ";
    shown := shown + [q];
    assert text == Terminated(shown);
    var s := Show(Segment(IsSubstituted, BoolText(e.isSubstituted)));
    AppendTerminated(shown, s);
    text := text + s + ", ";
    shown := shown + [s];
    assert text == Terminated(shown);
    var a := Show(Segment(IsAnnotated, BoolText(e.isAnnotated)));
    AppendTerminated(shown, a);
    text := text + a + ", ";
    shown := shown + [a];
    LeadingShown(e, culture);
    assert shown == Shown(Leading(e, culture));
    text := AppendState(text, e, culture);
  }

  /** The state block of `ToString`: under the code's null check, the code and
      the name appended with nothing between or after them. */
  method AppendState(text: string, e: FloatType, culture: Culture) returns (r: string)
    ensures r == text + Concatenated(Shown(State(e, culture)))
  {
    r := text;
    ghost var state: seq<string> := [];
    if e.systemStateCode.Some? {
      var k := Show(Segment(SystemStateCode, culture.intText(e.systemStateCode.value)));
      AppendConcatenated(state, k);
      r := r + k;
      state := state + [k];
      var d := Show(Segment(DigitalStateName, StringText(e.digitalStateName)));
      AppendConcatenated(state, d);
      r := r + d;
      state := state + [d];
      StateShown(e, culture);
    }
    assert state == Shown(State(e, culture));
  }

  lemma StateShown(e: FloatType, culture: Culture)
    requires e.systemStateCode.Some?
    ensures Shown(State(e, culture))
      == [Show(Segment(SystemStateCode, culture.intText(e.systemStateCode.value))),
          Show(Segment(DigitalStateName, StringText(e.digitalStateName)))]
  {
  }

  /** The leading segments as shown, value included when present. */
  lemma LeadingShown(e: FloatType, culture: Culture)
    ensures Shown(Leading(e, culture))
      == [Show(Segment(Timestamp, culture.dateTimeText(e.timestamp)))]
         + (match e.value
            case None => []
            case Some(v) => [Show(Segment(Value, culture.floatText(v)))])
         + [Show(Segment(IsQuestionable, BoolText(e.isQuestionable))),
            Show(Segment(IsSubstituted, BoolText(e.isSubstituted))),
            Show(Segment(IsAnnotated, BoolText(e.isAnnotated)))]
  {
  }

  /** The same record read as a `PItoADHEvent`. */
  function AsEvent(e: FloatType): AdhEvent.Event {
    AdhEvent.Event(e.timestamp, e.value, e.isQuestionable, e.isSubstituted,
                   e.isAnnotated, e.systemStateCode, e.digitalStateName)
  }

  /** Both types show the same segments in the same order; only the
      separators differ. */
  lemma {:induction false} SameSegmentsAsEvent(e: FloatType, culture: Culture)
    ensures AdhEvent.Segments(AsEvent(e), culture) == Leading(e, culture) + State(e, culture)
  {
  }

  /** The rendering opens with the timestamp and a separator, then the value
      when there is one. */
  lemma {:induction false} TextOpening(e: FloatType, culture: Culture)
    ensures var head := Show(Segment(Timestamp, culture.dateTimeText(e.timestamp))) + ", ";
      && head <= Text(e, culture)
      && (e.value.Some? ==>
            head + Show(Segment(Value, culture.floatText(e.value.value))) + ", " <= Text(e, culture))
  {
    var ts := Show(Segment(Timestamp, culture.dateTimeText(e.timestamp)));
    var q := Show(Segment(IsQuestionable, BoolText(e.isQuestionable)));
    var s := Show(Segment(IsSubstituted, BoolText(e.isSubstituted)));
    var a := Show(Segment(IsAnnotated, BoolText(e.isAnnotated)));
    var tail := Concatenated(Shown(State(e, culture)));
    LeadingShown(e, culture);
    if e.value.Some? {
      var v := Show(Segment(Value, culture.floatText(e.value.value)));
      assert Shown(Leading(e, culture)) == [ts, v] + [q, s, a];
      TerminatedOpening(ts, v, [q, s, a], tail);
    } else {
      assert Shown(Leading(e, culture)) == [ts, q] + [s, a];
      TerminatedOpening(ts, q, [s, a], tail);
    }
  }

  /** The value segment appears exactly when the value is non-null; the state
      segments exactly when the code is non-null, and then as code and name. */
  lemma {:induction false} SegmentPresence(e: FloatType, culture: Culture)
    ensures Value in Fields(Leading(e, culture)) <==> e.value.Some?
    ensures Fields(Leading(e, culture))[|Leading(e, culture)| - 3..]
            == [IsQuestionable, IsSubstituted, IsAnnotated]
    ensures State(e, culture) != [] <==> e.systemStateCode.Some?
    ensures e.systemStateCode.Some? ==> Fields(State(e, culture)) == [SystemStateCode, DigitalStateName]
  {
    var ns := Fields(Leading(e, culture));
    if e.value.Some? {
      assert ns == [Timestamp, Value, IsQuestionable, IsSubstituted, IsAnnotated];
    } else {
      assert ns == [Timestamp, IsQuestionable, IsSubstituted, IsAnnotated];
    }
  }

  /** Without a state code the text ends in the annotation flag and a
      separator; with one, the flag, a separator, and the code and name with
      nothing between them. */
  lemma {:induction false} TextClosing(e: FloatType, culture: Culture)
    ensures var annotated := Show(Segment(IsAnnotated, BoolText(e.isAnnotated))) + ", ";
      && (e.systemStateCode.None? ==> EndsWith(Text(e, culture), annotated))
      && (e.systemStateCode.Some? ==> EndsWith(Text(e, culture), annotated
            + Show(Segment(SystemStateCode, culture.intText(e.systemStateCode.value)))
            + Show(Segment(DigitalStateName, StringText(e.digitalStateName)))))
  {
    var ss := Shown(Leading(e, culture));
    LeadingShown(e, culture);
    assert ss[|ss| - 1] == Show(Segment(IsAnnotated, BoolText(e.isAnnotated)));
    if e.systemStateCode.Some? {
      var k := Show(Segment(SystemStateCode, culture.intText(e.systemStateCode.value)));
      var d := Show(Segment(DigitalStateName, StringText(e.digitalStateName)));
      StateShown(e, culture);
      TerminatedThenPair(ss, k, d);
    } else {
      assert Shown(State(e, culture)) == [];
      TerminatedClosing(ss);
    }
  }

  /** The two renderings of the same fields never agree: this one is two
      characters longer without a state code (the trailing separator) and
      two shorter with one (the separator missing between code and name). */
  lemma {:induction false} LengthAgainstEvent(e: FloatType, culture: Culture)
    ensures e.systemStateCode.None? ==> |Text(e, culture)| == |AdhEvent.Text(AsEvent(e), culture)| + 2
    ensures e.systemStateCode.Some? ==> |Text(e, culture)| + 2 == |AdhEvent.Text(AsEvent(e), culture)|
    ensures Text(e, culture) != AdhEvent.Text(AsEvent(e), culture)
  {
    var lead := Shown(Leading(e, culture));
    var st := Shown(State(e, culture));
    SameSegmentsAsEvent(e, culture);
    ShownAppend(Leading(e, culture), State(e, culture));
    TerminatedIsJoined(lead);
    JoinedLength(lead);
    JoinedLength(lead + st);
    ConcatenatedLength(st);
    TotalLengthAppend(lead, st);
  }
}
