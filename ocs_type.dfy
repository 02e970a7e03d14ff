/** `PItoOCSType`: the PI point record of the earlier OCS sample. The value is
    never null; the three flags are nullable, and the state code and the
    state name (an integer here) are nullable independently of each other.
    Every segment is rendered behind a separator, the first one included. */
module OcsType {
  import opened Common
  import opened Rendering

  datatype OcsType = OcsType(
    timestamp: DateTime,
    value: Float32,
    isQuestionable: Option<bool>,
    isSubstituted: Option<bool>,
    isAnnotated: Option<bool>,
    systemStateCode: Option<Int32>,
    digitalStateName: Option<Int32>)

  /** A nullable field's segment: none when the field is null. */
  function Present(field: Field, text: Option<string>): seq<Segment> {
    match text
    case None => []
    case Some(t) => [Segment(field, t)]
  }

  /** A nullable flag interpolated: null stays null. */
  function FlagText(flag: Option<bool>): Option<string> {
    match flag
    case None => None
    case Some(b) => Some(BoolText(b))
  }

  /** A nullable integer interpolated: null stays null. */
  function IntText(k: Option<Int32>, culture: Culture): Option<string> {
    match k
    case None => None
    case Some(n) => Some(culture.intText(n))
  }

  /** The two fixed segments. */
  function Fixed(e: OcsType, culture: Culture): seq<Segment> {
    [Segment(Timestamp, culture.dateTimeText(e.timestamp)),
     Segment(Value, culture.floatText(e.value))]
  }

  /** The segments of the rendering, each optional one guarded by its own field. */
  function Segments(e: OcsType, culture: Culture): seq<Segment> {
    Fixed(e, culture) + Optional(e, culture)
  }

  /** The five guarded segments, in declaration order. */
  function Optional(e: OcsType, culture: Culture): seq<Segment> {
    Present(IsQuestionable, FlagText(e.isQuestionable))
      + Present(IsSubstituted, FlagText(e.isSubstituted))
      + Present(IsAnnotated, FlagText(e.isAnnotated))
      + Present(SystemStateCode, IntText(e.systemStateCode, culture))
      + Present(DigitalStateName, IntText(e.digitalStateName, culture))
  }

  function Text(e: OcsType, culture: Culture): string {
    Prefixed(Shown(Segments(e, culture)))
  }

  /** One guarded line of `ToString`: append `, Name: text` when the field is
      non-null, and nothing otherwise. */
  method AppendIfPresent(text: string, ghost shown: seq<string>, field: Field, value: Option<string>)
    returns (r: string)
    requires text == Prefixed(shown)
    ensures r == Prefixed(shown + Shown(Present(field, value)))
  {
    r := text;
    if value.Some? {
      var g := Show(Segment(field, value.value));
      AppendPrefixed(shown, g);
      r := r + ", " + g;
      assert Shown(Present(field, value)) == [g];
    } else {
      assert shown + Shown(Present(field, value)) == shown;
    }
  }

  /** `ToString`: two unconditional appends, then one guarded append per
      nullable field in declaration order; each append opens with a separator. */
  method ToString(e: OcsType, culture: Culture) returns (text: string)
    ensures text == Prefixed(Shown(Segments(e, culture)))
  {
    var ts := Show(Segment(Timestamp, culture.dateTimeText(e.timestamp)));
    var v := Show(Segment(Value, culture.floatText(e.value)));
    AppendPrefixed([], ts);
    AppendPrefixed([ts], v);
    text := ", " + ts;
    text := text + ", " + v;
    assert [] + [ts] == [ts] && [ts] + [v] == [ts, v];
    ghost var shown := [ts, v];
    assert shown == Shown(Fixed(e, culture));

    text := AppendIfPresent(text, shown, IsQuestionable, FlagText(e.isQuestionable));
    shown := shown + Shown(Present(IsQuestionable, FlagText(e.isQuestionable)));
    text := AppendIfPresent(text, shown, IsSubstituted, FlagText(e.isSubstituted));
    shown := shown + Shown(Present(IsSubstituted, FlagText(e.isSubstituted)));
    text := AppendIfPresent(text, shown, IsAnnotated, FlagText(e.isAnnotated));
    shown := shown + Shown(Present(IsAnnotated, FlagText(e.isAnnotated)));
    text := AppendIfPresent(text, shown, SystemStateCode, IntText(e.systemStateCode, culture));
    shown := shown + Shown(Present(SystemStateCode, IntText(e.systemStateCode, culture)));
    text := AppendIfPresent(text, shown, DigitalStateName, IntText(e.digitalStateName, culture));
    shown := shown + Shown(Present(DigitalStateName, IntText(e.digitalStateName, culture)));
    ShownSegments(e, culture);
  }

  /** The shown segments, one piece at a time. */
  lemma ShownSegments(e: OcsType, culture: Culture)
    ensures Shown(Segments(e, culture))
      == Shown(Fixed(e, culture))
         + Shown(Present(IsQuestionable, FlagText(e.isQuestionable)))
         + Shown(Present(IsSubstituted, FlagText(e.isSubstituted)))
         + Shown(Present(IsAnnotated, FlagText(e.isAnnotated)))
         + Shown(Present(SystemStateCode, IntText(e.systemStateCode, culture)))
         + Shown(Present(DigitalStateName, IntText(e.digitalStateName, culture)))
  {
    var f := Fixed(e, culture);
    var q := Present(IsQuestionable, FlagText(e.isQuestionable));
    var s := Present(IsSubstituted, FlagText(e.isSubstituted));
    var a := Present(IsAnnotated, FlagText(e.isAnnotated));
    var k := Present(SystemStateCode, IntText(e.systemStateCode, culture));
    var d := Present(DigitalStateName, IntText(e.digitalStateName, culture));
    ShownAppend(f, q + s + a + k + d);
    ShownAppend(q + s + a + k, d);
    ShownAppend(q + s + a, k);
    ShownAppend(q + s, a);
    ShownAppend(q, s);
  }

  /** How many of the five nullable fields are set. */
  function PresentCount(e: OcsType): nat {
    (if e.isQuestionable.Some? then 1 else 0) + (if e.isSubstituted.Some? then 1 else 0)
      + (if e.isAnnotated.Some? then 1 else 0) + (if e.systemStateCode.Some? then 1 else 0)
      + (if e.digitalStateName.Some? then 1 else 0)
  }

  /** Whether a field's property is non-null: the timestamp and the value
      never are. */
  function IsSet(e: OcsType, f: Field): bool {
    match f
    case Timestamp => true
    case Value => true
    case IsQuestionable => e.isQuestionable.Some?
    case IsSubstituted => e.isSubstituted.Some?
    case IsAnnotated => e.isAnnotated.Some?
    case SystemStateCode => e.systemStateCode.Some?
    case DigitalStateName => e.digitalStateName.Some?
  }

  /** Timestamp and value always show, first and in that order; every other
      field shows exactly when its own property is non-null, so the state
      name does not depend on the state code. */
  lemma {:induction false} SegmentPresence(e: OcsType, culture: Culture)
    ensures var fs := Fields(Segments(e, culture));
      && |fs| == 2 + PresentCount(e)
      && fs[0] == Timestamp && fs[1] == Value
      && forall f: Field :: f in fs <==> IsSet(e, f)
  {
    SegmentFields(e, culture);
    forall f: Field ensures f in Fields(Segments(e, culture)) <==> IsSet(e, f) {
      FieldShown(e, culture, f);
    }
  }

  lemma FieldShown(e: OcsType, culture: Culture, f: Field)
    ensures f in Fields(Segments(e, culture)) <==> IsSet(e, f)
  {
    SegmentFields(e, culture);
    var q := FieldIf(IsQuestionable, e.isQuestionable.Some?);
    var s := FieldIf(IsSubstituted, e.isSubstituted.Some?);
    var a := FieldIf(IsAnnotated, e.isAnnotated.Some?);
    var k := FieldIf(SystemStateCode, e.systemStateCode.Some?);
    var d := FieldIf(DigitalStateName, e.digitalStateName.Some?);
    assert f in [Timestamp, Value] + OptionalFields(e)
       <==> f in [Timestamp, Value] || f in q || f in s || f in a || f in k || f in d;
  }

  function FieldIf(field: Field, present: bool): seq<Field> {
    if present then [field] else []
  }

  /** The nullable fields that are set, in declaration order. */
  function OptionalFields(e: OcsType): seq<Field> {
    FieldIf(IsQuestionable, e.isQuestionable.Some?)
      + FieldIf(IsSubstituted, e.isSubstituted.Some?)
      + FieldIf(IsAnnotated, e.isAnnotated.Some?)
      + FieldIf(SystemStateCode, e.systemStateCode.Some?)
      + FieldIf(DigitalStateName, e.digitalStateName.Some?)
  }

  /** The fields shown: timestamp, value, then each set nullable field. */
  lemma SegmentFields(e: OcsType, culture: Culture)
    ensures Fields(Segments(e, culture)) == [Timestamp, Value] + OptionalFields(e)
  {
    FieldsAppend(Fixed(e, culture), Optional(e, culture));
    OptionalSegmentFields(e, culture);
    assert Fields(Fixed(e, culture)) == [Timestamp, Value];
  }

  lemma OptionalSegmentFields(e: OcsType, culture: Culture)
    ensures Fields(Optional(e, culture)) == OptionalFields(e)
  {
    var q := Present(IsQuestionable, FlagText(e.isQuestionable));
    var s := Present(IsSubstituted, FlagText(e.isSubstituted));
    var a := Present(IsAnnotated, FlagText(e.isAnnotated));
    var k := Present(SystemStateCode, IntText(e.systemStateCode, culture));
    var d := Present(DigitalStateName, IntText(e.digitalStateName, culture));
    FieldsAppend(q + s + a + k, d);
    FieldsAppend(q + s + a, k);
    FieldsAppend(q + s, a);
    FieldsAppend(q, s);
    assert Fields(q) == FieldIf(IsQuestionable, e.isQuestionable.Some?);
    assert Fields(s) == FieldIf(IsSubstituted, e.isSubstituted.Some?);
    assert Fields(a) == FieldIf(IsAnnotated, e.isAnnotated.Some?);
    assert Fields(k) == FieldIf(SystemStateCode, e.systemStateCode.Some?);
    assert Fields(d) == FieldIf(DigitalStateName, e.digitalStateName.Some?);
  }

  /** The text is the joined segments behind one leading separator, so it
      ends with the last segment, with no separator after it. */
  lemma {:induction false} TextLayout(e: OcsType, culture: Culture)
    ensures Text(e, culture) == ", " + Joined(Shown(Segments(e, culture)))
    ensures var gs := Segments(e, culture); EndsWith(Text(e, culture), Show(gs[|gs| - 1]))
  {
    var ss := Shown(Segments(e, culture));
    PrefixedIsJoined(ss);
    JoinedLast(ss);
  }

  /** The text opens with a separator, the timestamp, a separator and the
      value, whatever the nullable fields hold. */
  lemma {:induction false} TextOpening(e: OcsType, culture: Culture)
    ensures ", " + Show(Segment(Timestamp, culture.dateTimeText(e.timestamp))) + ", "
            + Show(Segment(Value, culture.floatText(e.value))) <= Text(e, culture)
  {
    var ts := Show(Segment(Timestamp, culture.dateTimeText(e.timestamp)));
    var v := Show(Segment(Value, culture.floatText(e.value)));
    ShownAppend(Fixed(e, culture), Optional(e, culture));
    assert Shown(Fixed(e, culture)) == [ts, v];
    PrefixedOpening(ts, v, Shown(Optional(e, culture)));
  }
}
