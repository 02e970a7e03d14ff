/** A rendered event is a list of `Name: text` segments put together with
    `", "` separators. The three event types differ in where the separators
    fall, so the four ways of placing them are defined here once, on the
    segments' strings, each by recursion on the last string (the order in
    which a `StringBuilder` receives them), and related to one another. */
module Rendering {

  /** The properties an event shows, by their C# names. */
  datatype Field =
    | Timestamp | Value | IsQuestionable | IsSubstituted | IsAnnotated
    | SystemStateCode | DigitalStateName

  /** The name a segment is labelled with: the property's own name. */
  function Label(f: Field): string {
    match f
    case Timestamp => "Timestamp"
    case Value => "Value"
    case IsQuestionable => "IsQuestionable"
    case IsSubstituted => "IsSubstituted"
    case IsAnnotated => "IsAnnotated"
    case SystemStateCode => "SystemStateCode"
    case DigitalStateName => "DigitalStateName"
  }

  datatype Segment = Segment(field: Field, text: string)

  /** One segment as it is appended: `Name: text`. */
  function Show(g: Segment): string {
    Label(g.field) + ": " + g.text
  }

  /** The fields the segments show, in order. */
  function Fields(gs: seq<Segment>): seq<Field> {
    seq(|gs|, i requires 0 <= i < |gs| => gs[i].field)
  }

  /** The segments as shown, one string each. */
  function Shown(gs: seq<Segment>): seq<string> {
    seq(|gs|, i requires 0 <= i < |gs| => Show(gs[i]))
  }

  lemma FieldsAppend(xs: seq<Segment>, ys: seq<Segment>)
    ensures Fields(xs + ys) == Fields(xs) + Fields(ys)
  {
  }

  lemma ShownAppend(xs: seq<Segment>, ys: seq<Segment>)
    ensures Shown(xs + ys) == Shown(xs) + Shown(ys)
  {
  }

  /** `x` is the tail of `t`. */
  predicate EndsWith(t: string, x: string) {
    |x| <= |t| && t[|t| - |x|..] == x
  }

  /** Total length of the strings, without any separator. */
  function TotalLength(ss: seq<string>): nat {
    if ss == [] then 0 else TotalLength(ss[..|ss| - 1]) + |ss[|ss| - 1]|
  }

  /** Separators between neighbours only: `A, B, C`. */
  function Joined(ss: seq<string>): string {
    if ss == [] then ""
    else if |ss| == 1 then ss[0]
    else Joined(ss[..|ss| - 1]) + ", " + ss[|ss| - 1]
  }

  /** A separator before every string: `, A, B, C`. */
  function Prefixed(ss: seq<string>): string {
    if ss == [] then "" else Prefixed(ss[..|ss| - 1]) + ", " + ss[|ss| - 1]
  }

  /** A separator after every string: `A, B, C, `. */
  function Terminated(ss: seq<string>): string {
    if ss == [] then "" else Terminated(ss[..|ss| - 1]) + ss[|ss| - 1] + ", "
  }

  /** No separator at all: `ABC`. */
  function Concatenated(ss: seq<string>): string {
    if ss == [] then "" else Concatenated(ss[..|ss| - 1]) + ss[|ss| - 1]
  }

  /** One more string on a builder that already ends in a separator. */
  lemma AppendAfterSeparator(text: string, ss: seq<string>, s: string)
    requires ss != [] && text == Joined(ss) + ", "
    ensures text + s == Joined(ss + [s])
  {
    assert (ss + [s])[..|ss|] == ss;
  }

  /** One more string on a builder whose strings each carry a separator. */
  lemma AppendTerminated(ss: seq<string>, s: string)
    ensures Terminated(ss + [s]) == Terminated(ss) + s + ", "
  {
    assert (ss + [s])[..|ss|] == ss;
  }

  /** One more string on a builder with no separators. */
  lemma AppendConcatenated(ss: seq<string>, s: string)
    ensures Concatenated(ss + [s]) == Concatenated(ss) + s
  {
    assert (ss + [s])[..|ss|] == ss;
  }

  /** One more string on a builder that puts a separator before each. */
  lemma AppendPrefixed(ss: seq<string>, s: string)
    ensures Prefixed(ss + [s]) == Prefixed(ss) + ", " + s
  {
    assert (ss + [s])[..|ss|] == ss;
  }

  /** Joining two non-empty runs puts exactly one separator between them. */
  lemma {:induction false} JoinedAppend(xs: seq<string>, ys: seq<string>)
    requires xs != [] && ys != []
    ensures Joined(xs + ys) == Joined(xs) + ", " + Joined(ys)
    decreases |ys|
  {
    var zs := xs + ys;
    if |ys| == 1 {
      assert zs[..|zs| - 1] == xs;
    } else {
      var init := ys[..|ys| - 1];
      assert zs[..|zs| - 1] == xs + init;
      JoinedAppend(xs, init);
    }
  }

  /** Appending more strings keeps what was joined so far as a prefix. */
  lemma {:induction false} JoinedPrefix(xs: seq<string>, ys: seq<string>)
    requires xs != []
    ensures Joined(xs) <= Joined(xs + ys)
  {
    if ys == [] {
      assert xs + ys == xs;
    } else {
      JoinedAppend(xs, ys);
    }
  }

  /** A prefixed run opens with a separator, its first string, a separator
      and its second string. */
  lemma {:induction false} PrefixedOpening(a: string, b: string, rest: seq<string>)
    ensures ", " + a + ", " + b <= Prefixed([a, b] + rest)
  {
    PrefixedIsJoined([a, b] + rest);
    JoinedPrefix([a, b], rest);
    assert [a, b][..1] == [a];
  }

  /** A joined run of at least three strings opens with the first, a
      separator, the second and a separator. */
  lemma {:induction false} JoinedOpening(a: string, b: string, rest: seq<string>)
    requires rest != []
    ensures a + ", " <= Joined([a, b] + rest)
    ensures a + ", " + b + ", " <= Joined([a, b] + rest)
  {
    JoinedAppend([a, b], rest);
    assert [a, b][..1] == [a];
    var t := Joined([a, b] + rest);
    assert t == (a + ", " + b + ", ") + Joined(rest);
    assert t == (a + ", ") + (b + ", " + Joined(rest));
  }

  /** Terminating two runs is terminating each in turn. */
  lemma {:induction false} TerminatedAppend(xs: seq<string>, ys: seq<string>)
    ensures Terminated(xs + ys) == Terminated(xs) + Terminated(ys)
    decreases |ys|
  {
    if ys == [] {
      assert xs + ys == xs;
    } else {
      var init := ys[..|ys| - 1];
      assert (xs + ys)[..|xs + ys| - 1] == xs + init;
      TerminatedAppend(xs, init);
    }
  }

  /** Strings each followed by a separator open with the first, a separator,
      the second and a separator, whatever follows them. */
  lemma {:induction false} TerminatedOpening(a: string, b: string, rest: seq<string>, tail: string)
    ensures a + ", " <= Terminated([a, b] + rest) + tail
    ensures a + ", " + b + ", " <= Terminated([a, b] + rest) + tail
  {
    TerminatedAppend([a, b], rest);
    assert [a, b][..1] == [a];
    assert [a][..0] == [];
    assert Terminated([a]) == a + ", ";
    assert Terminated([a, b]) == a + ", " + b + ", ";
    var t := Terminated([a, b] + rest) + tail;
    assert t == (a + ", " + b + ", ") + (Terminated(rest) + tail);
    assert t == (a + ", ") + (b + ", " + Terminated(rest) + tail);
  }

  /** Whatever is appended last is a tail of the result. */
  lemma EndsWithAppended(t: string, x: string)
    ensures EndsWith(t + x, x)
  {
    assert (t + x)[|t|..] == x;
  }

  /** Strings each followed by a separator end with the last of them and its
      separator, when nothing is run together after them. */
  lemma {:induction false} TerminatedClosing(ss: seq<string>)
    requires ss != []
    ensures EndsWith(Terminated(ss), ss[|ss| - 1] + ", ")
  {
    var last := ss[|ss| - 1];
    assert Terminated(ss) == Terminated(ss[..|ss| - 1]) + (last + ", ");
    EndsWithAppended(Terminated(ss[..|ss| - 1]), last + ", ");
  }

  /** A common tail stays common when the same string is appended to both. */
  lemma EndsWithExtended(t: string, u: string, x: string)
    requires EndsWith(t, u)
    ensures EndsWith(t + x, u + x)
  {
    assert (t + x)[|t + x| - |u + x|..] == t[|t| - |u|..] + x;
  }

  /** Strings each followed by a separator, then a pair run together, end
      with the last of the first ones, its separator, and the pair. */
  lemma {:induction false} TerminatedThenPair(ss: seq<string>, x: string, y: string)
    requires ss != []
    ensures EndsWith(Terminated(ss) + Concatenated([x, y]), ss[|ss| - 1] + ", " + x + y)
  {
    var last := ss[|ss| - 1];
    TerminatedClosing(ss);
    assert Terminated(ss) + Concatenated([]) == Terminated(ss);
    EndsWithExtended(Terminated(ss), last + ", ", x);
    EndsWithExtended(Terminated(ss) + x, last + ", " + x, y);
    ConcatenatedPair(Terminated(ss), x, y);
  }

  lemma ConcatenatedPair(t: string, x: string, y: string)
    ensures t + Concatenated([x, y]) == t + x + y
  {
    assert [x, y][..1] == [x];
    assert Concatenated([x]) == x;
  }

  /** A joined run ends with its last string: no separator trails it. */
  lemma {:induction false} JoinedLast(ss: seq<string>)
    requires ss != []
    ensures EndsWith(Joined(ss), ss[|ss| - 1])
  {
  }

  /** The tail of a joined run is the joined tail, after one separator. */
  lemma {:induction false} JoinedSuffix(xs: seq<string>, ys: seq<string>)
    requires xs != [] && ys != []
    ensures EndsWith(Joined(xs + ys), ", " + Joined(ys))
  {
    JoinedAppend(xs, ys);
    var t := Joined(xs + ys);
    var tail := ", " + Joined(ys);
    assert t == Joined(xs) + tail;
    assert t[|Joined(xs)|..] == tail;
  }

  /** Leading separators are the joined text behind one separator, so the
      prefixed form never ends in a separator. */
  lemma {:induction false} PrefixedIsJoined(ss: seq<string>)
    requires ss != []
    ensures Prefixed(ss) == ", " + Joined(ss)
  {
    if |ss| > 1 {
      PrefixedIsJoined(ss[..|ss| - 1]);
    }
  }

  /** Trailing separators are the joined text followed by one separator. */
  lemma {:induction false} TerminatedIsJoined(ss: seq<string>)
    requires ss != []
    ensures Terminated(ss) == Joined(ss) + ", "
  {
    if |ss| > 1 {
      TerminatedIsJoined(ss[..|ss| - 1]);
    }
  }

  /** Each separator is two characters: a joined run of n strings carries
      n - 1 of them. */
  lemma {:induction false} JoinedLength(ss: seq<string>)
    requires ss != []
    ensures |Joined(ss)| == TotalLength(ss) + 2 * (|ss| - 1)
  {
    if |ss| > 1 {
      JoinedLength(ss[..|ss| - 1]);
    } else {
      assert ss[..0] == [];
    }
  }

  lemma {:induction false} ConcatenatedLength(ss: seq<string>)
    ensures |Concatenated(ss)| == TotalLength(ss)
  {
    if ss != [] {
      ConcatenatedLength(ss[..|ss| - 1]);
    }
  }

  lemma {:induction false} TotalLengthAppend(xs: seq<string>, ys: seq<string>)
    ensures TotalLength(xs + ys) == TotalLength(xs) + TotalLength(ys)
    decreases |ys|
  {
    var zs := xs + ys;
    if ys == [] {
      assert zs == xs;
    } else {
      assert zs[..|zs| - 1] == xs + ys[..|ys| - 1];
      TotalLengthAppend(xs, ys[..|ys| - 1]);
    }
  }
}
