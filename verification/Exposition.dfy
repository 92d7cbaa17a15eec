/**
  The printer of internal/metrics/registry.go, and the proof that the parser undoes it:
  whatever the label values contain, a printed page parses to what was printed.
  */
module Exposition {
  import opened Telemetry
  import opened Text
  import opened Seqs
  import opened PromText

  function EscChar(c: char): string {
    if c == '\\' then "\\\\"
    else if c == '"' then "\\\""
    else if c == '\n' then "\\n"
    else [c]
  }

  /** Escapes a label value. */
  function Esc(s: string): string {
    if s == "" then "" else EscChar(s[0]) + Esc(s[1..])
  }

  /** `key="value"` pairs separated by commas. */
  function LabelText(labels: seq<(string, string)>): string {
    if labels == [] then ""
    else if |labels| == 1 then Pair(labels[0])
    else Pair(labels[0]) + "," + LabelText(labels[1..])
  }

  function Pair(lab: (string, string)): string {
    lab.0 + "=\"" + Esc(lab.1) + "\""
  }

  function LabelledLine(name: string, labels: seq<(string, string)>, value: string): string {
    name + "{" + LabelText(labels) + "} " + value
  }

  /** The label map a list of pairs means; a repeated key keeps its last value. */
  function WithLabels(labels: Labels, more: seq<(string, string)>): Labels
    decreases |more|
  {
    if more == [] then labels else WithLabels(labels[more[0].0 := more[0].1], more[1..])
  }

  /** What a label name must be for the scanner to find its end. */
  predicate KeyOk(k: string) {
    k != "" && Trimmed(k) && k[0] != ',' && '=' !in k && '}' !in k && '\n' !in k
  }

  predicate KeysOk(labels: seq<(string, string)>) {
    forall i :: 0 <= i < |labels| ==> KeyOk(labels[i].0)
  }

  predicate ValueOk(value: string) {
    value != "" && NoSpace(value)
  }

  // ---------------------------------------------------------------------------
  // The round trip of a label value, a label block and a line
  // ---------------------------------------------------------------------------

  lemma QuotedValueSteps(c: char, s: string)
    ensures QuotedValue(EscChar(c) + s) == Prepend(c, QuotedValue(s))
  {
  }

  /** The scanner undoes the escaper, and stops at the quote that was not escaped. */
  lemma {:induction false} EscIsUndone(v: string, rest: string)
    ensures QuotedValue(Esc(v) + "\"" + rest) == Some((v, rest))
  {
    if v == "" {
      assert ("" + "\"" + rest)[1..] == rest;
    } else {
      EscIsUndone(v[1..], rest);
      assert Esc(v) + "\"" + rest == EscChar(v[0]) + (Esc(v[1..]) + "\"" + rest);
      QuotedValueSteps(v[0], Esc(v[1..]) + "\"" + rest);
      assert [v[0]] + v[1..] == v;
    }
  }

  lemma PairShape(k: string, e: string, rest: string)
    ensures
      var t := k + "=\"" + e + "\"" + rest;
      var after := "=\"" + (e + "\"" + rest);
      && t == k + after
      && t[..|k|] == k && t[|k|] == '=' && t[|k| + 1] == '"'
      && t[|k| + 2..] == e + "\"" + rest
  {
  }

  /** A label of the expected shape is read as its key, value and rest. */
  lemma OneLabelOf(t: string, k: string, value: Option<(string, string)>)
    requires |k| + 2 <= |t| && t[..|k|] == k && t[|k|] == '=' && t[|k| + 1] == '"'
    requires SpanNot(t, {'=', '}'}) == |k| && QuotedValue(t[|k| + 2..]) == value
    ensures OneLabel(t) == PromText.Labelled(TrimSpace(k), value)
  {
  }

  lemma PairIsRead(lab: (string, string), rest: string)
    requires KeyOk(lab.0)
    ensures SkipSeparators(Pair(lab) + rest) == Pair(lab) + rest
    ensures Pair(lab)[0] != '}'
    ensures OneLabel(Pair(lab) + rest) == Some((lab.0, lab.1, rest))
  {
    PairStartsWithKey(lab, rest);
    PairIsOneLabel(lab, rest);
  }

  lemma PairStartsWithKey(lab: (string, string), rest: string)
    requires KeyOk(lab.0)
    ensures SkipSeparators(Pair(lab) + rest) == Pair(lab) + rest
    ensures Pair(lab)[0] != '}'
  {
    var t := Pair(lab) + rest;
    PairShape(lab.0, Esc(lab.1), rest);
    assert t[0] == lab.0[0];
    assert lab.0[0] in lab.0;
  }

  lemma PairIsOneLabel(lab: (string, string), rest: string)
    requires KeyOk(lab.0)
    ensures OneLabel(Pair(lab) + rest) == Some((lab.0, lab.1, rest))
  {
    var (k, v) := lab;
    PairShape(k, Esc(v), rest);
    SpanNotIs(k, "=\"" + (Esc(v) + "\"" + rest), {'=', '}'});
    EscIsUndone(v, rest);
    OneLabelOf(Pair(lab) + rest, k, Some((v, rest)));
    TrimmedStays(k);
  }

  /** Commas, spaces and tabs before a label or the closing brace mean nothing. */
  lemma SeparatorIsSkipped(c: char, s: string, labels: Labels)
    requires c in {',', ' ', '\t'}
    ensures LabelBlock([c] + s, labels) == LabelBlock(s, labels)
  {
    var t, n := [c] + s, SeparatorEnd(s, 0);
    assert t[0..] == t && t[1 + n..] == s[n..];
    assert forall k :: 0 < k < |t| ==> t[k] == s[k - 1];
    SeparatorsEndAt(t, 0, 1 + n);
  }

  lemma PairStarts(lab: (string, string), rest: string, read: Labels)
    requires KeyOk(lab.0)
    ensures LabelBlock(Pair(lab) + rest, read) == LabelBlock(rest, read[lab.0 := lab.1])
  {
    PairIsRead(lab, rest);
    assert (Pair(lab) + rest)[0] == Pair(lab)[0];
  }

  lemma BlockEnds(tail: string, read: Labels)
    ensures LabelBlock("}" + tail, read) == Some((read, tail))
  {
    var t := "}" + tail;
    assert t[0] == '}' && t[1..] == tail;
    assert SkipSeparators(t) == t;
  }

  lemma LabelTextUnfolds(labels: seq<(string, string)>, tail: string)
    requires labels != []
    ensures
      var more := LabelText(labels[1..]) + "}" + tail;
      LabelText(labels) + "}" + tail ==
        if |labels| == 1 then Pair(labels[0]) + more else Pair(labels[0]) + ("," + more)
  {
    if |labels| == 1 {
      assert LabelText(labels[1..]) == "";
      Associate(Pair(labels[0]), "}", tail);
      ConcatNothing("}");
    } else {
      Regroup(Pair(labels[0]), ",", LabelText(labels[1..]), "}", tail);
    }
  }

  lemma Regroup(a: string, b: string, c: string, d: string, e: string)
    ensures a + b + c + d + e == a + (b + (c + d + e))
  {
  }

  lemma {:induction false} LabelTextIsRead(labels: seq<(string, string)>, read: Labels, tail: string)
    requires KeysOk(labels)
    ensures LabelBlock(LabelText(labels) + "}" + tail, read) == Some((WithLabels(read, labels), tail))
    decreases |labels|
  {
    if labels == [] {
      assert "" + "}" + tail == "}" + tail;
      BlockEnds(tail, read);
    } else {
      var lab, rest := labels[0], labels[1..];
      var more := LabelText(rest) + "}" + tail;
      assert KeyOk(lab.0);
      LabelTextUnfolds(labels, tail);
      LabelTextIsRead(rest, read[lab.0 := lab.1], tail);
      if |labels| == 1 {
        PairStarts(lab, more, read);
      } else {
        PairStarts(lab, "," + more, read);
        SeparatorIsSkipped(',', more, read[lab.0 := lab.1]);
        assert [','] + more == "," + more;
      }
    }
  }

  lemma NamesHaveNoSpecials(name: string)
    requires ValidMetricName(name)
    ensures Trimmed(name) && TrimSpace(name) == name
    ensures forall i :: 0 <= i < |name| ==> name[i] !in {'{', ' ', '\t', '\n', '#'}
  {
    assert forall i :: 0 <= i < |name| ==> NameChar(name[i], i == 0);
    assert NameChar(name[|name| - 1], |name| == 1) && !IsSpace(name[0]) && !IsSpace(name[|name| - 1]);
    TrimmedStays(name);
  }

  lemma LabelledShape(name: string, labels: seq<(string, string)>, value: string)
    ensures
      var line := LabelledLine(name, labels, value);
      var block := LabelText(labels) + "}" + (" " + value);
      && line == name + ("{" + block)
      && line[..|name|] == name && line[|name| + 1..] == block
  {
  }

  /** Where a printed line opens its braces, and what it has on both sides. */
  lemma LabelledParts(name: string, labels: seq<(string, string)>, value: string)
    requires ValidMetricName(name) && KeysOk(labels)
    ensures LineParts(LabelledLine(name, labels, value), |name|, name, WithLabels(map[], labels), " " + value)
  {
    NamesHaveNoSpecials(name);
    LabelledShape(name, labels, value);
    SpanNotIs(name, "{" + (LabelText(labels) + "}" + (" " + value)), {'{'});
    LabelTextIsRead(labels, map[], " " + value);
  }

  lemma LabelledLineSplits(name: string, labels: seq<(string, string)>, value: string)
    requires ValidMetricName(name) && KeysOk(labels)
    ensures SplitNameAndLabels(LabelledLine(name, labels, value)) ==
            Some((name, " " + value, WithLabels(map[], labels)))
  {
    LabelledParts(name, labels, value);
    SplitAt(LabelledLine(name, labels, value), |name|, name, WithLabels(map[], labels), " " + value);
  }

  lemma PlainLineSplits(name: string, value: string)
    requires ValidMetricName(name) && '{' !in value
    ensures SplitNameAndLabels(name + " " + value) == Some((name, value, map[]))
  {
    var line := name + " " + value;
    NamesHaveNoSpecials(name);
    assert line == name + (" " + value);
    SpanNotIs(line, "", {'{'});
    assert line + "" == line;
    SpanNotIs(name, " " + value, {' ', '\t'});
    assert line[..|name|] == name && line[|name| + 1..] == value;
  }

  // ---------------------------------------------------------------------------
  // The round trip of a page
  // ---------------------------------------------------------------------------

  /** One printed line: nothing but space, HELP or TYPE text, or a series with or without labels and timestamp. */
  datatype Entry =
    | Blank(space: string)
    | Comment(text: string)
    | Plain(name: string, value: string)
    | Labelled(name: string, labels: seq<(string, string)>, value: string)
    | PlainAt(name: string, value: string, stamp: string)
    | LabelledAt(name: string, labels: seq<(string, string)>, value: string, stamp: string)

  function LineOf(e: Entry): string {
    match e
    case Blank(space) => space
    case Comment(text) => "# " + text
    case Plain(name, value) => name + " " + value
    case Labelled(name, labels, value) => LabelledLine(name, labels, value)
    case PlainAt(name, value, stamp) => name + " " + (value + " " + stamp)
    case LabelledAt(name, labels, value, stamp) => LabelledLine(name, labels, value + " " + stamp)
  }

  /** Every entry is printed on a line of its own. */
  function Page(entries: seq<Entry>): string {
    if entries == [] then "" else LineOf(entries[0]) + "\n" + Page(entries[1..])
  }

  predicate EntryOk(pv: ValueParser, e: Entry) {
    match e
    case Blank(space) => '\n' !in space && forall i :: 0 <= i < |space| ==> IsSpace(space[i])
    case Comment(text) => '\n' !in text
    case Plain(name, value) => PlainOk(pv, name, value, "")
    case Labelled(name, labels, value) => LabelledOk(pv, name, labels, value, "")
    case PlainAt(name, value, stamp) => stamp != "" && PlainOk(pv, name, value, stamp)
    case LabelledAt(name, labels, value, stamp) => stamp != "" && LabelledOk(pv, name, labels, value, stamp)
  }

  predicate PlainOk(pv: ValueParser, name: string, value: string, stamp: string) {
    ValidMetricName(name) && ValueOk(value) && '{' !in value && pv(value).Some? && NoSpace(stamp) && '{' !in stamp
  }

  predicate LabelledOk(pv: ValueParser, name: string, labels: seq<(string, string)>, value: string, stamp: string) {
    ValidMetricName(name) && ValueOk(value) && KeysOk(labels) && pv(value).Some? && NoSpace(stamp)
  }

  /** What the parser has to make of an entry; a timestamp means nothing. */
  function Meaning(pv: ValueParser, e: Entry): PromText.Line
    requires EntryOk(pv, e)
  {
    match e
    case Blank(_) => Ignored
    case Comment(_) => Ignored
    case Plain(name, value) => Series(Sample(name, map[], pv(value).value))
    case Labelled(name, labels, value) =>
      Series(Sample(name, WithLabels(map[], labels), pv(value).value))
    case PlainAt(name, value, _) => Series(Sample(name, map[], pv(value).value))
    case LabelledAt(name, labels, value, _) =>
      Series(Sample(name, WithLabels(map[], labels), pv(value).value))
  }

  /** What follows the name and the labels: the value, and a timestamp if there is one. */
  function Tail(value: string, stamp: string): string {
    if stamp == "" then value else value + " " + stamp
  }

  predicate TailOk(tail: string) {
    tail != "" && !IsSpace(tail[|tail| - 1]) && '\n' !in tail
  }

  lemma TailsAreOk(value: string, stamp: string)
    requires ValueOk(value) && NoSpace(stamp)
    ensures TailOk(Tail(value, stamp))
    ensures FirstField(Tail(value, stamp)) == value && FirstField(" " + Tail(value, stamp)) == value
    ensures '{' !in value && '{' !in stamp ==> '{' !in Tail(value, stamp)
  {
    TailStarts(value, stamp);
    TailEnds(value, stamp);
  }

  lemma TailStarts(value: string, stamp: string)
    requires ValueOk(value)
    ensures FirstField(Tail(value, stamp)) == value && FirstField(" " + Tail(value, stamp)) == value
  {
    var more := if stamp == "" then "" else " " + stamp;
    assert Tail(value, stamp) == value + more;
    FirstFieldIs(value, more);
  }

  lemma TailEnds(value: string, stamp: string)
    requires ValueOk(value) && NoSpace(stamp)
    ensures TailOk(Tail(value, stamp))
    ensures '{' !in value && '{' !in stamp ==> '{' !in Tail(value, stamp)
  {
    var tail := Tail(value, stamp);
    assert tail[|tail| - 1] == if stamp == "" then value[|value| - 1] else stamp[|stamp| - 1];
    assert !IsSpace('x') && IsSpace('\n');
  }

  lemma {:induction false} EscHasNoNewline(s: string)
    ensures '\n' !in Esc(s)
  {
    if s != "" {
      EscHasNoNewline(s[1..]);
    }
  }

  lemma {:induction false} LabelTextHasNoNewline(labels: seq<(string, string)>)
    requires KeysOk(labels)
    ensures '\n' !in LabelText(labels)
  {
    if labels != [] {
      assert KeyOk(labels[0].0);
      EscHasNoNewline(labels[0].1);
      LabelTextHasNoNewline(labels[1..]);
    }
  }

  lemma NoNewlineConcat(a: string, b: string, c: string)
    requires '\n' !in a && '\n' !in b && '\n' !in c
    ensures '\n' !in a + b + c
  {
  }

  lemma NamesHaveNoNewline(name: string)
    requires ValidMetricName(name)
    ensures '\n' !in name
  {
  }

  lemma LineHasNoNewline(pv: ValueParser, e: Entry)
    requires EntryOk(pv, e)
    ensures '\n' !in LineOf(e)
  {
    match e
    case Blank(_) =>
    case Comment(_) =>
    case Plain(name, value) => PlainHasNoNewline(name, value, "");
    case Labelled(name, labels, value) => LabelledHasNoNewline(name, labels, value, "");
    case PlainAt(name, value, stamp) => PlainHasNoNewline(name, value, stamp);
    case LabelledAt(name, labels, value, stamp) => LabelledHasNoNewline(name, labels, value, stamp);
  }

  lemma PlainHasNoNewline(name: string, value: string, stamp: string)
    requires ValidMetricName(name) && ValueOk(value) && NoSpace(stamp)
    ensures '\n' !in name + " " + Tail(value, stamp)
  {
    TailsAreOk(value, stamp);
    NamesHaveNoNewline(name);
    NoNewlineConcat(name, " ", Tail(value, stamp));
  }

  lemma LabelledHasNoNewline(name: string, labels: seq<(string, string)>, value: string, stamp: string)
    requires ValidMetricName(name) && ValueOk(value) && NoSpace(stamp) && KeysOk(labels)
    ensures '\n' !in LabelledLine(name, labels, Tail(value, stamp))
  {
    TailsAreOk(value, stamp);
    NamesHaveNoNewline(name);
    LabelTextHasNoNewline(labels);
    NoNewlineConcat("{", LabelText(labels), "} ");
    LabelledLineShape(name, labels, Tail(value, stamp));
    NoNewlineConcat(name, "{" + LabelText(labels) + "} ", Tail(value, stamp));
  }

  lemma LabelledLineShape(name: string, labels: seq<(string, string)>, value: string)
    ensures LabelledLine(name, labels, value) == name + ("{" + LabelText(labels) + "} ") + value
  {
  }

  /** Neither end of a series line can be trimmed away, and it is not a comment. */
  lemma SeriesLineIsTrimmed(name: string, middle: string, tail: string)
    requires ValidMetricName(name) && TailOk(tail)
    ensures TrimSpace(name + middle + tail) == name + middle + tail
    ensures DropCR(name + middle + tail) == name + middle + tail
    ensures (name + middle + tail)[0] != '#'
  {
    NameStarts(name[0]);
    SpaceEnds(tail[|tail| - 1]);
    EndsAre(name, middle, tail);
    TrimmedStays(name + middle + tail);
  }

  lemma NameStarts(c: char)
    requires NameChar(c, true)
    ensures !IsSpace(c) && c != '#'
  {
  }

  lemma SpaceEnds(c: char)
    requires !IsSpace(c)
    ensures c != '\r'
  {
  }

  lemma EndsAre(a: string, b: string, c: string)
    requires a != "" && c != ""
    ensures
      var s := a + b + c;
      s != "" && s[0] == a[0] && s[|s| - 1] == c[|c| - 1]
  {
  }

  /** A plain series, with or without a timestamp, parses back to its name and value. */
  lemma PlainIsRead(pv: ValueParser, name: string, value: string, stamp: string)
    requires PlainOk(pv, name, value, stamp)
    ensures Classify(pv, DropCR(name + " " + Tail(value, stamp))) == Series(Sample(name, map[], pv(value).value))
  {
    TailsAreOk(value, stamp);
    PlainLineSplits(name, Tail(value, stamp));
    SeriesIsClassified(pv, name, " ", Tail(value, stamp), name + " " + Tail(value, stamp));
  }

  lemma LabelledSample(pv: ValueParser, name: string, labels: seq<(string, string)>, value: string, stamp: string)
    requires LabelledOk(pv, name, labels, value, stamp)
    ensures ParseSample(pv, LabelledLine(name, labels, Tail(value, stamp))) ==
            Some(Sample(name, WithLabels(map[], labels), pv(value).value))
  {
    TailsAreOk(value, stamp);
    LabelledLineSplits(name, labels, Tail(value, stamp));
  }

  /** A series line is classified by what ParseSample makes of it. */
  lemma SeriesIsClassified(pv: ValueParser, name: string, middle: string, tail: string, line: string)
    requires ValidMetricName(name) && TailOk(tail)
    requires line == name + middle + tail && ParseSample(pv, line).Some?
    ensures Classify(pv, DropCR(line)) == Series(ParseSample(pv, line).value)
  {
    SeriesLineIsTrimmed(name, middle, tail);
  }

  /**
    One printed series, with or without a timestamp, parses back to the same name, label
    map and value.
    */
  lemma LabelledIsRead(pv: ValueParser, name: string, labels: seq<(string, string)>, value: string, stamp: string)
    requires LabelledOk(pv, name, labels, value, stamp)
    ensures Classify(pv, DropCR(LabelledLine(name, labels, Tail(value, stamp)))) ==
            Series(Sample(name, WithLabels(map[], labels), pv(value).value))
  {
    var tail := Tail(value, stamp);
    TailsAreOk(value, stamp);
    LabelledSample(pv, name, labels, value, stamp);
    LabelledLineShape(name, labels, tail);
    SeriesIsClassified(pv, name, "{" + LabelText(labels) + "} ", tail, LabelledLine(name, labels, tail));
  }

  lemma BlankIsIgnored(pv: ValueParser, space: string)
    requires forall i :: 0 <= i < |space| ==> IsSpace(space[i])
    ensures Classify(pv, DropCR(space)) == Ignored
  {
    var line := DropCR(space);
    assert SpaceEnd(line, 0) == |line|;
    assert TrimLeft(line) == "";
  }

  lemma CommentIsIgnored(pv: ValueParser, text: string)
    ensures Classify(pv, DropCR("# " + text)) == Ignored
  {
  }

  lemma EntryIsRead(pv: ValueParser, e: Entry)
    requires EntryOk(pv, e)
    ensures Classify(pv, DropCR(LineOf(e))) == Meaning(pv, e)
  {
    match e
    case Blank(space) => BlankIsIgnored(pv, space);
    case Comment(text) => CommentIsIgnored(pv, text);
    case Plain(name, value) => PlainIsRead(pv, name, value, "");
    case Labelled(name, labels, value) => LabelledIsRead(pv, name, labels, value, "");
    case PlainAt(name, value, stamp) => PlainIsRead(pv, name, value, stamp);
    case LabelledAt(name, labels, value, stamp) => LabelledIsRead(pv, name, labels, value, stamp);
  }

  /** The samples of one name that a page's entries mean, in order. */
  function Meant(pv: ValueParser, entries: seq<Entry>, name: string): seq<Sample>
    requires forall i :: 0 <= i < |entries| ==> EntryOk(pv, entries[i])
  {
    if entries == [] then []
    else Contribution(Meaning(pv, entries[0]), name) + Meant(pv, entries[1..], name)
  }

  /** Printing then parsing a whole page is the identity, and no line is skipped. */
  lemma {:induction false} PageIsRead(pv: ValueParser, entries: seq<Entry>, name: string)
    requires forall i :: 0 <= i < |entries| ==> EntryOk(pv, entries[i])
    ensures SamplesIn(pv, Lines(Page(entries)), name) == Meant(pv, entries, name)
    ensures MalformedIn(pv, Lines(Page(entries))) == 0
    decreases |entries|
  {
    if entries != [] {
      var line := DropCR(LineOf(entries[0]));
      EntryIsRead(pv, entries[0]);
      LineHasNoNewline(pv, entries[0]);
      LinesOfOne(LineOf(entries[0]), Page(entries[1..]));
      PageIsRead(pv, entries[1..], name);
      SamplesInConcat(pv, [line], Lines(Page(entries[1..])), name);
      OneLineSamples(pv, line, name);
    }
  }

  lemma OneLineSamples(pv: ValueParser, line: string, name: string)
    ensures SamplesIn(pv, [line], name) == Contribution(Classify(pv, line), name)
    ensures MalformedIn(pv, [line]) == if Classify(pv, line) == Malformed then 1 else 0
  {
  }

  // ---------------------------------------------------------------------------
  // What is rejected
  // ---------------------------------------------------------------------------

  lemma NotASample(pv: ValueParser, line: string, name: string, rest: string, labels: Labels)
    requires SplitNameAndLabels(line) == Some((name, rest, labels))
    requires FirstField(rest) == "" || pv(FirstField(rest)).None?
    ensures ParseSample(pv, line) == None
  {
  }

  lemma IsMalformed(pv: ValueParser, line: string)
    requires TrimSpace(line) == line && line != "" && line[0] != '#' && ParseSample(pv, line) == None
    ensures Classify(pv, line) == Malformed
  {
  }

  /** A value that is no number makes the line malformed, with or without labels and timestamp. */
  lemma UnreadableValueIsRejected(pv: ValueParser, name: string, labels: seq<(string, string)>, value: string,
                                  stamp: string)
    requires ValidMetricName(name) && ValueOk(value) && NoSpace(stamp) && KeysOk(labels) && pv(value).None?
    ensures Classify(pv, LabelledLine(name, labels, Tail(value, stamp))) == Malformed
    ensures '{' !in value && '{' !in stamp ==> Classify(pv, name + " " + Tail(value, stamp)) == Malformed
  {
    UnreadableLabelledValue(pv, name, labels, value, stamp);
    if '{' !in value && '{' !in stamp {
      UnreadablePlainValue(pv, name, value, stamp);
    }
  }

  lemma UnreadableLabelledValue(pv: ValueParser, name: string, labels: seq<(string, string)>, value: string,
                                stamp: string)
    requires ValidMetricName(name) && ValueOk(value) && NoSpace(stamp) && KeysOk(labels) && pv(value).None?
    ensures Classify(pv, LabelledLine(name, labels, Tail(value, stamp))) == Malformed
  {
    var tail := Tail(value, stamp);
    TailsAreOk(value, stamp);
    LabelledLineSplits(name, labels, tail);
    LabelledLineShape(name, labels, tail);
    SeriesLineIsTrimmed(name, "{" + LabelText(labels) + "} ", tail);
    NotASample(pv, LabelledLine(name, labels, tail), name, " " + tail, WithLabels(map[], labels));
    IsMalformed(pv, LabelledLine(name, labels, tail));
  }

  lemma UnreadablePlainValue(pv: ValueParser, name: string, value: string, stamp: string)
    requires ValidMetricName(name) && ValueOk(value) && NoSpace(stamp) && pv(value).None?
    requires '{' !in value && '{' !in stamp
    ensures Classify(pv, name + " " + Tail(value, stamp)) == Malformed
  {
    var tail := Tail(value, stamp);
    TailsAreOk(value, stamp);
    PlainLineSplits(name, tail);
    SeriesLineIsTrimmed(name, " ", tail);
    NotASample(pv, name + " " + tail, name, tail, map[]);
    IsMalformed(pv, name + " " + tail);
  }

  lemma BraceLine(name: string, block: string)
    requires ValidMetricName(name)
    ensures
      var line := name + "{" + block;
      && SpanNot(line, {'{'}) == |name| < |line|
      && TrimSpace(line[..|name|]) == name && line[|name| + 1..] == block
  {
    var line := name + "{" + block;
    NamesHaveNoSpecials(name);
    assert line == name + ("{" + block);
    SpanNotIs(name, "{" + block, {'{'});
    assert line[..|name|] == name && line[|name| + 1..] == block;
  }

  lemma NoBlockNoSample(pv: ValueParser, line: string, open: nat)
    requires SpanNot(line, {'{'}) == open < |line| && LabelBlock(line[open + 1..], map[]) == None
    ensures ParseSample(pv, line) == None
  {
    assert SplitAtBrace(line, open) == None;
  }

  /** A label block that is never closed makes the line malformed. */
  lemma UnclosedBlockIsRejected(pv: ValueParser, name: string, text: string)
    requires ValidMetricName(name) && '}' !in text && TailOk(text)
    ensures Classify(pv, name + "{" + text) == Malformed
  {
    BraceLine(name, text);
    NoBraceNoBlock(text, map[]);
    NoBlockNoSample(pv, name + "{" + text, |name|);
    SeriesLineIsTrimmed(name, "{", text);
    IsMalformed(pv, name + "{" + text);
  }

  lemma {:induction false} NoBraceNoBlock(s: string, labels: Labels)
    requires '}' !in s
    ensures LabelBlock(s, labels) == None
    decreases |s|
  {
    var t := SkipSeparators(s);
    assert forall c :: c in t ==> c in s;
    match OneLabel(t)
    case None =>
    case Some((key, value, rest)) =>
      assert forall c :: c in rest ==> c in t;
      NoBraceNoBlock(rest, labels[key := value]);
  }

  /** Whatever stands before the first brace or space has to be a metric name. */
  lemma BadNameIsRejected(pv: ValueParser, bad: string, rest: string)
    requires bad != "" && NoSpace(bad) && '{' !in bad && bad[0] != '#' && !ValidMetricName(bad) && TailOk(rest)
    ensures Classify(pv, bad + "{" + rest) == Malformed
    ensures '{' !in rest ==> Classify(pv, bad + " " + rest) == Malformed
  {
    BadNameBeforeBrace(pv, bad, rest);
    if '{' !in rest {
      BadNameBeforeSpace(pv, bad, rest);
    }
  }

  lemma LineStays(a: string, b: string, c: string)
    requires a != "" && NoSpace(a) && TailOk(c)
    ensures TrimSpace(a + b + c) == a + b + c && TrimSpace(a) == a
  {
    EndsAre(a, b, c);
    TrimmedStays(a + b + c);
    TrimmedStays(a);
  }

  lemma BadNameBeforeBrace(pv: ValueParser, bad: string, rest: string)
    requires bad != "" && NoSpace(bad) && '{' !in bad && bad[0] != '#' && !ValidMetricName(bad) && TailOk(rest)
    ensures Classify(pv, bad + "{" + rest) == Malformed
  {
    var line := bad + "{" + rest;
    LineStays(bad, "{", rest);
    assert line == bad + ("{" + rest) && line[0] == bad[0];
    SpanNotIs(bad, "{" + rest, {'{'});
    assert line[..|bad|] == bad;
  }

  lemma BadNameBeforeSpace(pv: ValueParser, bad: string, rest: string)
    requires bad != "" && NoSpace(bad) && '{' !in bad && bad[0] != '#' && !ValidMetricName(bad) && TailOk(rest)
    requires '{' !in rest
    ensures Classify(pv, bad + " " + rest) == Malformed
  {
    var line := bad + " " + rest;
    LineStays(bad, " ", rest);
    assert line == bad + (" " + rest) && line[0] == bad[0];
    SpanNotIs(line, "", {'{'});
    assert line + "" == line;
    SpanNotIs(bad, " " + rest, {' ', '\t'});
    assert line[..|bad|] == bad;
  }

  /** A name without a value makes the line malformed. */
  lemma MissingValueIsRejected(pv: ValueParser, name: string, labels: seq<(string, string)>)
    requires ValidMetricName(name) && KeysOk(labels)
    ensures Classify(pv, name) == Malformed
    ensures Classify(pv, name + "{" + (LabelText(labels) + "}")) == Malformed
  {
    LoneNameIsRejected(pv, name);
    WholeBlockIsRead(labels);
    LoneBlockIsRejected(pv, name, LabelText(labels) + "}", WithLabels(map[], labels));
  }

  lemma WholeBlockIsRead(labels: seq<(string, string)>)
    requires KeysOk(labels)
    ensures LabelBlock(LabelText(labels) + "}", map[]) == Some((WithLabels(map[], labels), ""))
    ensures var block := LabelText(labels) + "}"; block != "" && !IsSpace(block[|block| - 1])
  {
    LabelTextIsRead(labels, map[], "");
    ConcatNothing(LabelText(labels) + "}");
    EndsWithBrace(LabelText(labels));
  }

  lemma EndsWithBrace(text: string)
    ensures var block := text + "}"; block != "" && !IsSpace(block[|block| - 1])
  {
    assert (text + "}")[|text|] == '}';
  }

  lemma LoneNameIsRejected(pv: ValueParser, name: string)
    requires ValidMetricName(name)
    ensures Classify(pv, name) == Malformed
  {
    NamesHaveNoSpecials(name);
    NameStarts(name[0]);
    assert name + "" == name;
    SpanNotIs(name, "", {'{'});
    SpanNotIs(name, "", {' ', '\t'});
  }

  lemma LoneBlockIsRejected(pv: ValueParser, name: string, block: string, labels: Labels)
    requires ValidMetricName(name) && LabelBlock(block, map[]) == Some((labels, ""))
    requires block != "" && !IsSpace(block[|block| - 1])
    ensures Classify(pv, name + "{" + block) == Malformed
  {
    var line := name + "{" + block;
    BraceLine(name, block);
    NoValueNoSample(pv, line, |name|, name, labels);
    BraceLineIsTrimmed(name, block);
    IsMalformed(pv, line);
  }

  lemma NoValueNoSample(pv: ValueParser, line: string, open: nat, name: string, labels: Labels)
    requires ValidMetricName(name) && LineParts(line, open, name, labels, "")
    ensures ParseSample(pv, line) == None
  {
    SplitAt(line, open, name, labels, "");
    NotASample(pv, line, name, "", labels);
  }

  lemma BraceLineIsTrimmed(name: string, block: string)
    requires ValidMetricName(name) && block != "" && !IsSpace(block[|block| - 1])
    ensures
      var line := name + "{" + block;
      TrimSpace(line) == line && line != "" && line[0] != '#'
  {
    EndsAre(name, "{", block);
    NameStarts(name[0]);
    TrimmedStays(name + "{" + block);
  }

  /** A label needs a key, an equals sign and an opening quote right after it. */
  lemma BadLabelIsRejected(key: string, rest: string, labels: Labels)
    requires '=' !in key && '}' !in key
    ensures TrimSpace(key) == "" ==> OneLabel(key + "=\"" + rest) == None
    ensures rest == "" || rest[0] != '"' ==> OneLabel(key + "=" + rest) == None
    ensures OneLabel(key + "}" + rest) == None && OneLabel(key) == None
  {
    assert forall i :: 0 <= i < |key| ==> key[i] in key;
    forall c: char | c == '=' || c == '}'
      ensures SpanNot(key + ([c] + rest), {'=', '}'}) == |key|
    {
      SpanNotIs(key, [c] + rest, {'=', '}'});
    }
    SpanNotIs(key, "=\"" + rest, {'=', '}'});
    SpanNotIs(key, "", {'=', '}'});
    assert key + "=\"" + rest == key + ("=\"" + rest) && key + "" == key;
    assert key + "=" + rest == key + (['='] + rest) && key + "}" + rest == key + (['}'] + rest);
    assert (key + ("=\"" + rest))[..|key|] == key;
  }

  /** Space around a label name is not part of it. */
  lemma PaddedKeyIsTrimmed(key: string, v: string, rest: string)
    requires '=' !in key && '}' !in key && TrimSpace(key) != ""
    ensures OneLabel(key + "=\"" + Esc(v) + "\"" + rest) == Some((TrimSpace(key), v, rest))
  {
    assert forall i :: 0 <= i < |key| ==> key[i] in key;
    PairShape(key, Esc(v), rest);
    SpanNotIs(key, "=\"" + (Esc(v) + "\"" + rest), {'=', '}'});
    EscIsUndone(v, rest);
    OneLabelOf(key + "=\"" + Esc(v) + "\"" + rest, key, Some((v, rest)));
  }

  // ---------------------------------------------------------------------------
  // The notation itself
  // ---------------------------------------------------------------------------

  /** Escaping is done character by character: the three special ones are spelled with a backslash. */
  lemma {:induction false} EscIsByCharacter(a: string, b: string)
    ensures Esc(a + b) == Esc(a) + Esc(b)
    decreases |a|
  {
    if a == "" {
      assert "" + b == b;
    } else {
      EscIsByCharacter(a[1..], b);
      assert (a + b)[1..] == a[1..] + b;
      Associate(EscChar(a[0]), Esc(a[1..]), Esc(b));
    }
  }

  lemma SpecialCharactersAreEscaped(c: char)
    ensures Esc("\\") == "\\\\" && Esc("\"") == "\\\"" && Esc("\n") == "\\n"
    ensures c !in {'\\', '"', '\n'} ==> Esc([c]) == [c]
  {
    EscOne('\\');
    EscOne('"');
    EscOne('\n');
    EscOne(c);
  }

  lemma EscOne(c: char)
    ensures Esc([c]) == EscChar(c)
  {
    assert [c][1..] == "";
    ConcatNothing(EscChar(c));
  }

  /** A backslash before any other character stands for that character. */
  lemma OtherEscapesAreKept(c: char, s: string)
    requires c != 'n'
    ensures QuotedValue(['\\', c] + s) == Prepend(c, QuotedValue(s))
    ensures QuotedValue("\\n" + s) == Prepend('\n', QuotedValue(s))
  {
    assert (['\\', c] + s)[2..] == s && ("\\n" + s)[2..] == s;
  }

  /** The ends of each range of characters names are made of, and what stands next to them. */
  lemma NameExamples()
    ensures ValidMetricName("azAZ_:09") && ValidMetricName(":9") && !ValidMetricName("")
    ensures forall c :: c in {'0', '9'} ==> !ValidMetricName([c]) && ValidMetricName("a" + [c])
    ensures forall c :: c in {'`', '{', '@', '[', '/', ';', '-', '.', '^'} ==> !ValidMetricName("a" + [c])
  {
    forall c | c in {'`', '{', '@', '[', '/', ';', '-', '.', '^'}
      ensures !ValidMetricName("a" + [c])
    {
      assert ("a" + [c])[1] == c && !NameChar(c, false);
    }
    forall c | c in {'0', '9'}
      ensures !ValidMetricName([c])
    {
      assert !NameChar([c][0], true);
    }
  }

  /** A label that is missing is wanted when the empty string is. */
  lemma MissingLabelIsEmpty(labels: Labels, k: string, v: string)
    ensures Matches(labels, map[k := v]) <==> (k in labels && labels[k] == v) || (k !in labels && v == "")
  {
    assert k in map[k := v];
  }
}
