/** The exposition parser of internal/promtext/parse.go, up to and including Parse. */
module PromText {
  import opened Telemetry
  import opened Text
  import opened Seqs

  /** A float64 without rounding. */
  datatype Float = Finite(r: real) | PosInf | NegInf | NaN

  type Labels = map<string, string>

  datatype Sample = Sample(name: string, labels: Labels, value: Float)

  /** strconv.ParseFloat, which is not part of this model. */
  type ParseFloat = string -> Option<Float>

  function ParseValue(pf: ParseFloat, s: string): Option<Float> {
    if s in {"+Inf", "Inf", "inf", "+inf"} then Some(PosInf)
    else if s in {"-Inf", "-inf"} then Some(NegInf)
    else if s in {"NaN", "nan", "NAN"} then Some(NaN)
    else pf(s)
  }

  /** What turns a value field into a number: ParseValue over some ParseFloat. */
  type ValueParser = string -> Option<Float>

  function ValueParserOf(pf: ParseFloat): ValueParser {
    s => ParseValue(pf, s)
  }

  /** The infinities and not-a-number are spelled in these ways, whatever ParseFloat makes of them. */
  lemma SpecialValuesAreRead(pf: ParseFloat)
    ensures forall s :: s == "+Inf" || s == "+inf" || s == "Inf" || s == "inf" ==> ValueParserOf(pf)(s) == Some(PosInf)
    ensures forall s :: s == "-Inf" || s == "-inf" ==> ValueParserOf(pf)(s) == Some(NegInf)
    ensures forall s :: s == "NaN" || s == "nan" || s == "NAN" ==> ValueParserOf(pf)(s) == Some(NaN)
  {
    assert "NaN"[0] != "Inf"[0] && "NaN"[0] != "inf"[0] && "nan"[0] != "inf"[0] && "nan"[0] != "Inf"[0];
    assert "NAN"[0] != "Inf"[0] && "NAN"[0] != "inf"[0] && "-Inf"[0] != "+Inf"[0] && "-inf"[0] != "+inf"[0];
    assert |"-Inf"| == 4 && |"-inf"| == 4 && |"Inf"| == 3 && |"NaN"| == 3;
  }

  /** A label that is missing counts as the empty string. */
  predicate Matches(labels: Labels, want: Labels) {
    forall k :: k in want ==> (if k in labels then labels[k] else "") == want[k]
  }

  predicate NameChar(c: char, first: bool) {
    'a' <= c <= 'z' || 'A' <= c <= 'Z' || c == '_' || c == ':' || ('0' <= c <= '9' && !first)
  }

  predicate ValidMetricName(s: string) {
    s != "" && forall i :: 0 <= i < |s| ==> NameChar(s[i], i == 0)
  }

  // ---------------------------------------------------------------------------
  // The label block
  // ---------------------------------------------------------------------------

  predicate IsSeparator(c: char) {
    c == ',' || c == ' ' || c == '\t'
  }

  /** Where the separators that begin at i end. */
  function SeparatorEnd(s: string, i: nat): (n: nat)
    requires i <= |s|
    ensures i <= n <= |s|
    ensures forall k :: i <= k < n ==> IsSeparator(s[k])
    ensures n < |s| ==> !IsSeparator(s[n])
    decreases |s| - i
  {
    if i < |s| && IsSeparator(s[i]) then SeparatorEnd(s, i + 1) else i
  }

  function SkipSeparators(s: string): (r: string)
    ensures |r| <= |s| && r == s[|s| - |r|..]
    ensures r != "" ==> !IsSeparator(r[0])
  {
    s[SeparatorEnd(s, 0)..]
  }

  function Unescape(c: char): char {
    if c == 'n' then '\n' else c
  }

  /** The value up to its closing quote, unescaped, and the text after the quote. */
  function QuotedValue(s: string): (r: Option<(string, string)>)
    ensures r.Some? ==> |r.value.1| < |s| && r.value.1 == s[|s| - |r.value.1|..]
    decreases |s|
  {
    if s == "" then None
    else if s[0] == '\\' && |s| > 1 then Prepend(Unescape(s[1]), QuotedValue(s[2..]))
    else if s[0] == '"' then Some(("", s[1..]))
    else Prepend(s[0], QuotedValue(s[1..]))
  }

  function Prepend(c: char, r: Option<(string, string)>): Option<(string, string)> {
    match r
    case None => None
    case Some((v, rest)) => Some(([c] + v, rest))
  }

  /** One `key="value"`: None when malformed, else the key, the value and the text after it. */
  function OneLabel(t: string): (r: Option<(string, string, string)>)
    ensures r.Some? ==> |r.value.2| < |t| && r.value.2 == t[|t| - |r.value.2|..]
  {
    var n := SpanNot(t, {'=', '}'});
    if n == |t| || t[n] != '=' || n + 1 == |t| || t[n + 1] != '"' then None
    else Labelled(TrimSpace(t[..n]), QuotedValue(t[n + 2..]))
  }

  function Labelled(key: string, value: Option<(string, string)>): Option<(string, string, string)> {
    match value
    case None => None
    case Some((v, rest)) => if key == "" then None else Some((key, v, rest))
  }

  /** What follows the opening brace: the labels, and the text after the closing brace. */
  function LabelBlock(s: string, labels: Labels): (r: Option<(Labels, string)>)
    ensures r.Some? ==> |r.value.1| < |s|
    decreases |s|
  {
    var t := SkipSeparators(s);
    if t != "" && t[0] == '}' then Some((labels, t[1..]))
    else
      match OneLabel(t)
      case None => None
      case Some((key, value, rest)) => LabelBlock(rest, labels[key := value])
  }

  /**
    The scanner over indices. It stays in bounds on every input, stops on every input,
    and a success ends just past the closing brace the label block has.
    */
  method ParseLabels(s: string) returns (r: Option<(Labels, nat)>)
    requires s != "" && s[0] == '{'
    ensures r.Some? <==> LabelBlock(s[1..], map[]).Some?
    ensures r.Some? ==>
      var (labels, end) := r.value;
      && 2 <= end <= |s| && s[end - 1] == '}'
      && LabelBlock(s[1..], map[]) == Some((labels, s[end..]))
  {
    var labels: Labels := map[];
    var i := 1;
    ghost var whole := LabelBlock(s[1..], map[]);
    while i < |s|
      invariant 1 <= i <= |s|
      invariant LabelBlock(s[i..], labels) == whole
      decreases |s| - i
    {
      var closed, ok, end;
      closed, ok, labels, end := ParseRound(s, i, labels);
      if closed {
        return Some((labels, end));
      }
      if !ok {
        return None;
      }
      i := end;
    }
    BlockIsUnclosed(s, i, labels);
    return None;
  }

  /** One round: the closing brace, or one more label, or a malformed one. */
  method ParseRound(s: string, start: nat, labels: Labels)
    returns (closed: bool, ok: bool, more: Labels, end: nat)
    requires start < |s|
    ensures closed || ok ==> start < end <= |s|
    ensures closed ==> s[end - 1] == '}' && LabelBlock(s[start..], labels) == Some((more, s[end..]))
    ensures !closed && ok ==> LabelBlock(s[start..], labels) == LabelBlock(s[end..], more)
    ensures !closed && !ok ==> LabelBlock(s[start..], labels) == None
  {
    var i := SkipSeparatorsFrom(s, start);
    closed, ok, more, end := false, false, labels, i;
    if i < |s| && s[i] == '}' {
      BlockCloses(s, start, i, labels);
      closed, end := true, i + 1;
    } else {
      var key, val;
      ok, key, val, end := ParseLabel(s, i);
      if ok {
        BlockGoesOn(s, start, i, labels, key, val, end);
        more := labels[key := val];
      } else {
        BlockIsMalformed(s, start, i, labels);
      }
    }
  }

  lemma BlockCloses(s: string, start: nat, i: nat, labels: Labels)
    requires start <= i < |s| && s[i..] == SkipSeparators(s[start..]) && s[i] == '}'
    ensures LabelBlock(s[start..], labels) == Some((labels, s[i + 1..]))
  {
    BlockAt(s, start, i, labels);
  }

  lemma BlockIsMalformed(s: string, start: nat, i: nat, labels: Labels)
    requires start <= i <= |s| && s[i..] == SkipSeparators(s[start..])
    requires !(i < |s| && s[i] == '}') && OneLabel(s[i..]) == None
    ensures LabelBlock(s[start..], labels) == None
  {
    BlockAt(s, start, i, labels);
  }

  lemma BlockGoesOn(s: string, start: nat, i: nat, labels: Labels, key: string, val: string, end: nat)
    requires start <= i <= |s| && s[i..] == SkipSeparators(s[start..])
    requires !(i < |s| && s[i] == '}') && end <= |s| && OneLabel(s[i..]) == Some((key, val, s[end..]))
    ensures LabelBlock(s[start..], labels) == LabelBlock(s[end..], labels[key := val])
  {
    BlockAt(s, start, i, labels);
  }

  lemma BlockIsUnclosed(s: string, i: nat, labels: Labels)
    requires i == |s|
    ensures LabelBlock(s[i..], labels) == None
  {
    assert s[i..] == "";
  }

  /** One round of the label scanner, by index. */
  lemma BlockAt(s: string, start: nat, i: nat, labels: Labels)
    requires start <= i <= |s| && s[i..] == SkipSeparators(s[start..])
    ensures LabelBlock(s[start..], labels) ==
            if i < |s| && s[i] == '}' then Some((labels, s[i + 1..]))
            else
              match OneLabel(s[i..])
              case None => None
              case Some((key, value, rest)) => LabelBlock(rest, labels[key := value])
  {
  }

  method SkipSeparatorsFrom(s: string, start: nat) returns (i: nat)
    requires start <= |s|
    ensures start <= i <= |s| && s[i..] == SkipSeparators(s[start..])
  {
    i := start;
    while i < |s| && (s[i] == ',' || s[i] == ' ' || s[i] == '\t')
      invariant start <= i <= |s|
      invariant forall k :: start <= k < i ==> IsSeparator(s[k])
    {
      i := i + 1;
    }
    SeparatorsEndAt(s, start, i);
  }

  lemma SeparatorsEndAt(s: string, start: nat, i: nat)
    requires start <= i <= |s| && forall k :: start <= k < i ==> IsSeparator(s[k])
    requires i < |s| ==> !IsSeparator(s[i])
    ensures SkipSeparators(s[start..]) == s[i..]
  {
    assert forall k :: start <= k < i ==> s[start..][k - start] == s[k];
    assert i < |s| ==> s[start..][i - start] == s[i];
    DropDrop(s, start, i - start);
  }

  method ParseLabel(s: string, start: nat) returns (ok: bool, key: string, val: string, end: nat)
    requires start <= |s|
    ensures ok <==> OneLabel(s[start..]).Some?
    ensures ok ==> start < end <= |s| && OneLabel(s[start..]) == Some((key, val, s[end..]))
  {
    ok, key, val, end := false, "", "", start;
    var i := KeyEnd(s, start);
    OneLabelAt(s, start, i);
    if i < |s| && s[i] == '=' && i + 1 < |s| && s[i + 1] == '"' {
      var closed;
      val, closed, end := ScanValue(s, i + 2);
      key := TrimSpace(s[start..i]);
      ok := closed && key != "";
    }
  }

  lemma OneLabelAt(s: string, start: nat, i: nat)
    requires start <= i <= |s| && i - start == SpanNot(s[start..], {'=', '}'})
    ensures OneLabel(s[start..]) ==
            if i + 1 < |s| && s[i] == '=' && s[i + 1] == '"' then
              Labelled(TrimSpace(s[start..i]), QuotedValue(s[i + 2..]))
            else None
  {
    var t, n := s[start..], i - start;
    assert t[..n] == s[start..i];
    assert i + 2 <= |s| ==> t[n + 2..] == s[i + 2..];
  }

  method KeyEnd(s: string, start: nat) returns (i: nat)
    requires start <= |s|
    ensures start <= i <= |s| && i - start == SpanNot(s[start..], {'=', '}'})
  {
    i := start;
    while i < |s| && s[i] != '=' && s[i] != '}'
      invariant start <= i <= |s|
      invariant forall k :: start <= k < i ==> s[k] != '=' && s[k] != '}'
    {
      i := i + 1;
    }
    KeyEndsAt(s, start, i);
  }

  lemma KeyEndsAt(s: string, start: nat, i: nat)
    requires start <= i <= |s| && forall k :: start <= k < i ==> s[k] != '=' && s[k] != '}'
    requires i < |s| ==> s[i] == '=' || s[i] == '}'
    ensures SpanNot(s[start..], {'=', '}'}) == i - start
  {
    assert forall k :: start <= k < i ==> s[start..][k - start] == s[k];
    assert i < |s| ==> s[start..][i - start] == s[i];
  }

  /** Reads a label value from just inside its opening quote. */
  method ScanValue(s: string, start: nat) returns (val: string, closed: bool, i: nat)
    requires start <= |s|
    ensures start <= i <= |s|
    ensures closed <==> QuotedValue(s[start..]).Some?
    ensures closed ==> i > start && QuotedValue(s[start..]) == Some((val, s[i..]))
  {
    i, val, closed := start, "", false;
    ghost var whole := QuotedValue(s[start..]);
    PrependAllNone(whole);
    while i < |s|
      invariant start <= i <= |s|
      invariant whole == PrependAll(val, QuotedValue(s[i..]))
    {
      var c := s[i];
      if c == '\\' && i + 1 < |s| {
        EscapeIsRead(s, i, val);
        val := val + [if s[i + 1] == 'n' then '\n' else s[i + 1]];
        i := i + 2;
      } else if c == '"' {
        QuoteEnds(s, i, val);
        return val, true, i + 1;
      } else {
        CharIsRead(s, i, val);
        val := val + [c];
        i := i + 1;
      }
    }
    NothingIsUnclosed(s, i);
  }

  lemma EscapeIsRead(s: string, i: nat, val: string)
    requires i + 1 < |s| && s[i] == '\\'
    ensures PrependAll(val, QuotedValue(s[i..])) == PrependAll(val + [Unescape(s[i + 1])], QuotedValue(s[i + 2..]))
  {
    QuotedValueAt(s, i);
    PrependAllOne(val, Unescape(s[i + 1]), QuotedValue(s[i + 2..]));
  }

  lemma CharIsRead(s: string, i: nat, val: string)
    requires i < |s| && s[i] != '"' && !(s[i] == '\\' && i + 1 < |s|)
    ensures PrependAll(val, QuotedValue(s[i..])) == PrependAll(val + [s[i]], QuotedValue(s[i + 1..]))
  {
    QuotedValueAt(s, i);
    PrependAllOne(val, s[i], QuotedValue(s[i + 1..]));
  }

  lemma QuoteEnds(s: string, i: nat, val: string)
    requires i < |s| && s[i] == '"'
    ensures PrependAll(val, QuotedValue(s[i..])) == Some((val, s[i + 1..]))
  {
    QuotedValueAt(s, i);
    PrependAllEnd(val, s[i + 1..]);
  }

  lemma NothingIsUnclosed(s: string, i: nat)
    requires i == |s|
    ensures QuotedValue(s[i..]) == None
  {
    assert s[i..] == "";
  }

  /** One step of the value scanner, by index. */
  lemma QuotedValueAt(s: string, i: nat)
    requires i < |s|
    ensures QuotedValue(s[i..]) ==
            if s[i] == '\\' && i + 1 < |s| then Prepend(Unescape(s[i + 1]), QuotedValue(s[i + 2..]))
            else if s[i] == '"' then Some(("", s[i + 1..]))
            else Prepend(s[i], QuotedValue(s[i + 1..]))
  {
  }

  ghost function PrependAll(v: string, r: Option<(string, string)>): Option<(string, string)> {
    match r
    case None => None
    case Some((w, rest)) => Some((v + w, rest))
  }

  lemma PrependAllEnd(v: string, rest: string)
    ensures PrependAll(v, Some(("", rest))) == Some((v, rest))
  {
    ConcatNothing(v);
  }

  lemma PrependAllNone(r: Option<(string, string)>)
    ensures PrependAll("", r) == r
  {
    if r.Some? {
      assert "" + r.value.0 == r.value.0;
    }
  }

  lemma PrependAllOne(v: string, c: char, r: Option<(string, string)>)
    ensures PrependAll(v, Prepend(c, r)) == PrependAll(v + [c], r)
  {
    if r.Some? {
      assert v + ([c] + r.value.0) == v + [c] + r.value.0;
    }
  }

  // ---------------------------------------------------------------------------
  // Lines
  // ---------------------------------------------------------------------------

  /** The metric name, what follows the labels, and the labels. */
  function SplitNameAndLabels(line: string): Option<(string, string, Labels)> {
    var open := SpanNot(line, {'{'});
    if open == |line| then SplitAtSpace(line) else SplitAtBrace(line, open)
  }

  function SplitAtSpace(line: string): Option<(string, string, Labels)> {
    var sp := SpanNot(line, {' ', '\t'});
    if sp == |line| then None
    else
      var name := TrimSpace(line[..sp]);
      if ValidMetricName(name) then Some((name, line[sp + 1..], map[])) else None
  }

  function SplitAtBrace(line: string, open: nat): Option<(string, string, Labels)>
    requires open < |line|
  {
    var name := TrimSpace(line[..open]);
    if !ValidMetricName(name) then None
    else
      match LabelBlock(line[open + 1..], map[])
      case None => None
      case Some((labels, rest)) => Some((name, rest, labels))
  }

  /** Where a line opens its braces, the name before them, and what its label block means. */
  predicate LineParts(line: string, open: nat, name: string, labels: Labels, rest: string) {
    && SpanNot(line, {'{'}) == open < |line|
    && TrimSpace(line[..open]) == name
    && LabelBlock(line[open + 1..], map[]) == Some((labels, rest))
  }

  lemma SplitAt(line: string, open: nat, name: string, labels: Labels, rest: string)
    requires ValidMetricName(name) && LineParts(line, open, name, labels, rest)
    ensures SplitNameAndLabels(line) == Some((name, rest, labels))
  {
    BraceSplits(line, open, name, labels, rest);
  }

  lemma BraceSplits(line: string, open: nat, name: string, labels: Labels, rest: string)
    requires ValidMetricName(name) && LineParts(line, open, name, labels, rest)
    ensures SplitAtBrace(line, open) == Some((name, rest, labels))
  {
  }

  function ParseSample(pv: ValueParser, line: string): Option<Sample> {
    match SplitNameAndLabels(line)
    case None => None
    case Some((name, rest, labels)) =>
      var field := FirstField(rest);
      if field == "" then None
      else
        match pv(field)
        case None => None
        case Some(v) => Some(Sample(name, labels, v))
  }

  /** What one line of a payload contributes. */
  datatype Line = Ignored | Series(sample: Sample) | Malformed

  function Classify(pv: ValueParser, raw: string): Line {
    var line := TrimSpace(raw);
    if line == "" || line[0] == '#' then Ignored
    else
      match ParseSample(pv, line)
      case None => Malformed
      case Some(s) => Series(s)
  }

  datatype Families = Families(samples: map<string, seq<Sample>>, linesSkipped: nat)

  /** Every sample of one name, in payload order. */
  function Named(samples: map<string, seq<Sample>>, name: string): seq<Sample> {
    if name in samples then samples[name] else []
  }

  function SamplesIn(pv: ValueParser, lines: seq<string>, name: string): seq<Sample> {
    if lines == [] then []
    else SamplesIn(pv, lines[..|lines| - 1], name) + Contribution(Classify(pv, lines[|lines| - 1]), name)
  }

  function Contribution(line: Line, name: string): seq<Sample> {
    if line.Series? && line.sample.name == name then [line.sample] else []
  }

  function MalformedIn(pv: ValueParser, lines: seq<string>): nat {
    if lines == [] then 0
    else
      MalformedIn(pv, lines[..|lines| - 1]) +
      if Classify(pv, lines[|lines| - 1]) == Malformed then 1 else 0
  }

  /** The families hold, name by name, the samples the lines contribute and nothing else. */
  ghost predicate Holds(mf: Families, pv: ValueParser, lines: seq<string>) {
    && mf.linesSkipped == MalformedIn(pv, lines)
    && forall name: string :: HoldsAt(mf, pv, lines, name)
  }

  ghost predicate HoldsAt(mf: Families, pv: ValueParser, lines: seq<string>, name: string) {
    && Named(mf.samples, name) == SamplesIn(pv, lines, name)
    && (name in mf.samples <==> SamplesIn(pv, lines, name) != [])
  }

  /** The families after one more line. */
  function AddLine(mf: Families, line: Line): Families {
    match line
    case Ignored => mf
    case Malformed => mf.(linesSkipped := mf.linesSkipped + 1)
    case Series(s) => mf.(samples := mf.samples[s.name := Named(mf.samples, s.name) + [s]])
  }

  method Parse(pv: ValueParser, text: string) returns (mf: Families)
    ensures Holds(mf, pv, Lines(text))
  {
    var lines := Lines(text);
    mf := Families(map[], 0);
    for i := 0 to |lines|
      invariant Holds(mf, pv, lines[..i])
    {
      HoldsNext(mf, pv, lines, i);
      mf := AddLine(mf, Classify(pv, lines[i]));
    }
    assert lines[..|lines|] == lines;
  }

  lemma AddLineAt(mf: Families, line: Line, name: string)
    ensures Named(AddLine(mf, line).samples, name) == Named(mf.samples, name) + Contribution(line, name)
    ensures name in AddLine(mf, line).samples <==> name in mf.samples || Contribution(line, name) != []
  {
  }

  lemma SamplesInNext(pv: ValueParser, lines: seq<string>, i: nat, name: string)
    requires i < |lines|
    ensures SamplesIn(pv, lines[..i + 1], name) ==
            SamplesIn(pv, lines[..i], name) + Contribution(Classify(pv, lines[i]), name)
    ensures MalformedIn(pv, lines[..i + 1]) ==
            MalformedIn(pv, lines[..i]) + if Classify(pv, lines[i]) == Malformed then 1 else 0
  {
    TakeIsSnoc(lines, i);
  }

  lemma HoldsNextAt(mf: Families, pv: ValueParser, lines: seq<string>, i: nat, line: Line, name: string)
    requires i < |lines| && line == Classify(pv, lines[i]) && HoldsAt(mf, pv, lines[..i], name)
    ensures HoldsAt(AddLine(mf, line), pv, lines[..i + 1], name)
  {
    AddLineAt(mf, line, name);
    SamplesInNext(pv, lines, i, name);
  }

  lemma HoldsNext(mf: Families, pv: ValueParser, lines: seq<string>, i: nat)
    requires i < |lines| && Holds(mf, pv, lines[..i])
    ensures Holds(AddLine(mf, Classify(pv, lines[i])), pv, lines[..i + 1])
  {
    var line := Classify(pv, lines[i]);
    var next, more := AddLine(mf, line), lines[..i + 1];
    forall name: string
      ensures HoldsAt(next, pv, more, name)
    {
      assert HoldsAt(mf, pv, lines[..i], name);
      HoldsNextAt(mf, pv, lines, i, line, name);
    }
    SamplesInNext(pv, lines, i, "");
  }

  /** Two families holding the same lines' samples are the same families. */
  lemma HoldsIsUnique(a: Families, b: Families, pv: ValueParser, lines: seq<string>)
    requires Holds(a, pv, lines) && Holds(b, pv, lines)
    ensures a == b
  {
    forall name | name in a.samples || name in b.samples
      ensures name in a.samples && name in b.samples && a.samples[name] == b.samples[name]
    {
      assert HoldsAt(a, pv, lines, name) && HoldsAt(b, pv, lines, name);
    }
    assert a.samples == b.samples;
  }

  // ---------------------------------------------------------------------------
  // Parsing is compositional
  // ---------------------------------------------------------------------------

  lemma {:induction false} SamplesInConcat(pv: ValueParser, a: seq<string>, b: seq<string>, name: string)
    ensures SamplesIn(pv, a + b, name) == SamplesIn(pv, a, name) + SamplesIn(pv, b, name)
    ensures MalformedIn(pv, a + b) == MalformedIn(pv, a) + MalformedIn(pv, b)
  {
    if b == [] {
      assert a + b == a;
    } else {
      var init := b[..|b| - 1];
      InitConcat(a, b);
      SamplesInConcat(pv, a, init, name);
      Associate(SamplesIn(pv, a, name), SamplesIn(pv, init, name), Contribution(Classify(pv, b[|b| - 1]), name));
    }
  }

  /** Every line that is neither blank nor a comment adds exactly one sample or one skip. */
  lemma EveryLineCounts(pv: ValueParser, lines: seq<string>)
    ensures MalformedIn(pv, lines) + |AllSamples(pv, lines)| + |Blank(pv, lines)| == |lines|
    ensures forall name: string :: SamplesIn(pv, lines, name) == OfName(AllSamples(pv, lines), name)
  {
    LinesAddUp(pv, lines);
    forall name: string
      ensures SamplesIn(pv, lines, name) == OfName(AllSamples(pv, lines), name)
    {
      SamplesAreSplitByName(pv, lines, name);
    }
  }

  lemma {:induction false} LinesAddUp(pv: ValueParser, lines: seq<string>)
    ensures MalformedIn(pv, lines) + |AllSamples(pv, lines)| + |Blank(pv, lines)| == |lines|
  {
    if lines != [] {
      LinesAddUp(pv, lines[..|lines| - 1]);
    }
  }

  lemma {:induction false} SamplesAreSplitByName(pv: ValueParser, lines: seq<string>, name: string)
    ensures SamplesIn(pv, lines, name) == OfName(AllSamples(pv, lines), name)
  {
    if lines != [] {
      var init, last := lines[..|lines| - 1], Classify(pv, lines[|lines| - 1]);
      SamplesAreSplitByName(pv, init, name);
      if last.Series? {
        FilterAppend(AllSamples(pv, init), last.sample, IsNamed(name));
      }
    }
  }

  function AllSamples(pv: ValueParser, lines: seq<string>): seq<Sample> {
    if lines == [] then []
    else
      var last := Classify(pv, lines[|lines| - 1]);
      if last.Series? then AllSamples(pv, lines[..|lines| - 1]) + [last.sample]
      else AllSamples(pv, lines[..|lines| - 1])
  }

  function OfName(samples: seq<Sample>, name: string): seq<Sample> {
    Filter(samples, IsNamed(name))
  }

  function IsNamed(name: string): Sample -> bool {
    (s: Sample) => s.name == name
  }

  /** The lines that carry no series: blank ones and comments. */
  function Blank(pv: ValueParser, lines: seq<string>): seq<string> {
    if lines == [] then []
    else
      var last := lines[|lines| - 1];
      if Classify(pv, last) == Ignored then Blank(pv, lines[..|lines| - 1]) + [last]
      else Blank(pv, lines[..|lines| - 1])
  }

  /** Parsing two payloads one after the other concatenates the samples of each name. */
  lemma ParseConcat(pv: ValueParser, a: string, b: string, fa: Families, fb: Families, fab: Families)
    requires a == "" || a[|a| - 1] == '\n'
    requires Holds(fa, pv, Lines(a)) && Holds(fb, pv, Lines(b)) && Holds(fab, pv, Lines(a + b))
    ensures fab.linesSkipped == fa.linesSkipped + fb.linesSkipped
    ensures forall name: string ::
      Named(fab.samples, name) == Named(fa.samples, name) + Named(fb.samples, name)
  {
    LinesConcat(a, b);
    forall name: string
      ensures Named(fab.samples, name) == Named(fa.samples, name) + Named(fb.samples, name)
    {
      assert HoldsAt(fa, pv, Lines(a), name) && HoldsAt(fb, pv, Lines(b), name);
      assert HoldsAt(fab, pv, Lines(a + b), name);
      SamplesInConcat(pv, Lines(a), Lines(b), name);
    }
    SamplesInConcat(pv, Lines(a), Lines(b), "");
  }

  lemma {:induction false} MalformedContributeNothing(pv: ValueParser, bad: seq<string>, name: string)
    requires forall i :: 0 <= i < |bad| ==> Classify(pv, bad[i]) == Malformed
    ensures SamplesIn(pv, bad, name) == [] && MalformedIn(pv, bad) == |bad|
  {
    if bad != [] {
      MalformedContributeNothing(pv, bad[..|bad| - 1], name);
    }
  }

  lemma Spliced(pv: ValueParser, before: seq<string>, mid: seq<string>, after: seq<string>, name: string)
    ensures SamplesIn(pv, before + mid + after, name) ==
            SamplesIn(pv, before, name) + SamplesIn(pv, mid, name) + SamplesIn(pv, after, name)
    ensures MalformedIn(pv, before + mid + after) ==
            MalformedIn(pv, before) + MalformedIn(pv, mid) + MalformedIn(pv, after)
  {
    SamplesInConcat(pv, before + mid, after, name);
    SamplesInConcat(pv, before, mid, name);
  }

  lemma MalformedSpliced(pv: ValueParser, before: seq<string>, bad: seq<string>, after: seq<string>, name: string)
    requires SamplesIn(pv, bad, name) == [] && MalformedIn(pv, bad) == |bad|
    ensures SamplesIn(pv, before + bad + after, name) == SamplesIn(pv, before + after, name)
    ensures MalformedIn(pv, before + bad + after) == MalformedIn(pv, before + after) + |bad|
  {
    Spliced(pv, before, bad, after, name);
    SamplesInConcat(pv, before, after, name);
    assert SamplesIn(pv, before, name) + [] == SamplesIn(pv, before, name);
  }

  /** Malformed lines anywhere in a payload change the skip count and nothing else. */
  lemma MalformedLinesAreHarmless(pv: ValueParser, before: seq<string>, bad: seq<string>, after: seq<string>,
                                  clean: Families, dirty: Families)
    requires forall i :: 0 <= i < |bad| ==> Classify(pv, bad[i]) == Malformed
    requires Holds(clean, pv, before + after) && Holds(dirty, pv, before + bad + after)
    ensures dirty == clean.(linesSkipped := clean.linesSkipped + |bad|)
  {
    var counted := clean.(linesSkipped := clean.linesSkipped + |bad|);
    MalformedContributeNothing(pv, bad, "");
    MalformedSpliced(pv, before, bad, after, "");
    forall name: string
      ensures HoldsAt(counted, pv, before + bad + after, name)
    {
      assert HoldsAt(clean, pv, before + after, name);
      MalformedContributeNothing(pv, bad, name);
      MalformedSpliced(pv, before, bad, after, name);
    }
    HoldsIsUnique(counted, dirty, pv, before + bad + after);
  }
}
