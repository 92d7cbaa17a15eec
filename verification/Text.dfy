/** The parts of Go's strings and unicode packages the exposition parser relies on. */
module Text {
  import opened Seqs

  /** unicode.IsSpace. */
  predicate IsSpace(c: char) {
    || '\t' <= c <= '\r' || c == ' ' || c == '\U{85}' || c == '\U{A0}'
    || c == '\U{1680}' || '\U{2000}' <= c <= '\U{200a}'
    || c == '\U{2028}' || c == '\U{2029}' || c == '\U{202f}' || c == '\U{205f}' || c == '\U{3000}'
  }

  /** The characters of Unicode with the White_Space property, one by one. */
  lemma SpacesAre(c: char)
    ensures IsSpace(c) <==> c in {
      '\U{9}', '\U{A}', '\U{B}', '\U{C}', '\U{D}', '\U{20}', '\U{85}', '\U{A0}', '\U{1680}',
      '\U{2000}', '\U{2001}', '\U{2002}', '\U{2003}', '\U{2004}', '\U{2005}', '\U{2006}', '\U{2007}',
      '\U{2008}', '\U{2009}', '\U{200a}', '\U{2028}', '\U{2029}', '\U{202f}', '\U{205f}', '\U{3000}'}
  {
  }

  function TrimLeft(s: string): (r: string)
    ensures |r| <= |s| && r == s[|s| - |r|..]
    ensures r == "" || !IsSpace(r[0])
  {
    s[SpaceEnd(s, 0)..]
  }

  /** Where the space that begins at i ends. */
  function SpaceEnd(s: string, i: nat): (n: nat)
    requires i <= |s|
    ensures i <= n <= |s|
    ensures forall k :: i <= k < n ==> IsSpace(s[k])
    ensures n < |s| ==> !IsSpace(s[n])
    decreases |s| - i
  {
    if i < |s| && IsSpace(s[i]) then SpaceEnd(s, i + 1) else i
  }

  function TrimRight(s: string): (r: string)
    ensures r <= s
    ensures r == "" || !IsSpace(r[|r| - 1])
  {
    s[..SpaceStart(s, |s|)]
  }

  /** Where the space that ends at i begins. */
  function SpaceStart(s: string, i: nat): (n: nat)
    requires i <= |s|
    ensures n <= i
    ensures forall k :: n <= k < i ==> IsSpace(s[k])
    ensures n > 0 ==> !IsSpace(s[n - 1])
  {
    if i > 0 && IsSpace(s[i - 1]) then SpaceStart(s, i - 1) else i
  }

  function TrimSpace(s: string): string {
    TrimRight(TrimLeft(s))
  }

  /** Nothing to trim at either end. */
  predicate Trimmed(s: string) {
    s == "" || (!IsSpace(s[0]) && !IsSpace(s[|s| - 1]))
  }

  lemma TrimmedStays(s: string)
    requires Trimmed(s)
    ensures TrimSpace(s) == s
  {
  }

  /** The length of the longest prefix of s without a character of `stops`. */
  function SpanNot(s: string, stops: set<char>): (n: nat)
    ensures n <= |s|
    ensures forall i :: 0 <= i < n ==> s[i] !in stops
    ensures n < |s| ==> s[n] in stops
  {
    SpanFrom(s, 0, stops)
  }

  function SpanFrom(s: string, i: nat, stops: set<char>): (n: nat)
    requires i <= |s|
    ensures i <= n <= |s|
    ensures forall k :: i <= k < n ==> s[k] !in stops
    ensures n < |s| ==> s[n] in stops
    decreases |s| - i
  {
    if i < |s| && s[i] !in stops then SpanFrom(s, i + 1, stops) else i
  }

  lemma SpanNotIs(a: string, b: string, stops: set<char>)
    requires forall i :: 0 <= i < |a| ==> a[i] !in stops
    requires b != "" ==> b[0] in stops
    ensures SpanNot(a + b, stops) == |a|
  {
    assert forall i :: 0 <= i < |a| ==> (a + b)[i] == a[i];
    assert b != "" ==> (a + b)[|a|] == b[0];
  }

  /** The first of strings.Fields(s), or "" when there is none. */
  function FirstField(s: string): string {
    UntilSpace(TrimLeft(s))
  }

  function UntilSpace(s: string): (r: string)
    ensures r <= s
    ensures |r| < |s| ==> IsSpace(s[|r|])
    ensures forall i :: 0 <= i < |r| ==> !IsSpace(r[i])
  {
    s[..FieldEnd(s, 0)]
  }

  function FieldEnd(s: string, i: nat): (n: nat)
    requires i <= |s|
    ensures i <= n <= |s|
    ensures forall k :: i <= k < n ==> !IsSpace(s[k])
    ensures n < |s| ==> IsSpace(s[n])
    decreases |s| - i
  {
    if i < |s| && !IsSpace(s[i]) then FieldEnd(s, i + 1) else i
  }

  predicate NoSpace(s: string) {
    forall i :: 0 <= i < |s| ==> !IsSpace(s[i])
  }

  /** The first field ends at the first space, whatever follows, and a space before it is skipped. */
  lemma FirstFieldIs(s: string, more: string)
    requires s != "" && NoSpace(s) && (more == "" || IsSpace(more[0]))
    ensures FirstField(s + more) == s && FirstField(" " + (s + more)) == s
  {
    var t := s + more;
    assert (" " + t)[1..] == t && t[0] == s[0];
    FieldEndsAt(t, |s|);
    assert t[..|s|] == s;
    assert SpaceEnd(" " + t, 0) == 1 && SpaceEnd(t, 0) == 0;
  }

  lemma FieldEndsAt(t: string, n: nat)
    requires n <= |t| && (forall k :: 0 <= k < n ==> !IsSpace(t[k])) && (n < |t| ==> IsSpace(t[n]))
    ensures UntilSpace(t) == t[..n]
  {
    assert FieldEnd(t, 0) == n;
  }

  /** The tokens of bufio.ScanLines: line ends are dropped, and a final empty line is none. */
  function Lines(text: string): seq<string>
    decreases |text|
  {
    if text == "" then []
    else
      var n := SpanNot(text, {'\n'});
      [DropCR(text[..n])] + if n == |text| then [] else Lines(text[n + 1..])
  }

  function DropCR(line: string): string {
    if line != "" && line[|line| - 1] == '\r' then line[..|line| - 1] else line
  }

  lemma LinesHead(text: string, n: nat)
    requires n < |text| && text[n] == '\n' && '\n' !in text[..n]
    ensures Lines(text) == [DropCR(text[..n])] + Lines(text[n + 1..])
  {
    LineEndsAt(text, n);
    LinesUnfold(text);
  }

  lemma LineEndsAt(text: string, n: nat)
    requires n < |text| && text[n] == '\n' && '\n' !in text[..n]
    ensures SpanNot(text, {'\n'}) == n
  {
    assert forall k :: 0 <= k < n ==> text[k] == text[..n][k] && text[..n][k] in text[..n];
  }

  lemma LinesUnfold(text: string)
    requires text != ""
    ensures
      var n := SpanNot(text, {'\n'});
      Lines(text) == [DropCR(text[..n])] + if n == |text| then [] else Lines(text[n + 1..])
  {
  }

  lemma LinesOfOne(line: string, rest: string)
    requires '\n' !in line
    ensures Lines(line + "\n" + rest) == [DropCR(line)] + Lines(rest)
  {
    var text := line + "\n" + rest;
    assert text[..|line|] == line && text[|line| + 1..] == rest;
    LinesHead(text, |line|);
  }

  /** The first line end of a text, and what it leaves on both sides. */
  lemma FirstLineEnd(a: string, b: string) returns (n: nat)
    requires a != "" && a[|a| - 1] == '\n'
    ensures n < |a| && a[n] == '\n' && '\n' !in a[..n]
    ensures (a + b)[..n] == a[..n] && (a + b)[n + 1..] == a[n + 1..] + b
    ensures n + 1 == |a| || a[n + 1..][|a| - n - 2] == '\n'
  {
    n := SpanNot(a, {'\n'});
  }

  /** The first line of a text of whole lines, and what is left of it, with and without more text. */
  lemma FirstLine(a: string, b: string) returns (line: string, rest: string)
    requires a != "" && a[|a| - 1] == '\n'
    ensures |rest| < |a| && (rest == "" || rest[|rest| - 1] == '\n')
    ensures Lines(a) == [line] + Lines(rest) && Lines(a + b) == [line] + Lines(rest + b)
  {
    var n := FirstLineEnd(a, b);
    line, rest := DropCR(a[..n]), a[n + 1..];
    LinesHead(a, n);
    LinesHead(a + b, n);
  }

  /** A text of whole lines is read independently of what follows it. */
  lemma {:induction false} LinesConcat(a: string, b: string)
    requires a == "" || a[|a| - 1] == '\n'
    ensures Lines(a + b) == Lines(a) + Lines(b)
    decreases |a|
  {
    if a == "" {
      assert a + b == b;
    } else {
      var line, rest := FirstLine(a, b);
      LinesConcat(rest, b);
      Associate([line], Lines(rest), Lines(b));
    }
  }
}
