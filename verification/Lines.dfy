/** Splitting a text into lines, and what is left of them without white space and blank lines. */
module Lines {
  import opened Selections

  predicate IsSpace(c: char) {
    || '\U{9}' <= c <= '\U{D}' || '\U{1C}' <= c <= '\U{20}' || c == '\U{85}' || c == '\U{A0}'
    || c == '\U{1680}' || '\U{2000}' <= c <= '\U{200A}' || c == '\U{2028}' || c == '\U{2029}'
    || c == '\U{202F}' || c == '\U{205F}' || c == '\U{3000}'
  }

  function Rstrip(s: string): string {
    if s != "" && IsSpace(s[|s| - 1]) then Rstrip(s[..|s| - 1]) else s
  }

  function Lstrip(s: string): string {
    if s != "" && IsSpace(s[0]) then Lstrip(s[1..]) else s
  }

  function Strip(s: string): string {
    Rstrip(Lstrip(s))
  }

  /** The characters that end a line. */
  predicate IsBreak(c: char) {
    || '\U{A}' <= c <= '\U{D}' || '\U{1C}' <= c <= '\U{1E}' || c == '\U{85}' || c == '\U{2028}' || c == '\U{2029}'
  }

  predicate OneLine(s: string) {
    forall c <- s :: !IsBreak(c)
  }

  /** How far the first line of a text reaches. */
  function LineEnd(text: string): (k: nat)
    ensures k <= |text| && OneLine(text[..k]) && (k < |text| ==> IsBreak(text[k]))
  {
    if text == "" || IsBreak(text[0]) then 0
    else
      var k := LineEnd(text[1..]);
      assert text[..k + 1] == [text[0]] + text[1..][..k];
      k + 1
  }

  /** The lines of a text without their ends; a carriage return and a line feed are one end. */
  function SplitLines(text: string): (lines: seq<string>)
    ensures forall line <- lines :: OneLine(line)
    decreases |text|
  {
    if text == "" then []
    else
      var k := LineEnd(text);
      var next := if text[k..] == "" then k else if "\r\n" <= text[k..] then k + 2 else k + 1;
      [text[..k]] + (if next == k then [] else SplitLines(text[next..]))
  }

  function CleanLine(line: string): seq<string> {
    if Strip(line) != "" then [Rstrip(line)] else []
  }

  /** The lines of the text that are not blank, without trailing white space. */
  function Clean(raw: seq<string>): seq<string> {
    FlatMap(CleanLine, raw)
  }

  function FlatMap(f: string -> seq<string>, lines: seq<string>): seq<string> {
    if lines == [] then [] else FlatMap(f, lines[..|lines| - 1]) + f(lines[|lines| - 1])
  }

  // What this comes to, without the functions that do it.

  predicate AllSpace(s: string) {
    forall c <- s :: IsSpace(c)
  }

  /** Nothing is left to strip at the end, or at either end. */
  predicate EndsDark(s: string) {
    s != "" ==> !IsSpace(s[|s| - 1])
  }

  predicate Trim(s: string) {
    EndsDark(s) && (s != "" ==> !IsSpace(s[0]))
  }

  lemma {:induction false} RstripIsExact(s: string) returns (b: string)
    ensures s == Rstrip(s) + b && AllSpace(b) && EndsDark(Rstrip(s))
  {
    if s != "" && IsSpace(s[|s| - 1]) {
      b := RstripIsExact(s[..|s| - 1]);
      b := b + [s[|s| - 1]];
    } else {
      b := "";
    }
  }

  lemma {:induction false} LstripIsExact(s: string) returns (a: string)
    ensures s == a + Lstrip(s) && AllSpace(a) && (Lstrip(s) != "" ==> !IsSpace(Lstrip(s)[0]))
  {
    if s != "" && IsSpace(s[0]) {
      a := LstripIsExact(s[1..]);
      a := [s[0]] + a;
    } else {
      a := "";
    }
  }

  lemma StripIsExact(s: string) returns (a: string, b: string)
    ensures s == a + Strip(s) + b && AllSpace(a) && AllSpace(b) && Trim(Strip(s))
  {
    a := LstripIsExact(s);
    b := RstripIsExact(Lstrip(s));
    if Strip(s) != "" {
      assert Lstrip(s)[0] == Strip(s)[0];
    }
  }

  /** A line is kept exactly if it is not blank, and loses the white space at its end. */
  lemma CleanLineIsExact(line: string)
    ensures CleanLine(line) == [] <==> AllSpace(line)
    ensures CleanLine(line) != [] ==> |CleanLine(line)| == 1 && Cleaned(line, CleanLine(line)[0])
  {
    var a, c := StripIsExact(line);
    var b := RstripIsExact(line);
    assert line[|Rstrip(line)|..] == b;
    if Strip(line) == "" {
      assert line == a + c;
    } else {
      assert line[|a|] == Strip(line)[0];
    }
  }

  lemma FlatMapStep(f: string -> seq<string>, raw: seq<string>, i: nat)
    requires i < |raw|
    ensures FlatMap(f, raw[..i + 1]) == FlatMap(f, raw[..i]) + f(raw[i])
  {
    assert raw[..i + 1][..i] == raw[..i];
  }

  /** The clean lines are those of the text that are not blank, in order, each without the white
      space at its end. */
  ghost predicate CleanedAt(raw: seq<string>, lines: seq<string>, at: seq<nat>) {
    Selects(at, |raw|, NotBlank(raw)) && Fits(at, lines, CleanedFrom(raw))
  }

  predicate Cleaned(raw: string, line: string) {
    line <= raw && EndsDark(line) && AllSpace(raw[|line|..])
  }

  function CleanedFrom(raw: seq<string>): (nat, string) -> bool {
    (i: nat, line: string) => i < |raw| && Cleaned(raw[i], line)
  }

  function NotBlank(raw: seq<string>): nat -> bool {
    (i: nat) => i < |raw| && !AllSpace(raw[i])
  }

  function CleanAt(raw: seq<string>): nat -> seq<string> {
    (i: nat) => if i < |raw| then CleanLine(raw[i]) else []
  }

  lemma {:induction false} CleanIsGathered(raw: seq<string>, n: nat)
    requires n <= |raw|
    ensures Clean(raw[..n]) == Gather(CleanAt(raw), n)
  {
    if n > 0 {
      CleanIsGathered(raw, n - 1);
      FlatMapStep(CleanLine, raw, n - 1);
    }
  }

  lemma CleanIsExact(raw: seq<string>) returns (at: seq<nat>)
    ensures CleanedAt(raw, Clean(raw), at)
  {
    at := Chosen(NotBlank(raw), |raw|);
    ChosenAreSelected(NotBlank(raw), |raw|);
    forall i | 0 <= i < |raw|
      ensures if NotBlank(raw)(i) then |CleanAt(raw)(i)| == 1 && CleanedFrom(raw)(i, CleanAt(raw)(i)[0])
              else CleanAt(raw)(i) == []
    {
      CleanLineIsExact(raw[i]);
    }
    GatheredFit(CleanAt(raw), NotBlank(raw), CleanedFrom(raw), |raw|);
    CleanIsGathered(raw, |raw|);
    assert raw[..|raw|] == raw;
  }

  // Putting a text together and splitting it again.

  /** A text of these lines, each with the given end. */
  function JoinLines(lines: seq<string>, end: string): string {
    if lines == [] then "" else lines[0] + end + JoinLines(lines[1..], end)
  }

  lemma {:induction false} LineEndIsThere(line: string, rest: string)
    requires OneLine(line) && rest != "" && IsBreak(rest[0])
    ensures LineEnd(line + rest) == |line|
  {
    if line != "" {
      assert (line + rest)[1..] == line[1..] + rest;
      LineEndIsThere(line[1..], rest);
    }
  }

  /** What splitting comes to where the first line and the length of its end are known. */
  lemma SplitFirst(text: string, k: nat, next: nat)
    requires text != "" && LineEnd(text) == k && k < next <= |text|
    requires next == if "\r\n" <= text[k..] then k + 2 else k + 1
    ensures SplitLines(text) == [text[..k]] + SplitLines(text[next..])
  {
    assert text[k..] != "";
  }

  lemma SplitOffLine(line: string, end: string, rest: string)
    requires OneLine(line) && (end == "\n" || end == "\r\n")
    ensures SplitLines(line + (end + rest)) == [line] + SplitLines(rest)
  {
    OneEnd(end, rest);
    LineEndIsThere(line, end + rest);
    TakenApart(line, end, rest);
    SplitFirst(line + (end + rest), |line|, |line| + |end|);
  }

  lemma TakenApart(line: string, end: string, rest: string)
    ensures var text := line + (end + rest);
            text[..|line|] == line && text[|line|..] == end + rest && text[|line| + |end|..] == rest
  {
  }

  lemma OneEnd(end: string, rest: string)
    requires end == "\n" || end == "\r\n"
    ensures IsBreak((end + rest)[0]) && ("\r\n" <= end + rest <==> end == "\r\n")
  {
    assert (end + rest)[0] == end[0];
  }

  lemma {:induction false} SplitJoined(lines: seq<string>, end: string)
    requires (forall line <- lines :: OneLine(line)) && (end == "\n" || end == "\r\n")
    ensures SplitLines(JoinLines(lines, end)) == lines
  {
    if lines != [] {
      var rest := JoinLines(lines[1..], end);
      assert JoinLines(lines, end) == lines[0] + (end + rest);
      SplitOffLine(lines[0], end, rest);
      SplitJoined(lines[1..], end);
    }
  }

  lemma FlatMapAppend(f: string -> seq<string>, lines: seq<string>, line: string)
    ensures FlatMap(f, lines + [line]) == FlatMap(f, lines) + f(line)
  {
    assert (lines + [line])[..|lines|] == lines;
  }

  lemma {:induction false} FlatMapConcat(f: string -> seq<string>, a: seq<string>, b: seq<string>)
    ensures FlatMap(f, a + b) == FlatMap(f, a) + FlatMap(f, b)
    decreases |b|
  {
    if b == [] {
      assert a + b == a;
    } else {
      var n := |b| - 1;
      FlatMapConcat(f, a, b[..n]);
      FlatMapAppend(f, a + b[..n], b[n]);
      FlatMapAppend(f, b[..n], b[n]);
      assert b == b[..n] + [b[n]] && a + b == a + b[..n] + [b[n]];
    }
  }

  lemma {:induction false} FlatMapFixes(f: string -> seq<string>, lines: seq<string>)
    requires forall i | 0 <= i < |lines| :: f(lines[i]) == [lines[i]]
    ensures FlatMap(f, lines) == lines
  {
    if lines != [] {
      FlatMapFixes(f, lines[..|lines| - 1]);
    }
  }
}
