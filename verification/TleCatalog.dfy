/** The two-line element catalogue: a look-ahead loop that picks element sets out of a text with
    or without name lines, whatever garbage surrounds them. */
module TleCatalog {
  import opened Text
  import opened Lines
  import opened Selections

  predicate IsOne(line: string) {
    |line| >= 2 && line[0] == '1' && line[1] == ' '
  }

  predicate IsTwo(line: string) {
    |line| >= 2 && line[0] == '2' && line[1] == ' '
  }

  /** What SGP4 makes of a pair of lines. */
  datatype Decoded = Unparsable | Satellite(error: int, number: int, fields: string)

  /** `fields` stands for the columns computed from the lines alone: designator, epoch, elements. */
  datatype Record = Record(number: nat, name: string, fields: string, line1: string, line2: string)

  datatype Found = Found(name: string, line1: string, line2: string)

  function NameOf(line: string): string {
    Strip(if "0 " <= line then line[2..] else line)
  }

  // The specification, stated on positions.

  predicate PairAt(lines: seq<string>, i: int) {
    0 <= i && i + 1 < |lines| && IsOne(lines[i]) && IsTwo(lines[i + 1])
  }

  /** A pair is named by the line before it, unless that line closes another pair. */
  function NameAt(lines: seq<string>, i: nat): string
    requires i < |lines|
  {
    if i >= 1 && !PairAt(lines, i - 2) then NameOf(lines[i - 1]) else ""
  }

  /** The positions before `n` at which pairs start, in order. */
  function Positions(lines: seq<string>, n: nat): seq<nat> {
    if n == 0 then [] else Positions(lines, n - 1) + (if PairAt(lines, n - 1) then [n - 1] else [])
  }

  function FoundAt(lines: seq<string>, i: nat): Found
    requires PairAt(lines, i)
  {
    Found(NameAt(lines, i), lines[i], lines[i + 1])
  }

  /** The pairs that start before position `n`, in order. */
  function Pairs(lines: seq<string>, n: nat): seq<Found> {
    if n == 0 then [] else Pairs(lines, n - 1) + (if PairAt(lines, n - 1) then [FoundAt(lines, n - 1)] else [])
  }

  /** A pair makes a record unless SGP4 rejects it or gives it no positive catalogue number. */
  function RecordOf(found: Found, decoded: Decoded): seq<Record> {
    if decoded.Unparsable? || decoded.error != 0 || decoded.number <= 0 then []
    else
      var name := if found.name != "" then found.name else Decimal(decoded.number);
      [Record(decoded.number, name, decoded.fields, found.line1, found.line2)]
  }

  function ToRecord(decode: (string, string) -> Decoded): Found -> seq<Record> {
    (found: Found) => RecordOf(found, decode(found.line1, found.line2))
  }

  function Collect(f: Found -> seq<Record>, found: seq<Found>): seq<Record> {
    if found == [] then [] else Collect(f, found[..|found| - 1]) + f(found[|found| - 1])
  }

  /** The records of all pairs, in order. */
  function Records(lines: seq<string>, decode: (string, string) -> Decoded): seq<Record> {
    Collect(ToRecord(decode), Pairs(lines, |lines|))
  }

  lemma PairIsExact(lines: seq<string>, i: int)
    ensures PairAt(lines, i) <==> 0 <= i && i + 1 < |lines| && "1 " <= lines[i] && "2 " <= lines[i + 1]
  {
  }

  lemma {:induction false} PositionsArePairs(lines: seq<string>, n: nat)
    ensures forall a, b | 0 <= a < b < |Positions(lines, n)| :: Positions(lines, n)[a] < Positions(lines, n)[b]
    ensures forall a | 0 <= a < |Positions(lines, n)| :: Positions(lines, n)[a] < n
    ensures forall i :: i in Positions(lines, n) <==> i < n && PairAt(lines, i)
  {
    if n > 0 {
      PositionsArePairs(lines, n - 1);
      forall i
        ensures i in Positions(lines, n) <==> i < n && PairAt(lines, i)
      {
        assert i in Positions(lines, n) <==> i in Positions(lines, n - 1) || (PairAt(lines, n - 1) && i == n - 1);
      }
    }
  }

  /** The positions are those of all adjacent pairs of a line starting with "1 " and a line
      starting with "2 ", each once and in order. */
  lemma PositionsAreExact(lines: seq<string>, n: nat)
    ensures forall a, b | 0 <= a < b < |Positions(lines, n)| :: Positions(lines, n)[a] < Positions(lines, n)[b]
    ensures forall a | 0 <= a < |Positions(lines, n)| :: Positions(lines, n)[a] < n
    ensures forall i :: i in Positions(lines, n) <==>
              0 <= i < n && i + 1 < |lines| && "1 " <= lines[i] && "2 " <= lines[i + 1]
  {
    PositionsArePairs(lines, n);
    forall i
      ensures i in Positions(lines, n) <==>
                0 <= i < n && i + 1 < |lines| && "1 " <= lines[i] && "2 " <= lines[i + 1]
    {
      PairIsExact(lines, i);
    }
  }

  /** What is found at each of them is the pair and its name. */
  lemma {:induction false} PairsFollowPositions(lines: seq<string>, n: nat)
    ensures |Pairs(lines, n)| == |Positions(lines, n)|
    ensures forall a | 0 <= a < |Positions(lines, n)| ::
              PairAt(lines, Positions(lines, n)[a]) && Pairs(lines, n)[a] == FoundAt(lines, Positions(lines, n)[a])
    ensures forall a | 0 <= a < |Positions(lines, n)| ::
              var i, found := Positions(lines, n)[a], Pairs(lines, n)[a];
              && i + 1 < |lines| && found.line1 == lines[i] && found.line2 == lines[i + 1]
              && found.name == if i == 0 || (i >= 2 && IsOne(lines[i - 2]) && IsTwo(lines[i - 1])) then ""
                               else NameOf(lines[i - 1])
  {
    if n > 0 {
      PairsFollowPositions(lines, n - 1);
    }
  }

  /** A name is its line without a leading "0 " and without the white space around the rest. */
  lemma NameIsExact(line: string) returns (a: string, b: string)
    ensures (if |line| >= 2 && line[0] == '0' && line[1] == ' ' then line[2..] else line) == a + NameOf(line) + b
    ensures AllSpace(a) && AllSpace(b) && Trim(NameOf(line))
  {
    assert "0 " <= line <==> |line| >= 2 && line[0] == '0' && line[1] == ' ';
    a, b := StripIsExact(if "0 " <= line then line[2..] else line);
  }

  // Which pairs become records.

  /** SGP4 accepts the pair and gives it a catalogue number. */
  predicate Accepted(decoded: Decoded) {
    decoded.Satellite? && decoded.error == 0 && decoded.number >= 1
  }

  /** The record of an accepted pair at position `i`. */
  predicate RecordAt(lines: seq<string>, decode: (string, string) -> Decoded, i: nat, record: Record) {
    && PairAt(lines, i) && Accepted(decode(lines[i], lines[i + 1]))
    && var decoded := decode(lines[i], lines[i + 1]);
       && record.number == decoded.number && record.fields == decoded.fields
       && record.line1 == lines[i] && record.line2 == lines[i + 1]
       && record.name == if NameAt(lines, i) == "" then Decimal(decoded.number) else NameAt(lines, i)
  }

  /** The records are those of all accepted pairs, in order; `at` says where they start. */
  ghost predicate RecordedAt(lines: seq<string>, decode: (string, string) -> Decoded, records: seq<Record>,
      at: seq<nat>)
  {
    Selects(at, |lines|, AcceptedAt(lines, decode)) && Fits(at, records, RecordsAt(lines, decode))
  }

  function AcceptedAt(lines: seq<string>, decode: (string, string) -> Decoded): nat -> bool {
    (i: nat) => PairAt(lines, i) && Accepted(decode(lines[i], lines[i + 1]))
  }

  function RecordsAt(lines: seq<string>, decode: (string, string) -> Decoded): (nat, Record) -> bool {
    (i: nat, record: Record) => RecordAt(lines, decode, i, record)
  }

  lemma RecordIsExact(lines: seq<string>, decode: (string, string) -> Decoded, i: nat)
    requires PairAt(lines, i)
    ensures var record := ToRecord(decode)(FoundAt(lines, i));
            && (record == [] <==> !AcceptedAt(lines, decode)(i))
            && (record != [] ==> |record| == 1 && RecordAt(lines, decode, i, record[0]))
  {
  }

  /** What the pair at a position, if there is one, adds to the records. */
  function NextRecord(lines: seq<string>, decode: (string, string) -> Decoded): nat -> seq<Record> {
    (i: nat) => if PairAt(lines, i) then ToRecord(decode)(FoundAt(lines, i)) else []
  }

  lemma CollectNext(lines: seq<string>, decode: (string, string) -> Decoded, n: nat)
    ensures Collect(ToRecord(decode), Pairs(lines, n + 1)) ==
            Collect(ToRecord(decode), Pairs(lines, n)) + NextRecord(lines, decode)(n)
  {
    if PairAt(lines, n) {
      CollectAppend(ToRecord(decode), Pairs(lines, n), [FoundAt(lines, n)]);
    } else {
      assert Pairs(lines, n + 1) == Pairs(lines, n);
    }
  }

  lemma {:induction false} RecordsAreGathered(lines: seq<string>, decode: (string, string) -> Decoded, n: nat)
    ensures Collect(ToRecord(decode), Pairs(lines, n)) == Gather(NextRecord(lines, decode), n)
  {
    if n > 0 {
      RecordsAreGathered(lines, decode, n - 1);
      CollectNext(lines, decode, n - 1);
    }
  }

  lemma NextRecordsAreExact(lines: seq<string>, decode: (string, string) -> Decoded)
    ensures forall i: nat :: if AcceptedAt(lines, decode)(i)
                             then |NextRecord(lines, decode)(i)| == 1 &&
                                  RecordsAt(lines, decode)(i, NextRecord(lines, decode)(i)[0])
                             else NextRecord(lines, decode)(i) == []
  {
    forall i: nat
      ensures if AcceptedAt(lines, decode)(i)
              then |NextRecord(lines, decode)(i)| == 1 && RecordsAt(lines, decode)(i, NextRecord(lines, decode)(i)[0])
              else NextRecord(lines, decode)(i) == []
    {
      if PairAt(lines, i) {
        RecordIsExact(lines, decode, i);
      }
    }
  }

  lemma RecordsAreExact(lines: seq<string>, decode: (string, string) -> Decoded) returns (at: seq<nat>)
    ensures RecordedAt(lines, decode, Records(lines, decode), at)
  {
    at := Chosen(AcceptedAt(lines, decode), |lines|);
    ChosenAreSelected(AcceptedAt(lines, decode), |lines|);
    NextRecordsAreExact(lines, decode);
    GatheredFit(NextRecord(lines, decode), AcceptedAt(lines, decode), RecordsAt(lines, decode), |lines|);
    RecordsAreGathered(lines, decode, |lines|);
  }

  // The loop.

  lemma TakeOne(lines: seq<string>, i: nat)
    ensures PairAt(lines, i) ==> Pairs(lines, i + 1) == Pairs(lines, i) + [FoundAt(lines, i)] == Pairs(lines, i + 2)
    ensures PairAt(lines, i) ==> !PairAt(lines, i + 1)
    ensures !PairAt(lines, i) ==> Pairs(lines, i + 1) == Pairs(lines, i)
  {
    if PairAt(lines, i) {
      assert !PairAt(lines, i + 1);
      assert Pairs(lines, i + 2) == Pairs(lines, i + 1) + [];
    }
  }

  lemma CollectAppend(f: Found -> seq<Record>, found: seq<Found>, more: seq<Found>)
    requires |more| <= 1
    ensures Collect(f, found + more) == Collect(f, found) + (if more == [] then [] else f(more[0]))
  {
    if more == [] {
      assert found + more == found;
    } else {
      assert (found + more)[..|found + more| - 1] == found;
    }
  }

  /** One element set becomes a record or is skipped. */
  method AddRecord(records: seq<Record>, found: Found, decode: (string, string) -> Decoded) returns (more: seq<Record>)
    ensures more == records + ToRecord(decode)(found)
  {
    var decoded := decode(found.line1, found.line2);
    if decoded.Unparsable? {
      return records;
    }
    if decoded.error != 0 || decoded.number <= 0 {
      return records;
    }
    var name := if found.name != "" then found.name else Decimal(decoded.number);
    more := records + [Record(decoded.number, name, decoded.fields, found.line1, found.line2)];
  }

  /** The loop has dealt with everything before `index`: no pair straddles it, and a pair that
      starts there follows another pair directly or stands at the very beginning. */
  predicate Frontier(lines: seq<string>, index: nat) {
    && !PairAt(lines, index - 1)
    && (PairAt(lines, index) ==> index == 0 || PairAt(lines, index - 2))
  }

  lemma UnnamedPair(lines: seq<string>, index: nat)
    requires Frontier(lines, index) && PairAt(lines, index)
    ensures Pairs(lines, index + 2) == Pairs(lines, index) + [Found("", lines[index], lines[index + 1])]
    ensures Frontier(lines, index + 2)
  {
    TakeOne(lines, index);
  }

  lemma NamedPair(lines: seq<string>, index: nat)
    requires Frontier(lines, index) && PairAt(lines, index + 1)
    ensures Pairs(lines, index + 3)
            == Pairs(lines, index) + [Found(NameOf(lines[index]), lines[index + 1], lines[index + 2])]
    ensures Frontier(lines, index + 3)
  {
    TakeOne(lines, index);
    TakeOne(lines, index + 1);
  }

  lemma NoPair(lines: seq<string>, index: nat)
    requires !PairAt(lines, index) && !PairAt(lines, index + 1)
    ensures Pairs(lines, index + 1) == Pairs(lines, index) && Frontier(lines, index + 1)
  {
  }

  /** One round of look-ahead: it finds the pair at the index or the one behind a name line, or
      moves on by one line. */
  method LookAhead(lines: seq<string>, index: nat) returns (found: seq<Found>, next: nat)
    requires Frontier(lines, index) && index + 1 < |lines|
    ensures index < next <= |lines| && |found| <= 1
    ensures Pairs(lines, next) == Pairs(lines, index) + found && Frontier(lines, next)
  {
    if IsOne(lines[index]) && IsTwo(lines[index + 1]) {
      UnnamedPair(lines, index);
      found, next := [Found("", lines[index], lines[index + 1])], index + 2;
    } else if index + 2 < |lines| && IsOne(lines[index + 1]) && IsTwo(lines[index + 2]) {
      NamedPair(lines, index);
      found, next := [Found(NameOf(lines[index]), lines[index + 1], lines[index + 2])], index + 3;
    } else {
      NoPair(lines, index);
      found, next := [], index + 1;
    }
  }

  lemma PairsEnd(lines: seq<string>, index: nat)
    requires |lines| <= index + 1 && index <= |lines|
    ensures Pairs(lines, |lines|) == Pairs(lines, index)
  {
    if index < |lines| {
      TakeOne(lines, index);
    }
  }

  /** The loop finds exactly the pairs of the specification that SGP4 accepts: `at` says where. */
  method ParseLines(lines: seq<string>, decode: (string, string) -> Decoded)
    returns (records: seq<Record>, ghost at: seq<nat>)
    ensures records == Records(lines, decode)
    ensures RecordedAt(lines, decode, records, at)
  {
    records := [];
    var index := 0;
    while index + 1 < |lines|
      invariant 0 <= index <= |lines| && Frontier(lines, index)
      invariant records == Collect(ToRecord(decode), Pairs(lines, index))
      decreases |lines| - index
    {
      var found, next := LookAhead(lines, index);
      CollectAppend(ToRecord(decode), Pairs(lines, index), found);
      if found != [] {
        records := AddRecord(records, found[0], decode);
      }
      index := next;
    }
    PairsEnd(lines, index);
    at := RecordsAreExact(lines, decode);
  }

  /** The same for a text: `kept` says which of its lines are not blank. */
  method ParseCatalog(text: string, decode: (string, string) -> Decoded)
    returns (records: seq<Record>, ghost at: seq<nat>, ghost kept: seq<nat>)
    ensures records == Records(Clean(SplitLines(text)), decode)
    ensures var raw, lines := SplitLines(text), Clean(SplitLines(text));
            CleanedAt(raw, lines, kept) && RecordedAt(lines, decode, records, at)
  {
    var raw := SplitLines(text);
    kept := CleanIsExact(raw);
    records, at := ParseLines(Clean(raw), decode);
  }

  // Printing and parsing again.

  /** An element set as a catalogue prints it, with or without a name line. */
  datatype Printed = Named(name: string, line1: string, line2: string) | Unnamed(line1: string, line2: string) {
    predicate Valid() {
      && IsOne(line1) && IsTwo(line2)
      && (forall i | 0 <= i < |Lines()| :: CleanLine(Lines()[i]) == [Lines()[i]] && OneLine(Lines()[i]))
    }

    function Lines(): seq<string> {
      if Named? then [name, line1, line2] else [line1, line2]
    }

    function Parsed(): Found {
      Found(if Named? then NameOf(name) else "", line1, line2)
    }
  }

  function Print(sets: seq<Printed>): seq<string> {
    if sets == [] then [] else Print(sets[..|sets| - 1]) + sets[|sets| - 1].Lines()
  }

  function ParsedAll(sets: seq<Printed>): seq<Found> {
    if sets == [] then [] else ParsedAll(sets[..|sets| - 1]) + [sets[|sets| - 1].Parsed()]
  }

  lemma {:induction false} PairsOfPrefix(a: seq<string>, b: seq<string>, n: nat)
    requires n < |a| || n == 0
    ensures Pairs(a + b, n) == Pairs(a, n)
  {
    if n > 0 {
      PairsOfPrefix(a, b, n - 1);
      assert PairAt(a + b, n - 1) <==> PairAt(a, n - 1);
      if PairAt(a, n - 1) {
        assert NameAt(a + b, n - 1) == NameAt(a, n - 1) by {
          assert PairAt(a + b, n - 3) <==> PairAt(a, n - 3);
        }
      }
    }
  }

  /** Nothing, or lines that end with a complete pair. */
  predicate EndsWithPair(lines: seq<string>) {
    lines == [] || (|lines| >= 2 && PairAt(lines, |lines| - 2))
  }

  lemma AppendLines(lines: seq<string>, more: seq<string>)
    requires EndsWithPair(lines) && more != []
    ensures Pairs(lines + more, |lines|) == Pairs(lines, |lines|)
    ensures lines != [] ==> PairAt(lines + more, |lines| - 2)
    ensures lines != [] ==> !PairAt(lines + more, |lines| - 1)
  {
    var all, n := lines + more, |lines|;
    if n > 0 {
      PairsOfPrefix(lines, more, n - 1);
      assert PairAt(lines, n - 2) && PairAt(all, n - 2);
    }
  }

  lemma AppendUnnamed(lines: seq<string>, line1: string, line2: string)
    requires EndsWithPair(lines) && IsOne(line1) && IsTwo(line2)
    ensures var all := lines + [line1, line2];
            EndsWithPair(all) && Pairs(all, |all|) == Pairs(lines, |lines|) + [Found("", line1, line2)]
  {
    var all, n := lines + [line1, line2], |lines|;
    AppendLines(lines, [line1, line2]);
    TakeOne(all, n);
  }

  lemma AppendNamed(lines: seq<string>, name: string, line1: string, line2: string)
    requires EndsWithPair(lines) && IsOne(line1) && IsTwo(line2)
    ensures var all := lines + [name, line1, line2];
            EndsWithPair(all) && Pairs(all, |all|) == Pairs(lines, |lines|) + [Found(NameOf(name), line1, line2)]
  {
    var all, n := lines + [name, line1, line2], |lines|;
    AppendLines(lines, [name, line1, line2]);
    TakeOne(all, n);
    TakeOne(all, n + 1);
  }

  lemma AppendSet(lines: seq<string>, printed: Printed)
    requires EndsWithPair(lines) && printed.Valid()
    ensures var all := lines + printed.Lines();
            EndsWithPair(all) && Pairs(all, |all|) == Pairs(lines, |lines|) + [printed.Parsed()]
  {
    match printed
    case Named(name, line1, line2) => AppendNamed(lines, name, line1, line2);
    case Unnamed(line1, line2) => AppendUnnamed(lines, line1, line2);
  }

  lemma {:induction false} PrintedAreLines(sets: seq<Printed>)
    requires forall s <- sets :: s.Valid()
    ensures forall line <- Print(sets) :: OneLine(line)
  {
    if sets != [] {
      PrintedAreLines(sets[..|sets| - 1]);
      assert sets[|sets| - 1].Valid();
    }
  }

  lemma {:induction false} PrintedLinesParse(sets: seq<Printed>)
    requires forall s <- sets :: s.Valid()
    ensures Clean(Print(sets)) == Print(sets)
    ensures EndsWithPair(Print(sets)) && Pairs(Print(sets), |Print(sets)|) == ParsedAll(sets)
  {
    if sets != [] {
      var n := |sets| - 1;
      PrintedLinesParse(sets[..n]);
      AppendSet(Print(sets[..n]), sets[n]);
      FlatMapConcat(CleanLine, Print(sets[..n]), sets[n].Lines());
      FlatMapFixes(CleanLine, sets[n].Lines());
    }
  }

  /** The records of the printed sets that SGP4 accepts. */
  function PrintedRecords(sets: seq<Printed>, decode: (string, string) -> Decoded): seq<Record> {
    if sets == [] then []
    else
      var last := sets[|sets| - 1];
      var decoded := decode(last.line1, last.line2);
      var name := if last.Named? && NameOf(last.name) != "" then NameOf(last.name)
                  else if Accepted(decoded) then Decimal(decoded.number) else "";
      PrintedRecords(sets[..|sets| - 1], decode)
      + (if Accepted(decoded) then [Record(decoded.number, name, decoded.fields, last.line1, last.line2)] else [])
  }

  lemma {:induction false} ParsedSetsAreRecorded(sets: seq<Printed>, decode: (string, string) -> Decoded)
    ensures Collect(ToRecord(decode), ParsedAll(sets)) == PrintedRecords(sets, decode)
  {
    if sets != [] {
      var n := |sets| - 1;
      ParsedSetsAreRecorded(sets[..n], decode);
      CollectAppend(ToRecord(decode), ParsedAll(sets[..n]), [sets[n].Parsed()]);
    }
  }

  /** Printing any mix of named and unnamed sets as a text, with either kind of line end, and parsing
      it gives back the same line pairs in the same order, and a record of each one that SGP4 accepts.
      A name comes back as `NameOf` reads it: without white space around it and without a leading
      "0 "; a set without one gets its number for a name. */
  lemma PrintThenParse(sets: seq<Printed>, end: string, decode: (string, string) -> Decoded)
    requires (forall s <- sets :: s.Valid()) && (end == "\n" || end == "\r\n")
    ensures var lines := Clean(SplitLines(JoinLines(Print(sets), end)));
            && lines == Print(sets) && Pairs(lines, |lines|) == ParsedAll(sets)
            && Records(lines, decode) == PrintedRecords(sets, decode)
  {
    ParsedSetsAreRecorded(sets, decode);
    PrintedAreLines(sets);
    SplitJoined(Print(sets), end);
    PrintedLinesParse(sets);
  }

}
