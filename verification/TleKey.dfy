/** The query parameters of /orbits/tle: the canonical list of catalogue numbers and the cache key
    built from the whole query. Reading one number out of a string is left to a parameter. */
module TleKey {
  import opened Store
  import opened Text

  const MAX_IDS := 200
  const ID_LIMIT := 1_000_000_000

  predicate Increasing(ids: seq<int>) {
    forall i, j | 0 <= i < j < |ids| :: ids[i] < ids[j]
  }

  function Elements(ids: seq<int>): set<int> {
    set x <- ids
  }

  predicate Least(s: set<int>, x: int) {
    x in s && forall y <- s :: x <= y
  }

  lemma Member<T>(s: set<T>) returns (x: T)
    requires s != {}
    ensures x in s
  {
    x :| x in s;
  }

  lemma {:induction false} LeastExists(s: set<int>)
    requires s != {}
    ensures exists x :: Least(s, x)
  {
    var x := Member(s);
    var rest := s - {x};
    assert forall y <- s :: y == x || y in rest;
    if rest == {} {
      assert Least(s, x);
    } else {
      LeastExists(rest);
      var m :| Least(rest, m);
      assert Least(s, if m < x then m else x);
    }
  }

  lemma PrependLeast(s: set<int>, m: int, rest: seq<int>)
    requires Least(s, m) && Increasing(rest) && Elements(rest) == s - {m}
    ensures Increasing([m] + rest) && Elements([m] + rest) == s
  {
    assert forall i | 0 <= i < |rest| :: rest[i] in Elements(rest);
    assert Elements([m] + rest) == {m} + Elements(rest);
  }

  /** The elements of a set in increasing order. */
  function Sorted(s: set<int>): (ids: seq<int>)
    ensures Increasing(ids) && Elements(ids) == s
  {
    if s == {} then []
    else
      LeastExists(s);
      var m :| Least(s, m);
      var rest := Sorted(s - {m});
      PrependLeast(s, m, rest);
      [m] + rest
  }

  lemma WithoutTheFirst(a: seq<int>)
    requires Increasing(a) && a != []
    ensures a == [a[0]] + a[1..] && Least(Elements(a), a[0])
    ensures Increasing(a[1..]) && Elements(a[1..]) == Elements(a) - {a[0]}
  {
    assert forall i | 0 <= i < |a| :: a[i] in Elements(a);
    forall x <- Elements(a[1..])
      ensures x in Elements(a) - {a[0]}
    {
      var i :| 0 <= i < |a[1..]| && a[1..][i] == x;
      assert a[i + 1] == x;
    }
    forall x <- Elements(a) | x != a[0]
      ensures x in Elements(a[1..])
    {
      var i :| 0 <= i < |a| && a[i] == x;
      assert a[1..][i - 1] == x;
    }
  }

  /** An increasing list is determined by its elements. */
  lemma {:induction false} IncreasingIsCanonical(a: seq<int>, b: seq<int>)
    requires Increasing(a) && Increasing(b) && Elements(a) == Elements(b)
    ensures a == b
  {
    if a != [] && b != [] {
      WithoutTheFirst(a);
      WithoutTheFirst(b);
      assert a[0] == b[0];
      IncreasingIsCanonical(a[1..], b[1..]);
    } else if a != [] {
      WithoutTheFirst(a);
    } else if b != [] {
      WithoutTheFirst(b);
    }
  }

  /** The parts of a list as they are separated by commas: a number, nothing, or neither. */
  datatype Part = Blank | Num(value: int) | Garbage

  /** None is the refusal with status 422. */
  function NumbersOf(parts: seq<Part>): Option<set<int>> {
    if Garbage in parts then None else Some(set p <- parts | p.Num? :: p.value)
  }

  predicate Acceptable(numbers: set<int>) {
    |numbers| <= MAX_IDS && forall x <- numbers :: 0 < x < ID_LIMIT
  }

  /** An absent or empty parameter has no parts and gives the empty list. */
  function ParseNoradIds(parts: seq<Part>): Option<seq<int>> {
    match NumbersOf(parts)
    case None => None
    case Some(numbers) =>
      var ids := Sorted(numbers);
      if |ids| > MAX_IDS || exists x <- ids :: !(0 < x < ID_LIMIT) then None else Some(ids)
  }

  lemma {:induction false} LengthIsCardinality(ids: seq<int>)
    requires Increasing(ids)
    ensures |Elements(ids)| == |ids|
  {
    if ids != [] {
      LengthIsCardinality(ids[1..]);
      assert Elements(ids) == {ids[0]} + Elements(ids[1..]);
    }
  }

  /** The query is refused exactly for a part that is no number, for more than 200 different
      numbers or for one out of range. An accepted list is strictly increasing, at most 200 long
      and within the range, and two requests get the same list exactly when they name the same
      set of numbers. */
  lemma AcceptedIdsAreCanonical(parts: seq<Part>, others: seq<Part>)
    ensures ParseNoradIds(parts).Some? <==>
              && Garbage !in parts
              && |set p <- parts | p.Num? :: p.value| <= 200
              && forall p <- parts :: p.Num? ==> 0 < p.value < 1_000_000_000
    ensures ParseNoradIds(parts).Some? ==>
              var ids := ParseNoradIds(parts).value;
              && (forall i, j | 0 <= i < j < |ids| :: ids[i] < ids[j])
              && |ids| <= 200 && (forall x <- ids :: 0 < x < 1_000_000_000)
              && (forall x :: x in ids <==> Num(x) in parts)
    ensures ParseNoradIds(parts).Some? && ParseNoradIds(others).Some? ==>
              (ParseNoradIds(parts) == ParseNoradIds(others) <==> forall x :: Num(x) in parts <==> Num(x) in others)
  {
    ParsedElements(parts);
    ParsedElements(others);
    if ParseNoradIds(parts).Some? && ParseNoradIds(others).Some?
        && (forall x :: Num(x) in parts <==> Num(x) in others) {
      IncreasingIsCanonical(ParseNoradIds(parts).value, ParseNoradIds(others).value);
    }
  }

  lemma ParsedElements(parts: seq<Part>)
    ensures ParseNoradIds(parts).Some? <==> NumbersOf(parts).Some? && Acceptable(NumbersOf(parts).value)
    ensures ParseNoradIds(parts).Some? ==>
              && Increasing(ParseNoradIds(parts).value) && |ParseNoradIds(parts).value| <= 200
              && forall x :: x in ParseNoradIds(parts).value <==> Num(x) in parts
  {
    if NumbersOf(parts).Some? {
      var numbers := NumbersOf(parts).value;
      LengthIsCardinality(Sorted(numbers));
      assert forall x :: x in Sorted(numbers) <==> x in Elements(Sorted(numbers));
      assert forall x :: x in numbers <==> Num(x) in parts;
    }
  }

  // The search text and the key.

  predicate Alphanumeric(c: char) {
    'A' <= c <= 'Z' || 'a' <= c <= 'z' || '0' <= c <= '9'
  }

  /** The pattern of the search parameter: 2 to 32 characters, the first alphanumeric, the others
      alphanumeric, blank or hyphen. */
  predicate SearchOk(search: string) {
    && 2 <= |search| <= 32 && Alphanumeric(search[0])
    && forall i | 1 <= i < |search| :: Alphanumeric(search[i]) || search[i] == ' ' || search[i] == '-'
  }

  function Upper(c: char): char {
    if 'a' <= c <= 'z' then c - 'a' + 'A' else c
  }

  function UpperAll(s: string): string {
    if s == "" then "" else [Upper(s[0])] + UpperAll(s[1..])
  }

  function TrimRight(s: string): string {
    if s != "" && s[|s| - 1] == ' ' then TrimRight(s[..|s| - 1]) else s
  }

  /** Of an accepted search text only trailing blanks are stripped, since it starts with a letter
      or digit. */
  function Normalized(search: Option<string>): string {
    match search
    case None => ""
    case Some(text) => UpperAll(TrimRight(text))
  }

  lemma {:induction false} NormalizedCharacters(s: string)
    requires forall c <- s :: Alphanumeric(c) || c == ' ' || c == '-'
    ensures ':' !in UpperAll(s)
    ensures s != "" ==> UpperAll(s) != ""
  {
    if s != "" {
      assert s[0] in s;
      NormalizedCharacters(s[1..]);
    }
  }

  lemma {:induction false} TrimmedIsPrefix(s: string)
    ensures TrimRight(s) <= s
    ensures s != "" && s[0] != ' ' ==> TrimRight(s) != ""
  {
    if s != "" && s[|s| - 1] == ' ' {
      TrimmedIsPrefix(s[..|s| - 1]);
    }
  }

  /** An accepted search text never normalizes to nothing, so an empty slot in the key means that
      no search was asked for; and it brings no separator into the key. */
  lemma NormalizedIsSafe(search: Option<string>)
    requires search.Some? ==> SearchOk(search.value)
    ensures ':' !in Normalized(search)
    ensures Normalized(search) == "" <==> search.None?
  {
    if search.Some? {
      var text := search.value;
      TrimmedIsPrefix(text);
      assert forall c <- text :: Alphanumeric(c) || c == ' ' || c == '-' by {
        forall c <- text
          ensures Alphanumeric(c) || c == ' ' || c == '-'
        {
          var i :| 0 <= i < |text| && text[i] == c;
        }
      }
      NormalizedCharacters(TrimRight(text));
    }
  }

  lemma {:induction false} UpperIsExact(s: string)
    ensures |UpperAll(s)| == |s|
    ensures forall i | 0 <= i < |s| ::
              UpperAll(s)[i] == if 'a' <= s[i] <= 'z' then (s[i] as int - 32) as char else s[i]
  {
    if s != "" {
      UpperIsExact(s[1..]);
      forall i | 0 < i < |s|
        ensures UpperAll(s)[i] == UpperAll(s[1..])[i - 1]
      {
      }
    }
  }

  lemma {:induction false} TrimmedIsExact(s: string)
    ensures TrimRight(s) <= s && forall i | |TrimRight(s)| <= i < |s| :: s[i] == ' '
    ensures TrimRight(s) != "" ==> TrimRight(s)[|TrimRight(s)| - 1] != ' '
  {
    if s != "" && s[|s| - 1] == ' ' {
      TrimmedIsExact(s[..|s| - 1]);
    }
  }

  /** An accepted search text is normalized to itself without the blanks at its end, with small letters
      as capitals. */
  lemma NormalizedIsExact(text: string) returns (kept: nat)
    requires SearchOk(text)
    ensures 1 <= kept <= |text| && text[kept - 1] != ' ' && forall i | kept <= i < |text| :: text[i] == ' '
    ensures |Normalized(Some(text))| == kept
    ensures forall i | 0 <= i < kept ::
              Normalized(Some(text))[i] == if 'a' <= text[i] <= 'z' then (text[i] as int - 32) as char else text[i]
  {
    TrimmedIsExact(text);
    TrimmedIsPrefix(text);
    UpperIsExact(TrimRight(text));
    kept := |TrimRight(text)|;
  }

  /** What the query asks the database for. */
  datatype Query = Query(ids: seq<nat>, search: string, limit: nat)

  function PrintAll(ids: seq<nat>): seq<string> {
    if ids == [] then [] else [Decimal(ids[0])] + PrintAll(ids[1..])
  }

  function CacheKey(q: Query): string {
    "tle:" + (Join(PrintAll(q.ids), ',') + [':'] + (q.search + [':'] + Decimal(q.limit)))
  }

  lemma {:induction false} PrintAllIsJoinable(ids: seq<nat>)
    ensures |PrintAll(ids)| == |ids|
    ensures forall i | 0 <= i < |ids| :: PrintAll(ids)[i] == Decimal(ids[i])
    ensures Joinable(PrintAll(ids), ',') && Joinable(PrintAll(ids), ':')
  {
    if ids != [] {
      PrintAllIsJoinable(ids[1..]);
      DecimalIsDigits(ids[0]);
      var rest := PrintAll(ids[1..]);
      forall i | 0 <= i < |ids|
        ensures PrintAll(ids)[i] == Decimal(ids[i])
        ensures PrintAll(ids)[i] != "" && ',' !in PrintAll(ids)[i] && ':' !in PrintAll(ids)[i]
      {
        if i > 0 {
          assert PrintAll(ids)[i] == rest[i - 1];
        }
      }
    }
  }

  lemma IdsAreInjective(a: seq<nat>, b: seq<nat>)
    requires Join(PrintAll(a), ',') == Join(PrintAll(b), ',')
    ensures a == b
  {
    PrintAllIsJoinable(a);
    PrintAllIsJoinable(b);
    JoinInjective(PrintAll(a), PrintAll(b), ',');
    forall i | 0 <= i < |a|
      ensures a[i] == b[i]
    {
      DecimalInjective(a[i], b[i]);
    }
  }

  /** Two queries share a cache key only if they are the same query, so a cache hit always answers
      the question that was asked. */
  lemma CacheKeyIsInjective(a: Query, b: Query)
    requires ':' !in a.search && ':' !in b.search
    ensures CacheKey(a) == CacheKey(b) <==> a == b
  {
    if CacheKey(a) == CacheKey(b) {
      var p := "tle:";
      var idsA, idsB := Join(PrintAll(a.ids), ','), Join(PrintAll(b.ids), ',');
      var restA, restB := a.search + [':'] + Decimal(a.limit), b.search + [':'] + Decimal(b.limit);
      assert CacheKey(a)[|p|..] == idsA + [':'] + restA;
      assert CacheKey(b)[|p|..] == idsB + [':'] + restB;
      PrintAllIsJoinable(a.ids);
      PrintAllIsJoinable(b.ids);
      JoinCharacters(PrintAll(a.ids), ',', ':');
      JoinCharacters(PrintAll(b.ids), ',', ':');
      SplitAtFirst(idsA, restA, idsB, restB, ':');
      SplitAtFirst(a.search, Decimal(a.limit), b.search, Decimal(b.limit), ':');
      IdsAreInjective(a.ids, b.ids);
      DecimalInjective(a.limit, b.limit);
    }
  }

  /** In terms of the request: with accepted search texts, equal keys mean the same numbers, the
      same normalized search, absent or not in both, and the same limit. */
  lemma SameKeySameRequest(ids: seq<nat>, ids': seq<nat>, search: Option<string>, search': Option<string>, limit: nat,
      limit': nat)
    requires search.Some? ==> SearchOk(search.value)
    requires search'.Some? ==> SearchOk(search'.value)
    requires CacheKey(Query(ids, Normalized(search), limit)) == CacheKey(Query(ids', Normalized(search'), limit'))
    ensures ids == ids' && limit == limit'
    ensures search.None? <==> search'.None?
    ensures Normalized(search) == Normalized(search')
  {
    NormalizedIsSafe(search);
    NormalizedIsSafe(search');
    CacheKeyIsInjective(Query(ids, Normalized(search), limit), Query(ids', Normalized(search'), limit'));
  }
}
