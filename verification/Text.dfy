/** Printing numbers and putting strings together so that they can be taken apart again. */
module Text {

  function Digit(d: nat): char
    requires d < 10
  {
    "0123456789"[d]
  }

  function Decimal(n: nat): string {
    (if n < 10 then "" else Decimal(n / 10)) + [Digit(n % 10)]
  }

  predicate Digits(s: string) {
    forall c <- s :: '0' <= c <= '9'
  }

  lemma {:induction false} DecimalIsDigits(n: nat)
    ensures Decimal(n) != "" && Digits(Decimal(n))
  {
    if n >= 10 {
      DecimalIsDigits(n / 10);
    }
  }

  lemma {:induction false} DecimalInjective(a: nat, b: nat)
    requires Decimal(a) == Decimal(b)
    ensures a == b
  {
    var s, t := Decimal(a), Decimal(b);
    assert s[|s| - 1] == Digit(a % 10) && t[|t| - 1] == Digit(b % 10);
    if a >= 10 {
      DecimalIsDigits(a / 10);
    }
    if b >= 10 {
      DecimalIsDigits(b / 10);
    }
    assert s[..|s| - 1] == (if a < 10 then "" else Decimal(a / 10));
    assert t[..|t| - 1] == (if b < 10 then "" else Decimal(b / 10));
    if a >= 10 && b >= 10 {
      DecimalInjective(a / 10, b / 10);
    }
  }

  /** The number that a string of digits stands for. */
  function ValueOf(s: string): int {
    if s == "" then 0 else 10 * ValueOf(s[..|s| - 1]) + (s[|s| - 1] as int - '0' as int)
  }

  /** What is printed is the number, without leading zeros. */
  lemma {:induction false} DecimalIsTheNumber(n: nat)
    ensures Digits(Decimal(n)) && ValueOf(Decimal(n)) == n
    ensures Decimal(n) != "" && (n > 0 ==> Decimal(n)[0] != '0')
  {
    DecimalIsDigits(n);
    if n >= 10 {
      DecimalIsTheNumber(n / 10);
      assert Decimal(n)[..|Decimal(n)| - 1] == Decimal(n / 10);
    }
  }

  /** Where a separator does not occur in the parts before it, both parts can be read off. */
  lemma SplitAtFirst(a: string, b: string, a': string, b': string, c: char)
    requires a + [c] + b == a' + [c] + b'
    requires c !in a && c !in a'
    ensures a == a' && b == b'
  {
    var s := a + [c] + b;
    assert s[|a|] == c && s[|a'|] == c;
    assert forall i | 0 <= i < |a| :: s[i] == a[i] && s[i] != c;
    assert forall i | 0 <= i < |a'| :: s[i] == a'[i] && s[i] != c;
    assert s[..|a|] == a && s[..|a'|] == a';
    assert s[|a| + 1..] == b && s[|a'| + 1..] == b';
  }

  /** The same from the end. */
  lemma SplitAtLast(a: string, b: string, a': string, b': string, c: char)
    requires a + [c] + b == a' + [c] + b'
    requires c !in b && c !in b'
    ensures a == a' && b == b'
  {
    var s := a + [c] + b;
    assert s[|a|] == c && s[|a'|] == c;
    assert forall i | |a| < i < |s| :: s[i] == b[i - |a| - 1] && s[i] != c;
    assert forall i | |a'| < i < |s| :: s[i] == b'[i - |a'| - 1] && s[i] != c;
    assert s[..|a|] == a && s[..|a'|] == a';
    assert s[|a| + 1..] == b && s[|a'| + 1..] == b';
  }

  function Join(parts: seq<string>, separator: char): string {
    if parts == [] then ""
    else if |parts| == 1 then parts[0]
    else parts[0] + [separator] + Join(parts[1..], separator)
  }

  lemma {:induction false} JoinCharacters(parts: seq<string>, separator: char, c: char)
    requires c != separator && forall p <- parts :: c !in p
    ensures c !in Join(parts, separator)
  {
    if |parts| > 1 {
      JoinCharacters(parts[1..], separator, c);
    }
  }

  predicate Joinable(parts: seq<string>, separator: char) {
    forall i | 0 <= i < |parts| :: parts[i] != "" && separator !in parts[i]
  }

  lemma {:induction false} JoinInjective(a: seq<string>, b: seq<string>, separator: char)
    requires Join(a, separator) == Join(b, separator)
    requires Joinable(a, separator) && Joinable(b, separator)
    ensures a == b
    decreases |a|
  {
    if |a| > 1 && |b| > 1 {
      SplitAtFirst(a[0], Join(a[1..], separator), b[0], Join(b[1..], separator), separator);
      JoinInjective(a[1..], b[1..], separator);
      assert a == [a[0]] + a[1..] && b == [b[0]] + b[1..];
    } else {
      SeparatorShows(a, separator);
      SeparatorShows(b, separator);
    }
  }

  lemma SeparatorShows(parts: seq<string>, separator: char)
    requires Joinable(parts, separator)
    ensures separator in Join(parts, separator) <==> |parts| > 1
    ensures Join(parts, separator) == "" <==> parts == []
    ensures |parts| == 1 ==> parts == [Join(parts, separator)]
  {
    if |parts| > 1 {
      assert Join(parts, separator)[|parts[0]|] == separator;
    }
  }
}
