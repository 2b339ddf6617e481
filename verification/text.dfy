/**
 * Character classes of the C library in the "C" locale, ASCII case mapping,
 * joining with a separator, and decimal rendering: the string helpers the
 * rest of the model is written with.
 */
module Text {

  /** `std::isspace`: blank, tab, newline, vertical tab, form feed, carriage return. */
  predicate IsSpace(c: char) {
    c == ' ' || c == '\t' || c == '\n' || c == '\r' || c == 11 as char || c == 12 as char
  }

  /** `std::isalpha` */
  predicate IsAlpha(c: char) {
    ('a' <= c <= 'z') || ('A' <= c <= 'Z')
  }

  /** `std::isdigit` */
  predicate IsDigit(c: char) {
    '0' <= c <= '9'
  }

  /** The regular-expression class `\w`: letters, digits and underscore. */
  predicate IsWordChar(c: char) {
    IsAlpha(c) || IsDigit(c) || c == '_'
  }

  /** `s` does not contain `c`. */
  predicate Avoids(s: string, c: char)
  {
    forall i :: 0 <= i < |s| ==> s[i] != c
  }

  function LowerChar(c: char): char {
    if 'A' <= c <= 'Z' then (c as int - 'A' as int + 'a' as int) as char else c
  }

  function UpperChar(c: char): char {
    if 'a' <= c <= 'z' then (c as int - 'a' as int + 'A' as int) as char else c
  }

  /** ASCII lower-casing, character by character (`std::tolower` over a copy). */
  function Lower(s: string): (r: string)
    ensures |r| == |s|
    ensures forall i :: 0 <= i < |s| ==> r[i] == LowerChar(s[i])
  {
    seq(|s|, i requires 0 <= i < |s| => LowerChar(s[i]))
  }

  /** ASCII upper-casing (`StringUtil::Upper`). */
  function Upper(s: string): (r: string)
    ensures |r| == |s|
    ensures forall i :: 0 <= i < |s| ==> r[i] == UpperChar(s[i])
  {
    seq(|s|, i requires 0 <= i < |s| => UpperChar(s[i]))
  }

  /** Lower-casing is idempotent, so comparing lower-cased copies is case-insensitive. */
  lemma LowerIdempotent(s: string)
    ensures Lower(Lower(s)) == Lower(s)
  {
  }

  /** Lower-casing an upper-cased text gives the text lower-cased. */
  lemma LowerOfUpper(s: string)
    ensures Lower(Upper(s)) == Lower(s)
  {
    forall i | 0 <= i < |s|
      ensures Lower(Upper(s))[i] == Lower(s)[i]
    {
    }
  }

  /** Upper-casing leaves quotes alone: a quote-free text stays quote-free, and a quote stays. */
  lemma UpperKeepsQuotes(s: string)
    ensures Avoids(Upper(s), '\'') <==> Avoids(s, '\'')
  {
    forall i | 0 <= i < |s|
      ensures Upper(s)[i] == '\'' <==> s[i] == '\''
    {
    }
  }

  /** The parts separated by `sep`, with no separator before the first or after the last. */
  function Join(parts: seq<string>, sep: string): string
  {
    if |parts| == 0 then ""
    else if |parts| == 1 then parts[0]
    else parts[0] + sep + Join(parts[1..], sep)
  }

  /** Appending one part adds exactly one separator in front of it. */
  lemma {:induction false} JoinSnoc(parts: seq<string>, x: string, sep: string)
    requires |parts| > 0
    ensures Join(parts + [x], sep) == Join(parts, sep) + sep + x
  {
    if |parts| == 1 {
      assert parts + [x] == [parts[0], x];
      assert ([parts[0], x])[1..] == [x];
    } else {
      assert (parts + [x])[1..] == parts[1..] + [x];
      JoinSnoc(parts[1..], x, sep);
    }
  }

  /** Joining two non-empty lists is joining each and putting one separator between. */
  lemma {:induction false} JoinAppend(a: seq<string>, b: seq<string>, sep: string)
    requires |a| > 0 && |b| > 0
    ensures Join(a + b, sep) == Join(a, sep) + sep + Join(b, sep)
  {
    if |a| == 1 {
      assert (a + b)[1..] == b;
      assert (a + b)[0] == a[0];
    } else {
      assert (a + b)[1..] == a[1..] + b;
      JoinAppend(a[1..], b, sep);
    }
  }

  /** Each part followed by `term`, one after the other. */
  function Terminated(parts: seq<string>, term: string): string
  {
    if |parts| == 0 then "" else Terminated(parts[..|parts| - 1], term) + (parts[|parts| - 1] + term)
  }

  /** Terminating every part is joining them and terminating the last one. */
  lemma {:induction false} TerminatedIsJoin(parts: seq<string>, term: string)
    requires |parts| > 0
    ensures Terminated(parts, term) == Join(parts, term) + term
    decreases |parts|
  {
    if |parts| > 1 {
      var init := parts[..|parts| - 1];
      TerminatedIsJoin(init, term);
      JoinSnoc(init, parts[|parts| - 1], term);
      assert init + [parts[|parts| - 1]] == parts;
    }
  }

  /** Joining text that avoids `c` with a separator that avoids it gives text that avoids it. */
  lemma {:induction false} JoinAvoids(parts: seq<string>, sep: string, c: char)
    requires Avoids(sep, c)
    requires forall i :: 0 <= i < |parts| ==> Avoids(parts[i], c)
    ensures Avoids(Join(parts, sep), c)
    decreases |parts|
  {
    if |parts| > 1 {
      JoinAvoids(parts[1..], sep, c);
      assert Avoids(parts[0], c);
    }
  }

  /** Total length of the parts. */
  function TotalLength(parts: seq<string>): nat
  {
    if |parts| == 0 then 0 else |parts[0]| + TotalLength(parts[1..])
  }

  /** The joined text holds every part and exactly `|parts| - 1` separators. */
  lemma {:induction false} JoinLength(parts: seq<string>, sep: string)
    requires |parts| > 0
    ensures |Join(parts, sep)| == TotalLength(parts) + (|parts| - 1) * |sep|
  {
    if |parts| > 1 {
      JoinLength(parts[1..], sep);
    }
  }

  /** The decimal digit of `d`. */
  function DigitChar(d: nat): char
    requires d < 10
  {
    ('0' as int + d) as char
  }

  /** Decimal rendering of a natural number, as `operator<<` on an int prints it. */
  function NatToString(n: nat): (s: string)
    ensures |s| > 0
    ensures forall i :: 0 <= i < |s| ==> IsDigit(s[i])
  {
    if n < 10 then [DigitChar(n)] else NatToString(n / 10) + [DigitChar(n % 10)]
  }

  /** Value of a string of decimal digits (what `std::stoi` reads from a digit run). */
  function DigitsValue(s: string): nat
    requires forall i :: 0 <= i < |s| ==> IsDigit(s[i])
  {
    if |s| == 0 then 0
    else
      assert IsDigit(s[|s| - 1]);
      10 * DigitsValue(s[..|s| - 1]) + (s[|s| - 1] as int - '0' as int)
  }

  /** Rendering and reading back a number gives the number again. */
  lemma {:induction false} DigitsValueOfNatToString(n: nat)
    ensures DigitsValue(NatToString(n)) == n
  {
    if n >= 10 {
      var s := NatToString(n);
      assert s[..|s| - 1] == NatToString(n / 10);
      DigitsValueOfNatToString(n / 10);
    }
  }
}
