/** Character classes, decimal numerals and string helpers shared by the
    command grammar, the day grid and the display text. */
module Text {

  datatype Option<+T> = None | Some(value: T)

  predicate IsDigit(c: char) { '0' <= c <= '9' }

  /** The characters `\s` stands for in Go's regular expressions:
      tab, newline, form feed, carriage return and space. */
  predicate IsSpace(c: char)
  {
    c == ' ' || c == '\t' || c == '\n' || c == '\U{000C}' || c == '\r'
  }

  predicate AllDigits(s: string) { forall i :: 0 <= i < |s| ==> IsDigit(s[i]) }

  predicate AllSpace(s: string) { forall i :: 0 <= i < |s| ==> IsSpace(s[i]) }

  /** What `[0-9]+` matches. */
  predicate IsNumeral(s: string) { |s| > 0 && AllDigits(s) }

  function DigitValue(c: char): nat
    requires IsDigit(c)
  {
    c as int - '0' as int
  }

  function DigitChar(d: nat): char
    requires d < 10
  {
    ('0' as int + d) as char
  }

  /** The number a string of decimal digits denotes (leading zeros allowed). */
  function DecimalValue(s: string): nat
    requires AllDigits(s)
  {
    if s == [] then 0 else DecimalValue(s[..|s| - 1]) * 10 + DigitValue(s[|s| - 1])
  }

  /** `strconv.Atoi` on the strings the command grammar hands it: a numeral
      gives its value, anything else (in practice the empty capture of an
      unused regex group) gives 0. Numerals are unbounded here. */
  function Atoi(s: string): (n: nat)
    ensures IsNumeral(s) ==> n == DecimalValue(s)
    ensures s == [] ==> n == 0
  {
    if IsNumeral(s) then DecimalValue(s) else 0
  }

  /** `fmt.Sprint` of a non-negative int: its decimal numeral, no leading zeros. */
  function NatToString(n: nat): (s: string)
    ensures IsNumeral(s)
    ensures s[0] == '0' ==> n == 0
  {
    if n < 10 then [DigitChar(n)] else NatToString(n / 10) + [DigitChar(n % 10)]
  }

  lemma {:induction false} NatToStringValue(n: nat)
    ensures DecimalValue(NatToString(n)) == n
  {
    if n >= 10 {
      var s := NatToString(n);
      assert s[..|s| - 1] == NatToString(n / 10);
      NatToStringValue(n / 10);
    }
  }

  lemma NatToStringInjective(a: nat, b: nat)
    requires NatToString(a) == NatToString(b)
    ensures a == b
  {
    NatToStringValue(a);
    NatToStringValue(b);
  }

  /** The lower case of `c` where that is an ASCII letter: the ASCII capitals,
      and the two non-ASCII letters whose lower case is ASCII (the dotted
      capital I and the Kelvin sign). */
  function LowerChar(c: char): char
  {
    if 'A' <= c <= 'Z' then (c as int + 32) as char
    else if c == '\U{0130}' then 'i'
    else if c == '\U{212A}' then 'k'
    else c
  }

  /** `strings.ToLower`, exact on every result that is ASCII. */
  function Lower(s: string): (r: string)
    ensures |r| == |s|
    ensures forall i :: 0 <= i < |s| ==> r[i] == LowerChar(s[i])
  {
    if s == [] then [] else [LowerChar(s[0])] + Lower(s[1..])
  }

  lemma LowerIdempotent(s: string)
    ensures Lower(Lower(s)) == Lower(s)
  {
  }

  lemma ConcatAssoc(a: string, b: string, c: string)
    ensures (a + b) + c == a + (b + c)
  {
  }

  lemma PrefixSnoc<T>(s: seq<T>, i: nat)
    requires i < |s|
    ensures s[..i + 1] == s[..i] + [s[i]]
  {
  }

  /** The concatenation of `parts`, in order. */
  function Concat(parts: seq<string>): string
  {
    if parts == [] then "" else Concat(parts[..|parts| - 1]) + parts[|parts| - 1]
  }

  function Occurrences(s: string, c: char): nat
  {
    if s == [] then 0 else Occurrences(s[..|s| - 1], c) + (if s[|s| - 1] == c then 1 else 0)
  }

  lemma {:induction false} OccurrencesAppend(a: string, b: string, c: char)
    ensures Occurrences(a + b, c) == Occurrences(a, c) + Occurrences(b, c)
    decreases |b|
  {
    if b != [] {
      assert (a + b)[..|a + b| - 1] == a + b[..|b| - 1];
      OccurrencesAppend(a, b[..|b| - 1], c);
    } else {
      assert a + b == a;
    }
  }

  lemma OccurrencesAbsent(s: string, c: char)
    requires forall i :: 0 <= i < |s| ==> s[i] != c
    ensures Occurrences(s, c) == 0
  {
    if s != [] {
      OccurrencesAbsent(s[..|s| - 1], c);
    }
  }

  /** A line: text ending in one newline and containing no other. */
  predicate IsLine(s: string)
  {
    |s| > 0 && s[|s| - 1] == '\n' && forall i :: 0 <= i < |s| - 1 ==> s[i] != '\n'
  }

  /** Joining lines gives a text with exactly one newline per line. */
  lemma {:induction false} ConcatLines(lines: seq<string>)
    requires forall i :: 0 <= i < |lines| ==> IsLine(lines[i])
    ensures Occurrences(Concat(lines), '\n') == |lines|
  {
    if lines != [] {
      var last := lines[|lines| - 1];
      ConcatLines(lines[..|lines| - 1]);
      OccurrencesAppend(Concat(lines[..|lines| - 1]), last, '\n');
      OccurrencesAbsent(last[..|last| - 1], '\n');
      assert last == last[..|last| - 1] + "\n";
      OccurrencesAppend(last[..|last| - 1], "\n", '\n');
      assert Occurrences("\n", '\n') == 1 by {
        assert "\n"[..0] == [];
      }
    }
  }
}
