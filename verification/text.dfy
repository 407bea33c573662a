/**
 Strings as sequences of characters: the case folding, substring test and
 decimal rendering that the automation scripts get from Python's `str.lower`,
 the `in` operator and f-string formatting of integers.
 */
module Text {
  import opened Wrappers

  /** `str.lower` on one character, for the ASCII letters 'A'..'Z'. */
  function LowerChar(c: char): char {
    if 'A' <= c <= 'Z' then (c as int + 32) as char else c
  }

  /** `str.lower` on a whole string, character by character. */
  function Lower(s: string): string {
    seq(|s|, i requires 0 <= i < |s| => LowerChar(s[i]))
  }

  /** `sub` occurs in `s` starting at position `i`. */
  predicate OccursAt(s: string, sub: string, i: int) {
    0 <= i && i + |sub| <= |s| && s[i..i + |sub|] == sub
  }

  /** Python's `sub in s`: `sub` occurs as a contiguous block of `s`. */
  predicate Contains(s: string, sub: string) {
    exists i | 0 <= i <= |s| - |sub| :: OccursAt(s, sub, i)
  }

  /** Whether `s` has a blank line (two consecutive newlines) starting at `i`. */
  predicate BlankLineAt(s: string, i: int) {
    0 <= i && i + 1 < |s| && s[i] == '\n' && s[i + 1] == '\n'
  }

  /** The first position at or after `from` where a blank line starts. */
  function FindBlankLine(s: string, from: nat): (r: Option<nat>)
    decreases |s| - from
    ensures r.Some? ==> from <= r.value && BlankLineAt(s, r.value)
    ensures r.Some? ==> forall j :: from <= j < r.value ==> !BlankLineAt(s, j)
    ensures r.None? ==> forall j :: from <= j ==> !BlankLineAt(s, j)
  {
    if from + 1 >= |s| then None
    else if s[from] == '\n' && s[from + 1] == '\n' then Some(from)
    else FindBlankLine(s, from + 1)
  }

  function DigitChar(d: nat): (c: char)
    requires d < 10
  {
    "0123456789"[d]
  }

  predicate IsDigit(c: char) {
    '0' <= c <= '9'
  }

  /** Decimal rendering of a natural number, most significant digit first, no leading zeros. */
  function NatToString(n: nat): string
    decreases n
  {
    if n < 10 then [DigitChar(n)] else NatToString(n / 10) + [DigitChar(n % 10)]
  }

  /** Python's `str(n)` / `f"{n}"` for an integer. */
  function IntToString(n: int): string {
    if n < 0 then "-" + NatToString(-n) else NatToString(n)
  }

  /** The value of a string of decimal digits (the reading direction of `NatToString`). */
  function ParseDigits(s: string): int
    decreases |s|
  {
    if |s| == 0 then 0 else 10 * ParseDigits(s[..|s| - 1]) + (s[|s| - 1] as int - '0' as int)
  }

  /** Python's `int(s)` on what `IntToString` produces. */
  function ParseInt(s: string): int {
    if |s| > 0 && s[0] == '-' then -ParseDigits(s[1..]) else ParseDigits(s)
  }

  /** Rendering a natural number gives a non-empty digit string that reads back as the number. */
  lemma {:induction false} NatToStringRoundTrip(n: nat)
    ensures |NatToString(n)| > 0
    ensures forall i :: 0 <= i < |NatToString(n)| ==> IsDigit(NatToString(n)[i])
    ensures ParseDigits(NatToString(n)) == n
    decreases n
  {
    if n >= 10 {
      NatToStringRoundTrip(n / 10);
      var s := NatToString(n);
      assert s[..|s| - 1] == NatToString(n / 10);
    }
  }

  /** `int(str(n)) == n` for every integer. */
  lemma IntToStringRoundTrip(n: int)
    ensures ParseInt(IntToString(n)) == n
  {
    if n < 0 {
      var digits := NatToString(-n);
      NatToStringRoundTrip(-n);
      assert IntToString(n) == "-" + digits;
      assert ("-" + digits)[1..] == digits;
    } else {
      var digits := NatToString(n);
      NatToStringRoundTrip(n);
      assert IsDigit(digits[0]);
      assert IntToString(n) == digits;
    }
  }

  /** Distinct integers have distinct decimal renderings. */
  lemma IntToStringInjective(a: int, b: int)
    ensures IntToString(a) == IntToString(b) ==> a == b
  {
    IntToStringRoundTrip(a);
    IntToStringRoundTrip(b);
  }
}
