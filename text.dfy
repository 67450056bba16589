/**
 * The few string operations the workshop code relies on: `startsWith`,
 * `includes`, the `x || null` idiom for optional text, and writing and
 * reading a count in decimal (template literals, `toString`, `parseInt`).
 */
module Text {
  import opened Wrappers

  /** `s.startsWith(prefix)` */
  predicate StartsWith(s: string, prefix: string) {
    |prefix| <= |s| && s[..|prefix|] == prefix
  }

  /** `s` ends with `suffix`. */
  predicate EndsWith(s: string, suffix: string) {
    |suffix| <= |s| && s[|s| - |suffix|..] == suffix
  }

  /** `s.includes(sub)`: some position of `s` starts a copy of `sub`. */
  predicate Includes(s: string, sub: string)
    decreases |s|
  {
    StartsWith(s, sub) || (|s| > 0 && Includes(s[1..], sub))
  }

  /** `x || null` for an optional string: undefined and the empty string both become null. */
  function OrNull(x: Option<string>): (r: Option<string>)
    ensures r.Some? ==> r == x && r.value != ""
    ensures r.None? <==> x.None? || x.value == ""
  {
    if x.Some? && x.value != "" then x else None
  }

  predicate IsDigit(c: char) {
    '0' <= c <= '9'
  }

  predicate AllDigits(s: string) {
    forall i :: 0 <= i < |s| ==> IsDigit(s[i])
  }

  function DigitChar(d: nat): (c: char)
    requires d < 10
    ensures IsDigit(c) && c as int - '0' as int == d
  {
    ('0' as int + d) as char
  }

  /** The decimal numeral of `n`, as a template literal or `toString` writes it. */
  function Decimal(n: nat): (s: string)
    ensures |s| > 0 && AllDigits(s)
  {
    if n < 10 then [DigitChar(n)] else Decimal(n / 10) + [DigitChar(n % 10)]
  }

  /** The number a string of digits denotes. */
  function Value(s: string): nat
    requires AllDigits(s)
  {
    if s == [] then 0 else Value(s[..|s| - 1]) * 10 + (s[|s| - 1] as int - '0' as int)
  }

  /** The longest prefix of `s` made of digits. */
  function LeadingDigits(s: string): (d: string)
    ensures AllDigits(d) && StartsWith(s, d)
    ensures |d| < |s| ==> !IsDigit(s[|d|])
  {
    if s == [] || !IsDigit(s[0]) then [] else [s[0]] + LeadingDigits(s[1..])
  }

  /** `parseInt(s, 10)` on text that carries no sign and no leading blanks: NaN is `None`. */
  function ParseInt(s: string): Option<nat> {
    var d := LeadingDigits(s);
    if d == [] then None else Some(Value(d))
  }

  /** The count written at position `at` of `s`, read up to the first non-digit. */
  function NumberAt(s: string, at: nat): nat
    requires at <= |s|
  {
    Value(LeadingDigits(s[at..]))
  }

  lemma {:induction false} ValueOfDecimal(n: nat)
    ensures Value(Decimal(n)) == n
  {
    if n >= 10 {
      ValueOfDecimal(n / 10);
      var s := Decimal(n / 10) + [DigitChar(n % 10)];
      assert s[..|s| - 1] == Decimal(n / 10);
    }
  }

  lemma {:induction false} LeadingDigitsOfNumeral(d: string, rest: string)
    requires AllDigits(d)
    requires rest == [] || !IsDigit(rest[0])
    ensures LeadingDigits(d + rest) == d
  {
    if d == [] {
      assert d + rest == rest;
    } else {
      assert (d + rest)[1..] == d[1..] + rest;
      LeadingDigitsOfNumeral(d[1..], rest);
    }
  }

  /** `parseInt(n.toString())` gives `n` back. */
  lemma ParseIntOfDecimal(n: nat)
    ensures ParseInt(Decimal(n)) == Some(n)
  {
    assert Decimal(n) + [] == Decimal(n);
    LeadingDigitsOfNumeral(Decimal(n), []);
    ValueOfDecimal(n);
  }

  /** A count written as a template-literal hole between a prefix and a suffix that does not
      start with a digit can be read back from the text. */
  lemma NumberAfterPrefix(prefix: string, n: nat, suffix: string)
    requires suffix == [] || !IsDigit(suffix[0])
    ensures NumberAt(prefix + Decimal(n) + suffix, |prefix|) == n
  {
    var s := prefix + Decimal(n) + suffix;
    assert s[|prefix|..] == Decimal(n) + suffix;
    LeadingDigitsOfNumeral(Decimal(n), suffix);
    ValueOfDecimal(n);
  }
}
