/** Decimal formatting of a count and the "N noun" pluralisation used in
    check messages (go-humanize's english.Plural, as far as it is observable). */
module English {

  predicate IsDigit(c: char)
  {
    '0' <= c <= '9'
  }

  predicate AllDigits(s: string)
  {
    forall k :: 0 <= k < |s| ==> IsDigit(s[k])
  }

  function DigitChar(d: nat): (c: char)
    requires d < 10
    ensures IsDigit(c) && c as int - '0' as int == d
  {
    ('0' as int + d) as char
  }

  /** The decimal representation of `n`, as `%d` prints it. */
  function NatToString(n: nat): (s: string)
    ensures |s| >= 1 && AllDigits(s)
    ensures |s| > 1 ==> s[0] != '0'
    decreases n
  {
    if n < 10 then [DigitChar(n)] else NatToString(n / 10) + [DigitChar(n % 10)]
  }

  /** The number a string of decimal digits denotes. */
  function DigitsValue(s: string): nat
    requires AllDigits(s)
    decreases |s|
  {
    if s == [] then 0 else DigitsValue(s[..|s| - 1]) * 10 + (s[|s| - 1] as int - '0' as int)
  }

  /** Reading back the digits of a count gives the count: the message states N. */
  lemma {:induction false} NatToStringRoundTrip(n: nat)
    ensures DigitsValue(NatToString(n)) == n
    decreases n
  {
    if n >= 10 {
      var s := NatToString(n);
      assert s[..|s| - 1] == NatToString(n / 10);
      NatToStringRoundTrip(n / 10);
    }
  }

  /** `english.Plural(n, singular, plural)`: the count, a space and the noun,
      singular exactly when the count is one. */
  function Plural(n: nat, singular: string, plural: string): string
  {
    NatToString(n) + " " + (if n == 1 then singular else plural)
  }

  lemma PluralIsSingularExactlyForOne(n: nat, singular: string, plural: string)
    requires singular != plural
    ensures Plural(n, singular, plural) == NatToString(n) + " " + singular <==> n == 1
  {
    var head := NatToString(n) + " ";
    if n != 1 {
      assert Plural(n, singular, plural)[|head|..] == plural;
      assert (head + singular)[|head|..] == singular;
    }
  }
}
