/** Zero-padded decimal numerals, as Python's `{n:05d}` writes them. */
module Decimal {
  function Digit(d: nat): char
    requires d < 10
  {
    '0' + d as char
  }

  function Digits(n: nat): string {
    if n < 10 then [Digit(n)] else Digits(n / 10) + [Digit(n % 10)]
  }

  function Zeros(n: nat): string {
    seq(n, _ => '0')
  }

  /** At least `width` digits: a wider number keeps them all. */
  function Padded(width: nat, n: nat): string {
    var digits := Digits(n);
    if |digits| < width then Zeros(width - |digits|) + digits else digits
  }

  /** The number a run of digits stands for. */
  function Value(s: string): int {
    if s == [] then 0 else 10 * Value(s[..|s| - 1]) + (s[|s| - 1] as int - '0' as int)
  }

  lemma {:induction false} ValueOfDigits(n: nat)
    ensures Value(Digits(n)) == n
  {
    if n >= 10 {
      ValueOfDigits(n / 10);
      assert Digits(n)[..|Digits(n)| - 1] == Digits(n / 10);
    } else {
      assert Digits(n)[..0] == [];
    }
  }

  predicate HasNonDigit(s: string) {
    s != [] && (!('0' <= s[0] <= '9') || HasNonDigit(s[1..]))
  }

  lemma {:induction false} NonDigitOfConcat(s: string, t: string)
    ensures HasNonDigit(s + t) <==> HasNonDigit(s) || HasNonDigit(t)
  {
    if s == [] {
      assert s + t == t;
    } else {
      assert (s + t)[1..] == s[1..] + t;
      NonDigitOfConcat(s[1..], t);
    }
  }

  lemma {:induction false} DigitsOnly(n: nat)
    ensures !HasNonDigit(Digits(n))
  {
    if n >= 10 {
      DigitsOnly(n / 10);
      NonDigitOfConcat(Digits(n / 10), [Digit(n % 10)]);
    }
  }

  lemma {:induction false} LeadingZeros(k: nat, s: string)
    ensures Value(Zeros(k) + s) == Value(s)
  {
    var all := Zeros(k) + s;
    if s == [] {
      if k > 0 {
        assert all[..|all| - 1] == Zeros(k - 1) + [];
        LeadingZeros(k - 1, []);
      }
    } else {
      assert all[..|all| - 1] == Zeros(k) + s[..|s| - 1];
      LeadingZeros(k, s[..|s| - 1]);
    }
  }

  /** Padding loses nothing, however far a number outgrows its width. */
  lemma ValueOfPadded(width: nat, n: nat)
    ensures Value(Padded(width, n)) == n
  {
    ValueOfDigits(n);
    if |Digits(n)| < width {
      LeadingZeros(width - |Digits(n)|, Digits(n));
    }
  }

  /** So an id made of a fixed prefix and a padded number determines the number. */
  lemma PaddedIsInjective(prefix: string, width: nat, m: nat, n: nat)
    ensures prefix + Padded(width, m) == prefix + Padded(width, n) <==> m == n
  {
    ValueOfPadded(width, m);
    ValueOfPadded(width, n);
    assert (prefix + Padded(width, m))[|prefix|..] == Padded(width, m);
    assert (prefix + Padded(width, n))[|prefix|..] == Padded(width, n);
  }

  lemma {:induction false} DigitsLead(n: nat)
    ensures |Digits(n)| > 1 ==> Digits(n)[0] != '0'
  {
    if n >= 10 {
      DigitsLead(n / 10);
    }
  }

  lemma {:induction false} ZerosOnly(k: nat)
    ensures !HasNonDigit(Zeros(k))
  {
    if k > 0 {
      assert Zeros(k)[1..] == Zeros(k - 1);
      ZerosOnly(k - 1);
    }
  }

  /** What a padded numeral is: digits only, standing for the number, as many as the width, or
      more only where the number needs them, and then without a leading zero. */
  lemma PaddedForm(width: nat, n: nat)
    ensures !HasNonDigit(Padded(width, n)) && Value(Padded(width, n)) == n
    ensures |Padded(width, n)| >= width && |Padded(width, n)| > 0
    ensures |Padded(width, n)| > width && |Padded(width, n)| > 1 ==> Padded(width, n)[0] != '0'
  {
    ValueOfPadded(width, n);
    DigitsOnly(n);
    DigitsLead(n);
    if |Digits(n)| < width {
      ZerosOnly(width - |Digits(n)|);
      NonDigitOfConcat(Zeros(width - |Digits(n)|), Digits(n));
    }
  }
}
