/** lib/zod-validations.ts: the card-number refinement (the Luhn check of
    ISO/IEC 7812-1, Annex B), the digit-string, CVC and minimum-length rules,
    and the non-empty-times refinement of the time-slot form. A schema rule
    is modelled as the list of issues it reports; the value is accepted when
    that list is empty. */
module Validations {
  import opened Types

  /** One issue a rule can report. `None` stands for Zod's default message. */
  datatype Issue =
    | InvalidString(regexMessage: string)            // a failed `.regex`
    | TooSmall(minimum: nat, message: Option<string>) // a failed `.min`
    | TooBig(maximum: nat, message: Option<string>)   // a failed `.max`
    | Custom(refineMessage: string)                  // a failed `.refine`

  predicate IsDigit(c: char)
  {
    '0' <= c <= '9'
  }

  predicate AllDigits(s: string)
  {
    forall i :: 0 <= i < |s| ==> IsDigit(s[i])
  }

  /** `parseInt` of one digit character. */
  function DigitValue(c: char): (v: int)
    requires IsDigit(c)
    ensures 0 <= v <= 9
  {
    c as int - '0' as int
  }

  // ---------------------------------------------------------------------
  // Regular expressions

  /** `/^\d+$/.test(s)`, matched one character at a time. */
  function MatchesDigits(s: string): (ok: bool)
    ensures ok <==> |s| >= 1 && AllDigits(s)
  {
    |s| >= 1 && IsDigit(s[0]) && (|s| == 1 || MatchesDigits(s[1..]))
  }

  /** `/^[\d ]+$/.test(s)`, matched one character at a time. */
  function MatchesDigitsOrSpaces(s: string): (ok: bool)
    ensures ok <==> |s| >= 1 && forall i :: 0 <= i < |s| ==> IsDigit(s[i]) || s[i] == ' '
  {
    |s| >= 1 && (IsDigit(s[0]) || s[0] == ' ') && (|s| == 1 || MatchesDigitsOrSpaces(s[1..]))
  }

  /** `s.replace(/\D/g, "")`: the digit characters of `s`, in order. */
  function Digits(s: string): (r: string)
    ensures AllDigits(r)
    ensures forall c :: c in r <==> c in s && IsDigit(c)
    ensures Subseq(r, s)
    ensures |r| <= |s|
  {
    if s == [] then []
    else
      assert s == [s[0]] + s[1..];
      var rest := Digits(s[1..]);
      if IsDigit(s[0]) then
        assert ([s[0]] + rest)[1..] == rest;
        [s[0]] + rest
      else
        SubseqDropHead(rest, s[0], s[1..]);
        rest
  }

  /** The digits are exactly those of `s`, in order and with their
      multiplicity. */
  lemma {:induction false} DigitsExact(s: string)
    ensures Subseq(Digits(s), s)
    ensures forall c :: multiset(Digits(s))[c] == if IsDigit(c) then multiset(s)[c] else 0
  {
    if s != [] {
      DigitsExact(s[1..]);
      assert s == [s[0]] + s[1..];
    }
  }

  lemma {:induction false} DigitsAppend(a: string, b: string)
    ensures Digits(a + b) == Digits(a) + Digits(b)
  {
    if a == [] {
      assert a + b == b;
    } else {
      assert (a + b)[0] == a[0];
      assert (a + b)[1..] == a[1..] + b;
      DigitsAppend(a[1..], b);
    }
  }

  lemma {:induction false} DigitsOfNonDigits(s: string)
    requires forall i :: 0 <= i < |s| ==> !IsDigit(s[i])
    ensures Digits(s) == []
  {
    if s != [] {
      DigitsOfNonDigits(s[1..]);
    }
  }

  lemma {:induction false} DigitsOfDigits(s: string)
    requires AllDigits(s)
    ensures Digits(s) == s
  {
    if s != [] {
      DigitsOfDigits(s[1..]);
    }
  }

  // ---------------------------------------------------------------------
  // The Luhn check

  /** What one digit adds to the sum: the digit itself, or, for a doubled
      digit, its double reduced by 9 when above 9. */
  function LuhnContribution(d: int, doubled: bool): (r: int)
    requires 0 <= d <= 9
    ensures 0 <= r <= 9
    ensures !doubled ==> r == d
    ensures doubled ==> r == (2 * d) / 10 + (2 * d) % 10
  {
    if !doubled then d
    else if 2 * d > 9 then 2 * d - 9
    else 2 * d
  }

  /** Distinct digits contribute distinct amounts, doubled or not. */
  lemma LuhnContributionInjective(d1: int, d2: int, doubled: bool)
    requires 0 <= d1 <= 9 && 0 <= d2 <= 9 && d1 != d2
    ensures LuhnContribution(d1, doubled) != LuhnContribution(d2, doubled)
  {
    if doubled && 2 * d1 > 9 && 2 * d2 <= 9 {
      assert (2 * d1 - 9) % 2 == 1;
    } else if doubled && 2 * d1 <= 9 && 2 * d2 > 9 {
      assert (2 * d2 - 9) % 2 == 1;
    }
  }

  /** Whether the digit at index `j` of a string of `n` digits is doubled:
      every second digit, counting from the rightmost one, which is not. */
  predicate Doubled(n: int, j: int)
  {
    (n - 1 - j) % 2 == 1
  }

  /** Moving one digit to the left flips whether it is doubled. */
  lemma DoubledAlternates(n: int, j: int)
    ensures Doubled(n, j - 1) == !Doubled(n, j)
  {
  }

  /** The Luhn sum of a digit string. */
  function LuhnSum(ds: string): (sum: int)
    requires AllDigits(ds)
    ensures 0 <= sum <= 9 * |ds|
  {
    if ds == [] then 0
    else LuhnContribution(DigitValue(ds[0]), Doubled(|ds|, 0)) + LuhnSum(ds[1..])
  }

  /** Changing one digit changes the sum by exactly the change in that
      digit's contribution. */
  lemma {:induction false} LuhnSumUpdate(ds: string, i: int, c: char)
    requires AllDigits(ds) && 0 <= i < |ds| && IsDigit(c)
    ensures AllDigits(ds[i := c])
    ensures LuhnSum(ds[i := c]) == LuhnSum(ds)
      - LuhnContribution(DigitValue(ds[i]), Doubled(|ds|, i))
      + LuhnContribution(DigitValue(c), Doubled(|ds|, i))
  {
    var ds' := ds[i := c];
    if i == 0 {
      assert ds'[1..] == ds[1..];
    } else {
      assert ds'[1..] == ds[1..][i - 1 := c];
      LuhnSumUpdate(ds[1..], i - 1, c);
    }
  }

  /** The promise of `CreditCardNumber`: the digits of the input, all other
      characters discarded, form a non-empty string whose Luhn sum is a
      multiple of 10. */
  predicate IsValidCardNumber(number: string)
    ensures IsValidCardNumber(number) ==> exists i :: 0 <= i < |number| && IsDigit(number[i])
  {
    var ds := Digits(number);
    assert |ds| >= 1 ==> ds[0] in ds;
    |ds| >= 1 && LuhnSum(ds) % 10 == 0
  }

  /** The refinement of `CreditCardNumber`. */
  method CreditCardNumber(number: string) returns (ok: bool)
    ensures ok == IsValidCardNumber(number)
  {
    var cleanedNumber := Digits(number);
    if !MatchesDigitsOrSpaces(cleanedNumber) {
      return false;
    }
    var sum := 0;
    var shouldDouble := false;
    var i := |cleanedNumber| - 1;
    while i >= 0
      invariant -1 <= i < |cleanedNumber|
      invariant sum == LuhnSum(cleanedNumber[i + 1..])
      invariant shouldDouble == Doubled(|cleanedNumber|, i)
    {
      assert cleanedNumber[i..][1..] == cleanedNumber[i + 1..];
      assert LuhnSum(cleanedNumber[i..]) ==
        LuhnContribution(DigitValue(cleanedNumber[i]), shouldDouble) + LuhnSum(cleanedNumber[i + 1..]);
      DoubledAlternates(|cleanedNumber|, i);
      var digit := DigitValue(cleanedNumber[i]);
      if shouldDouble {
        digit := digit * 2;
        if digit > 9 {
          digit := digit - 9;
        }
      }
      sum := sum + digit;
      shouldDouble := !shouldDouble;
      i := i - 1;
    }
    assert cleanedNumber[0..] == cleanedNumber;
    ok := sum % 10 == 0;
  }

  /** Inserting non-digit characters (spaces, dashes, letters) anywhere never
      changes whether a card number is valid. */
  lemma NonDigitsIgnored(a: string, junk: string, b: string)
    requires forall i :: 0 <= i < |junk| ==> !IsDigit(junk[i])
    ensures IsValidCardNumber(a + junk + b) == IsValidCardNumber(a + b)
  {
    DigitsOfNonDigits(junk);
    DigitsAppend(a + junk, b);
    DigitsAppend(a, junk);
    DigitsAppend(a, b);
    assert Digits(a + junk + b) == Digits(a + b);
  }

  /** An input without a single digit is rejected. */
  lemma NoDigitsRejected(number: string)
    requires forall i :: 0 <= i < |number| ==> !IsDigit(number[i])
    ensures !IsValidCardNumber(number)
  {
    DigitsOfNonDigits(number);
  }

  lemma DigitsSplice(pre: string, x: char, post: string)
    requires IsDigit(x)
    ensures Digits(pre + [x] + post) == Digits(pre) + [x] + Digits(post)
  {
    DigitsAppend(pre + [x], post);
    DigitsAppend(pre, [x]);
    DigitsOfDigits([x]);
  }

  /** In a digit string whose Luhn sum is a multiple of 10, changing one
      digit to another makes it no longer one. */
  lemma LuhnDetectsSingleDigitError(ds: string, i: int, c: char)
    requires AllDigits(ds) && 0 <= i < |ds| && IsDigit(c) && c != ds[i]
    requires LuhnSum(ds) % 10 == 0
    ensures AllDigits(ds[i := c]) && LuhnSum(ds[i := c]) % 10 != 0
  {
    LuhnSumUpdate(ds, i, c);
    var old_, new_ := LuhnContribution(DigitValue(ds[i]), Doubled(|ds|, i)), LuhnContribution(DigitValue(c), Doubled(|ds|, i));
    LuhnContributionInjective(DigitValue(ds[i]), DigitValue(c), Doubled(|ds|, i));
    MultipleOfTenShifted(LuhnSum(ds), old_, new_);
  }

  lemma MultipleOfTenShifted(s: int, a: int, b: int)
    requires s % 10 == 0 && 0 <= a <= 9 && 0 <= b <= 9 && a != b
    ensures (s - a + b) % 10 != 0
  {
    var q := s / 10;
    if a < b {
      assert s - a + b == 10 * q + (b - a);
    } else {
      assert s - a + b == 10 * (q - 1) + (10 + b - a);
    }
  }

  /** A valid card number with one digit mistyped as another digit is
      rejected. */
  lemma SingleDigitTypoRejected(number: string, j: int, c: char)
    requires 0 <= j < |number| && IsDigit(number[j]) && IsDigit(c) && c != number[j]
    requires IsValidCardNumber(number)
    ensures !IsValidCardNumber(number[j := c])
  {
    var pre, post := number[..j], number[j + 1..];
    assert number == pre + [number[j]] + post;
    assert number[j := c] == pre + [c] + post;
    DigitsSplice(pre, number[j], post);
    DigitsSplice(pre, c, post);
    SpliceUpdate(Digits(pre), number[j], c, Digits(post));
    LuhnDetectsSingleDigitError(Digits(number), |Digits(pre)|, c);
  }

  lemma SpliceUpdate<T>(a: seq<T>, x: T, y: T, b: seq<T>)
    ensures (a + [x] + b)[|a| := y] == a + [y] + b
  {
  }

  // ---------------------------------------------------------------------
  // The other schema rules

  function MinLength(s: string, n: nat, message: Option<string>): seq<Issue>
  {
    if |s| < n then [TooSmall(n, message)] else []
  }

  function MaxLength(s: string, n: nat, message: Option<string>): seq<Issue>
  {
    if |s| > n then [TooBig(n, message)] else []
  }

  /** `requiredString`. */
  function RequiredString(s: string): (issues: seq<Issue>)
    ensures issues == [] <==> |s| >= 3
    ensures issues != [] ==> issues == [TooSmall(3, Some("C\U{00E2}mp obligatoriu"))]
  {
    MinLength(s, 3, Some("C\U{00E2}mp obligatoriu"))
  }

  /** `requiredString.max(50)`, the instructor's and the card holder's name. */
  function NameString(s: string): (issues: seq<Issue>)
    ensures issues == [] <==> 3 <= |s| <= 50
  {
    RequiredString(s) + MaxLength(s, 50, None)
  }

  /** `numericString`: absent, or digits only and at most 13 of them. Zod
      reports every failed check, so an over-long non-number gets both
      issues. */
  function NumericString(v: Option<string>): (issues: seq<Issue>)
    ensures issues == [] <==> v.None? || (1 <= |v.value| <= 13 && AllDigits(v.value))
  {
    match v
    case None => []
    case Some(s) =>
      (if MatchesDigits(s) then [] else [InvalidString("Trebuie s\U{0103} fie un num\U{0103}r")]) +
      MaxLength(s, 13, Some("Num\U{0103}rul trebuie s\U{0103} aib\U{0103} maxim 13 cifre"))
  }

  /** The `cvc` rule. */
  function Cvc(s: string): (issues: seq<Issue>)
    ensures issues == [] <==> |s| == 3 && AllDigits(s)
  {
    (if MatchesDigits(s) then [] else [InvalidString("Trebuie s\U{0103} fie un num\U{0103}r")]) +
    MinLength(s, 3, None) + MaxLength(s, 3, None)
  }

  /** The value of a digit string. */
  function DecimalValue(s: string): (v: int)
    requires AllDigits(s)
    ensures 0 <= v < Pow10(|s|)
  {
    if s == [] then 0
    else DecimalValue(s[..|s| - 1]) * 10 + DigitValue(s[|s| - 1])
  }

  function Pow10(n: nat): (p: int)
    ensures p >= 1
  {
    if n == 0 then 1 else 10 * Pow10(n - 1)
  }

  lemma {:induction false} Pow10Monotone(m: nat, n: nat)
    requires m <= n
    ensures Pow10(m) <= Pow10(n)
  {
    if m < n {
      Pow10Monotone(m, n - 1);
    }
  }

  /** An accepted cost string is below 10^13, so the cost in minor units
      (times 100) stays below 2^53 and a double holds it exactly. */
  lemma NumericCostExact(s: string)
    requires NumericString(Some(s)) == []
    ensures DecimalValue(s) < 10000000000000
    ensures DecimalValue(s) * 100 < 9007199254740992
  {
    Pow10Monotone(|s|, 13);
    assert Pow10(13) == 10000000000000;
  }

  // ---------------------------------------------------------------------
  // The time-slot form

  /** A JavaScript `Date` object is truthy whatever time it holds. */
  predicate DateTruthy(d: Millis)
  {
    true
  }

  /** `xs.some(p)`, which stops at the first element `p` holds of. */
  function ArraySome(xs: seq<Millis>, p: Millis -> bool): (found: bool)
    ensures found <==> exists i :: 0 <= i < |xs| && p(xs[i])
  {
    if xs == [] then false
    else if p(xs[0]) then true
    else
      var found := ArraySome(xs[1..], p);
      assert forall i :: 0 < i < |xs| ==> xs[i] == xs[1..][i - 1];
      found
  }

  /** The refinement of `addTimeSlotsSchema.times`: accepted exactly when at
      least one time is selected. */
  function SelectedTimes(times: seq<Millis>): (issues: seq<Issue>)
    ensures issues == [] <==> |times| >= 1
  {
    if ArraySome(times, DateTruthy) then []
    else [Custom("Trebuie s\U{0103} selectezi cel pu\U{021B}in un interval orar.")]
  }
}
