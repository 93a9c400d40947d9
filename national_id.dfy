/** The Iranian national-ID (kod-e melli) check-digit rule of
    `validate_national_id`: ten ASCII digits, a weighted sum of the first
    nine with weights 10 down to 2, the sum modulo 11 mapped to a check digit,
    and the tenth digit compared against it. */
module NationalId {
  import opened Common

  const IdLength: nat := 10

  predicate IsAsciiDigit(c: char) {
    '0' <= c <= '9'
  }

  predicate IsDigitString(s: string) {
    forall i :: 0 <= i < |s| ==> IsAsciiDigit(s[i])
  }

  /** The format check: exactly ten ASCII decimal digits. */
  predicate IsWellFormed(s: string) {
    |s| == IdLength && IsDigitString(s)
  }

  /** `int(digit)` for one ASCII digit. */
  function DigitValue(c: char): (d: nat)
    requires IsAsciiDigit(c)
    ensures d <= 9
  {
    c as int - '0' as int
  }

  /** `[int(digit) for digit in national_id]` */
  function Digits(s: string): (ds: seq<nat>)
    requires IsDigitString(s)
    ensures |ds| == |s|
  {
    seq(|s|, i requires 0 <= i < |s| => DigitValue(s[i]))
  }

  predicate AllDigits(ds: seq<nat>) {
    forall i :: 0 <= i < |ds| ==> ds[i] <= 9
  }

  /** Sum of ds[i] * (10 - i) over the first n positions. For digits and at
      most ten positions it lies between 0 and 9 times the weights' total. */
  function WeightedSum(ds: seq<nat>, n: nat): (r: int)
    requires n <= |ds|
    ensures n <= 10 && AllDigits(ds) ==> 0 <= r <= 9 * WeightTotal(n)
  {
    if n == 0 then 0
    else
      var term := ds[n - 1] * (10 - (n - 1));
      assert n <= 10 && AllDigits(ds) ==> 0 <= term <= 9 * (10 - (n - 1)) by {
        if n <= 10 && AllDigits(ds) {
          MulBound(ds[n - 1], 10 - (n - 1));
        }
      }
      WeightedSum(ds, n - 1) + term
  }

  /** Sum of the weights 10, 9, ... of the first n positions. */
  function WeightTotal(n: nat): int {
    if n == 0 then 0 else WeightTotal(n - 1) + (10 - (n - 1))
  }

  /** Remainders 0 and 1 are kept; a remainder of 2..10 becomes 11 - rem. */
  function CheckDigit(rem: int): (c: nat)
    requires 0 <= rem < 11
    ensures c <= 9
    ensures rem >= 2 ==> 1 <= c
  {
    if rem >= 2 then 11 - rem else rem
  }

  /** The check digit that the first nine digits of ds call for. */
  function CheckValue(ds: seq<nat>): (c: nat)
    requires 9 <= |ds|
    ensures c <= 9
  {
    CheckDigit(WeightedSum(ds, 9) % 11)
  }

  /** What `validate_national_id` accepts. */
  predicate IsValidNationalId(s: string) {
    IsWellFormed(s) && DigitValue(s[9]) == CheckValue(Digits(s))
  }

  /** `validate_national_id`: returns normally or raises ValidationError. */
  method ValidateNationalId(nationalId: string) returns (r: Outcome)
    ensures r == Pass || r == Fail(ValidationError)
    ensures !IsWellFormed(nationalId) ==> r == Fail(ValidationError)
    ensures r == Pass <==>
              IsWellFormed(nationalId) &&
              DigitValue(nationalId[9]) == CheckDigit(WeightedSum(Digits(nationalId), 9) % 11)
  {
    if !(|nationalId| == IdLength && forall i :: 0 <= i < |nationalId| ==> IsAsciiDigit(nationalId[i])) {
      return Fail(ValidationError);
    }
    var digits := Digits(nationalId);
    var s := 0;
    for i := 0 to 9
      invariant s == WeightedSum(digits, i)
    {
      s := s + digits[i] * (10 - i);
    }
    // s is never negative, so Python's floored % and Dafny's agree here
    var rem := s % 11;
    if rem >= 2 {
      rem := 11 - rem;
    }
    if digits[9] != rem {
      return Fail(ValidationError);
    }
    return Pass;
  }

  lemma MulBound(d: nat, w: nat)
    requires d <= 9
    ensures 0 <= d * w <= 9 * w
  {
  }

  /** With weights 10 down to 2 the weighted sum lies in 0..486. */
  lemma SumRange(ds: seq<nat>)
    requires |ds| >= 9 && AllDigits(ds)
    ensures 0 <= WeightedSum(ds, 9) <= 486
  {
    assert WeightTotal(9) == 54;
  }

  /** The weighted sum depends only on the positions it weighs. */
  lemma {:induction false} WeightedSumOfPrefix(a: seq<nat>, b: seq<nat>, n: nat)
    requires n <= |a| && n <= |b| && a[..n] == b[..n]
    ensures WeightedSum(a, n) == WeightedSum(b, n)
  {
    if n > 0 {
      assert a[..n - 1] == a[..n][..n - 1] && b[..n - 1] == b[..n][..n - 1];
      assert a[n - 1] == a[..n][n - 1] && b[n - 1] == b[..n][n - 1];
      WeightedSumOfPrefix(a, b, n - 1);
    }
  }

  lemma DigitsOfAppend(p: string, c: char)
    requires IsDigitString(p) && IsAsciiDigit(c)
    ensures IsDigitString(p + [c])
    ensures Digits(p + [c])[..|p|] == Digits(p)
    ensures Digits(p + [c])[|p|] == DigitValue(c)
  {
  }

  /** For every nine-digit prefix, exactly one final digit is accepted: the
      check value of the prefix. */
  lemma ExactlyOneLastDigit(prefix: string, c: char)
    requires |prefix| == 9 && IsDigitString(prefix) && IsAsciiDigit(c)
    ensures IsValidNationalId(prefix + [c]) <==>
              DigitValue(c) == CheckDigit(WeightedSum(Digits(prefix), 9) % 11)
  {
    DigitsOfAppend(prefix, c);
    var ds := Digits(prefix + [c]);
    assert ds[..9] == Digits(prefix)[..9];
    WeightedSumOfPrefix(ds, Digits(prefix), 9);
    assert (prefix + [c])[9] == c;
  }

  /** Changing only the last digit of a valid ID always makes it invalid. */
  lemma LastDigitChangeDetected(id: string, c: char)
    requires IsValidNationalId(id) && IsAsciiDigit(c) && c != id[9]
    ensures !IsValidNationalId(id[..9] + [c])
  {
    var prefix := id[..9];
    assert id == prefix + [id[9]];
    ExactlyOneLastDigit(prefix, id[9]);
    ExactlyOneLastDigit(prefix, c);
  }

  /** The remainder-to-digit map is not injective: remainders 1 and 10 both
      give check digit 1, and that is the only collision. */
  lemma CheckDigitCollision(r1: int, r2: int)
    requires 0 <= r1 < r2 < 11
    ensures CheckDigit(r1) == CheckDigit(r2) <==> r1 == 1 && r2 == 10
  {
  }

  /** Hence a change among the first nine digits can go undetected: these two
      IDs differ only in their second digit and both are accepted. */
  lemma SingleDigitChangeUndetected()
    ensures IsValidNationalId("0000000061")
    ensures IsValidNationalId("0100000061")
  {
  }

  /** A checksum that holds: 8*8 + 4*7 + 5*6 + 7*5 + 5*4 + 9*3 + 4*2 = 212,
      212 % 11 = 3, and 11 - 3 = 8. */
  lemma KnownValidId()
    ensures IsValidNationalId("0084575948")
  {
  }
}
