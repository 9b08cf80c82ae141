/**
 The CPF (individual taxpayer number) validator of `ClienteService`.

 `IsValidCpf` is the reference definition, stated with the published weight
 tables 10..2 and 11..2; `ValidateCpf` follows the service's own steps (strip,
 length check, repeated-digit check, two accumulating loops, comparison) and is
 proved to compute exactly the reference predicate.
 */
module Cpf {
  import opened Digits
  import opened CheckDigits

  /** Weights of the first check digit, applied to digits 0..8. */
  const FirstWeights: seq<nat> := [10, 9, 8, 7, 6, 5, 4, 3, 2]

  /** Weights of the second check digit, applied to digits 0..9. */
  const SecondWeights: seq<nat> := [11, 10, 9, 8, 7, 6, 5, 4, 3, 2]

  /** The pattern `(\d)\1{10}` matched against a whole string: eleven copies
      of one digit. */
  predicate RepeatsOneDigit(d: seq<char>) {
    |d| == 11 && IsDigit(d[0]) && forall i :: 0 <= i < |d| ==> d[i] == d[0]
  }

  /** Both stored check digits (positions 9 and 10) equal the digits computed
      from the weighted sums. The second sum runs over the stored digit 9, not
      over the computed first check digit. */
  predicate ChecksumsMatch(d: seq<char>)
    requires |d| == 11 && AllDigits(d)
  {
    && CheckDigit(WeightedSum(d, FirstWeights, 0, 9)) == DigitValue(d[9])
    && CheckDigit(WeightedSum(d, SecondWeights, 0, 10)) == DigitValue(d[10])
  }

  /** A CPF is valid when its digits, punctuation removed, are eleven, are not
      one digit repeated, and carry matching check digits. */
  predicate IsValidCpf(s: seq<char>) {
    var d := DigitsOnly(s);
    |d| == 11 && !RepeatsOneDigit(d) && ChecksumsMatch(d)
  }

  lemma FirstWeightsDescend()
    ensures |FirstWeights| == 9
    ensures forall i :: 0 <= i < 9 ==> FirstWeights[i] == 10 - i
  {
  }

  lemma SecondWeightsDescend()
    ensures |SecondWeights| == 10
    ensures forall i :: 0 <= i < 10 ==> SecondWeights[i] == 11 - i
  {
  }

  /** The regular-expression test, as a scan comparing every digit with the first. */
  method MatchesRepeatedDigit(d: seq<char>) returns (ok: bool)
    ensures ok == RepeatsOneDigit(d)
  {
    if |d| != 11 || !IsDigit(d[0]) {
      return false;
    }
    var k := 1;
    while k < |d|
      invariant 1 <= k <= |d|
      invariant forall j :: 0 <= j < k ==> d[j] == d[0]
    {
      if d[k] != d[0] {
        return false;
      }
      k := k + 1;
    }
    return true;
  }

  /** `validateCpf`: the service's steps, proved equal to the reference. */
  method ValidateCpf(cpf: seq<char>) returns (ok: bool)
    ensures ok == IsValidCpf(cpf)
  {
    var d := StripNonDigits(cpf);
    if |d| != 11 {
      return false;
    }
    var repeated := MatchesRepeatedDigit(d);
    if repeated {
      return false;
    }

    FirstWeightsDescend();
    var sum := 0;
    var i := 0;
    while i < 9
      invariant 0 <= i <= 9
      invariant sum == WeightedSum(d, FirstWeights, 0, i)
    {
      WeightedSumExtend(d, FirstWeights, 0, i);
      sum := sum + DigitValue(d[i]) * (10 - i);
      i := i + 1;
    }
    var firstDigit := 11 - sum % 11;
    if firstDigit >= 10 {
      firstDigit := 0;
    }

    SecondWeightsDescend();
    sum := 0;
    i := 0;
    while i < 10
      invariant 0 <= i <= 10
      invariant sum == WeightedSum(d, SecondWeights, 0, i)
    {
      WeightedSumExtend(d, SecondWeights, 0, i);
      sum := sum + DigitValue(d[i]) * (11 - i);
      i := i + 1;
    }
    var secondDigit := 11 - sum % 11;
    if secondDigit >= 10 {
      secondDigit := 0;
    }

    ok := firstDigit == DigitValue(d[9]) && secondDigit == DigitValue(d[10]);
  }

  /** Inserting a character that is not a digit anywhere in the input does not
      change the verdict: "." "-" "/" and spaces are ignored. */
  lemma CpfIgnoresNonDigit(a: seq<char>, c: char, b: seq<char>)
    requires !IsDigit(c)
    ensures IsValidCpf(a + [c] + b) == IsValidCpf(a + b)
  {
    DigitsOnlyDropsNonDigit(a, c, b);
  }

  /** Only the digit subsequence matters: validating the stripped string gives
      the same verdict as validating the raw one. */
  lemma CpfDependsOnlyOnDigits(s: seq<char>)
    ensures IsValidCpf(DigitsOnly(s)) == IsValidCpf(s)
  {
    DigitsOnlyIdempotent(s);
  }

  /** Any input whose digits are not exactly eleven is rejected, and so is one
      whose eleven digits are all the same. */
  lemma CpfRejectsMalformed(s: seq<char>)
    ensures |DigitsOnly(s)| != 11 ==> !IsValidCpf(s)
    ensures RepeatsOneDigit(DigitsOnly(s)) ==> !IsValidCpf(s)
  {
  }

  /** For each digit value `v`, the two check digits of eleven copies of `v`
      are `v` again: 54 and 65, the totals of the two weight tables, are both
      -1 modulo 11. */
  lemma CheckDigitsOfRepeated(v: nat)
    requires v <= 9
    ensures CheckDigit(54 * v) == v
    ensures CheckDigit(65 * v) == v
  {
  }

  lemma TableTotals()
    ensures TotalWeight(FirstWeights, 0, 9) == 54
    ensures TotalWeight(SecondWeights, 0, 10) == 65
  {
  }

  /** The repeated-digit guard is not redundant: each of the ten strings made of
      one repeated digit carries check digits that match its own sums, so
      without the guard all of them would be accepted. */
  lemma RepeatedDigitsPassChecksums(d: seq<char>)
    requires RepeatsOneDigit(d)
    ensures AllDigits(d)
    ensures ChecksumsMatch(d)
  {
    var c := d[0];
    var v := DigitValue(c);
    assert AllDigits(d);
    TableTotals();
    WeightedSumOfRepeated(d, FirstWeights, 0, 9, c);
    WeightedSumOfRepeated(d, SecondWeights, 0, 10, c);
    CheckDigitsOfRepeated(v);
    assert d[9] == c && d[10] == c;
  }

  /** The digits of the valid case of the service's unit test. */
  lemma CpfExampleDigits()
    ensures IsValidCpf("48247281856")
  {
    assert AllDigits("48247281856");
    DigitsOnlyOfDigits("48247281856");
    assert WeightedSum("48247281856", FirstWeights, 0, 9) == 259;
    assert WeightedSum("48247281856", SecondWeights, 0, 10) == 313;
    assert !RepeatsOneDigit("48247281856");
  }

  /** The valid case of the service's unit test, "482.472818-56". */
  lemma CpfExampleValid()
    ensures IsValidCpf("482.472818-56")
  {
    CpfExampleDigits();
    CpfIgnoresNonDigit("482", '.', "472818-56");
    assert "482" + ['.'] + "472818-56" == "482.472818-56";
    CpfIgnoresNonDigit("482472818", '-', "56");
    assert "482" + "472818-56" == "482472818" + ['-'] + "56";
    assert "482472818" + "56" == "48247281856";
  }

  /** The first rejected case of the service's unit test: the first check
      digit of 123456789 is 0, not the stored 1. */
  lemma CpfExampleWrongCheckDigit()
    ensures !IsValidCpf("123.456.789-10")
  {
    assert AllDigits("12345678910");
    DigitsOnlyOfDigits("12345678910");
    assert WeightedSum("12345678910", FirstWeights, 0, 9) == 210;
    assert !IsValidCpf("12345678910");
    CpfIgnoresNonDigit("123", '.', "456.789-10");
    assert "123" + ['.'] + "456.789-10" == "123.456.789-10";
    CpfIgnoresNonDigit("123456", '.', "789-10");
    assert "123" + "456.789-10" == "123456" + ['.'] + "789-10";
    CpfIgnoresNonDigit("123456789", '-', "10");
    assert "123456" + "789-10" == "123456789" + ['-'] + "10";
    assert "123456789" + "10" == "12345678910";
  }

  /** The other rejected cases of the service's unit test: too few digits,
      and one digit repeated. */
  lemma CpfExamplesMalformed()
    ensures !IsValidCpf("123.456.789")
    ensures !IsValidCpf("11111111111")
  {
    assert AllDigits("123456789");
    DigitsOnlyOfDigits("123456789");
    CpfIgnoresNonDigit("123", '.', "456.789");
    assert "123" + ['.'] + "456.789" == "123.456.789";
    CpfIgnoresNonDigit("123456", '.', "789");
    assert "123" + "456.789" == "123456" + ['.'] + "789";
    assert "123456" + "789" == "123456789";

    assert AllDigits("11111111111");
    DigitsOnlyOfDigits("11111111111");
    assert RepeatsOneDigit("11111111111");
  }
}
