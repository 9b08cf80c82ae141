/**
 The CNPJ (company taxpayer number) validator of `EmpresaService`.

 `IsValidCnpj` is the reference definition, stated with the published weight
 tables 5,4,3,2,9,..,2 and 6,5,4,3,2,9,..,2 read left to right;
 `ValidateCnpj` follows the service's own steps, scanning right to left with a
 weight that counts 2, 3, .., 9 and wraps back to 2, and is proved to compute
 exactly the reference predicate.
 */
module Cnpj {
  import opened Digits
  import opened CheckDigits

  /** Weights of the first check digit, applied to digits 0..11. */
  const FirstWeights: seq<nat> := [5, 4, 3, 2, 9, 8, 7, 6, 5, 4, 3, 2]

  /** Weights of the second check digit, applied to digits 0..12. */
  const SecondWeights: seq<nat> := [6, 5, 4, 3, 2, 9, 8, 7, 6, 5, 4, 3, 2]

  /** The weight of the `k`-th step of a right-to-left scan: 2, 3, .., 9, 2, .. */
  function CycleWeight(k: nat): (w: nat)
    ensures 2 <= w <= 9
  {
    2 + k % 8
  }

  /** The service's weight update, "add one, and wrap 10 back to 2", moves
      the scan one step on. */
  lemma CycleWeightNext(k: nat)
    ensures CycleWeight(k + 1) == if CycleWeight(k) + 1 == 10 then 2 else CycleWeight(k) + 1
  {
  }

  /** Both tables are the cyclic weights counted from their right end: the
      weight of digit `i` is `CycleWeight(11 - i)` in the first table and
      `CycleWeight(12 - i)` in the second. */
  lemma TablesAreCyclic()
    ensures |FirstWeights| == 12 && |SecondWeights| == 13
    ensures forall i :: 0 <= i < 12 ==> FirstWeights[i] == CycleWeight(11 - i)
    ensures forall i :: 0 <= i < 13 ==> SecondWeights[i] == CycleWeight(12 - i)
  {
  }

  /** Both stored check characters (positions 12 and 13) equal the characters
      computed from the weighted sums. The second sum runs over the stored
      character 12, not over the computed first check character. */
  predicate CheckCharsMatch(d: seq<char>)
    requires |d| == 14 && AllDigits(d)
  {
    && CheckChar(WeightedSum(d, FirstWeights, 0, 12)) == d[12]
    && CheckChar(WeightedSum(d, SecondWeights, 0, 13)) == d[13]
  }

  /** A CNPJ is valid when its digits, punctuation removed, are fourteen and
      carry matching check characters. There is no repeated-digit guard. */
  predicate IsValidCnpj(s: seq<char>) {
    var d := DigitsOnly(s);
    |d| == 14 && CheckCharsMatch(d)
  }

  /** One pass of the service's loop: from index `top` down to 0, the weight
      starting at 2, counting up and wrapping from 10 back to 2. */
  method ScanSum(d: seq<char>, top: nat, ghost w: seq<nat>) returns (sm: nat)
    requires top < |d| && top < |w|
    requires AllDigits(d)
    requires forall i :: 0 <= i <= top ==> w[i] == CycleWeight(top - i)
    ensures sm == WeightedSum(d, w, 0, top + 1)
  {
    sm := 0;
    var peso := 2;
    var i: int := top;
    while i >= 0
      invariant -1 <= i <= top
      invariant sm == WeightedSum(d, w, i + 1, top + 1)
      invariant peso == CycleWeight(top - i)
    {
      CycleWeightNext(top - i);
      var num := DigitValue(d[i]);
      assert WeightedSum(d, w, i, top + 1) == num * w[i] + WeightedSum(d, w, i + 1, top + 1);
      sm := sm + num * peso;
      peso := peso + 1;
      if peso == 10 {
        peso := 2;
      }
      i := i - 1;
    }
  }

  /** The step-by-step copy of the branch in `validateCnpj`, tied to the
      reference `CheckChar` by `CheckCharUnique`.
      The service's reduction of one sum to its check character: a digit
      that completes the sum to a multiple of 11, or '0' when the remainder
      is 0 or 1. */
  method CheckCharOf(sm: nat) returns (dig: char)
    ensures IsDigit(dig)
    ensures sm % 11 >= 2 ==> (sm + DigitValue(dig)) % 11 == 0
    ensures sm % 11 < 2 ==> dig == '0'
  {
    var r := sm % 11;
    if r == 0 || r == 1 {
      dig := '0';
    } else {
      dig := ((11 - r) + 48) as char;
    }
  }

  /** `validateCnpj`: the service's steps, proved equal to the reference. */
  method ValidateCnpj(cnpj: seq<char>) returns (ok: bool)
    ensures ok == IsValidCnpj(cnpj)
  {
    var d := StripNonDigits(cnpj);
    if |d| != 14 {
      return false;
    }
    TablesAreCyclic();
    var sm := ScanSum(d, 11, FirstWeights);
    var dig13 := CheckCharOf(sm);
    CheckCharUnique(sm, dig13);
    sm := ScanSum(d, 12, SecondWeights);
    var dig14 := CheckCharOf(sm);
    CheckCharUnique(sm, dig14);
    ok := dig13 == d[12] && dig14 == d[13];
  }

  /** Inserting a character that is not a digit anywhere in the input does not
      change the verdict: "." "/" "-" and spaces are ignored. */
  lemma CnpjIgnoresNonDigit(a: seq<char>, c: char, b: seq<char>)
    requires !IsDigit(c)
    ensures IsValidCnpj(a + [c] + b) == IsValidCnpj(a + b)
  {
    DigitsOnlyDropsNonDigit(a, c, b);
  }

  /** Only the digit subsequence matters: validating the stripped string gives
      the same verdict as validating the raw one. */
  lemma CnpjDependsOnlyOnDigits(s: seq<char>)
    ensures IsValidCnpj(DigitsOnly(s)) == IsValidCnpj(s)
  {
    DigitsOnlyIdempotent(s);
  }

  /** Any input whose digits are not exactly fourteen is rejected. */
  lemma CnpjRejectsWrongLength(s: seq<char>)
    ensures |DigitsOnly(s)| != 14 ==> !IsValidCnpj(s)
  {
  }

  /** With no repeated-digit guard, an input whose digits are fourteen zeros is
      accepted: both sums are 0 and both check characters are '0'. */
  lemma CnpjAcceptsAllZeros(s: seq<char>)
    requires |DigitsOnly(s)| == 14
    requires forall i :: 0 <= i < 14 ==> DigitsOnly(s)[i] == '0'
    ensures IsValidCnpj(s)
  {
  }

  /** The digits of the valid case of the service's unit test. */
  lemma CnpjExampleDigits()
    ensures IsValidCnpj("12345678000195")
  {
    assert AllDigits("12345678000195");
    DigitsOnlyOfDigits("12345678000195");
    assert WeightedSum("12345678000195", FirstWeights, 8, 12) == 2;
    assert WeightedSum("12345678000195", FirstWeights, 4, 12) == 192;
    assert WeightedSum("12345678000195", FirstWeights, 0, 12) == 222;
    assert WeightedSum("12345678000195", SecondWeights, 9, 13) == 21;
    assert WeightedSum("12345678000195", SecondWeights, 5, 13) == 187;
    assert WeightedSum("12345678000195", SecondWeights, 0, 13) == 237;
  }

  /** The valid case of the service's unit test, "12.345.678/0001-95". */
  lemma CnpjExampleValid()
    ensures IsValidCnpj("12.345.678/0001-95")
  {
    CnpjExampleDigits();
    CnpjIgnoresNonDigit("12", '.', "345.678/0001-95");
    assert "12" + ['.'] + "345.678/0001-95" == "12.345.678/0001-95";
    CnpjIgnoresNonDigit("12345", '.', "678/0001-95");
    assert "12" + "345.678/0001-95" == "12345" + ['.'] + "678/0001-95";
    CnpjIgnoresNonDigit("12345678", '/', "0001-95");
    assert "12345" + "678/0001-95" == "12345678" + ['/'] + "0001-95";
    CnpjIgnoresNonDigit("123456780001", '-', "95");
    assert "12345678" + "0001-95" == "123456780001" + ['-'] + "95";
    assert "123456780001" + "95" == "12345678000195";
  }

  /** The rejected cases of the service's unit test: fifteen digits, and
      fourteen digits whose first check character is '4', not the stored '2'. */
  lemma CnpjExamplesInvalid()
    ensures !IsValidCnpj("123456789101213")
    ensures !IsValidCnpj("12345678910121")
  {
    assert AllDigits("123456789101213");
    DigitsOnlyOfDigits("123456789101213");
    assert AllDigits("12345678910121");
    DigitsOnlyOfDigits("12345678910121");
    assert WeightedSum("12345678910121", FirstWeights, 8, 12) == 51;
    assert WeightedSum("12345678910121", FirstWeights, 4, 12) == 241;
    assert WeightedSum("12345678910121", FirstWeights, 0, 12) == 271;
  }
}
