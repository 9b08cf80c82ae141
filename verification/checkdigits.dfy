/**
 The modulo-11 check-digit arithmetic that the CPF and CNPJ schemes share:
 a weighted sum of the digits, reduced modulo 11 to one check digit.
 */
module CheckDigits {
  import opened Digits

  /** The weighted sum of the digits `d[lo..hi]`, digit `i` weighted by
      `w[i]`: the scalar product the published weight tables define. */
  function WeightedSum(d: seq<char>, w: seq<nat>, lo: nat, hi: nat): nat
    requires lo <= hi <= |d| && hi <= |w|
    requires AllDigits(d)
    decreases hi - lo
  {
    if lo == hi then 0
    else DigitValue(d[lo]) * w[lo] + WeightedSum(d, w, lo + 1, hi)
  }

  /** Widening the range by one position on the right adds that position's
      product: the left-to-right accumulation of a loop. */
  lemma {:induction false} WeightedSumExtend(d: seq<char>, w: seq<nat>, lo: nat, hi: nat)
    requires lo <= hi < |d| && hi < |w|
    requires AllDigits(d)
    ensures WeightedSum(d, w, lo, hi + 1) == WeightedSum(d, w, lo, hi) + DigitValue(d[hi]) * w[hi]
    decreases hi - lo
  {
    if lo < hi {
      WeightedSumExtend(d, w, lo + 1, hi);
    }
  }

  /** The sum of the weights `w[lo..hi]`. */
  function TotalWeight(w: seq<nat>, lo: nat, hi: nat): nat
    requires lo <= hi <= |w|
    decreases hi - lo
  {
    if lo == hi then 0 else w[lo] + TotalWeight(w, lo + 1, hi)
  }

  /** When every digit in the range is the same character, the weighted sum is
      that digit times the total weight. */
  lemma {:induction false} WeightedSumOfRepeated(d: seq<char>, w: seq<nat>, lo: nat, hi: nat, c: char)
    requires lo <= hi <= |d| && hi <= |w|
    requires AllDigits(d)
    requires forall i :: lo <= i < hi ==> d[i] == c
    requires IsDigit(c)
    ensures WeightedSum(d, w, lo, hi) == DigitValue(c) * TotalWeight(w, lo, hi)
    decreases hi - lo
  {
    if lo < hi {
      WeightedSumOfRepeated(d, w, lo + 1, hi, c);
      var v := DigitValue(c);
      assert v * (w[lo] + TotalWeight(w, lo + 1, hi)) == v * w[lo] + v * TotalWeight(w, lo + 1, hi);
    }
  }

  /** The CPF form of the reduction: `11 - (sum % 11)`, with 10 and 11 mapped
      to 0. The contract pins the digit down completely: it is the value in
      0..9 that brings the sum to a multiple of 11, or 0 when no such value
      exists or the sum already is one. */
  function CheckDigit(sum: nat): (d: nat)
    ensures d <= 9
    ensures sum % 11 >= 2 ==> (sum + d) % 11 == 0
    ensures sum % 11 < 2 ==> d == 0
  {
    var d := 11 - sum % 11;
    if d >= 10 then 0 else d
  }

  /** The CNPJ form of the reduction, producing a character: `'0'` when the
      remainder is 0 or 1, otherwise the character `11 - r + 48`. */
  function CheckChar(sum: nat): (c: char)
    ensures IsDigit(c)
    ensures sum % 11 >= 2 ==> (sum + DigitValue(c)) % 11 == 0
    ensures sum % 11 < 2 ==> c == '0'
  {
    var r := sum % 11;
    if r == 0 || r == 1 then '0' else ((11 - r) + 48) as char
  }

  /** The contract of `CheckChar` determines its result: any digit character
      with the same two properties is that character. */
  lemma CheckCharUnique(sum: nat, c: char)
    requires IsDigit(c)
    requires sum % 11 >= 2 ==> (sum + DigitValue(c)) % 11 == 0
    requires sum % 11 < 2 ==> c == '0'
    ensures c == CheckChar(sum)
  {
  }

  /** The two reductions agree: the CNPJ character is the digit of the CPF
      reduction, so both schemes compute the same check digit from a sum. */
  lemma ReductionsAgree(sum: nat)
    ensures CheckChar(sum) == DigitChar(CheckDigit(sum))
    ensures DigitValue(CheckChar(sum)) == CheckDigit(sum)
  {
  }
}
