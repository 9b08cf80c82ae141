/**
 Decimal digit characters and the "strip every non-digit" clean-up that both
 tax-ID validators apply first. `validateCpf` and `validateCnpj` use the Java
 regular-expression classes `\D` and `[^\d]`, which without the Unicode flag
 mean "anything but an ASCII 0-9", so a digit here is exactly a character in
 '0'..'9'.
 */
module Digits {

  /** True iff `c` is one of the ASCII characters '0'..'9'. */
  predicate IsDigit(c: char) {
    '0' <= c <= '9'
  }

  /** True iff every character of `s` is a decimal digit. */
  predicate AllDigits(s: seq<char>) {
    forall i :: 0 <= i < |s| ==> IsDigit(s[i])
  }

  /** The numeric value of a digit character: `cpf.charAt(i) - '0'` in
      `validateCpf`. */
  function DigitValue(c: char): (v: nat)
    requires IsDigit(c)
    ensures v <= 9
  {
    c as int - '0' as int
  }

  /** The digit character whose value is `v`: `(char) ((11 - r) + 48)` in
      `validateCnpj`. */
  function DigitChar(v: nat): (c: char)
    requires v <= 9
    ensures IsDigit(c)
    ensures DigitValue(c) == v
  {
    ('0' as int + v) as char
  }

  /** The subsequence of the digits of `s`, in order: `s.replaceAll("\\D", "")`. */
  function DigitsOnly(s: seq<char>): (r: seq<char>)
    ensures AllDigits(r)
    ensures |r| <= |s|
    decreases |s|
  {
    if |s| == 0 then []
    else
      var rest := DigitsOnly(s[..|s| - 1]);
      if IsDigit(s[|s| - 1]) then rest + [s[|s| - 1]] else rest
  }

  /** Stripping distributes over concatenation. */
  lemma {:induction false} DigitsOnlyAppend(a: seq<char>, b: seq<char>)
    ensures DigitsOnly(a + b) == DigitsOnly(a) + DigitsOnly(b)
    decreases |b|
  {
    if |b| == 0 {
      assert a + b == a;
    } else {
      var b' := b[..|b| - 1];
      assert (a + b)[..|a + b| - 1] == a + b';
      assert (a + b)[|a + b| - 1] == b[|b| - 1];
      DigitsOnlyAppend(a, b');
    }
  }

  /** A string made only of digits is left unchanged by stripping. */
  lemma {:induction false} DigitsOnlyOfDigits(s: seq<char>)
    requires AllDigits(s)
    ensures DigitsOnly(s) == s
    decreases |s|
  {
    if |s| > 0 {
      DigitsOnlyOfDigits(s[..|s| - 1]);
      assert s[..|s| - 1] + [s[|s| - 1]] == s;
    }
  }

  /** A character that is not a digit contributes nothing. */
  lemma DigitsOnlyOfNonDigit(c: char)
    requires !IsDigit(c)
    ensures DigitsOnly([c]) == []
  {
    assert [c][..0] == [];
  }

  /** Removing one non-digit character from anywhere in the input does not
      change its digits. */
  lemma DigitsOnlyDropsNonDigit(a: seq<char>, c: char, b: seq<char>)
    requires !IsDigit(c)
    ensures DigitsOnly(a + [c] + b) == DigitsOnly(a + b)
  {
    DigitsOnlyAppend(a + [c], b);
    DigitsOnlyAppend(a, [c]);
    DigitsOnlyAppend(a, b);
    DigitsOnlyOfNonDigit(c);
    assert DigitsOnly(a) + [] == DigitsOnly(a);
  }

  /** Stripping is idempotent, so a validator sees the same digits whether or
      not its caller already removed the punctuation. */
  lemma DigitsOnlyIdempotent(s: seq<char>)
    ensures DigitsOnly(DigitsOnly(s)) == DigitsOnly(s)
  {
    DigitsOnlyOfDigits(DigitsOnly(s));
  }

  /** Every digit of `s`, and nothing else, survives: a character occurs in the
      result iff it is a digit that occurs in `s`. */
  lemma {:induction false} DigitsOnlyKeepsDigits(s: seq<char>, c: char)
    ensures c in DigitsOnly(s) <==> (c in s && IsDigit(c))
    decreases |s|
  {
    if |s| > 0 {
      var s' := s[..|s| - 1];
      DigitsOnlyKeepsDigits(s', c);
      assert s == s' + [s[|s| - 1]];
      assert c in s <==> c in s' || c == s[|s| - 1];
    }
  }

  /** The loop form of the clean-up: scan left to right, keep the digits. */
  method StripNonDigits(s: seq<char>) returns (r: seq<char>)
    ensures r == DigitsOnly(s)
  {
    r := [];
    var i := 0;
    while i < |s|
      invariant 0 <= i <= |s|
      invariant r == DigitsOnly(s[..i])
    {
      assert s[..i + 1][..i] == s[..i];
      if IsDigit(s[i]) {
        r := r + [s[i]];
      }
      i := i + 1;
    }
    assert s[..|s|] == s;
  }
}
