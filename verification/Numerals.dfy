/** What a sequence of digits stands for, apart from how it is read or written. */
module Numerals {
  import opened Powers
  import opened Strings

  /** The sum of the digits' values, each times the power of the base for its place. */
  function Numeral(base: nat, digits: seq<nat>): nat {
    if digits == [] then 0
    else digits[0] * Pow(base, |digits| - 1) + Numeral(base, digits[1..])
  }

  // Horner's rule.
  lemma {:induction false} NumeralAppend(base: nat, digits: seq<nat>, d: nat)
    ensures Numeral(base, digits + [d]) == Numeral(base, digits) * base + d
  {
    if digits == [] {
      assert (digits + [d])[1..] == [];
    } else {
      var rest, p := digits[1..], Pow(base, |digits| - 1);
      assert (digits + [d])[1..] == rest + [d];
      NumeralAppend(base, rest, d);
      assert Pow(base, |digits|) == base * p;
      hide *;
      Regroup(base, digits[0], p, Numeral(base, rest));
    }
  }

  lemma Regroup(base: nat, first: nat, p: nat, rest: nat)
    ensures first * (base * p) + rest * base == (first * p + rest) * base
  {
    MulAssociates(first, base, p);
    MulDistributes(first * p, rest, base);
    MulAssociates(first, p, base);
    assert base * p == p * base;
    MulAssociates(first, p, base);
  }

  predicate AllDigits(s: string) {
    forall i | 0 <= i < |s| :: IsDigit(s[i])
  }

  function DigitValues(s: string): (values: seq<nat>)
    requires AllDigits(s)
  {
    seq(|s|, i requires 0 <= i < |s| => DigitValue(s[i]))
  }

  // The digits are these, in this order.
  lemma TheDigits(d: nat)
    requires d < 10
    ensures IsDigit("0123456789"[d]) && DigitValue("0123456789"[d]) == d
  {
  }

  lemma OnlyDigits(c: char)
    ensures IsDigit(c) <==> c in "0123456789"
  {
    if IsDigit(c) {
      assert "0123456789"[DigitValue(c)] == c;
    }
  }

  /** Reading stops at the first character that is no digit, and what has been read is the decimal number. */
  lemma {:induction false} ReadNumberMeaning(value: nat, digits: string, rest: string)
    requires AllDigits(digits) && (rest == "" || !IsDigit(rest[0]))
    ensures ReadNumber(value, digits + rest) == (value * Pow(10, |digits|) + Numeral(10, DigitValues(digits)), rest)
    decreases |digits|
  {
    if digits == "" {
      assert digits + rest == rest;
    } else {
      var tail, d := digits[1..], DigitValue(digits[0]);
      assert (digits + rest)[1..] == tail + rest;
      assert DigitValues(digits)[1..] == DigitValues(tail);
      ReadNumberMeaning(10 * value + d, tail, rest);
      var p := Pow(10, |tail|);
      assert Numeral(10, DigitValues(digits)) == d * p + Numeral(10, DigitValues(tail));
      assert Pow(10, |digits|) == 10 * p;
      hide *;
      Shifted(value, d, p);
    }
  }

  lemma Shifted(value: nat, d: nat, p: nat)
    ensures (10 * value + d) * p == value * (10 * p) + d * p
  {
    MulDistributes(10 * value, d, p);
    MulAssociates(10, value, p);
    MulAssociates(value, 10, p);
  }
}
