/** Luhn's check: the loop over a number against the formula it computes, and what the formula detects. */
module Luhn {

  predicate IsDigit(c: char) {
    '0' <= c <= '9'
  }

  predicate AllDigits(number: string) {
    forall i :: 0 <= i < |number| ==> IsDigit(number[i])
  }

  function Value(c: char): nat
    requires IsDigit(c)
  {
    c as int - '0' as int
  }

  /** The weighted digit: doubled, with the digits of the double added up. */
  function Weighted(d: nat, doubled: bool): nat
    requires d <= 9
  {
    if doubled then 2 * d / 10 + 2 * d % 10 else d
  }

  /** Annex B of ISO/IEC 7812-1: from the right, every second digit is doubled. */
  function RightToLeft(number: string, doubled: bool): nat
    requires AllDigits(number)
    decreases |number|
  {
    if number == [] then 0
    else
      var n := |number| - 1;
      RightToLeft(number[..n], !doubled) + Weighted(Value(number[n]), doubled)
  }

  ghost predicate Valid(number: string) {
    |number| >= 13 && AllDigits(number) && RightToLeft(number, false) % 10 == 0
  }

  lemma DoubledDigit(d: nat)
    requires d <= 9
    ensures Weighted(d, true) == if d <= 4 then 2 * d else 2 * d - 9
  {
  }

  lemma PushDigit(number: string, i: nat, doubled: bool)
    requires i < |number| && AllDigits(number[..i]) && IsDigit(number[i])
    ensures AllDigits(number[..i + 1])
    ensures RightToLeft(number[..i + 1], doubled) ==
            RightToLeft(number[..i], !doubled) + Weighted(Value(number[i]), doubled)
  {
    assert number[..i + 1][..i] == number[..i];
  }

  lemma NoDigits()
    ensures forall doubled :: RightToLeft("", doubled) == 0
  {
  }

  lemma PlainDigit(d: nat)
    requires d <= 9
    ensures Weighted(d, false) == d
  {
  }

  method ValidLuhn(number: string) returns (ok: bool)
    ensures ok <==> Valid(number)
  {
    hide RightToLeft, Weighted;
    if |number| < 13 {
      return false;
    }
    var parity := |number| % 2;
    var sum := 0;
    NoDigits();
    for i := 0 to |number|
      invariant AllDigits(number[..i])
      invariant sum == RightToLeft(number[..i], i % 2 != parity)
    {
      if number[i] < '0' || number[i] > '9' {
        return false;
      }
      PushDigit(number, i, i % 2 == parity);
      DoubledDigit(Value(number[i]));
      PlainDigit(Value(number[i]));
      var d := number[i] as int - '0' as int;
      // Double the value of every second digit.
      if i % 2 == parity {
        d := d * 2;
        if d > 9 {
          // Subtracting 9 gives the sum of the two digits.
          d := d - 9;
        }
      }
      sum := sum + d;
    }
    assert number[..|number|] == number;
    return sum % 10 == 0;
  }

  // ---- What the check detects ----

  /** Whether the digit at k is doubled when the last one is doubled or not. */
  predicate Doubled(number: string, k: nat, doubled: bool)
    requires k < |number|
  {
    ((|number| - 1 - k) % 2 == 1) != doubled
  }

  lemma {:induction false} ChangeOne(number: string, k: nat, c: char, doubled: bool)
    requires AllDigits(number) && k < |number| && IsDigit(c)
    ensures AllDigits(number[k := c])
    ensures RightToLeft(number[k := c], doubled) + Weighted(Value(number[k]), Doubled(number, k, doubled)) ==
            RightToLeft(number, doubled) + Weighted(Value(c), Doubled(number, k, doubled))
    decreases |number|
  {
    hide Weighted;
    var n := |number| - 1;
    if k == n {
      assert number[k := c][..n] == number[..n];
    } else {
      assert number[k := c][..n] == number[..n][k := c];
      ChangeOne(number[..n], k, c, !doubled);
    }
  }

  /** Different digits have different weights, doubled or not, and the weights are themselves digits. */
  lemma WeightsDiffer(a: nat, b: nat, doubled: bool)
    requires a <= 9 && b <= 9 && a != b
    ensures Weighted(a, doubled) != Weighted(b, doubled) && Weighted(a, doubled) <= 9 && Weighted(b, doubled) <= 9
  {
    hide Weighted;
    DoubledDigit(a);
    DoubledDigit(b);
    PlainDigit(a);
    PlainDigit(b);
  }

  lemma SumsDiffer(sum: nat, changed: nat, x: int, y: int)
    requires sum % 10 == 0 && changed + x == sum + y && -9 <= x - y <= 9
    ensures changed % 10 == 0 <==> x == y
  {
  }

  /** Every change of a single digit of a valid number is detected. */
  lemma SingleChangeDetected(number: string, k: nat, c: char)
    requires Valid(number) && k < |number| && IsDigit(c) && c != number[k]
    ensures !Valid(number[k := c])
  {
    hide RightToLeft, Weighted;
    ChangeOne(number, k, c, false);
    WeightsDiffer(Value(number[k]), Value(c), Doubled(number, k, false));
    SumsDiffer(RightToLeft(number, false), RightToLeft(number[k := c], false),
               Weighted(Value(number[k]), Doubled(number, k, false)), Weighted(Value(c), Doubled(number, k, false)));
  }

  function Swap(number: string, k: nat): string
    requires k + 1 < |number|
  {
    number[k := number[k + 1]][k + 1 := number[k]]
  }

  /** How much more a digit weighs when doubled. */
  lemma ExtraWeight(a: nat, b: nat)
    requires a <= 9 && b <= 9 && a != b
    ensures var x, y := Weighted(a, true) - a, Weighted(b, true) - b;
      && -8 <= x - y <= 8
      && (x == y <==> (a == 0 && b == 9) || (a == 9 && b == 0))
  {
    hide Weighted;
    DoubledDigit(a);
    DoubledDigit(b);
  }

  /** A swap of two different adjacent digits of a valid number goes undetected exactly if they are 0 and 9. */
  lemma AdjacentSwapDetected(number: string, k: nat)
    requires Valid(number) && k + 1 < |number| && number[k] != number[k + 1]
    ensures Valid(Swap(number, k)) <==>
            (number[k] == '0' && number[k + 1] == '9') || (number[k] == '9' && number[k + 1] == '0')
  {
    hide RightToLeft, Weighted;
    var x, y := number[k], number[k + 1];
    ChangeOne(number, k, y, false);
    ChangeOne(number[k := y], k + 1, x, false);
    var a, b := Value(x), Value(y);
    ExtraWeight(a, b);
    PlainDigit(a);
    PlainDigit(b);
    var sum, swapped := RightToLeft(number, false), RightToLeft(Swap(number, k), false);
    if Doubled(number, k, false) {
      SumsDiffer(sum, swapped, Weighted(a, true) - a, Weighted(b, true) - b);
    } else {
      SumsDiffer(sum, swapped, Weighted(b, true) - b, Weighted(a, true) - a);
    }
  }

  /** Every prefix of at least twelve digits has exactly one check digit. */
  lemma UniqueCheckDigit(prefix: string) returns (check: char)
    requires |prefix| >= 12 && AllDigits(prefix)
    ensures IsDigit(check)
    ensures forall c :: Valid(prefix + [c]) <==> c == check
  {
    hide Weighted;
    var sum := RightToLeft(prefix, true);
    check := ('0' as int + (10 - sum % 10) % 10) as char;
    forall c ensures Valid(prefix + [c]) <==> c == check {
      assert (prefix + [c])[..|prefix|] == prefix;
      assert (prefix + [c])[|prefix|] == c;
      if IsDigit(c) {
        assert AllDigits(prefix + [c]);
        PlainDigit(Value(c));
        assert RightToLeft(prefix + [c], false) == sum + Value(c);
      }
    }
  }
}
