/** The check digit of card numbers (ISO/IEC 7812-1, Annex B). */
module Luhn {

  type Digit = d: int | 0 <= d <= 9

  /** Twice the digit, with the digits of the product added up. */
  function Doubled(d: Digit): Digit {
    if 2 * d > 9 then 2 * d - 9 else 2 * d
  }

  /** A digit counts doubled when an even number of digits is left, counting itself. */
  function Weighed(d: Digit, left: nat): Digit {
    if left % 2 == 0 then Doubled(d) else d
  }

  /** The sum over a whole number, check digit included, from left to right. */
  function LuhnSum(s: seq<Digit>): nat {
    if s == [] then 0 else Weighed(s[0], |s|) + LuhnSum(s[1..])
  }

  predicate Passes(s: seq<Digit>) {
    LuhnSum(s) % 10 == 0
  }

  // ---- The check digit -------------------------------------------------------------------------

  lemma {:induction false} SumOfAppended(s: seq<Digit>, d: Digit)
    ensures LuhnSum(s + [d]) == LuhnSum(s + [0]) + d
  {
    if s == [] {
      assert [] + [d] == [d] && [] + [0] == [0];
      assert LuhnSum([d]) == d + LuhnSum([]) && LuhnSum([0]) == 0 + LuhnSum([]);
    } else {
      assert (s + [d])[1..] == s[1..] + [d] && (s + [0])[1..] == s[1..] + [0];
      SumOfAppended(s[1..], d);
    }
  }

  function Reversed(s: seq<Digit>): (r: seq<Digit>)
    ensures |r| == |s| && forall i | 0 <= i < |s| :: r[i] == s[|s| - 1 - i]
  {
    seq(|s|, i requires 0 <= i < |s| => s[|s| - 1 - i])
  }

  lemma TensComplement(total: nat, d: Digit)
    ensures (total + d) % 10 == 0 <==> d == (10 - total % 10) % 10
  {}

  lemma OnlyFit(s: seq<Digit>, total: nat)
    requires total == LuhnSum(s + [0])
    ensures forall d: Digit :: Passes(s + [d]) <==> d == (10 - total % 10) % 10
  {
    forall d: Digit ensures Passes(s + [d]) <==> d == (10 - total % 10) % 10 {
      SumOfAppended(s, d);
      TensComplement(total, d);
    }
  }

  /** _luhn_check_digit: it is the only digit that makes the number pass. */
  method LuhnCheckDigit(partialNumber: seq<Digit>) returns (check: Digit)
    ensures forall d: Digit :: Passes(partialNumber + [d]) <==> d == check
  {
    var digits := Reversed(partialNumber);
    var total := 0;
    ghost var n := |partialNumber|;
    assert partialNumber[n..] + [0] == [0];
    for i := 0 to |digits|
      invariant total == LuhnSum(partialNumber[n - i..] + [0])
    {
      var d: int := digits[i];
      if i % 2 == 0 {
        d := d * 2;
        if d > 9 {
          d := d - 9;
        }
      }
      total := total + d;
      ghost var longer := partialNumber[n - i - 1..] + [0];
      assert longer[0] == digits[i] && longer[1..] == partialNumber[n - i..] + [0];
    }
    assert partialNumber[0..] == partialNumber;
    check := (10 - total % 10) % 10;
    OnlyFit(partialNumber, total);
  }

  /** generate_synthetic_pan. random holds the digits drawn to fill up the body. */
  method GenerateSyntheticPan(binPrefix: seq<Digit>, random: seq<Digit>) returns (pan: seq<Digit>)
    requires |random| == if |binPrefix| < 15 then 15 - |binPrefix| else 0
    ensures Passes(pan)
    ensures |pan| == |binPrefix| + |random| + 1 && pan[..|pan| - 1] == binPrefix + random
    ensures binPrefix <= pan && (|binPrefix| <= 15 ==> |pan| == 16)
  {
    var body := binPrefix + random;
    var check := LuhnCheckDigit(body);
    pan := body + [check];
  }

  // ---- What it detects -------------------------------------------------------------------------

  /** Changing one digit changes the sum by the change of its weighed value. */
  lemma {:induction false} SumOfChanged(s: seq<Digit>, i: nat, d: Digit)
    requires i < |s|
    ensures LuhnSum(s[i := d]) == LuhnSum(s) - Weighed(s[i], |s| - i) + Weighed(d, |s| - i)
  {
    var t := s[i := d];
    if i == 0 {
      assert t[1..] == s[1..];
    } else {
      assert t[1..] == s[1..][i - 1 := d];
      SumOfChanged(s[1..], i - 1, d);
    }
  }

  lemma WeighedIsInjective(a: Digit, b: Digit, left: nat)
    requires a != b
    ensures Weighed(a, left) != Weighed(b, left)
  {}

  lemma SmallChange(total: int, change: int)
    requires total % 10 == 0 && -10 < change < 10
    ensures (total + change) % 10 == 0 <==> change == 0
  {}

  /** Any change of a single digit is detected. */
  lemma SingleChangeDetected(s: seq<Digit>, i: nat, d: Digit)
    requires Passes(s) && i < |s| && d != s[i]
    ensures !Passes(s[i := d])
  {
    SumOfChanged(s, i, d);
    WeighedIsInjective(s[i], d, |s| - i);
    SmallChange(LuhnSum(s), Weighed(d, |s| - i) - Weighed(s[i], |s| - i));
  }

  lemma SwapDifference(a: Digit, b: Digit, left: nat)
    requires left >= 1
    ensures
      var change := Weighed(b, left) - Weighed(a, left) + Weighed(a, left - 1) - Weighed(b, left - 1);
      && -10 < change < 10
      && (change == 0 <==> a == b || (a == 0 && b == 9) || (a == 9 && b == 0))
  {}

  /** A swap of two neighbours is detected exactly unless they are equal, or 0 and 9. */
  lemma SwapDetected(s: seq<Digit>, i: nat)
    requires Passes(s) && i + 1 < |s|
    ensures Passes(s[i := s[i + 1]][i + 1 := s[i]]) <==> s[i] == s[i + 1] || {s[i], s[i + 1]} == {0, 9}
  {
    var t := s[i := s[i + 1]];
    SumOfChanged(s, i, s[i + 1]);
    SumOfChanged(t, i + 1, s[i]);
    var left := |s| - i;
    var change := Weighed(s[i + 1], left) - Weighed(s[i], left) + Weighed(s[i], left - 1) - Weighed(s[i + 1], left - 1);
    SwapDifference(s[i], s[i + 1], left);
    assert LuhnSum(t[i + 1 := s[i]]) == LuhnSum(s) + change;
    SmallChange(LuhnSum(s), change);
    assert {s[i], s[i + 1]} == {0, 9} <==> (s[i] == 0 && s[i + 1] == 9) || (s[i] == 9 && s[i + 1] == 0) by {
      if {s[i], s[i + 1]} == {0, 9} {
        assert s[i] in {0, 9} && s[i + 1] in {0, 9} && 0 in {s[i], s[i + 1]} && 9 in {s[i], s[i + 1]};
      }
    }
  }
}
