/**
 validation.go: the check digit of an ISIN (ISO 6166), the Luhn formula over the letters and digits of
 the first eleven characters, each letter spread over two digits.
 */
module Isin {
  type Digit = d: int | 0 <= d < 10

  // ------------------------------------------------------------ the formula

  function Doubled(d: Digit): Digit
  {
    if 2 * d > 9 then 2 * d - 9 else 2 * d
  }

  /** The digit's weight when so many digits stand to its right: the last one counts double. */
  function Weight(d: Digit, right: nat): Digit
  {
    if right % 2 == 0 then Doubled(d) else d
  }

  function LuhnSum(digits: seq<Digit>, right: nat): nat
  {
    if digits == [] then 0
    else Weight(digits[0], |digits| - 1 + right) + LuhnSum(digits[1..], right)
  }

  /** The digits with their check digit add up to a multiple of ten. */
  predicate Balanced(digits: seq<Digit>, check: Digit)
  {
    (LuhnSum(digits, 0) + check) % 10 == 0
  }

  // ------------------------------------------------------------- characters

  predicate IsLetter(c: char) { 'A' <= c <= 'Z' }

  predicate IsNumeral(c: char) { '0' <= c <= '9' }

  predicate IsAlphanumeric(c: char) { IsLetter(c) || IsNumeral(c) }

  function Value(c: char): Digit
    requires IsNumeral(c)
  {
    c as int - '0' as int
  }

  function DigitsOf(c: char): seq<Digit>
    requires IsAlphanumeric(c)
  {
    if IsLetter(c) then
      var num := c as int - 'A' as int + 10;
      [num / 10, num % 10]
    else [Value(c)]
  }

  function Expand(s: string): seq<Digit>
    requires forall c :: c in s ==> IsAlphanumeric(c)
  {
    if s == "" then [] else
      assert s[0] in s && forall c :: c in s[1..] ==> c in s;
      DigitsOf(s[0]) + Expand(s[1..])
  }

  /** Two letters, nine letters or digits, one digit. */
  predicate WellFormed(isin: string)
  {
    |isin| == 12 && IsLetter(isin[0]) && IsLetter(isin[1]) && IsNumeral(isin[11]) &&
    forall i :: 2 <= i < 11 ==> IsAlphanumeric(isin[i])
  }

  lemma PayloadAlphanumeric(isin: string)
    requires WellFormed(isin)
    ensures forall c :: c in isin[..11] ==> IsAlphanumeric(c)
  {
  }

  ghost predicate ValidIsin(isin: string)
  {
    WellFormed(isin) && (PayloadAlphanumeric(isin); Balanced(Expand(isin[..11]), Value(isin[11])))
  }

  method ExpandDigits(payload: string) returns (digits: seq<Digit>)
    requires forall c :: c in payload ==> IsAlphanumeric(c)
    ensures digits == Expand(payload)
  {
    digits := [];
    for i := 0 to |payload|
      invariant digits + Expand(payload[i..]) == Expand(payload)
    {
      assert payload[i..][1..] == payload[i + 1..];
      digits := digits + DigitsOf(payload[i]);
    }
  }

  method AddUp(digits: seq<Digit>) returns (sum: nat)
    ensures sum == LuhnSum(digits, 0)
  {
    sum := 0;
    var i := |digits| - 1;
    while i >= 0
      invariant -1 <= i < |digits|
      invariant sum == LuhnSum(digits[i + 1..], 0)
    {
      var digit: int := digits[i];
      if (|digits| - 1 - i) % 2 == 0 {
        digit := digit * 2;
        if digit > 9 {
          digit := digit - 9;
        }
      }
      assert digits[i..][1..] == digits[i + 1..] && digits[i..][0] == digits[i];
      assert LuhnSum(digits[i..], 0) == Weight(digits[i], |digits| - 1 - i) + LuhnSum(digits[i + 1..], 0);
      sum := sum + digit;
      i := i - 1;
    }
    assert digits[0..] == digits;
  }

  lemma CheckDigitBalances(sum: nat, check: Digit)
    ensures (10 - sum % 10) % 10 == check <==> (sum + check) % 10 == 0
  {
  }

  method ValidateIsin(isin: string) returns (ok: bool)
    ensures ok <==> ValidIsin(isin)
  {
    if !WellFormed(isin) {
      return false;
    }
    PayloadAlphanumeric(isin);
    var digits := ExpandDigits(isin[..11]);
    var sum := AddUp(digits);
    var checkDigit := (10 - sum % 10) % 10;
    CheckDigitBalances(sum, Value(isin[11]));
    ok := checkDigit == Value(isin[11]);
  }

  // -------------------------------------------------------- errors detected

  lemma {:induction false} LuhnConcat(a: seq<Digit>, b: seq<Digit>, right: nat)
    ensures LuhnSum(a + b, right) == LuhnSum(a, |b| + right) + LuhnSum(b, right)
  {
    if a == [] {
      assert a + b == b;
    } else {
      assert (a + b)[1..] == a[1..] + b;
      LuhnConcat(a[1..], b, right);
    }
  }

  lemma LuhnAround(a: seq<Digit>, mid: seq<Digit>, b: seq<Digit>)
    ensures LuhnSum(a + mid + b, 0) == LuhnSum(a, |mid| + |b|) + LuhnSum(mid, |b|) + LuhnSum(b, 0)
  {
    LuhnConcat(a + mid, b, 0);
    LuhnConcat(a, mid, |b|);
  }

  lemma LuhnOne(x: Digit, right: nat)
    ensures LuhnSum([x], right) == Weight(x, right)
  {
    assert [x][1..] == [];
  }

  lemma LuhnTwo(x: Digit, y: Digit, right: nat)
    ensures LuhnSum([x, y], right) == Weight(x, right + 1) + Weight(y, right)
  {
    assert [x, y] == [x] + [y];
    LuhnConcat([x], [y], right);
    LuhnOne(x, right + 1);
    LuhnOne(y, right);
  }

  lemma SameRemainder(total: int, total': int, p: int, q: int)
    requires total % 10 == 0 && total - p == total' - q
    ensures total' % 10 == 0 <==> (p - q) % 10 == 0
  {
    assert total' == total - (p - q);
  }

  lemma WeightsDiffer(x: Digit, y: Digit, right: nat)
    ensures (Weight(x, right) - Weight(y, right)) % 10 == 0 <==> x == y
  {
  }

  lemma TotalAround(a: seq<Digit>, mid: seq<Digit>, b: seq<Digit>, check: Digit, weight: nat)
    requires LuhnSum(mid, |b|) == weight
    ensures LuhnSum(a + mid + b, 0) + check == LuhnSum(a, |mid| + |b|) + LuhnSum(b, 0) + check + weight
  {
    LuhnAround(a, mid, b);
  }

  /** Changing one digit of a list of any length unbalances it. */
  lemma SubstitutionDetected(a: seq<Digit>, x: Digit, y: Digit, b: seq<Digit>, check: Digit)
    requires x != y && Balanced(a + [x] + b, check)
    ensures !Balanced(a + [y] + b, check)
  {
    LuhnOne(x, |b|);
    LuhnOne(y, |b|);
    TotalAround(a, [x], b, check, Weight(x, |b|));
    TotalAround(a, [y], b, check, Weight(y, |b|));
    WeightsDiffer(x, y, |b|);
    SameRemainder(LuhnSum(a + [x] + b, 0) + check, LuhnSum(a + [y] + b, 0) + check, Weight(x, |b|), Weight(y, |b|));
  }

  /** So does changing the check digit. */
  lemma CheckDigitDetected(digits: seq<Digit>, x: Digit, y: Digit)
    requires x != y && Balanced(digits, x)
    ensures !Balanced(digits, y)
  {
    SameRemainder(LuhnSum(digits, 0) + x, LuhnSum(digits, 0) + y, x, y);
  }

  lemma SwappedWeights(x: Digit, y: Digit, right: nat)
    ensures (Weight(x, right + 1) + Weight(y, right) - (Weight(y, right + 1) + Weight(x, right))) % 10 == 0 <==>
            x == y || (x == 0 && y == 9) || (x == 9 && y == 0)
  {
  }

  lemma SwappedTotals(a: seq<Digit>, x: Digit, y: Digit, b: seq<Digit>, check: Digit)
    ensures LuhnSum(a + [x, y] + b, 0) + check - (Weight(x, |b| + 1) + Weight(y, |b|)) ==
            LuhnSum(a + [y, x] + b, 0) + check - (Weight(y, |b| + 1) + Weight(x, |b|))
  {
    LuhnTwo(x, y, |b|);
    LuhnTwo(y, x, |b|);
    TotalAround(a, [x, y], b, check, Weight(x, |b| + 1) + Weight(y, |b|));
    TotalAround(a, [y, x], b, check, Weight(y, |b| + 1) + Weight(x, |b|));
  }

  /** Swapping two neighbours goes unnoticed if and only if they are equal, or a nine and a zero. */
  lemma TranspositionDetectedIff(a: seq<Digit>, x: Digit, y: Digit, b: seq<Digit>, check: Digit)
    requires Balanced(a + [x, y] + b, check)
    ensures Balanced(a + [y, x] + b, check) <==> x == y || (x == 0 && y == 9) || (x == 9 && y == 0)
  {
    SwappedTotals(a, x, y, b, check);
    SwappedWeights(x, y, |b|);
    SameRemainder(LuhnSum(a + [x, y] + b, 0) + check, LuhnSum(a + [y, x] + b, 0) + check,
                  Weight(x, |b| + 1) + Weight(y, |b|), Weight(y, |b| + 1) + Weight(x, |b|));
  }

  lemma {:induction false} ExpandConcat(s: string, t: string)
    requires forall c :: c in s + t ==> IsAlphanumeric(c)
    ensures (forall c :: c in s ==> IsAlphanumeric(c)) && (forall c :: c in t ==> IsAlphanumeric(c))
    ensures Expand(s + t) == Expand(s) + Expand(t)
  {
    if s == "" {
      assert s + t == t;
    } else {
      assert (s + t)[1..] == s[1..] + t && s[0] == (s + t)[0];
      ExpandConcat(s[1..], t);
    }
  }

  lemma ExpandAround(s: string, c: char, t: string)
    requires forall x :: x in s + [c] + t ==> IsAlphanumeric(x)
    ensures (forall x :: x in s ==> IsAlphanumeric(x)) && IsAlphanumeric(c)
    ensures forall x :: x in t ==> IsAlphanumeric(x)
    ensures Expand(s + [c] + t) == Expand(s) + DigitsOf(c) + Expand(t)
  {
    ExpandConcat(s + [c], t);
    ExpandConcat(s, [c]);
    assert c in s + [c] && [c][1..] == "";
  }

  /** Mistyping any one numeral of a valid ISIN as another makes it invalid. */
  lemma MistypedNumeralDetected(isin: string, k: nat, c: char)
    requires ValidIsin(isin) && 2 <= k < 12 && IsNumeral(isin[k]) && IsNumeral(c) && c != isin[k]
    ensures !ValidIsin(isin[k := c])
  {
    var other := isin[k := c];
    PayloadAlphanumeric(isin);
    PayloadAlphanumeric(other);
    if k == 11 {
      assert other[..11] == isin[..11];
      CheckDigitDetected(Expand(isin[..11]), Value(isin[11]), Value(c));
    } else {
      var s, t := isin[..k], isin[k + 1..11];
      assert isin[..11] == s + [isin[k]] + t && other[..11] == s + [c] + t;
      ExpandAround(s, isin[k], t);
      ExpandAround(s, c, t);
      SubstitutionDetected(Expand(s), Value(isin[k]), Value(c), Expand(t), Value(isin[11]));
    }
  }

  // ------------------------------------------------ the formula as published

  const NUMERALS := "0123456789"
  const LETTERS := "ABCDEFGHIJKLMNOPQRSTUVWXYZ"

  /** The sum of the decimal digits of twice a digit. */
  const CROSS_SUMS: seq<nat> := [0, 2, 4, 6, 8, 1, 3, 5, 7, 9]

  /** From the right, every other digit is doubled and its digits are added up. */
  function Alternating(digits: seq<Digit>, double: bool): nat
  {
    if digits == [] then 0
    else
      var last := digits[|digits| - 1];
      (if double then CROSS_SUMS[last] else last) + Alternating(digits[..|digits| - 1], !double)
  }

  lemma WeightIs(d: Digit, right: nat)
    ensures Weight(d, right) as nat == if right % 2 == 0 then CROSS_SUMS[d] else d as nat
  {
  }

  lemma AlternatingNext(init: seq<Digit>, last: Digit, double: bool)
    ensures Alternating(init + [last], double) ==
            (if double then CROSS_SUMS[last] else last) + Alternating(init, !double)
  {
    assert (init + [last])[..|init|] == init;
  }

  lemma LuhnNext(init: seq<Digit>, last: Digit, right: nat)
    ensures LuhnSum(init + [last], right) == LuhnSum(init, right + 1) + Weight(last, right)
  {
    LuhnConcat(init, [last], right);
    LuhnOne(last, right);
  }

  /** Doubled when an even number of digits stand to its right. */
  predicate Even(n: nat) { n % 2 == 0 }

  lemma {:induction false} LuhnFromRight(digits: seq<Digit>, right: nat)
    ensures LuhnSum(digits, right) == Alternating(digits, Even(right))
    decreases |digits|
  {
    if digits != [] {
      var init, last := digits[..|digits| - 1], digits[|digits| - 1];
      assert digits == init + [last];
      LuhnNext(init, last, right);
      WeightIs(last, right);
      AlternatingNext(init, last, Even(right));
      LuhnFromRight(init, right + 1);
      assert Even(right + 1) == !Even(right);
    }
  }

  /** A list balances when, from its check digit, every second digit is doubled and the total ends in a nought. */
  lemma BalancedIs(digits: seq<Digit>, check: Digit)
    ensures Balanced(digits, check) <==> Alternating(digits + [check], false) % 10 == 0
  {
    var all := digits + [check];
    assert all[..|all| - 1] == digits;
    LuhnFromRight(digits, 0);
  }

  lemma NumeralsAre(c: char)
    ensures IsNumeral(c) <==> c in NUMERALS
  {
    assert forall i :: 0 <= i < 10 ==> NUMERALS[i] == '0' + i as char;
    if IsNumeral(c) {
      assert NUMERALS[c as int - '0' as int] == c;
    }
  }

  lemma LettersAre(c: char)
    ensures IsLetter(c) <==> c in LETTERS
  {
    assert forall i :: 0 <= i < 26 ==> LETTERS[i] == 'A' + i as char;
    if IsLetter(c) {
      assert LETTERS[c as int - 'A' as int] == c;
    }
  }

  /** Two letters, nine letters or numerals, and a numeral. */
  lemma WellFormedIs(isin: string)
    ensures WellFormed(isin) <==>
            && |isin| == 12 && isin[0] in LETTERS && isin[1] in LETTERS && isin[11] in NUMERALS
            && forall i :: 2 <= i < 11 ==> isin[i] in LETTERS || isin[i] in NUMERALS
  {
    forall c: char
      ensures (IsNumeral(c) <==> c in NUMERALS) && (IsLetter(c) <==> c in LETTERS)
    {
      NumeralsAre(c);
      LettersAre(c);
    }
  }

  /** A numeral stands for itself, and the letters for ten to thirty-five in two digits. */
  lemma DigitsAre(i: nat)
    ensures i < 10 ==> IsAlphanumeric(NUMERALS[i]) && DigitsOf(NUMERALS[i]) == [i]
    ensures i < 26 ==>
              IsAlphanumeric(LETTERS[i]) && |DigitsOf(LETTERS[i])| == 2
              && 10 * (DigitsOf(LETTERS[i])[0] as int) + DigitsOf(LETTERS[i])[1] as int == 10 + i
  {
    if i < 10 {
      assert NUMERALS[i] == '0' + i as char;
    }
    if i < 26 {
      assert LETTERS[i] == 'A' + i as char;
    }
  }
}
