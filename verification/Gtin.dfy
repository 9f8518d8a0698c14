/**
 gen_gtin_vectors.py: GS1 check digits (section 7.9 of the GS1 General
 Specifications) over strings of ASCII digits.
 */
module Gtin {
  import opened Prelude

  /** A digit; a string of ASCII digits is a sequence of them. */
  newtype Digit = d: int | 0 <= d <= 9
  type Digits = seq<Digit>

  /** A digit times its weight: 3 or 1, alternating with the number of digits to its right. */
  function Weighted(d: int, n: nat): int { if n % 2 == 0 then 3 * d else d }

  /** The weighted sum of the body, its last digit weighing 3 and the weights alternating leftwards. */
  function WeightedSum(body: Digits): int {
    if body == [] then 0 else Weighted(body[0] as int, |body| - 1) + WeightedSum(body[1..])
  }

  /** What makes the total a multiple of ten. */
  function CheckValue(body: Digits): (d: Digit)
    ensures (WeightedSum(body) + d as int) % 10 == 0
  {
    ((10 - WeightedSum(body) % 10) % 10) as Digit
  }

  lemma SuffixStep(body: Digits, i: nat)
    requires i < |body|
    ensures WeightedSum(body[i..]) == Weighted(body[i] as int, |body| - i - 1) + WeightedSum(body[i + 1..])
  {
  }

  /** The plain sum of every second digit of `ds`: of those `from` places from the right end, `from` + 2 places, and so on. */
  function EverySecond(ds: Digits, from: nat): nat
    decreases |ds|
  {
    if ds == [] then 0
    else if from == 0 then ds[|ds| - 1] as int + EverySecond(ds[..|ds| - 1], 1)
    else EverySecond(ds[..|ds| - 1], 0)
  }

  lemma {:induction false} WeightedSumSnoc(body: Digits, last: Digit)
    ensures WeightedSum(body + [last]) == 3 * last as int + 4 * PlainSum(body) - WeightedSum(body)
    decreases |body|
  {
    var all := body + [last];
    if body == [] {
      assert all[1..] == [];
    } else {
      assert all[1..] == body[1..] + [last];
      WeightedSumSnoc(body[1..], last);
    }
  }

  function PlainSum(ds: Digits): int {
    if ds == [] then 0 else ds[0] as int + PlainSum(ds[1..])
  }

  lemma {:induction false} PlainSumSnoc(body: Digits, last: Digit)
    ensures PlainSum(body + [last]) == PlainSum(body) + last as int
    decreases |body|
  {
    var all := body + [last];
    if body == [] {
      assert all[1..] == [];
    } else {
      assert all[1..] == body[1..] + [last];
      PlainSumSnoc(body[1..], last);
    }
  }

  /** The weights, spelled out: the digits at every second place from the right count three times, the others once. */
  lemma {:induction false} WeightsAreThreeAndOne(body: Digits)
    ensures WeightedSum(body) == 3 * EverySecond(body, 0) + EverySecond(body, 1)
    ensures PlainSum(body) == EverySecond(body, 0) + EverySecond(body, 1)
    decreases |body|
  {
    if body != [] {
      var front, last := body[..|body| - 1], body[|body| - 1];
      assert body == front + [last];
      WeightsAreThreeAndOne(front);
      WeightedSumSnoc(front, last);
      PlainSumSnoc(front, last);
    }
  }

  /** `check_digit`: the loop over the reversed body. */
  method CheckDigit(body: Digits) returns (digit: Digit)
    ensures digit == CheckValue(body)
    ensures (3 * EverySecond(body, 0) + EverySecond(body, 1) + digit as int) % 10 == 0
  {
    var total := 0;
    for i := 0 to |body|
      invariant total == WeightedSum(body[|body| - i..])
    {
      SuffixStep(body, |body| - i - 1);
      total := total + body[|body| - 1 - i] as int * (if i % 2 == 0 then 3 else 1);
    }
    assert body[0..] == body;
    WeightsAreThreeAndOne(body);
    digit := ((10 - total % 10) % 10) as Digit;
  }

  /** `g`: a body with its check digit. */
  function G(body: Digits): Digits {
    body + [CheckValue(body)]
  }

  function NextDigit(d: Digit): Digit {
    ((d as int + 1) % 10) as Digit
  }

  /** `bad`: a body with the next digit instead. */
  function Bad(body: Digits): Digits {
    body + [NextDigit(CheckValue(body))]
  }

  /** The last digit is the check digit of the others. */
  predicate Valid(code: Digits) {
    code != [] && CheckValue(code[..|code| - 1]) == code[|code| - 1]
  }

  predicate IsAsciiDigits(s: string) {
    s != "" && forall i :: 0 <= i < |s| ==> '0' <= s[i] <= '9'
  }

  /** The digits of a string of ASCII digits. */
  function ToDigits(s: string): (r: Digits)
    requires IsAsciiDigits(s)
    ensures |r| == |s|
  {
    seq(|s|, i requires 0 <= i < |s| => (s[i] as int - '0' as int) as Digit)
  }

  /** `pad`: the GTIN-14 form of an 8, 12, 13 or 14 digit code, None for anything else. */
  function Pad(code: string): Option<Digits> {
    if IsAsciiDigits(code) && (|code| == 8 || |code| == 12 || |code| == 13 || |code| == 14)
    then Some(RightJustify(ToDigits(code), 14)) else None
  }

  function RightJustify(code: Digits, width: nat): Digits {
    if |code| >= width then code else Zeros(width - |code|) + code
  }

  function Zeros(n: nat): (z: Digits)
    ensures |z| == n
  {
    if n == 0 then [] else [0] + Zeros(n - 1)
  }

  // ---------------------------------------------------------------- one sum for the whole code

  /** The sum over a whole code: its own digit weighs 1, the one before it 3, and so on. */
  function CodeSum(code: Digits): int {
    if code == [] then 0 else Weighted(code[0] as int, |code|) + CodeSum(code[1..])
  }

  lemma {:induction false} CodeSumSplits(body: Digits, last: Digit)
    ensures CodeSum(body + [last]) == WeightedSum(body) + last as int
    decreases |body|
  {
    var code := body + [last];
    if body == [] {
      assert code[1..] == [];
    } else {
      assert code[1..] == body[1..] + [last];
      CodeSumSplits(body[1..], last);
    }
  }

  /** A code is valid exactly when its sum is a multiple of ten. */
  lemma ValidIffMultiple(code: Digits)
    requires code != []
    ensures Valid(code) <==> CodeSum(code) % 10 == 0
  {
    var body, last := code[..|code| - 1], code[|code| - 1];
    assert code == body + [last];
    CodeSumSplits(body, last);
    UniqueDigit(WeightedSum(body), CheckValue(body), last);
  }

  /**
   Validity by the rule of the GS1 General Specifications: the check digit and every
   second digit before it, plus three times the others, make a multiple of ten.
   */
  lemma ValidByRule(code: Digits)
    requires code != []
    ensures Valid(code) <==> (EverySecond(code, 0) + 3 * EverySecond(code, 1)) % 10 == 0
  {
    var body, last := code[..|code| - 1], code[|code| - 1];
    WeightsAreThreeAndOne(body);
    UniqueDigit(WeightedSum(body), CheckValue(body), last);
  }

  lemma UniqueDigit(sum: int, a: Digit, b: Digit)
    requires (sum + a as int) % 10 == 0
    ensures (sum + b as int) % 10 == 0 <==> a == b
  {
  }

  /** Changing one digit changes the sum by the weighted difference. */
  lemma {:induction false} ChangeDigit(code: Digits, i: nat, c: Digit)
    requires i < |code|
    ensures CodeSum(code[i := c]) == CodeSum(code) + Weighted(c as int - code[i] as int, |code| - i)
    decreases i
  {
    var changed := code[i := c];
    if i == 0 {
      assert changed[1..] == code[1..];
    } else {
      assert changed[1..] == code[1..][i - 1 := c];
      ChangeDigit(code[1..], i - 1, c);
    }
  }

  lemma MultipleOfTen(d: int, n: nat)
    requires -9 <= d <= 9
    ensures Weighted(d, n) % 10 == 0 <==> d == 0
  {
  }

  lemma SumOfMultiples(a: int, b: int)
    requires a % 10 == 0
    ensures (a + b) % 10 == 0 <==> b % 10 == 0
  {
  }

  // ---------------------------------------------------------------- theorems

  /** What `g` builds is valid, what `bad` builds never is: it ends in the next digit, 0 after 9. */
  lemma GValidBadInvalid(body: Digits)
    ensures Valid(G(body)) && !Valid(Bad(body))
    ensures G(body)[..|body|] == Bad(body)[..|body|] == body && |G(body)| == |Bad(body)| == |body| + 1
    ensures Bad(body)[|body|] == if G(body)[|body|] == 9 then 0 else G(body)[|body|] + 1
  {
  }

  /** Every change of a single digit of a valid code, the check digit included, is detected. */
  lemma SingleErrorDetected(code: Digits, i: nat, c: Digit)
    requires Valid(code) && i < |code|
    ensures Valid(code[i := c]) <==> c == code[i]
  {
    ChangeDigit(code, i, c);
    ValidIffMultiple(code);
    ValidIffMultiple(code[i := c]);
    var d := c as int - code[i] as int;
    MultipleOfTen(d, |code| - i);
    SumOfMultiples(CodeSum(code), Weighted(d, |code| - i));
  }

  function Swap(code: Digits, i: nat): Digits
    requires i + 1 < |code|
  {
    code[i := code[i + 1]][i + 1 := code[i]]
  }

  lemma ChangeTwo(code: Digits, i: nat, x: Digit, y: Digit)
    requires i + 1 < |code|
    ensures CodeSum(code[i := x][i + 1 := y]) == CodeSum(code)
              + Weighted(x as int - code[i] as int, |code| - i)
              + Weighted(y as int - code[i + 1] as int, |code| - i - 1)
  {
    var half := code[i := x];
    ChangeDigit(code, i, x);
    var sum := CodeSum(half);
    ChangeDigit(half, i + 1, y);
    assert half[i + 1] == code[i + 1] && |half| == |code|;
  }

  lemma SwapSum(code: Digits, i: nat)
    requires i + 1 < |code|
    ensures var d := code[i + 1] as int - code[i] as int;
      CodeSum(Swap(code, i)) == CodeSum(code) + Weighted(d, |code| - i) + Weighted(-d, |code| - i - 1)
  {
    ChangeTwo(code, i, code[i + 1], code[i]);
  }

  /** A swap of neighbours goes unnoticed exactly when the digits are equal or differ by 5. */
  lemma AdjacentSwapDetected(code: Digits, i: nat)
    requires Valid(code) && i + 1 < |code|
    ensures Valid(Swap(code, i)) <==>
            code[i] == code[i + 1]
            || code[i] as int - code[i + 1] as int == 5 || code[i + 1] as int - code[i] as int == 5
  {
    SwapSum(code, i);
    ValidIffMultiple(code);
    ValidIffMultiple(Swap(code, i));
    TwiceDifference(CodeSum(code), code[i + 1] as int - code[i] as int, |code| - i);
  }

  lemma TwiceDifference(a: int, d: int, n: nat)
    requires a % 10 == 0 && -9 <= d <= 9 && n > 0
    ensures (a + Weighted(d, n) + Weighted(-d, n - 1)) % 10 == 0 <==> d == 0 || d == 5 || d == -5
  {
  }

  lemma {:induction false} ZerosAddNothing(n: nat, body: Digits)
    ensures WeightedSum(Zeros(n) + body) == WeightedSum(body)
    decreases n
  {
    if n == 0 {
      assert Zeros(0) + body == body;
    } else {
      assert (Zeros(n) + body)[1..] == Zeros(n - 1) + body;
      ZerosAddNothing(n - 1, body);
    }
  }

  /** Zeros in front never change the check digit. */
  lemma PaddingKeepsCheckDigit(n: nat, body: Digits)
    ensures CheckValue(Zeros(n) + body) == CheckValue(body)
  {
    ZerosAddNothing(n, body);
  }

  /** Right-justifying keeps a code as valid or invalid as it was. */
  lemma JustifyKeepsValidity(code: Digits, width: nat)
    requires code != []
    ensures Valid(RightJustify(code, width)) <==> Valid(code)
  {
    if |code| < width {
      var zeros, body := Zeros(width - |code|), code[..|code| - 1];
      PaddingKeepsCheckDigit(width - |code|, body);
      assert (zeros + code)[..width - 1] == zeros + body;
    }
  }

  /** Exactly the codes of 8, 12, 13 or 14 ASCII digits have a GTIN-14 form: zeros, then the digits of the code. */
  lemma PadExactly(code: string)
    ensures Pad(code).Some? <==>
              |code| in {8, 12, 13, 14} && forall i :: 0 <= i < |code| ==> '0' <= code[i] <= '9'
    ensures Pad(code).Some? ==>
              var padded := Pad(code).value;
              && |code| <= |padded| == 14
              && (forall i :: 0 <= i < 14 - |code| ==> padded[i] == 0)
              && (forall i :: 14 - |code| <= i < 14 ==> padded[i] as int == code[i - (14 - |code|)] as int - '0' as int)
  {
    if Pad(code).Some? {
      ZerosAreZero(14 - |code|);
      assert Pad(code).value == Zeros(14 - |code|) + ToDigits(code);
    }
  }

  lemma {:induction false} ZerosAreZero(n: nat)
    ensures forall i :: 0 <= i < n ==> Zeros(n)[i] == 0
    decreases n
  {
    if n > 0 {
      ZerosAreZero(n - 1);
    }
  }

  /** The GTIN-14 form has fourteen digits and is valid exactly when the code is. */
  lemma PadKeepsValidity(code: string)
    requires Pad(code).Some?
    ensures |Pad(code).value| == 14 && (Valid(Pad(code).value) <==> Valid(ToDigits(code)))
  {
    JustifyKeepsValidity(ToDigits(code), 14);
  }

  lemma {:induction false} ZerosConcat(n: nat, m: nat)
    ensures Zeros(n + m) == Zeros(n) + Zeros(m)
    decreases n
  {
    if n > 0 {
      ZerosConcat(n - 1, m);
    }
  }

  lemma SamePrefix(front: Digits, x: Digits, y: Digits)
    ensures front + x == front + y <==> x == y
  {
    assert (front + x)[|front|..] == x;
    assert (front + y)[|front|..] == y;
  }

  lemma JustifiedIsPadded(code: Digits, n: nat)
    ensures RightJustify(code, n + |code|) == Zeros(n) + code
  {
  }

  /** Two codes have the same right-justified form exactly when they are equal up to zeros in front. */
  lemma JustifiedAlike(a: Digits, b: Digits, n: nat, m: nat)
    requires |b| == m + |a|
    ensures RightJustify(a, n + |b|) == RightJustify(b, n + |b|) <==> b == Zeros(m) + a
  {
    JustifiedIsPadded(a, n + m);
    JustifiedIsPadded(b, n);
    ZerosConcat(n, m);
    assert Zeros(n) + Zeros(m) + a == Zeros(n) + (Zeros(m) + a);
    SamePrefix(Zeros(n), Zeros(m) + a, b);
  }

  /** Two codes share a GTIN-14 form exactly when they are equal up to zeros in front. */
  lemma PadMeansSameNumber(a: string, b: string)
    requires Pad(a).Some? && Pad(b).Some? && |a| <= |b|
    ensures Pad(a) == Pad(b) <==> ToDigits(b) == Zeros(|b| - |a|) + ToDigits(a)
  {
    JustifiedAlike(ToDigits(a), ToDigits(b), 14 - |b|, |b| - |a|);
  }
}
