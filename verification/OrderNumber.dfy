/** Order numbers `ORD_YYYYMMDD_NNN`: the printer of SetNumber, a parser, and what their
    agreement says about collisions. */
module OrderNumber {
  import opened Text

  /** An UTC day as todayDate formats it: eight digits. */
  predicate IsDate(date: string) {
    |date| == 8 && AllDigits(date)
  }

  /** The three width branches of SetNumber. */
  function Width(sequence: nat): nat {
    if sequence > 9999 then 5 else if sequence > 999 then 4 else 3
  }

  function Format(date: string, sequence: nat): string {
    "ORD_" + date + "_" + Padded(sequence, Width(sequence))
  }

  /** The number as it looks: the day between its prefix and three digits of the sequence value,
      four from 1000 on, five from 10000 on. */
  lemma FormatShape(date: string, sequence: nat)
    requires IsDate(date) && sequence <= 99999
    ensures var number, digits := Format(date, sequence), Format(date, sequence)[13..];
      && number == "ORD_" + date + "_" + digits
      && |digits| == (if sequence >= 10000 then 5 else if sequence >= 1000 then 4 else 3)
      && digits[|digits| - 1] == Digit(sequence % 10)
      && digits[|digits| - 2] == Digit(sequence / 10 % 10)
      && digits[|digits| - 3] == Digit(sequence / 100 % 10)
      && (sequence >= 1000 ==> digits[|digits| - 4] == Digit(sequence / 1000 % 10))
      && (sequence >= 10000 ==> digits[0] == Digit(sequence / 10000))
  {
    assert Format(date, sequence)[13..] == Padded(sequence, Width(sequence));
    var a, b, c := sequence / 10, sequence / 10 / 10, sequence / 10 / 10 / 10;
    assert b == sequence / 100 && c == sequence / 1000 && c / 10 == sequence / 10000;
    DecimalSteps(sequence);
    if sequence >= 10 {
      DecimalSteps(a);
    }
    if sequence >= 100 {
      DecimalSteps(b);
    }
    if sequence >= 1000 {
      DecimalSteps(c);
    }
  }

  lemma DecimalSteps(n: nat)
    ensures n < 10 ==> Decimal(n) == [Digit(n)]
    ensures n >= 10 ==> Decimal(n) == Decimal(n / 10) + [Digit(n % 10)]
  {}

  /** Reads a number back: the day and the position in that day's sequence. */
  function Parse(number: string): Option<(string, nat)> {
    if |number| > 13 && number[..4] == "ORD_" && number[12] == '_' && AllDigits(number[13..])
    then Some((number[4..12], Value(number[13..])))
    else None
  }

  /** Printing loses nothing, whatever the width branch taken. */
  lemma ParseFormat(date: string, sequence: nat)
    requires IsDate(date)
    ensures Parse(Format(date, sequence)) == Some((date, sequence))
  {
    var digits := Padded(sequence, Width(sequence));
    var number := Format(date, sequence);
    assert number[13..] == digits;
    assert number[4..12] == date;
    assert number[..4] == "ORD_";
    PaddedValue(sequence, Width(sequence));
  }

  lemma FormatInjective(date1: string, sequence1: nat, date2: string, sequence2: nat)
    requires IsDate(date1) && IsDate(date2)
    ensures Format(date1, sequence1) == Format(date2, sequence2)
       <==> date1 == date2 && sequence1 == sequence2
  {
    ParseFormat(date1, sequence1);
    ParseFormat(date2, sequence2);
  }

  /** A value getRandomOrderNumber can return. */
  predicate IsFallback(n: nat) { 10000 <= n <= 99999 }

  /** A fallback number can equal a number the sequence has handed out that day
      exactly when the day's counter has reached the fallback value; with the counter below
      10000 it never can. */
  lemma FallbackCollision(date: string, lastValue: nat, fallback: nat)
    requires IsDate(date) && IsFallback(fallback)
    ensures (exists n: nat :: 1 <= n <= lastValue && Format(date, n) == Format(date, fallback))
       <==> fallback <= lastValue
    ensures lastValue < 10000 ==>
      forall n: nat :: 1 <= n <= lastValue ==> Format(date, n) != Format(date, fallback)
  {
    forall n: nat | 1 <= n <= lastValue
      ensures Format(date, n) == Format(date, fallback) <==> n == fallback
    {
      FormatInjective(date, n, date, fallback);
    }
    if fallback <= lastValue {
      assert Format(date, fallback) == Format(date, fallback);
    }
  }
}
