/** The store's currency helpers. Every amount is an integer number of cents,
    so the rounding to two decimals that each operation applies to its own
    result is exact: the operations are plain integer arithmetic. */
module Money {
  import opened Text

  type Cents = int

  function Add(a: Cents, b: Cents): Cents
  {
    a + b
  }

  function Subtract(a: Cents, b: Cents): Cents
  {
    a - b
  }

  /** The store only multiplies a price by a whole quantity. */
  function Multiply(price: Cents, quantity: int): Cents
  {
    price * quantity
  }

  /** A non-negative price times a non-negative quantity. */
  lemma MultiplyNonNegative(price: Cents, quantity: int)
    requires price >= 0 && quantity >= 0
    ensures Multiply(price, quantity) >= 0
  {
  }

  lemma AddCommutative(a: Cents, b: Cents)
    ensures Add(a, b) == Add(b, a)
  {
  }

  lemma SubtractUndoesAdd(a: Cents, b: Cents)
    ensures Subtract(Add(a, b), b) == a
  {
  }

  /** One more unit adds exactly one price. */
  lemma MultiplyStep(price: Cents, quantity: int)
    ensures Multiply(price, quantity + 1) == Add(Multiply(price, quantity), price)
    ensures Multiply(price, quantity - 1) == Subtract(Multiply(price, quantity), price)
  {
  }

  /** A line's price times a quantity split in two parts. */
  lemma MultiplyDistributes(price: Cents, a: int, b: int)
    ensures Multiply(price, a + b) == Add(Multiply(price, a), Multiply(price, b))
  {
  }

  /** A quotient of cents rounded to the nearest cent, halves away from
      zero, as `toFixed(2)` rounds. */
  function RoundDiv(total: Cents, count: int): (r: Cents)
    requires count > 0
    ensures -count <= 2 * (r * count - total) <= count
    ensures total >= 0 ==> r >= 0 && 2 * (total - r * count) < count
    ensures total < 0 ==> r <= 0 && 2 * (r * count - total) < count
  {
    if total >= 0 then
      HalfUpBounds(total, count);
      (2 * total + count) / (2 * count)
    else
      HalfUpBounds(-total, count);
      var q := (2 * -total + count) / (2 * count);
      assert (-q) * count == -(q * count);
      -q
  }

  /** Bounds of the half-up quotient of a non-negative amount. */
  lemma HalfUpBounds(t: int, c: int)
    requires t >= 0 && c > 0
    ensures var q := (2 * t + c) / (2 * c);
      q >= 0 && -c <= 2 * (q * c - t) <= c && 2 * (t - q * c) < c
  {
    var q := (2 * t + c) / (2 * c);
    DivBounds(2 * t + c, 2 * c);
    assert q * (2 * c) == 2 * (q * c);
  }

  lemma DivBounds(n: int, d: int)
    requires n >= 0 && d > 0
    ensures n / d >= 0
    ensures (n / d) * d <= n < (n / d) * d + d
  {
  }

  /** `amount.toFixed(2).replace('.', ',')`: the amount in units with a
      decimal comma and exactly two decimals. */
  function DecimalComma(c: Cents): (r: string)
    ensures |r| >= 4 && r[|r| - 3] == ','
    ensures (c < 0) == (r[0] == '-')
  {
    var a := if c < 0 then -c else c;
    var cents := a % 100;
    (if c < 0 then "-" else "") + NatToString(a / 100) + "," + [DigitChar(cents / 10), DigitChar(cents % 10)]
  }

  /** The rendered amount is made of digits apart from the sign and the
      comma. */
  lemma DecimalCommaDigits(c: Cents)
    ensures var r := DecimalComma(c);
      forall i :: (if c < 0 then 1 else 0) <= i < |r| && i != |r| - 3 ==> '0' <= r[i] <= '9'
  {
    var a := if c < 0 then -c else c;
    var body := NatToString(a / 100) + "," + [DigitChar(a % 100 / 10), DigitChar(a % 100 % 10)];
    var r := DecimalComma(c);
    assert r == (if c < 0 then "-" else "") + body;
    assert forall i :: 0 <= i < |body| && i != |body| - 3 ==> '0' <= body[i] <= '9';
  }

  /** The digits before the comma read as the whole units of the amount's
      magnitude and the two after it as the remaining cents, so the text
      determines the amount. */
  lemma DecimalCommaReadsBack(c: Cents)
    ensures var r := DecimalComma(c);
      var a := if c < 0 then -c else c;
      var start := if c < 0 then 1 else 0;
      start <= |r| - 3 &&
      DigitsValue(r[start..|r| - 3]) == a / 100 && DigitsValue(r[|r| - 2..]) == a % 100
  {
    var a := if c < 0 then -c else c;
    var units := NatToString(a / 100);
    var cents := [DigitChar(a % 100 / 10), DigitChar(a % 100 % 10)];
    var r := DecimalComma(c);
    var start := if c < 0 then 1 else 0;
    assert r == (if c < 0 then "-" else "") + units + "," + cents;
    CommaParts(c < 0, units, cents);
    assert DigitsValue(r[start..|r| - 3]) == a / 100 by {
      NatToStringValue(a / 100);
    }
    assert DigitsValue(r[|r| - 2..]) == a % 100 by {
      TwoDigits(a % 100);
    }
  }

  /** The amount a decimal-comma text denotes: an optional minus, the
      digits of the whole units, a comma and two digits of cents. */
  function ReadDecimalComma(r: string): Cents
    requires |r| >= 4
  {
    var start := if r[0] == '-' then 1 else 0;
    var value := 100 * DigitsValue(r[start..|r| - 3]) + DigitsValue(r[|r| - 2..]);
    if r[0] == '-' then -value else value
  }

  /** Reading the rendered amount gives the amount back. */
  lemma DecimalCommaRoundTrip(c: Cents)
    ensures ReadDecimalComma(DecimalComma(c)) == c
  {
    DecimalCommaReadsBack(c);
    var a := if c < 0 then -c else c;
    assert 100 * (a / 100) + a % 100 == a;
  }

  /** Where the units and the cents sit in a text assembled from a sign,
      the units, a comma and two cents digits. */
  lemma CommaParts(negative: bool, units: string, cents: string)
    requires |cents| == 2 && |units| >= 1
    ensures var r := (if negative then "-" else "") + units + "," + cents;
      var start := if negative then 1 else 0;
      start <= |r| - 3 && r[start..|r| - 3] == units && r[|r| - 2..] == cents
  {
  }

  /** Two digit characters read back as the number below 100 they render. */
  lemma TwoDigits(x: nat)
    requires x < 100
    ensures DigitsValue([DigitChar(x / 10), DigitChar(x % 10)]) == x
  {
    var s := [DigitChar(x / 10), DigitChar(x % 10)];
    assert s[..1] == [s[0]] && [s[0]][..0] == [];
    assert DigitsValue([s[0]]) == x / 10;
    assert DigitsValue(s) == 10 * (x / 10) + x % 10;
  }
}
