// Decimal rounding to whole cents and the invoice totals built from it. Decimals are reals; a
// column of two decimals is an integer number of cents.
module Money {
  // Python's default rounding: to the nearest integer, a tie to the even one.
  function RoundHalfEven(x: real): int {
    var n := x.Floor;
    var rest := x - n as real;
    if rest < 0.5 || (rest == 0.5 && n % 2 == 0) then n else n + 1
  }

  // The database's rounding when a decimal is stored in a two-decimal column: a tie away from zero.
  function RoundHalfAway(x: real): int {
    if x >= 0.0 then (x + 0.5).Floor else -((0.5 - x).Floor)
  }

  // A line's amount: quantity times price, in cents.
  function ExactAmount(quantity: real, price: real): real {
    quantity * price * 100.0
  }

  function RawTax(subtotal: int, rate: real): real {
    subtotal as real * rate
  }

  function TotalOf(subtotal: int, rawTax: real, discount: int): int {
    RoundHalfEven(subtotal as real + rawTax - discount as real)
  }

  predicate Tie(x: real) {
    x - x.Floor as real == 0.5
  }

  lemma FloorShift(k: int, x: real)
    ensures (k as real + x).Floor == k + x.Floor
  {
  }

  lemma NearestCent(x: real)
    ensures -0.5 <= RoundHalfEven(x) as real - x <= 0.5
    ensures -0.5 <= RoundHalfAway(x) as real - x <= 0.5
    ensures Tie(x) ==> RoundHalfEven(x) % 2 == 0
    ensures !Tie(x) ==> RoundHalfEven(x) == RoundHalfAway(x)
  {
    if x < 0.0 && !Tie(x) {
      FloorShift(-1, 1.0 - x);
      assert (0.5 - x).Floor as real <= 0.5 - x < (0.5 - x).Floor as real + 1.0;
    }
  }

  // The nearest integer is unique unless the value is a tie.
  lemma NearestIsUnique(x: real, n: int)
    requires -0.5 < n as real - x < 0.5
    ensures RoundHalfEven(x) == n
  {
    assert x.Floor == n || x.Floor == n - 1;
  }

  // Rounding commutes with adding whole cents, except that a tie moves by one cent when the
  // number added is odd.
  lemma RoundShifted(k: int, x: real)
    ensures RoundHalfEven(k as real + x) == k + RoundHalfEven(x)
            <==> !(Tie(x) && k % 2 == 1)
    ensures Tie(x) && k % 2 == 1 ==>
            RoundHalfEven(k as real + x) == k + RoundHalfEven(x) + if x.Floor % 2 == 0 then 1 else -1
  {
    FloorShift(k, x);
    assert (k + x.Floor) % 2 == (k % 2 + x.Floor % 2) % 2;
  }

  // The total against the separately rounded tax.
  lemma TotalAgainstTax(subtotal: int, rawTax: real, discount: int)
    ensures var total, parts := TotalOf(subtotal, rawTax, discount), subtotal + RoundHalfEven(rawTax) - discount;
            && (total == parts <==> !(Tie(rawTax) && (subtotal - discount) % 2 == 1))
            && (total != parts ==> total == parts + if rawTax.Floor % 2 == 0 then 1 else -1)
  {
    assert subtotal as real + rawTax - discount as real == (subtotal - discount) as real + rawTax;
    RoundShifted(subtotal - discount, rawTax);
  }
}
