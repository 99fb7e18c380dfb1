/**
  The days-supply quotient: `Math.floor(qty / (freq * dose))`, where each of the
  three inputs is the `parseFloat` of a form field. The same computation stands
  in the calculator view of the single-file app and in the stand-alone
  calculator component; both are this module.
 */
module DaysSupplyCalculator {

  /** What `parseFloat` hands over: a number, or NaN when the field holds no number. */
  datatype Parsed = Num(value: real) | NaN

  /** What `Math.floor(qty / (freq * dose))` produces. */
  datatype Outcome =
    | Days(days: int)   // a whole number of days
    | Infinite          // a non-zero quantity divided by a zero product
    | NotANumber        // a NaN input, or zero divided by zero

  /** The quantity per day, `freq * dose`. */
  function DailyAmount(frequency: real, doseAmount: real): real {
    frequency * doseAmount
  }

  /**
    `calculateDaysSupply`: divide the quantity by the daily amount and round down.
    A whole number of days comes out exactly when all three fields parse and the
    daily amount is not zero, and it is the quotient rounded down: the quantity lies
    between that many days' worth and one day more. The other outcomes follow
    JavaScript's division.
   */
  function DaysSupply(quantity: Parsed, frequency: Parsed, doseAmount: Parsed): (r: Outcome)
    ensures r.Days? <==>
      quantity.Num? && frequency.Num? && doseAmount.Num? &&
      DailyAmount(frequency.value, doseAmount.value) != 0.0
    ensures r.NotANumber? <==>
      quantity.NaN? || frequency.NaN? || doseAmount.NaN? ||
      (quantity.value == 0.0 && DailyAmount(frequency.value, doseAmount.value) == 0.0)
    ensures r.Days? ==>
      var perDay := DailyAmount(frequency.value, doseAmount.value);
      (perDay > 0.0 ==> r.days as real * perDay <= quantity.value < (r.days + 1) as real * perDay) &&
      (perDay < 0.0 ==> (r.days + 1) as real * perDay < quantity.value <= r.days as real * perDay)
  {
    match (quantity, frequency, doseAmount)
    case (Num(qty), Num(freq), Num(dose)) =>
      var perDay := DailyAmount(freq, dose);
      if perDay != 0.0 then
        FloorBracket(qty, perDay);
        Days((qty / perDay).Floor)
      else if qty != 0.0 then Infinite
      else NotANumber
    case _ => NotANumber
  }

  /** `k` whole days need no more than `quantity` at `perDay` a day. */
  predicate Covers(k: int, quantity: real, perDay: real) {
    k as real * perDay <= quantity
  }

  /** The result is the largest whole number of days that the quantity covers. */
  lemma DaysSupplyIsLargest(quantity: real, frequency: real, doseAmount: real, k: int)
    requires DailyAmount(frequency, doseAmount) > 0.0
    ensures var n := DaysSupply(Num(quantity), Num(frequency), Num(doseAmount)).days;
      Covers(n, quantity, DailyAmount(frequency, doseAmount)) &&
      (Covers(k, quantity, DailyAmount(frequency, doseAmount)) ==> k <= n)
  {
    var perDay := DailyAmount(frequency, doseAmount);
    var n := DaysSupply(Num(quantity), Num(frequency), Num(doseAmount)).days;
    if k > n {
      var hi := (n + 1) as real;
      assert quantity < hi * perDay;
      assert hi <= k as real;
      ScaleLe(hi, k as real, perDay);
      assert !Covers(k, quantity, perDay);
    }
  }

  /**
    Rounding the quotient down brackets the dividend between two neighbouring multiples
    of the divisor: from below for a positive divisor, from above for a negative one.
   */
  lemma FloorBracket(quantity: real, perDay: real)
    requires perDay != 0.0
    ensures var n := (quantity / perDay).Floor;
      (perDay > 0.0 ==> n as real * perDay <= quantity < (n + 1) as real * perDay) &&
      (perDay < 0.0 ==> (n + 1) as real * perDay < quantity <= n as real * perDay)
  {
    var q := quantity / perDay;
    var n := q.Floor;
    var lo, hi := n as real, (n + 1) as real;
    assert lo <= q < hi;
    QuotientTimesDivisor(quantity, perDay);
    if perDay > 0.0 {
      ScaleLe(lo, q, perDay);
      ScaleLt(q, hi, perDay);
      assert q * perDay == quantity;
      assert q * perDay < hi * perDay;
      assert quantity < hi * perDay;
      assert lo * perDay <= quantity;
    } else {
      FlipLe(lo, q, perDay);
      FlipLt(q, hi, perDay);
      assert q * perDay == quantity;
      assert hi * perDay < q * perDay;
      assert hi * perDay < quantity <= lo * perDay;
    }
  }

  // Facts of real arithmetic, kept apart so that each proof above stays small.

  lemma QuotientTimesDivisor(x: real, p: real)
    requires p != 0.0
    ensures (x / p) * p == x
  {
  }

  lemma ScaleLe(a: real, b: real, p: real)
    requires a <= b && p > 0.0
    ensures a * p <= b * p
  {
  }

  lemma ScaleLt(a: real, b: real, p: real)
    requires a < b && p > 0.0
    ensures a * p < b * p
  {
  }

  lemma FlipLe(a: real, b: real, p: real)
    requires a <= b && p < 0.0
    ensures b * p <= a * p
  {
  }

  lemma FlipLt(a: real, b: real, p: real)
    requires a < b && p < 0.0
    ensures b * p < a * p
  {
  }

  /** A non-negative quantity with a positive daily amount never gives a negative count. */
  lemma DaysSupplyNonNegative(quantity: real, frequency: real, doseAmount: real)
    requires quantity >= 0.0 && DailyAmount(frequency, doseAmount) > 0.0
    ensures DaysSupply(Num(quantity), Num(frequency), Num(doseAmount)).days >= 0
  {
    DaysSupplyIsLargest(quantity, frequency, doseAmount, 0);
  }

  /** More quantity never means fewer days, with frequency and dose held fixed. */
  lemma DaysSupplyMonotone(q1: real, q2: real, frequency: real, doseAmount: real)
    requires q1 <= q2 && DailyAmount(frequency, doseAmount) > 0.0
    ensures DaysSupply(Num(q1), Num(frequency), Num(doseAmount)).days
         <= DaysSupply(Num(q2), Num(frequency), Num(doseAmount)).days
  {
    var n1 := DaysSupply(Num(q1), Num(frequency), Num(doseAmount)).days;
    DaysSupplyIsLargest(q2, frequency, doseAmount, n1);
  }

  /** Only the product of frequency and dose is used, so swapping the two fields changes nothing. */
  lemma DaysSupplySymmetric(quantity: Parsed, frequency: Parsed, doseAmount: Parsed)
    ensures DaysSupply(quantity, frequency, doseAmount) == DaysSupply(quantity, doseAmount, frequency)
  {
  }
}
