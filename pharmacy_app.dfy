/**
  The calculator view of the single-file app. Its form keeps one more field than
  the stand-alone calculator component, the dose type chosen in a selector; the
  calculation itself is the shared days-supply quotient.
 */
module PharmacyApp {
  import opened DaysSupplyCalculator

  /** The four options of the dose-type selector. */
  datatype DoseType = Pills | Drops | Units | Puffs

  /** The calculator's form state, with each numeric field as `parseFloat` reads it. */
  datatype CalculatorForm = CalculatorForm(
    quantity: Parsed,
    frequency: Parsed,
    doseType: DoseType,
    doseAmount: Parsed)

  /**
    The view's `calculateDaysSupply`: the quotient of its three numeric fields, rounded
    down. With parsed fields and a positive daily amount it is the number of days the
    quantity covers and not one day more.
   */
  function CalculateDaysSupply(form: CalculatorForm): (r: Outcome)
    ensures r.Days? <==>
      form.quantity.Num? && form.frequency.Num? && form.doseAmount.Num? &&
      DailyAmount(form.frequency.value, form.doseAmount.value) != 0.0
    ensures r.Days? && DailyAmount(form.frequency.value, form.doseAmount.value) > 0.0 ==>
      Covers(r.days, form.quantity.value, DailyAmount(form.frequency.value, form.doseAmount.value)) &&
      !Covers(r.days + 1, form.quantity.value, DailyAmount(form.frequency.value, form.doseAmount.value))
  {
    DaysSupply(form.quantity, form.frequency, form.doseAmount)
  }

  /** The dose type is stored but never read: two forms that differ only in it give the same result. */
  lemma DoseTypeIgnored(form: CalculatorForm, doseType: DoseType)
    ensures CalculateDaysSupply(form.(doseType := doseType)) == CalculateDaysSupply(form)
  {
  }

  /** The view claims no more days than the quantity covers, and the most it can. */
  lemma CalculateDaysSupplyIsLargest(form: CalculatorForm, k: int)
    requires form.quantity.Num? && form.frequency.Num? && form.doseAmount.Num?
    requires DailyAmount(form.frequency.value, form.doseAmount.value) > 0.0
    ensures CalculateDaysSupply(form).Days?
    ensures var perDay := DailyAmount(form.frequency.value, form.doseAmount.value);
      var n := CalculateDaysSupply(form).days;
      Covers(n, form.quantity.value, perDay) &&
      !Covers(n + 1, form.quantity.value, perDay) &&
      (Covers(k, form.quantity.value, perDay) ==> k <= n)
  {
    DaysSupplyIsLargest(form.quantity.value, form.frequency.value, form.doseAmount.value, k);
  }
}
