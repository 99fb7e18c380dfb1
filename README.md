# Pharmacy toolbox: days-supply calculator and facility search

The pharmacy toolbox is a small client-side web app with two tools. One is a
days-supply calculator. The other is a searchable directory of facilities. This
project models the two computations behind these tools. Each of them appears
twice in the source:

- **Days supply.** The calculator parses three form fields and shows
  `Math.floor(quantity / (timesPerDay * amountPerDose))`. The same code is in the
  calculator view of `src/App.tsx` (lines 84-90) and in
  `src/components/dayssupplycalculator.tsx` (lines 16-22). Module
  `DaysSupplyCalculator` (`days_supply.dfy`) models it once. The function
  `DaysSupply` takes the three fields as `parseFloat` hands them over: a number,
  or NaN. It returns a whole number of days, `Infinite`, or `NotANumber`, the
  way JavaScript division and `Math.floor` do. Its contract pins the whole number
  down by bracketing the quantity between that many days' worth and one day
  more, and a lemma shows it is the largest count of days the quantity covers.
  The App view also stores a dose type from a selector. Module `PharmacyApp` (`pharmacy_app.dfy`)
  adds that field to the form and proves that the result never depends on it.
- **Facility search.** The directory keeps a facility when one of its field
  values, lower-cased, includes the lower-cased search term. The same
  expression is in `src/App.tsx` (lines 203-207) and in
  `src/components/FacilityDirectory.tsx` (lines 43-47). Module `FacilitySearch`
  (`facility_search.dfy`) models it once. A facility is the sequence of its
  field values, as `Object.values` lists them. Module `JsText` (`js_text.dfy`)
  models the two string methods the filter uses. `toLowerCase` works on ASCII
  letters. `includes` is a left-to-right window scan, proved equal to "occurs
  somewhere".

## Model

| member | source | states |
|---|---|---|
| `DaysSupplyCalculator.DaysSupply` | src/components/dayssupplycalculator.tsx:16-22 | a whole number of days exactly when all three fields parse and the product `p = timesPerDay * amountPerDose` is not zero; NaN exactly when a field is NaN or the quantity and the product are both zero; otherwise Infinity; a whole number `n` is the rounded-down quotient: `n * p <= quantity < (n + 1) * p` for a positive product, reversed for a negative one |
| `DaysSupplyCalculator.FloorBracket` | src/components/dayssupplycalculator.tsx:20-21 | rounding `quantity / p` down gives `n` with `n * p <= quantity < (n + 1) * p` for a positive `p`, and the reversed bracket `(n + 1) * p < quantity <= n * p` for a negative `p` |
| `DaysSupplyCalculator.DaysSupplyIsLargest` | src/App.tsx:88-89 | the result is a count of days the quantity covers, and any count the quantity covers is no larger |
| `DaysSupplyCalculator.DaysSupplyNonNegative` | src/components/dayssupplycalculator.tsx:20-21 | a non-negative quantity and a positive product give at least zero days |
| `DaysSupplyCalculator.DaysSupplyMonotone` | src/components/dayssupplycalculator.tsx:20-21 | with frequency and dose fixed and positive product, a larger quantity never gives fewer days |
| `DaysSupplyCalculator.DaysSupplySymmetric` | src/components/dayssupplycalculator.tsx:20 | swapping the frequency and dose fields gives the same outcome, on every input including NaN ones |
| `PharmacyApp.CalculateDaysSupply` | src/App.tsx:84-90 | the App view yields whole days exactly when its three numeric fields parse and their product is not zero; with a positive product, the quantity covers `n` days and not `n + 1` |
| `PharmacyApp.DoseTypeIgnored` | src/App.tsx:80-90 | changing only the selected dose type leaves the App view's result unchanged |
| `PharmacyApp.CalculateDaysSupplyIsLargest` | src/App.tsx:84-90 | for parsed fields with a positive product, the App view yields a whole number `n` of days: `n` days are covered, `n + 1` are not, and no covered count exceeds `n` |
| `JsText.LowerChar` | src/App.tsx:205 | the lower-cased character is never a capital; it equals the input exactly when the input is not a capital; a capital moves 32 code points up |
| `JsText.Lower` | src/components/FacilityDirectory.tsx:45 | `toLowerCase` keeps the length and lower-cases each character in its place |
| `JsText.LowerIdempotent` | src/components/FacilityDirectory.tsx:45 | lower-casing a lower-cased string changes nothing |
| `JsText.Includes` | src/components/FacilityDirectory.tsx:45 | the window scan answers true exactly when the term occurs at some index of the string |
| `JsText.IncludesEmpty` | src/App.tsx:205 | `includes("")` is true of every string |
| `JsText.ContainsLower` | src/App.tsx:205 | a term that occurs in a value with its own capitalisation still occurs once both are lower-cased |
| `FacilitySearch.Matches` | src/components/FacilityDirectory.tsx:44-46 | a facility matches exactly when some field value, lower-cased, contains the lower-cased term |
| `FacilitySearch.Filter` | src/App.tsx:203-207 | the result is a subsequence of the facilities, in their order; a facility is in it exactly when it is in the input and matches; each matching facility is kept as often as it occurs, each other one never |
| `FacilitySearch.FilterIdempotent` | src/components/FacilityDirectory.tsx:43-47 | filtering the filtered list again with the same term returns it unchanged |
| `FacilitySearch.FilterCaseInsensitive` | src/components/FacilityDirectory.tsx:45 | two terms with the same lower-case form give identical results |
| `FacilitySearch.FilterLoweredTerm` | src/components/FacilityDirectory.tsx:45 | searching for a term and for its lower-case form gives identical results |
| `FacilitySearch.MatchesExactHit` | src/App.tsx:204-205 | a facility with a field value that contains the term exactly, case included, always matches |
| `FacilitySearch.MatchesNarrowing` | src/components/FacilityDirectory.tsx:44-46 | if the lower-cased `t1` occurs in the lower-cased `t2`, a facility that matches `t2` matches `t1` |
| `FacilitySearch.FilterNarrowing` | src/components/FacilityDirectory.tsx:43-47 | under the same condition, the list kept for `t2` is a subsequence of the list kept for `t1` |
| `FacilitySearch.MatchesEmptyTerm` | src/App.tsx:204-205 | with an empty term, a facility matches exactly when it has at least one field |
| `FacilitySearch.FilterEmptyTerm` | src/components/FacilityDirectory.tsx:43-47 | with an empty term and no field-less facility, the whole list comes back unchanged |

## Left out

- Reading the spreadsheet (`window.fs.readFile`, `XLSX.read`, `sheet_to_json`) is asynchronous I/O and a call into an external library. The model takes the loaded facilities as a parameter. `src/utils/excelUtils.ts` is not part of this model.
- React state setters, effects, rendering, the loading flag and navigation between views are UI glue. `src/components/appcard.tsx` and `src/components/navheader.tsx` are presentation only and are not part of this model.
- `parseFloat` itself is not modelled: the fields come in already parsed, as a number or NaN. Text such as `"Infinity"`, which parses to an infinite number, is not covered.
- `DaysSupplyCalculator.DaysSupply` uses exact real arithmetic. IEEE-754 rounding is not modelled. In floating point, `0.3 / 0.1` is just under 3 and floors to 2, where the model gives 3. Overflow to Infinity for very large fields is not modelled either, nor is underflow: in floating point `1e-200 * 1e-200` is 0, so JavaScript shows Infinity where the model gives a very large whole number of days.
- `DaysSupplyCalculator.DaysSupply` collapses `+Infinity` and `-Infinity` into one `Infinite` outcome, because the sign depends on signed zeros (`-0` from `parseFloat("-0")` or `0 * -1`). The model does not distinguish signed zeros. For the same reason, a result of `-0` is shown as zero days.
- `JsText.Lower` lower-cases ASCII letters only. Unicode case mapping in `toLowerCase` (accented capitals, characters that change length) is not modelled.
- `value.toString()` is not modelled. Field values are taken as strings, which is how the `Facility` interface types them.
- The days-supply result is given to a state setter and shown as "`n` days". That display step is left to the UI.
