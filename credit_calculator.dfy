/** The server's credit rule: how much one CSV row is credited under a
    wallet-action configuration (server/utils/creditCalculator.ts). */
module CreditCalculator {
  import opened Js

  /** A wallet-action configuration. `creditType` is kept as the raw string the
      caller sent, so that values other than "flat" and "percentage" can be stated. */
  datatype WalletAction = WalletAction(
    creditWallet: string,
    walletId: string,
    creditType: string,
    creditAmount: Option<Number>,
    creditPercentage: Option<Number>,
    percentageField: Option<string>,
    hasMaxLimit: Option<bool>,
    maxLimit: Option<Number>)

  /** One parsed CSV row: header name to cell text. */
  type CsvRow = map<string, string>

  /** JavaScript's parseFloat, left abstract: NaN is `NaN`. */
  type ParseFloat = string -> Number

  /** `csvRow[field] || "0"`: a missing or empty cell reads as "0". */
  function CellOrZero(row: CsvRow, field: string): (r: string)
    ensures r != ""
    ensures field in row && row[field] != "" ==> r == row[field]
  {
    if field in row && row[field] != "" then row[field] else "0"
  }

  /** `a * p / 100`, where NaN stays NaN. */
  function PercentOf(base: Number, p: real): Number {
    match base
    case NaN => NaN
    case Finite(b) => Finite(b * p / 100.0)
  }

  /** Math.min(x, limit), where NaN stays NaN. */
  function Min(x: Number, limit: real): Number {
    match x
    case NaN => NaN
    case Finite(v) => Finite(if v <= limit then v else limit)
  }

  /** Whether the cap applies: `hasMaxLimit && maxLimit` (a NaN or 0 cap is falsy). */
  predicate CapApplies(a: WalletAction) {
    a.hasMaxLimit == Some(true) && Truthy(a.maxLimit)
  }

  /** calculateCreditAmount. Only the percentage rule reads a cell, so only it
      can produce NaN. */
  function CalculateCreditAmount(a: WalletAction, row: CsvRow, parseFloat: ParseFloat): (r: Number)
    ensures r.NaN? ==> a.creditType == "percentage"
  {
    if a.creditType == "flat" then
      Finite(OrZero(a.creditAmount))
    else if a.creditType == "percentage" then
      var percentage := OrZero(a.creditPercentage);
      var field := a.percentageField.GetOr("");
      var base := parseFloat(CellOrZero(row, field));
      var amount := PercentOf(base, percentage);
      if CapApplies(a) then Min(amount, a.maxLimit.value.value) else amount
    else
      Finite(0.0)
  }

  /** A flat credit is the configured amount, or 0 when it is absent, NaN or 0,
      and does not depend on the row. */
  lemma FlatIgnoresRow(a: WalletAction, row: CsvRow, parseFloat: ParseFloat)
    requires a.creditType == "flat"
    ensures CalculateCreditAmount(a, row, parseFloat) == Finite(OrZero(a.creditAmount))
    ensures CalculateCreditAmount(a, row, parseFloat) == CalculateCreditAmount(a, map[], parseFloat)
    ensures a.creditAmount == None ==> CalculateCreditAmount(a, row, parseFloat) == Finite(0.0)
  {
  }

  /** Any credit type other than "flat" and "percentage" credits 0. */
  lemma UnknownTypeCreditsZero(a: WalletAction, row: CsvRow, parseFloat: ParseFloat)
    requires a.creditType != "flat" && a.creditType != "percentage"
    ensures CalculateCreditAmount(a, row, parseFloat) == Finite(0.0)
  {
  }

  /** Without an applicable cap, a percentage credit is base * percentage / 100,
      where the base is parseFloat of the cell and a missing percentage counts as 0. */
  lemma PercentageUncapped(a: WalletAction, row: CsvRow, parseFloat: ParseFloat, cell: string)
    requires a.creditType == "percentage" && !CapApplies(a)
    requires cell == a.percentageField.GetOr("")
    ensures parseFloat(CellOrZero(row, cell)).Finite? ==>
      CalculateCreditAmount(a, row, parseFloat)
        == Finite(parseFloat(CellOrZero(row, cell)).value * OrZero(a.creditPercentage) / 100.0)
    ensures a.creditPercentage == None && parseFloat(CellOrZero(row, cell)).Finite? ==>
      CalculateCreditAmount(a, row, parseFloat) == Finite(0.0)
  {
  }

  /** A missing or empty cell counts as base 0 (given that parseFloat reads "0"
      as 0), so the credit is 0 — unless an enabled cap is negative, in which
      case Math.min lowers it to the cap. */
  lemma MissingCellCreditsZero(a: WalletAction, row: CsvRow, parseFloat: ParseFloat)
    requires a.creditType == "percentage"
    requires parseFloat("0") == Finite(0.0)
    requires var f := a.percentageField.GetOr(""); f !in row || row[f] == ""
    ensures CalculateCreditAmount(a, row, parseFloat)
         == if CapApplies(a) && a.maxLimit.value.value < 0.0 then a.maxLimit.value else Finite(0.0)
  {
  }

  /** A non-numeric cell is not defaulted: its NaN reaches the result, with or
      without a cap. */
  lemma NaNPropagates(a: WalletAction, row: CsvRow, parseFloat: ParseFloat)
    requires a.creditType == "percentage"
    requires parseFloat(CellOrZero(row, a.percentageField.GetOr(""))) == NaN
    ensures CalculateCreditAmount(a, row, parseFloat) == NaN
  {
  }

  /** With the cap enabled and non-zero, a numeric credit never exceeds it, and
      is the uncapped amount whenever that is within the cap. */
  lemma CapBounds(a: WalletAction, row: CsvRow, parseFloat: ParseFloat)
    requires a.creditType == "percentage" && CapApplies(a)
    ensures var r := CalculateCreditAmount(a, row, parseFloat);
      r.Finite? ==> r.value <= a.maxLimit.value.value
    ensures var base := parseFloat(CellOrZero(row, a.percentageField.GetOr("")));
      var uncapped := PercentOf(base, OrZero(a.creditPercentage));
      uncapped.Finite? && uncapped.value <= a.maxLimit.value.value ==>
        CalculateCreditAmount(a, row, parseFloat) == uncapped
    ensures var base := parseFloat(CellOrZero(row, a.percentageField.GetOr("")));
      var uncapped := PercentOf(base, OrZero(a.creditPercentage));
      uncapped.Finite? && uncapped.value > a.maxLimit.value.value ==>
        CalculateCreditAmount(a, row, parseFloat) == a.maxLimit.value
  {
  }

  /** When the cap flag is off, or the cap is absent or 0, no clamping happens:
      the result is the same as with no cap configured at all. */
  lemma NoCapNoClamp(a: WalletAction, row: CsvRow, parseFloat: ParseFloat)
    requires a.creditType == "percentage"
    requires a.hasMaxLimit != Some(true) || a.maxLimit == None || a.maxLimit == Some(Finite(0.0))
    ensures CalculateCreditAmount(a, row, parseFloat)
         == CalculateCreditAmount(a.(hasMaxLimit := None, maxLimit := None), row, parseFloat)
  {
  }
}
