/** The burn-rules step of a one-time campaign (BurnRulesStep.tsx): three text
    inputs, opened from the flow's current burn rules, turned into a burn-rule
    record on Next. Number rendering and parseFloat are parameters. */
module BurnRulesStep {
  import opened Js

  /** The client's burn rules. `minimumOrderValue` may be NaN when its text
      does not parse. */
  datatype BurnRules = BurnRules(expiryDays: int, expiryPeriod: string, minimumOrderValue: Option<Number>)

  /** The three inputs as typed. */
  datatype BurnRulesForm = BurnRulesForm(expiryDays: string, expiryPeriod: string, minimumOrderValue: string)

  /** Number.prototype.toString for a non-integer amount, left abstract. */
  type NumberToString = Number -> string

  /** JavaScript's parseFloat, left abstract. */
  type ParseFloat = string -> Number

  const DefaultExpiryDays := 30
  const DefaultExpiryPeriod := "Days"

  /** The inputs the step opens with: `expiryDays?.toString() || "30"`,
      `expiryPeriod || "Days"`, `minimumOrderValue?.toString() || ""`. */
  function InitialForm(initial: Option<BurnRules>, numberToString: NumberToString): (f: BurnRulesForm)
    ensures initial.None? ==> f == BurnRulesForm("30", DefaultExpiryPeriod, "")
    ensures initial.Some? ==> ParseInt(f.expiryDays) == Some(initial.value.expiryDays)
  {
    match initial
    case None => BurnRulesForm("30", DefaultExpiryPeriod, "")
    case Some(b) =>
      IntToStringRoundTrip(b.expiryDays);
      BurnRulesForm(
        IntToString(b.expiryDays),
        if b.expiryPeriod != "" then b.expiryPeriod else DefaultExpiryPeriod,
        if b.minimumOrderValue.Some? then numberToString(b.minimumOrderValue.value) else "")
  }

  /** handleNext: the burn rules built from the inputs. The expiry is never 0,
      and a minimum order value is present exactly when one was typed. */
  function HandleNext(f: BurnRulesForm, parseFloat: ParseFloat): (b: BurnRules)
    ensures b.expiryDays != 0
    ensures b.minimumOrderValue.Some? <==> f.minimumOrderValue != ""
  {
    BurnRules(
      ParseIntOr(f.expiryDays, DefaultExpiryDays),
      f.expiryPeriod,
      if f.minimumOrderValue != "" then Some(parseFloat(f.minimumOrderValue)) else None)
  }

  /** The expiry is the parsed number of days, negative ones included; text
      that does not parse, or parses to 0, falls back to 30. The period is
      passed through and an empty minimum order value is left out. */
  lemma HandleNextFields(f: BurnRulesForm, parseFloat: ParseFloat)
    ensures ParseInt(f.expiryDays).Some? && ParseInt(f.expiryDays).value != 0 ==>
      HandleNext(f, parseFloat).expiryDays == ParseInt(f.expiryDays).value
    ensures ParseInt(f.expiryDays) == None || ParseInt(f.expiryDays) == Some(0) ==>
      HandleNext(f, parseFloat).expiryDays == DefaultExpiryDays
    ensures HandleNext(f, parseFloat).expiryPeriod == f.expiryPeriod
    ensures HandleNext(f, parseFloat).minimumOrderValue.None? <==> f.minimumOrderValue == ""
  {
  }

  /** Opening the step with no burn rules and pressing Next gives 30 "Days"
      with no minimum order value. */
  lemma DefaultsGiveThirtyDays(numberToString: NumberToString, parseFloat: ParseFloat)
    ensures HandleNext(InitialForm(None, numberToString), parseFloat) == BurnRules(30, "Days", None)
  {
    assert ParseInt("30") == Some(30) by {
      ParseIntOfDigits("30");
      assert DecimalValue("30") == 30 by {
        assert "30"[..1] == "3";
      }
    }
  }

  /** Going back to the step and pressing Next again keeps the burn rules,
      provided the expiry is non-zero, the period non-empty, and parseFloat
      reads back the rendering of the minimum order value. */
  lemma ReopenKeepsBurnRules(b: BurnRules, numberToString: NumberToString, parseFloat: ParseFloat)
    requires b.expiryDays != 0 && b.expiryPeriod != ""
    requires b.minimumOrderValue.Some? ==>
      numberToString(b.minimumOrderValue.value) != ""
      && parseFloat(numberToString(b.minimumOrderValue.value)) == b.minimumOrderValue.value
    ensures HandleNext(InitialForm(Some(b), numberToString), parseFloat) == b
  {
  }

  /** A zero expiry does not survive a reopen: it comes back as 30. */
  lemma ReopenTurnsZeroExpiryIntoThirty(b: BurnRules, numberToString: NumberToString, parseFloat: ParseFloat)
    requires b.expiryDays == 0
    ensures HandleNext(InitialForm(Some(b), numberToString), parseFloat).expiryDays == DefaultExpiryDays
  {
  }
}
