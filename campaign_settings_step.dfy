/** The settings step of a campaign (CampaignSettingsStep.tsx): a schedule and
    four optional limits (campaign-wide amount and actions, per-user amount
    and actions), each with a flag, a digit-filtered maximum and a duration.
    Next turns the inputs into a settings record; reopening the step starts
    from such a record. */
module CampaignSettingsStep {
  import opened Js

  datatype Schedule = Schedule(
    startDate: string,
    startTime: string,
    startImmediately: bool,
    endDate: string,
    endTime: string,
    noEndDate: bool)

  /** One limit as emitted: `max` and `duration` are undefined when the flag is off. */
  datatype Limit = Limit(enabled: bool, max: Option<int>, duration: Option<string>)

  datatype CampaignSettings = CampaignSettings(
    schedule: Schedule,
    totalAmount: Limit,
    totalActions: Limit,
    userAmount: Limit,
    userActions: Limit)

  /** One limit's inputs: the checkbox, the maximum as typed and the duration. */
  datatype LimitInput = LimitInput(enabled: bool, max: string, duration: string)

  datatype SettingsForm = SettingsForm(
    schedule: Schedule,
    totalAmount: LimitInput,
    totalActions: LimitInput,
    userAmount: LimitInput,
    userActions: LimitInput)

  const Lifetime := "lifetime"

  /** One limit's inputs when the step opens: `flag ?? false`,
      `max?.toString() || ""`, `duration || "lifetime"`. */
  function InitialLimit(l: Option<Limit>): (r: LimitInput)
    ensures l.None? ==> r == LimitInput(false, "", Lifetime)
    ensures l.Some? && l.value.max.Some? ==> ParseInt(r.max) == Some(l.value.max.value)
    ensures r.duration != ""
  {
    match l
    case None => LimitInput(false, "", Lifetime)
    case Some(limit) =>
      var max := if limit.max.Some? then IntToStringRoundTrip(limit.max.value); IntToString(limit.max.value) else "";
      var duration := if limit.duration.Some? && limit.duration.value != "" then limit.duration.value else Lifetime;
      LimitInput(limit.enabled, max, duration)
  }

  /** The inputs when the step opens, from the settings it was given if any:
      dates and times default to "", both schedule flags to true. */
  function InitialForm(initial: Option<CampaignSettings>): SettingsForm {
    match initial
    case None =>
      SettingsForm(Schedule("", "", true, "", "", true),
        InitialLimit(None), InitialLimit(None), InitialLimit(None), InitialLimit(None))
    case Some(s) =>
      SettingsForm(s.schedule,
        InitialLimit(Some(s.totalAmount)), InitialLimit(Some(s.totalActions)),
        InitialLimit(Some(s.userAmount)), InitialLimit(Some(s.userActions)))
  }

  /** With no settings given, the step starts immediately, has no end date,
      every limit is off and every duration is "lifetime". */
  lemma DefaultForm()
    ensures var f := InitialForm(None);
      && f.schedule.startImmediately && f.schedule.noEndDate
      && !f.totalAmount.enabled && !f.totalActions.enabled && !f.userAmount.enabled && !f.userActions.enabled
      && f.totalAmount.duration == Lifetime && f.totalActions.duration == Lifetime
      && f.userAmount.duration == Lifetime && f.userActions.duration == Lifetime
  {
  }

  /** The maximum inputs' filter: `value.replace(/[^0-9]/g, '')`. */
  function TypeMax(l: LimitInput, typed: string): (r: LimitInput)
    ensures r.max == DigitsOnly(typed)
    ensures AllDigits(r.max) && r.enabled == l.enabled && r.duration == l.duration
    ensures forall c :: c in r.max <==> c in typed && IsDigit(c)
  {
    forall c ensures c in DigitsOnly(typed) <==> c in typed && IsDigit(c) {
      DigitsOnlyKeeps(typed, c);
    }
    l.(max := DigitsOnly(typed))
  }

  /** One limit as Next emits it: its flag, and a maximum and a duration
      exactly when it is switched on. */
  function EmitLimit(l: LimitInput): (r: Limit)
    ensures r.enabled == l.enabled
    ensures r.max.Some? <==> l.enabled
    ensures r.duration.Some? <==> l.enabled
  {
    if l.enabled then Limit(true, Some(ParseIntOr(l.max, 0)), Some(l.duration)) else Limit(false, None, None)
  }

  /** handleNext: the schedule drops the start when starting immediately and the
      end when there is no end date; each limit as EmitLimit gives it. */
  function HandleNext(f: SettingsForm): CampaignSettings {
    var s := f.schedule;
    CampaignSettings(
      Schedule(
        if s.startImmediately then "" else s.startDate,
        if s.startImmediately then "" else s.startTime,
        s.startImmediately,
        if s.noEndDate then "" else s.endDate,
        if s.noEndDate then "" else s.endTime,
        s.noEndDate),
      EmitLimit(f.totalAmount), EmitLimit(f.totalActions), EmitLimit(f.userAmount), EmitLimit(f.userActions))
  }

  /** A switched-off limit emits neither maximum nor duration; a switched-on
      limit with a digit-only maximum emits that maximum's decimal value (0
      for an empty box) and its duration. */
  lemma EmitLimitValues(l: LimitInput)
    ensures !l.enabled ==> EmitLimit(l) == Limit(false, None, None)
    ensures l.enabled && AllDigits(l.max) ==> EmitLimit(l) == Limit(true, Some(DecimalValue(l.max)), Some(l.duration))
  {
    if l.enabled && AllDigits(l.max) && l.max != "" {
      ParseIntOfDigits(l.max);
    }
  }

  /** The schedule flags are emitted as they are; a start or end that is
      switched off is emitted as "", one that is switched on is kept. */
  lemma EmitSchedule(f: SettingsForm)
    ensures var s := HandleNext(f).schedule;
      && s.startImmediately == f.schedule.startImmediately && s.noEndDate == f.schedule.noEndDate
      && (f.schedule.startImmediately ==> s.startDate == "" && s.startTime == "")
      && (!f.schedule.startImmediately ==> s.startDate == f.schedule.startDate && s.startTime == f.schedule.startTime)
      && (f.schedule.noEndDate ==> s.endDate == "" && s.endTime == "")
      && (!f.schedule.noEndDate ==> s.endDate == f.schedule.endDate && s.endTime == f.schedule.endTime)
  {
  }

  lemma ReopenLimit(l: LimitInput)
    requires l.duration != ""
    ensures EmitLimit(InitialLimit(Some(EmitLimit(l)))) == EmitLimit(l)
  {
    if l.enabled {
      var v := ParseIntOr(l.max, 0);
      IntToStringRoundTrip(v);
      assert ParseIntOr(IntToString(v), 0) == v;
    }
  }

  /** Reopening the step with the settings it emitted and pressing Next again
      emits the same settings (durations come from a list of non-empty options). */
  lemma ReopenKeepsSettings(f: SettingsForm)
    requires f.totalAmount.duration != "" && f.totalActions.duration != ""
    requires f.userAmount.duration != "" && f.userActions.duration != ""
    ensures HandleNext(InitialForm(Some(HandleNext(f)))) == HandleNext(f)
  {
    ReopenLimit(f.totalAmount);
    ReopenLimit(f.totalActions);
    ReopenLimit(f.userAmount);
    ReopenLimit(f.userActions);
  }
}
