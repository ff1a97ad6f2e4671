/** The program-creation wizard (CreateProgramModal.tsx): a step counter and
    the form data, moved by the footer's Back / Next / Create Program buttons.
    Step 1 is the basic information; step 2 is the event or the file
    configuration; a file program has a third, final step. */
module CreateProgramModal {
  import opened Js

  /** The form data. `purpose` and `inputType` are "" until chosen. */
  datatype ProgramData = ProgramData(
    name: string,
    purpose: string,
    inputType: string,
    expiryDays: int,
    minimumOrderValue: Option<real>,
    fileFormatId: Option<string>)

  /** A `Partial<ProgramData>`: `None` leaves a field alone; for the optional
      fields `Some(None)` sets them back to undefined. */
  datatype ProgramPatch = ProgramPatch(
    name: Option<string>,
    purpose: Option<string>,
    inputType: Option<string>,
    expiryDays: Option<int>,
    minimumOrderValue: Option<Option<real>>,
    fileFormatId: Option<Option<string>>)

  /** The data the wizard opens with and is reset to. */
  function InitialData(): (d: ProgramData)
    ensures d.name == "" && d.purpose == "" && d.inputType == ""
    ensures d.expiryDays == 30 && d.minimumOrderValue == None && d.fileFormatId == None
  {
    ProgramData("", "", "", 30, None, None)
  }

  /** `{ ...prev, ...updates }` */
  function Merge(d: ProgramData, u: ProgramPatch): ProgramData {
    ProgramData(
      u.name.GetOr(d.name),
      u.purpose.GetOr(d.purpose),
      u.inputType.GetOr(d.inputType),
      u.expiryDays.GetOr(d.expiryDays),
      u.minimumOrderValue.GetOr(d.minimumOrderValue),
      u.fileFormatId.GetOr(d.fileFormatId))
  }

  /** A merge sets exactly the fields the patch gives and keeps the others;
      merging the same patch twice is merging it once. */
  lemma MergeSetsOnlyGivenFields(d: ProgramData, u: ProgramPatch)
    ensures var r := Merge(d, u);
      && (if u.name.Some? then r.name == u.name.value else r.name == d.name)
      && (if u.purpose.Some? then r.purpose == u.purpose.value else r.purpose == d.purpose)
      && (if u.inputType.Some? then r.inputType == u.inputType.value else r.inputType == d.inputType)
      && (if u.expiryDays.Some? then r.expiryDays == u.expiryDays.value else r.expiryDays == d.expiryDays)
      && (if u.minimumOrderValue.Some? then r.minimumOrderValue == u.minimumOrderValue.value
          else r.minimumOrderValue == d.minimumOrderValue)
      && (if u.fileFormatId.Some? then r.fileFormatId == u.fileFormatId.value
          else r.fileFormatId == d.fileFormatId)
    ensures Merge(Merge(d, u), u) == Merge(d, u)
    ensures u == ProgramPatch(None, None, None, None, None, None) ==> Merge(d, u) == d
  {
  }

  /** getTotalSteps: an event program has two steps, any other three. */
  function TotalSteps(d: ProgramData): (n: int)
    ensures n == 2 || n == 3
    ensures n == 2 <==> d.inputType == "event"
  {
    if d.inputType == "event" then 2 else 3
  }

  /** isStepValid, with `currentStep` as a parameter. Only steps 1 to 3 can be
      valid, and a valid step that asks for the expiry has a positive one. */
  predicate StepValid(step: int, d: ProgramData)
    ensures StepValid(step, d) ==> 1 <= step <= 3
    ensures StepValid(step, d) && (step == 3 || (step == 2 && d.inputType == "event")) ==> d.expiryDays > 0
  {
    if step == 1 then d.name != "" && d.purpose != "" && d.inputType != ""
    else if step == 2 then
      if d.inputType == "event" then d.expiryDays > 0 else Present(d.fileFormatId)
    else if step == 3 then d.expiryDays > 0
    else false
  }

  /** The primary footer button: Next before the last step, Create Program on it. */
  datatype Primary = Next(enabled: bool) | Submit(enabled: bool)

  datatype Footer = Footer(backEnabled: bool, primary: Primary)

  /** The footer buttons for a step, data and whether a creation is in flight. */
  function FooterOf(step: int, d: ProgramData, pending: bool): (f: Footer)
    ensures f.backEnabled <==> step != 1
    ensures f.primary.Next? <==> step < TotalSteps(d)
    ensures f.primary.Next? ==> (f.primary.enabled <==> StepValid(step, d))
    ensures f.primary.Submit? ==> (f.primary.enabled <==> StepValid(step, d) && !pending)
  {
    Footer(step != 1,
      if step < TotalSteps(d) then Next(StepValid(step, d)) else Submit(StepValid(step, d) && !pending))
  }

  /** Within the wizard's range of steps, an enabled Create Program button
      appears only on the last step, with a positive expiry and nothing in
      flight, for both kinds of program. */
  lemma EnabledSubmitHasPositiveExpiry(step: int, d: ProgramData, pending: bool)
    requires 1 <= step <= TotalSteps(d)
    requires FooterOf(step, d, pending).primary == Submit(true)
    ensures step == TotalSteps(d) && step >= 2
    ensures d.expiryDays > 0 && !pending
  {
  }

  class ProgramWizard {
    var currentStep: int
    var programData: ProgramData

    /** The step stays within the steps of the chosen kind of program. */
    ghost predicate InRange()
      reads this
    {
      1 <= currentStep <= TotalSteps(programData)
    }

    constructor()
      ensures currentStep == 1 && programData == InitialData()
      ensures InRange()
    {
      currentStep := 1;
      programData := InitialData();
    }

    /** resetForm */
    method ResetForm()
      modifies this
      ensures currentStep == 1 && programData == InitialData()
      ensures InRange()
    {
      currentStep := 1;
      programData := InitialData();
    }

    /** handleNext: the step moves on, unguarded. */
    method HandleNext()
      modifies this
      ensures currentStep == old(currentStep) + 1 && programData == old(programData)
    {
      currentStep := currentStep + 1;
    }

    /** handleBack: the step moves back, unguarded. */
    method HandleBack()
      modifies this
      ensures currentStep == old(currentStep) - 1 && programData == old(programData)
    {
      currentStep := currentStep - 1;
    }

    /** updateProgramData: the merge; the step does not change. Only the first
        step's form can change the input type, so the range is kept whenever
        the step is 1 or 2 or the type is not switched to "event". */
    method UpdateProgramData(u: ProgramPatch)
      modifies this
      ensures programData == Merge(old(programData), u) && currentStep == old(currentStep)
      ensures old(InRange()) && (currentStep <= 2 || u.inputType.None? || u.inputType.value != "event") ==>
        InRange()
    {
      programData := Merge(programData, u);
    }

    /** A click on the Next button: it moves on only when the footer shows an
        enabled Next, so only from a valid step and never past the last one. */
    method ClickNext()
      modifies this
      ensures programData == old(programData)
      ensures FooterOf(old(currentStep), programData, false).primary == Next(true) ==>
        currentStep == old(currentStep) + 1
      ensures FooterOf(old(currentStep), programData, false).primary != Next(true) ==>
        currentStep == old(currentStep)
      ensures currentStep != old(currentStep) ==> StepValid(old(currentStep), programData)
      ensures old(InRange()) ==> InRange()
    {
      var footer := FooterOf(currentStep, programData, false);
      if footer.primary == Next(true) {
        HandleNext();
      }
    }

    /** A click on the Back button: disabled on step 1. */
    method ClickBack()
      modifies this
      ensures programData == old(programData)
      ensures old(currentStep) != 1 ==> currentStep == old(currentStep) - 1
      ensures old(currentStep) == 1 ==> currentStep == 1
      ensures old(InRange()) ==> InRange()
    {
      if FooterOf(currentStep, programData, false).backEnabled {
        HandleBack();
      }
    }
  }
}
