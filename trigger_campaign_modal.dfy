/** The trigger-based campaign wizard (TriggerBasedCampaignModal.tsx): four
    steps (trigger and action, program, settings, review), a step counter kept
    within 1..4 by guarded handlers, and the campaign data merged from the
    step forms. */
module TriggerCampaignModal {
  import opened Js

  /** STEPS.length */
  const StepCount := 4

  datatype Settings = Settings(description: Option<string>, startDate: Option<string>, endDate: Option<string>)

  /** The wizard's campaign data; its type is always "trigger-based". */
  datatype CampaignData = CampaignData(
    name: string,
    campaignType: string,
    triggerEvent: Option<string>,
    programId: Option<string>,
    settings: Option<Settings>)

  /** A `Partial<CampaignData>`; `None` leaves a field alone. The type has a
      single possible value, so it is not part of a patch. */
  datatype CampaignPatch = CampaignPatch(
    name: Option<string>,
    triggerEvent: Option<Option<string>>,
    programId: Option<Option<string>>,
    settings: Option<Option<Settings>>)

  /** The data the wizard opens with and returns to on close. */
  function InitialData(campaignName: string): (d: CampaignData)
    ensures d.name == campaignName && d.campaignType == "trigger-based"
    ensures d.triggerEvent == None && d.programId == None && d.settings == None
  {
    CampaignData(campaignName, "trigger-based", None, None, None)
  }

  /** `{ ...prev, ...updates }` */
  function Merge(d: CampaignData, u: CampaignPatch): CampaignData {
    CampaignData(
      u.name.GetOr(d.name),
      d.campaignType,
      u.triggerEvent.GetOr(d.triggerEvent),
      u.programId.GetOr(d.programId),
      u.settings.GetOr(d.settings))
  }

  /** A merge sets exactly the fields the patch gives and keeps the others,
      the type among them. */
  lemma MergeSetsOnlyGivenFields(d: CampaignData, u: CampaignPatch)
    ensures var r := Merge(d, u);
      && r.campaignType == d.campaignType
      && (if u.name.Some? then r.name == u.name.value else r.name == d.name)
      && (if u.triggerEvent.Some? then r.triggerEvent == u.triggerEvent.value else r.triggerEvent == d.triggerEvent)
      && (if u.programId.Some? then r.programId == u.programId.value else r.programId == d.programId)
      && (if u.settings.Some? then r.settings == u.settings.value else r.settings == d.settings)
    ensures Merge(Merge(d, u), u) == Merge(d, u)
  {
  }

  /** The Next button's `disabled`: no trigger event on step 1, no program on
      step 2; the settings step never disables it. */
  predicate NextDisabled(step: int, d: CampaignData)
    ensures NextDisabled(step, d) ==> step == 1 || step == 2
  {
    (step == 1 && !Present(d.triggerEvent)) || (step == 2 && !Present(d.programId))
  }

  /** How the sidebar draws a step. */
  datatype Marker = Current | Done | Upcoming

  /** The sidebar marker of step `id` while `step` is the current one. */
  function StepMarker(id: int, step: int): (m: Marker)
    ensures m == Current <==> id == step
    ensures m == Done <==> id < step
    ensures m == Upcoming <==> id > step
  {
    if id == step then Current else if id < step then Done else Upcoming
  }

  /** The sidebar, steps 1 to 4 in order. */
  function Sidebar(step: int): (ms: seq<Marker>)
    ensures |ms| == StepCount
    ensures forall i :: 0 <= i < StepCount ==> ms[i] == StepMarker(i + 1, step)
  {
    seq(StepCount, i requires 0 <= i < StepCount => StepMarker(i + 1, step))
  }

  /** On a step in range the sidebar shows exactly one current step, at that
      step's place, every earlier step done and every later one upcoming. */
  lemma SidebarHasOneCurrent(step: int)
    requires 1 <= step <= StepCount
    ensures Sidebar(step)[step - 1] == Current
    ensures forall i :: 0 <= i < StepCount && Sidebar(step)[i] == Current ==> i == step - 1
    ensures forall i :: 0 <= i < step - 1 ==> Sidebar(step)[i] == Done
    ensures forall i :: step - 1 < i < StepCount ==> Sidebar(step)[i] == Upcoming
  {
  }

  class TriggerWizard {
    /** The `campaignName` prop the wizard was opened with. */
    const campaignName: string
    var currentStep: int
    var campaignData: CampaignData

    ghost predicate InRange()
      reads this
    {
      1 <= currentStep <= StepCount
    }

    constructor(campaignName: string)
      ensures this.campaignName == campaignName
      ensures currentStep == 1 && campaignData == InitialData(campaignName)
      ensures InRange()
    {
      this.campaignName := campaignName;
      currentStep := 1;
      campaignData := InitialData(campaignName);
    }

    /** updateCampaignData: the merge; the step does not change. */
    method UpdateCampaignData(u: CampaignPatch)
      modifies this
      ensures campaignData == Merge(old(campaignData), u) && currentStep == old(currentStep)
    {
      campaignData := Merge(campaignData, u);
    }

    /** handleNext: moves on only below the last step. */
    method HandleNext()
      modifies this
      ensures old(currentStep) < StepCount ==> currentStep == old(currentStep) + 1
      ensures old(currentStep) >= StepCount ==> currentStep == old(currentStep)
      ensures campaignData == old(campaignData)
      ensures old(InRange()) ==> InRange()
    {
      if currentStep < StepCount {
        currentStep := currentStep + 1;
      }
    }

    /** handleBack: moves back only above the first step. */
    method HandleBack()
      modifies this
      ensures old(currentStep) > 1 ==> currentStep == old(currentStep) - 1
      ensures old(currentStep) <= 1 ==> currentStep == old(currentStep)
      ensures campaignData == old(campaignData)
      ensures old(InRange()) ==> InRange()
    {
      if currentStep > 1 {
        currentStep := currentStep - 1;
      }
    }

    /** handleClose: back to step 1 and the opening data. */
    method HandleClose()
      modifies this
      ensures currentStep == 1 && campaignData == InitialData(campaignName)
      ensures InRange()
    {
      currentStep := 1;
      campaignData := InitialData(campaignName);
    }

    /** A click on Next, shown below the last step and enabled unless
        NextDisabled holds. */
    method ClickNext()
      modifies this
      ensures campaignData == old(campaignData)
      ensures old(currentStep) < StepCount && !NextDisabled(old(currentStep), campaignData) ==>
        currentStep == old(currentStep) + 1
      ensures old(currentStep) >= StepCount || NextDisabled(old(currentStep), campaignData) ==>
        currentStep == old(currentStep)
      ensures old(InRange()) ==> InRange()
    {
      if currentStep < StepCount && !NextDisabled(currentStep, campaignData) {
        HandleNext();
      }
    }

    /** A click on Publish Campaign, shown on the last step: the data is
        handed out (logged) and the wizard closes, which resets it. */
    method ClickPublish() returns (published: Option<CampaignData>)
      modifies this
      ensures old(currentStep) >= StepCount ==>
        published == Some(old(campaignData)) && currentStep == 1 && campaignData == InitialData(campaignName)
      ensures old(currentStep) < StepCount ==>
        published == None && currentStep == old(currentStep) && campaignData == old(campaignData)
    {
      published := None;
      if currentStep >= StepCount {
        published := Some(campaignData);
        HandleClose();
      }
    }
  }
}
