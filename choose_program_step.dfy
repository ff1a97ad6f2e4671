/** The program step of the trigger-based wizard (ChooseProgramStep.tsx): the
    programs offered are the active, event-driven ones, in the order the
    server lists them; picking one sets the campaign's program. */
module ChooseProgramStep {
  import opened Js
  import opened Storage
  import TriggerCampaignModal

  /** The filter's test: input type "event" and status "active". */
  predicate Offered(p: Program) {
    p.inputType == "event" && p.status == "active"
  }

  /** `programs.filter(...)`. */
  function EventBasedPrograms(programs: seq<Program>): (r: seq<Program>)
    ensures |r| <= |programs|
    ensures forall p :: p in r <==> p in programs && Offered(p)
  {
    if programs == [] then []
    else if Offered(programs[0]) then [programs[0]] + EventBasedPrograms(programs[1..])
    else EventBasedPrograms(programs[1..])
  }

  /** The filter keeps the listing's order: filtering a concatenation
      concatenates the filtered parts. */
  lemma {:induction false} EventBasedProgramsAppend(a: seq<Program>, b: seq<Program>)
    ensures EventBasedPrograms(a + b) == EventBasedPrograms(a) + EventBasedPrograms(b)
  {
    if a == [] {
      assert a + b == b;
    } else {
      assert (a + b)[1..] == a[1..] + b;
      EventBasedProgramsAppend(a[1..], b);
    }
  }

  /** A listing whose programs are all offered is shown whole. */
  lemma {:induction false} AllOfferedShownWhole(programs: seq<Program>)
    requires forall i :: 0 <= i < |programs| ==> Offered(programs[i])
    ensures EventBasedPrograms(programs) == programs
  {
    if programs != [] {
      AllOfferedShownWhole(programs[1..]);
    }
  }

  /** The "no event-based programs" alert is shown instead of the list. */
  predicate ShowsAlert(programs: seq<Program>) {
    |EventBasedPrograms(programs)| == 0
  }

  /** The alert shows exactly when no listed program is both event-driven
      and active. */
  lemma ShowsAlertIff(programs: seq<Program>)
    ensures ShowsAlert(programs) <==> forall p :: p in programs ==> !Offered(p)
  {
    var r := EventBasedPrograms(programs);
    if |r| != 0 {
      assert r[0] in r;
    }
  }

  /** handleProgramSelect: a patch that sets the program and nothing else. */
  function HandleProgramSelect(programId: string): (u: TriggerCampaignModal.CampaignPatch)
    ensures u.programId == Some(Some(programId))
    ensures u.name.None? && u.triggerEvent.None? && u.settings.None?
  {
    TriggerCampaignModal.CampaignPatch(None, None, Some(Some(programId)), None)
  }

  /** The step component plugged into the trigger modal's merge and Next
      gate: selecting a program (whose id is never empty) stores it, keeps
      the rest of the campaign data and passes the gate of step 2. The modal
      as shipped renders a placeholder there instead of this component. */
  lemma SelectEnablesNext(d: TriggerCampaignModal.CampaignData, programId: string)
    requires programId != ""
    ensures var r := TriggerCampaignModal.Merge(d, HandleProgramSelect(programId));
      && r == d.(programId := Some(programId))
      && !TriggerCampaignModal.NextDisabled(2, r)
  {
  }
}
