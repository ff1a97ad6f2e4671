/** The programs table (ProgramsList.tsx): deleting a program after a
    confirmation and toggling its status through an update request. */
module ProgramsList {
  import opened Js
  import opened Storage

  const Active := "active"
  const Inactive := "inactive"

  /** handleToggleStatus's new status: "active" becomes "inactive", anything
      else becomes "active". */
  function ToggledStatus(current: string): (s: string)
    ensures s == Active <==> current != Active
    ensures s == Inactive <==> current == Active
  {
    if current == Active then Inactive else Active
  }

  /** Toggling twice restores "active" and "inactive"; any other status
      becomes "active" and then "inactive". */
  lemma ToggleTwice(current: string)
    ensures current == Active || current == Inactive ==> ToggledStatus(ToggledStatus(current)) == current
    ensures current != Active && current != Inactive ==> ToggledStatus(ToggledStatus(current)) == Inactive
  {
  }

  /** The body of the update request: `{ status }` alone. */
  function StatusPatch(status: string): (u: ProgramPatch)
    ensures u.status == Some(status)
    ensures u.id.None? && u.name.None? && u.purpose.None? && u.inputType.None? && u.expiryDays.None?
    ensures u.minimumOrderValue.None? && u.fileFormatId.None? && u.createdAt.None?
  {
    ProgramPatch(None, None, None, None, None, None, None, Some(status), None)
  }

  /** The update a toggle sends for a program as listed. */
  function ToggleRequest(p: Program): (req: (string, ProgramPatch)) {
    (p.id, StatusPatch(ToggledStatus(p.status)))
  }

  /** The store's `updateProgram` merge, given the toggle's body, flips the
      status, stamps the update time and keeps every other field; a second
      toggle body built from the result restores an "active" or "inactive"
      status. (No server route forwards the toggle to `updateProgram`.) */
  lemma ToggleAppliedTwice(p: Program, t1: Instant, t2: Instant)
    requires p.status == Active || p.status == Inactive
    ensures var q := ApplyPatch(p, ToggleRequest(p).1, t1);
      && q == p.(status := ToggledStatus(p.status), updatedAt := t1)
      && ApplyPatch(q, ToggleRequest(q).1, t2) == p.(updatedAt := t2)
  {
    ToggleTwice(p.status);
  }

  /** handleDelete: the delete request is sent only when the user confirms. */
  function HandleDelete(programId: string, confirmed: bool): (req: Option<string>)
    ensures req.Some? <==> confirmed
    ensures req.Some? ==> req.value == programId
  {
    if confirmed then Some(programId) else None
  }
}
