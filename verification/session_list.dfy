/**
 * The sidebar's session operations on the playground page. New session,
 * initial load, delete and rename are each a backend call followed by a
 * state update; the backend's answer is a parameter (`None` when the call
 * failed) and the update is modelled as one step. Switching sessions and
 * starting or cancelling a rename only update the state.
 */
module SessionList {

  import opened Wrappers
  import opened JsText
  import opened PlaygroundTypes

  /** The active session is the one with this `_id` (`activeSession?._id === id`). */
  predicate ActiveIs(p: Playground, id: string)
  {
    p.active.Some? && p.active.value.id == id
  }

  datatype Created = Created(state: Playground, session: Option<Session>)

  /**
   * `handleNewSession(setActive)`: a created session goes to the front of
   * the list and becomes active when asked; a failed call changes nothing
   * and yields no session.
   */
  function NewSession(p: Playground, setActive: bool, created: Option<Session>): (r: Created)
    ensures r.session == created
    ensures created.None? ==> r.state == p
    ensures created.Some? ==>
      && r.state.sessions == [created.value] + p.sessions
      && r.state.active == (if setActive then created else p.active)
      && r.state == p.(sessions := r.state.sessions, active := r.state.active)
  {
    match created
    case None => Created(p, None)
    case Some(s) =>
      Created(p.(sessions := [s] + p.sessions, active := if setActive then Some(s) else p.active), Some(s))
  }

  /**
   * The session-choosing branch of the initial load: a non-empty fetched list
   * replaces the sessions and its first entry becomes active; an empty one
   * creates a session and activates it; a failed fetch (`None`) changes
   * nothing.
   */
  function InitialLoad(p: Playground, fetched: Option<seq<Session>>, created: Option<Session>): (r: Playground)
    ensures fetched.None? ==> r == p
    ensures fetched.Some? && |fetched.value| > 0 ==>
      r == p.(sessions := fetched.value, active := Some(fetched.value[0]))
    ensures fetched.Some? && |fetched.value| == 0 ==> r == NewSession(p, true, created).state
  {
    match fetched
    case None => p
    case Some(list) =>
      if |list| > 0 then p.(sessions := list, active := Some(list[0]))
      else NewSession(p, true, created).state
  }

  /** Clicking the `index`-th entry of the sidebar makes it active; other indices name no entry. */
  function SwitchSession(p: Playground, index: nat): (r: Playground)
    ensures index < |p.sessions| ==> r == p.(active := Some(p.sessions[index]))
    ensures index >= |p.sessions| ==> r == p
  {
    if index < |p.sessions| then p.(active := Some(p.sessions[index])) else p
  }

  /**
   * `handleDeleteSession(id)`: nothing happens unless the user confirms and
   * the backend deletes. Then every session with that `_id` leaves the list,
   * the rest keep their order, and if the deleted session was active the
   * first remaining one becomes active; with none left, a new session is
   * created without activating it and then activated by hand (`created`),
   * or the active session becomes none when creation failed.
   */
  function DeleteSession(p: Playground, id: string, confirmed: bool, deleted: bool, created: Option<Session>): (r: Playground)
    ensures !confirmed || !deleted ==> r == p
    ensures confirmed && deleted && !ActiveIs(p, id) ==>
      r == p.(sessions := RemoveById(p.sessions, id))
    ensures confirmed && deleted && ActiveIs(p, id) && RemoveById(p.sessions, id) != [] ==>
      r == p.(sessions := RemoveById(p.sessions, id), active := Some(RemoveById(p.sessions, id)[0]))
    ensures confirmed && deleted && ActiveIs(p, id) && RemoveById(p.sessions, id) == [] ==>
      && r.sessions == (if created.Some? then [created.value] else [])
      && r.active == created
      && r == p.(sessions := r.sessions, active := r.active)
    ensures confirmed && deleted ==> forall s :: s in r.sessions && s.id == id ==> created == Some(s)
  {
    if !confirmed || !deleted then p
    else
      var remaining := RemoveById(p.sessions, id);
      var afterFilter := p.(sessions := remaining);
      if !ActiveIs(p, id) then afterFilter
      else if |remaining| > 0 then afterFilter.(active := Some(remaining[0]))
      else
        var c := NewSession(afterFilter, false, created);
        c.state.(active := c.session)
  }

  /** Clicking the pencil of a session starts editing its name. */
  function StartRename(p: Playground, id: string): (r: Playground)
    ensures r.editingSessionId == Some(id)
    ensures r == p.(editingSessionId := r.editingSessionId)
  {
    p.(editingSessionId := Some(id))
  }

  /** Escape in the name field stops editing without renaming. */
  function CancelRename(p: Playground): (r: Playground)
    ensures r.editingSessionId.None?
    ensures r == p.(editingSessionId := None)
  {
    p.(editingSessionId := None)
  }

  /**
   * `handleRenameSession(id, newName)`: a blank name is ignored outright
   * (editing is not even ended). Otherwise editing ends whatever the backend
   * says; on success (`renamed`) list entries with that `_id` are replaced by
   * the backend's session and the active session is too, if it has that `_id`.
   */
  function RenameSession(p: Playground, id: string, newName: string, renamed: Option<Session>): (r: Playground)
    ensures IsBlank(newName) ==> r == p
    ensures !IsBlank(newName) ==> r.editingSessionId.None?
    ensures !IsBlank(newName) && renamed.None? ==> r == p.(editingSessionId := None)
    ensures !IsBlank(newName) && renamed.Some? ==>
      && |r.sessions| == |p.sessions|
      && (forall i :: 0 <= i < |p.sessions| && p.sessions[i].id != id ==> r.sessions[i] == p.sessions[i])
      && (forall i :: 0 <= i < |p.sessions| && p.sessions[i].id == id ==> r.sessions[i] == renamed.value)
      && r.active == (if ActiveIs(p, id) then renamed else p.active)
      && r.isGenerating == p.isGenerating && r.selected == p.selected && r.sideTab == p.sideTab
  {
    if IsBlank(newName) then p
    else
      match renamed
      case None => p.(editingSessionId := None)
      case Some(s) =>
        p.(sessions := ReplaceById(p.sessions, id, s),
           active := if ActiveIs(p, id) then Some(s) else p.active,
           editingSessionId := None)
  }

  /** Deleting an id nobody has leaves the list (and, since it is not active, everything) as it was. */
  lemma DeleteUnknownIdKeepsSessions(p: Playground, id: string, created: Option<Session>)
    requires !Listed(p.sessions, id) && !ActiveIs(p, id)
    ensures DeleteSession(p, id, true, true, created) == p
  {
    RemoveByIdKeepsOthers(p.sessions, id);
  }

  /** Deleting a session in the middle keeps the sessions around it, in order. */
  lemma DeletePreservesOrder(before: seq<Session>, victim: Session, after: seq<Session>)
    requires forall i :: 0 <= i < |before| ==> before[i].id != victim.id
    requires forall i :: 0 <= i < |after| ==> after[i].id != victim.id
    ensures RemoveById(before + [victim] + after, victim.id) == before + after
  {
    RemoveByIdConcat(before + [victim], after, victim.id);
    RemoveByIdConcat(before, [victim], victim.id);
    RemoveByIdKeepsOthers(before, victim.id);
    RemoveByIdKeepsOthers(after, victim.id);
    assert RemoveById([victim], victim.id) == [];
    assert before + [] == before;
  }
}
