/** The calling panel's state machine: the form fields of the home page and
    the handlers that change them. A handler that talks to the call context
    returns the request it issues; where the page awaits that request, its
    outcome (`updateOk`) is a parameter, since the form is reset only after a
    request resolved. `handleStartCall` does not await `addCall`, so the call
    is marked in progress whatever the request's fate. */
module Home {
  import opened Wrappers
  import opened Schema
  import opened Seqs
  import opened Text
  import opened Db
  import opened CallContext
  import CallsRouter

  /** The logged-in agent. */
  datatype Agent = Agent(sessionId: string, agentName: string, isAdmin: bool)

  datatype Form = Form(
    patientName: string,
    appointmentTime: string,
    comment: string,
    selectedStatus: Option<Status>,
    isInProgress: bool,
    editingId: Option<int>)

  const DefaultTime: string := "12:00"

  /** The form after a save or a cancel: every field but `editingId` back to its start. */
  function Cleared(f: Form): Form {
    f.(patientName := "", appointmentTime := DefaultTime, comment := "", selectedStatus := None, isInProgress := false)
  }

  /** A status button: choosing the selected status clears it, choosing another selects it. */
  function Toggled(current: Option<Status>, chosen: Status): (r: Option<Status>)
    ensures r.None? <==> current == Some(chosen)
    ensures r.Some? ==> r.value == chosen
  {
    if current == Some(chosen) then None else Some(chosen)
  }

  /** Choosing the same button twice restores the selection it started from, when
      that was nothing or that button; from another status it ends with nothing. */
  lemma ToggleTwice(current: Option<Status>, chosen: Status)
    ensures current == None || current == Some(chosen) ==> Toggled(Toggled(current, chosen), chosen) == current
    ensures current.Some? && current != Some(chosen) ==> Toggled(Toggled(current, chosen), chosen) == None
  {
  }

  function IsMatching(id: int): ClientCall -> bool {
    (c: ClientCall) => c.id == id
  }

  /** `!editingId`: both `null` and `0` are falsy. */
  predicate NoEdit(editingId: Option<int>) {
    editingId.None? || editingId == Some(0)
  }

  /** The record `handleSaveCall` targets: the first of the list, if it is the agent's. */
  predicate OwnsRecent(calls: seq<ClientCall>, agent: Option<Agent>) {
    |calls| > 0 && agent.Some? && calls[0].agentName == agent.value.agentName
  }

  class CallingPanel {
    var patientName: string
    var appointmentTime: string
    var comment: string
    var selectedStatus: Option<Status>
    var isInProgress: bool
    var editingId: Option<int>

    function State(): Form
      reads this
    {
      Form(patientName, appointmentTime, comment, selectedStatus, isInProgress, editingId)
    }

    constructor ()
      ensures State() == Form("", DefaultTime, "", None, false, None)
    {
      patientName, appointmentTime, comment := "", DefaultTime, "";
      selectedStatus, isInProgress, editingId := None, false, None;
    }

    /** `handleStartCall`. Its button is disabled while a call is in progress or
        the calls are loading, so it is reached only when neither holds; the handler itself
        tests neither, and neither does the model. */
    method StartCall(agent: Option<Agent>) returns (request: Option<NewCall>)
      modifies this
      ensures IsBlank(old(patientName)) || IsBlank(old(appointmentTime)) || agent.None? ==>
        request.None? && State() == old(State())
      ensures !IsBlank(old(patientName)) && !IsBlank(old(appointmentTime)) && agent.Some? ==>
        && request == Some(NewCall(old(patientName), None, None, old(appointmentTime), agent.value.agentName, Some(Some(""))))
        && State() == old(State()).(isInProgress := true)
    {
      if IsBlank(patientName) || IsBlank(appointmentTime) {
        return None;
      }
      if agent.None? {
        return None;
      }
      request := Some(NewCall(patientName, None, None, appointmentTime, agent.value.agentName, Some(Some(""))));
      isInProgress := true;
    }

    /** One of the three status buttons. They are rendered only while a call is in
        progress, so the handler is reached only then; the handler itself does not
        test `isInProgress`, and neither does the model. */
    method ChooseStatus(chosen: Status)
      modifies this
      ensures State() == old(State()).(selectedStatus := Toggled(old(selectedStatus), chosen))
    {
      selectedStatus := Toggled(selectedStatus, chosen);
    }

    /** `handleSaveCall`: the request it awaits, and the form reset once it succeeded. */
    method SaveCall(agent: Option<Agent>, calls: seq<ClientCall>, updateOk: bool) returns (request: Option<(int, CallUpdates)>)
      modifies this
      ensures !old(isInProgress) || old(selectedStatus).None? ==> request.None? && State() == old(State())
      ensures old(isInProgress) && old(selectedStatus).Some? && !OwnsRecent(calls, agent) ==>
        request.None? && State() == old(State())
      ensures old(isInProgress) && old(selectedStatus).Some? && OwnsRecent(calls, agent) ==>
        && request == Some((calls[0].id,
             CallUpdates(None, None, None, None, None, None, old(selectedStatus), Some(Some(old(comment))), None, None)))
        && State() == if updateOk then Cleared(old(State())) else old(State())
    {
      if !isInProgress || selectedStatus.None? {
        return None;
      }
      if |calls| > 0 && agent.Some? && calls[0].agentName == agent.value.agentName {
        request := Some((calls[0].id,
          CallUpdates(None, None, None, None, None, None, selectedStatus, Some(Some(comment)), None, None)));
        if updateOk {
          patientName := "";
          appointmentTime := DefaultTime;
          comment := "";
          selectedStatus := None;
          isInProgress := false;
        }
      } else {
        request := None;
      }
    }

    /** `handleCancelCall` */
    method CancelCall()
      modifies this
      ensures State() == Cleared(old(State()))
    {
      patientName := "";
      appointmentTime := DefaultTime;
      comment := "";
      selectedStatus := None;
      isInProgress := false;
    }

    /** `handleEditCall`: admins only; an unknown id changes nothing. */
    method EditCall(agent: Option<Agent>, calls: seq<ClientCall>, id: int)
      modifies this
      ensures agent.None? || !agent.value.isAdmin ==> State() == old(State())
      ensures agent.Some? && agent.value.isAdmin && (forall i | 0 <= i < |calls| :: calls[i].id != id) ==>
        State() == old(State())
      ensures agent.Some? && agent.value.isAdmin ==>
        forall k | 0 <= k < |calls| && calls[k].id == id && (forall j | 0 <= j < k :: calls[j].id != id) ::
          State() == old(State()).(editingId := Some(id), patientName := calls[k].patientName,
                                   appointmentTime := calls[k].appointmentTime,
                                   comment := CommentOrEmpty(Some(calls[k].comment)),
                                   selectedStatus := Some(calls[k].status))
    {
      if agent.None? || !agent.value.isAdmin {
        return;
      }
      var found := FirstIndex(calls, IsMatching(id));
      if found.Some? {
        var call := calls[found.value];
        editingId := Some(id);
        patientName := call.patientName;
        appointmentTime := call.appointmentTime;
        comment := CommentOrEmpty(Some(call.comment));
        selectedStatus := Some(call.status);
      }
    }

    /** `handleSaveEdit`: nothing without an edit in progress (null or 0); otherwise
        the awaited update, its status defaulting to `no_answer`, then the form cleared. */
    method SaveEdit(updateOk: bool) returns (request: Option<(int, CallUpdates)>)
      modifies this
      ensures NoEdit(old(editingId)) ==> request.None? && State() == old(State())
      ensures !NoEdit(old(editingId)) ==>
        && request == Some((old(editingId).value,
             CallUpdates(None, Some(old(patientName)), None, None, Some(old(appointmentTime)), None,
                         Some(old(selectedStatus).GetOr(NoAnswer)), Some(Some(old(comment))), None, None)))
        && State() == if updateOk
                      then old(State()).(editingId := None, patientName := "", appointmentTime := DefaultTime,
                                         comment := "", selectedStatus := None)
                      else old(State())
    {
      if NoEdit(editingId) {
        return None;
      }
      request := Some((editingId.value,
        CallUpdates(None, Some(patientName), None, None, Some(appointmentTime), None,
                    Some(selectedStatus.GetOr(NoAnswer)), Some(Some(comment)), None, None)));
      if updateOk {
        editingId := None;
        patientName := "";
        appointmentTime := DefaultTime;
        comment := "";
        selectedStatus := None;
      }
    }

    /** `handleDeleteCall`: admins only, and only once confirmed; the form is untouched. */
    method DeleteCall(agent: Option<Agent>, id: int, confirmed: bool) returns (request: Option<int>)
      ensures request.Some? <==> agent.Some? && agent.value.isAdmin && confirmed
      ensures request.Some? ==> request.value == id
    {
      if agent.None? || !agent.value.isAdmin {
        return None;
      }
      request := if confirmed then Some(id) else None;
    }
  }

  // Properties of the handlers

  /** A save from the calling panel with an empty comment sends no comment at all,
      so the stored one stays as it was. */
  lemma SaveDropsEmptyComment(id: int, status: Status)
    ensures var u := CallUpdates(None, None, None, None, None, None, Some(status), Some(Some("")), None, None);
            var p := UpdateCallPayload(id, u);
      p.comment.None? && p.status == Some(status) && p.id == id
  {
  }

  /** A new call from the panel is stored with an empty comment and the agent's name. */
  lemma StartedCallStored(patientName: string, appointmentTime: string, agent: Agent, id: nat, at: int)
    requires patientName != [] && appointmentTime != []
    ensures var request := NewCall(patientName, None, None, appointmentTime, agent.agentName, Some(Some("")));
            var input := ServerCreateInput(AddCallPayload(request));
            var row := NewCallRow(CallsRouter.CreateRecord(input), id, at);
      && (agent.agentName != [] ==> CallsRouter.CreateIssues(input) == [])
      && row.comment == Some("") && row.agentName == agent.agentName && row.status == NoAnswer
      && row.patientName == patientName && row.appointmentTime == appointmentTime
  {
  }
}
