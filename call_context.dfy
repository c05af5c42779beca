/** The client-side call context: it mirrors the server's list in `calls`,
    shapes the payloads of `create` and `update`, and brackets each mutation
    with `isLoading`. A mutation is awaited, then the list is refetched; the
    refetch never throws (a failed refetch keeps the previous list), while a
    failed mutation propagates its error after `isLoading` is cleared.

    The context also wires a `startNewDay` mutation to a route the calls
    router does not define; the model lets that request fail as tRPC answers
    an unknown path (`NOT_FOUND`). */
module CallContext {
  import opened Wrappers
  import opened Schema
  import opened Db
  import opened Rpc
  import CallsRouter

  /** `new Date(t)`: a point in time in milliseconds. */
  datatype Date = Date(ms: int)

  /** A record as the client holds it; only the two timestamps differ from the row. */
  datatype ClientCall = ClientCall(
    id: nat,
    patientName: string,
    appointmentId: Option<string>,
    clinic: Option<string>,
    appointmentTime: string,
    agentName: string,
    status: Status,
    comment: Option<string>,
    createdAt: Date,
    updatedAt: Date,
    isActive: int)

  function ToClient(c: CallRow): ClientCall {
    ClientCall(c.id, c.patientName, c.appointmentId, c.clinic, c.appointmentTime, c.agentName,
               c.status, c.comment, Date(c.createdAt), Date(c.updatedAt), c.isActive)
  }

  function FromClient(c: ClientCall): CallRow {
    CallRow(c.id, c.patientName, c.appointmentId, c.clinic, c.appointmentTime, c.agentName,
            c.status, c.comment, c.createdAt.ms, c.updatedAt.ms, c.isActive)
  }

  /** The list mapping: every record with its timestamps turned into dates. */
  function ListMapping(rows: seq<CallRow>): (r: seq<ClientCall>)
    ensures |r| == |rows|
  {
    seq(|rows|, i requires 0 <= i < |rows| => ToClient(rows[i]))
  }

  /** The mapping keeps length and order and changes only the representation of
      the timestamps: mapping back gives the rows themselves. */
  lemma ListMappingReversible(rows: seq<CallRow>)
    ensures |ListMapping(rows)| == |rows|
    ensures forall i | 0 <= i < |rows| :: FromClient(ListMapping(rows)[i]) == rows[i]
    ensures forall i | 0 <= i < |rows| :: ListMapping(rows)[i].createdAt == Date(rows[i].createdAt)
  {
  }

  // ---------------------------------------------------------------------
  // addCall

  /** What a caller hands to `addCall`. `appointmentId` and `clinic` may be left
      undefined by the caller (the calling panel does); the outer `Option` of
      `comment` is whether it was given, the inner one its `null`. */
  datatype NewCall = NewCall(
    patientName: string,
    appointmentId: Option<string>,
    clinic: Option<string>,
    appointmentTime: string,
    agentName: string,
    comment: Option<Option<string>>)

  datatype CreatePayload = CreatePayload(
    patientName: string,
    appointmentId: Option<string>,
    clinic: Option<string>,
    appointmentTime: string,
    agentName: string,
    comment: string)

  /** `call.comment ? call.comment : ""`: an empty string is falsy, as are null and undefined. */
  function CommentOrEmpty(comment: Option<Option<string>>): string {
    if comment.Some? && comment.value.Some? && comment.value.value != "" then comment.value.value else ""
  }

  function AddCallPayload(c: NewCall): CreatePayload {
    CreatePayload(c.patientName, c.appointmentId, c.clinic, c.appointmentTime, c.agentName, CommentOrEmpty(c.comment))
  }

  /** The server's schema for `create` names neither `appointmentId` nor `clinic`,
      so zod strips them from the payload. */
  function ServerCreateInput(p: CreatePayload): CallsRouter.CreateInput {
    CallsRouter.CreateInput(p.patientName, p.appointmentTime, p.agentName, Some(p.comment))
  }

  /** `addCall` forwards the five fields unchanged and sends `""` exactly when the
      comment is null, undefined or empty. */
  lemma AddCallPayloadFields(c: NewCall)
    ensures var p := AddCallPayload(c);
      && p.patientName == c.patientName && p.appointmentId == c.appointmentId && p.clinic == c.clinic
      && p.appointmentTime == c.appointmentTime && p.agentName == c.agentName
      && (p.comment == "" <==> c.comment.None? || c.comment.value.None? || c.comment.value.value == "")
      && (p.comment != "" ==> c.comment == Some(Some(p.comment)))
  {
  }

  /** Whatever `appointmentId` and `clinic` the client sends, the stored record has
      neither. */
  lemma ClientAppointmentFieldsDropped(c: NewCall, id: nat, at: int)
    ensures var row := NewCallRow(CallsRouter.CreateRecord(ServerCreateInput(AddCallPayload(c))), id, at);
      row.appointmentId.None? && row.clinic.None? && row.comment == Some(CommentOrEmpty(c.comment))
  {
  }

  // ---------------------------------------------------------------------
  // updateCall

  /** `Partial<Call>`: every property may be absent. */
  datatype CallUpdates = CallUpdates(
    id: Option<int>,
    patientName: Option<string>,
    appointmentId: Option<string>,
    clinic: Option<string>,
    appointmentTime: Option<string>,
    agentName: Option<string>,
    status: Option<Status>,
    comment: Option<Option<string>>,
    createdAt: Option<Date>,
    updatedAt: Option<Date>)

  datatype UpdatePayload = UpdatePayload(
    id: int,
    patientName: Option<string>,
    appointmentId: Option<string>,
    clinic: Option<string>,
    appointmentTime: Option<string>,
    agentName: Option<string>,
    status: Option<Status>,
    comment: Option<string>)

  /** `{ id, ...cleanData }`: the timestamps are taken out, a falsy comment becomes
      `undefined`, and an `id` inside the updates is spread after the parameter
      and so wins over it. */
  function UpdateCallPayload(id: int, u: CallUpdates): UpdatePayload {
    UpdatePayload(u.id.GetOr(id), u.patientName, u.appointmentId, u.clinic, u.appointmentTime, u.agentName, u.status,
                  if u.comment.Some? && u.comment.value.Some? && u.comment.value.value != "" then u.comment.value else None)
  }

  /** The server's schema for `update`: `appointmentId` and `clinic` are stripped
      and the status travels as its text. */
  function ServerUpdateInput(p: UpdatePayload): CallsRouter.UpdateInput {
    CallsRouter.UpdateInput(p.id, p.patientName, p.appointmentTime, p.agentName,
                            if p.status.Some? then Some(StatusText(p.status.value)) else None, p.comment)
  }

  /** `createdAt` and `updatedAt` never reach the request. */
  lemma UpdateIgnoresTimestamps(id: int, u: CallUpdates, c: Option<Date>, d: Option<Date>)
    ensures UpdateCallPayload(id, u) == UpdateCallPayload(id, u.(createdAt := c, updatedAt := d))
  {
  }

  /** The id and every other supplied field are forwarded unchanged; a comment is
      forwarded exactly when it is a non-empty string. */
  lemma UpdateForwards(id: int, u: CallUpdates)
    ensures var p := UpdateCallPayload(id, u);
      && (u.id.None? ==> p.id == id)
      && (u.id.Some? ==> p.id == u.id.value)
      && p.patientName == u.patientName && p.appointmentId == u.appointmentId && p.clinic == u.clinic
      && p.appointmentTime == u.appointmentTime && p.agentName == u.agentName && p.status == u.status
      && (p.comment.Some? <==> u.comment.Some? && u.comment.value.Some? && u.comment.value.value != "")
      && (p.comment.Some? ==> u.comment == Some(p.comment))
  {
  }

  /** A status chosen on the client always passes the server's enumeration check. */
  lemma ClientStatusAccepted(id: int, u: CallUpdates)
    ensures CallsRouter.UpdateIssues(ServerUpdateInput(UpdateCallPayload(id, u))) == []
  {
    if u.status.Some? {
      ParseStatusExact(StatusText(u.status.value), u.status.value);
    }
  }

  /** A comment cannot be cleared through `updateCall`: whatever the updates say,
      the stored comment afterwards is the old one or a non-empty string. */
  lemma CommentCannotBeCleared(id: int, u: CallUpdates, r: CallRow, at: int)
    ensures var input := ServerUpdateInput(UpdateCallPayload(id, u));
      CallsRouter.UpdateIssues(input) == [] &&
      var after := PatchRow(r, CallsRouter.UpdatePatch(input), at);
      after.comment == r.comment || (after.comment.Some? && after.comment.value != "")
  {
    ClientStatusAccepted(id, u);
  }

  /** The server finds nothing to set, and so refuses the update, exactly when the
      updates carry none of the five fields it accepts, or only an empty comment:
      `appointmentId` and `clinic` alone are stripped and leave nothing. */
  lemma ClientUpdateSuppliesNothing(id: int, u: CallUpdates)
    ensures var input := ServerUpdateInput(UpdateCallPayload(id, u));
      CallsRouter.UpdateIssues(input) == [] &&
      (SuppliesNothing(CallsRouter.UpdatePatch(input)) <==>
         && u.patientName.None? && u.appointmentTime.None? && u.agentName.None? && u.status.None?
         && !(u.comment.Some? && u.comment.value.Some? && u.comment.value.value != ""))
  {
    ClientStatusAccepted(id, u);
  }

  // ---------------------------------------------------------------------
  // exportCalls

  /** `exportCalls`: the export data the query holds, or the error
      "Failed to export calls" when it holds none. */
  function ExportOutcome(data: Option<CallsRouter.ExportReply>): (r: Result<CallsRouter.ExportReply, string>)
    ensures r.Ok? <==> data.Some?
    ensures r.Ok? ==> r.value == data.value
    ensures r.Err? ==> r.error == "Failed to export calls"
  {
    if data.Some? then Ok(data.value) else Err("Failed to export calls")
  }

  /** How tRPC answers a mutation on a path the router does not define. */
  const UnknownStartNewDay: RpcError := Raised(NotFound, "No \"mutation\"-procedure on path \"calls.startNewDay\"")

  // ---------------------------------------------------------------------
  // The provider's state

  class CallProvider {
    var calls: seq<ClientCall>
    var isLoading: bool

    constructor ()
      ensures calls == [] && !isLoading
    {
      calls := [];
      isLoading := false;
    }

    /** `await listQuery.refetch()`: on success the list is mirrored; a failed
        refetch resolves anyway and leaves the previous list. */
    method Refetch(db: Database)
      modifies this
      ensures db.configured && db.reachable ==> calls == ListMapping(CallsRouter.NewestFirst(db.calls))
      ensures !db.configured ==> calls == []
      ensures db.configured && !db.reachable ==> calls == old(calls)
      ensures isLoading == old(isLoading)
    {
      var listed := CallsRouter.List(db);
      if listed.Ok? {
        calls := ListMapping(listed.value);
      }
    }

    method AddCall(db: Database, c: NewCall) returns (r: Result<(), RpcError>)
      requires db.Valid()
      modifies this, db
      ensures db.Valid() && !isLoading
      ensures var input := ServerCreateInput(AddCallPayload(c));
        && (CallsRouter.CreateIssues(input) != [] ==>
              r == Err(Rejected(CallsRouter.CreateIssues(input))) && unchanged(db) && calls == old(calls))
        && (CallsRouter.CreateIssues(input) == [] && !(db.configured && db.reachable) ==>
              r == Err(Raised(InternalServerError, "Failed to create call")) && unchanged(db) && calls == old(calls))
        && (CallsRouter.CreateIssues(input) == [] && db.configured && db.reachable ==>
              && r == Ok(())
              && db.calls == old(db.calls) + [NewCallRow(CallsRouter.CreateRecord(input), old(db.nextCallId), old(db.clock) + 1)]
              && calls == ListMapping(CallsRouter.NewestFirst(db.calls)))
    {
      isLoading := true;
      var created := CallsRouter.Create(db, ServerCreateInput(AddCallPayload(c)));
      if created.Err? {
        isLoading := false;
        return Err(created.error);
      }
      Refetch(db);
      isLoading := false;
      r := Ok(());
    }

    method UpdateCall(db: Database, id: int, updates: CallUpdates) returns (r: Result<(), RpcError>)
      requires db.Valid()
      modifies this, db
      ensures db.Valid() && !isLoading
      ensures var input := ServerUpdateInput(UpdateCallPayload(id, updates));
        && (!(db.configured && db.reachable) || SuppliesNothing(CallsRouter.UpdatePatch(input)) ==>
              r == Err(Raised(InternalServerError, "Failed to update call")) && unchanged(db) && calls == old(calls))
        && (db.configured && db.reachable && !SuppliesNothing(CallsRouter.UpdatePatch(input)) ==>
              && r == Ok(())
              && db.calls == UpdateWhere(old(db.calls), input.id, CallsRouter.UpdatePatch(input), old(db.clock) + 1)
              && calls == ListMapping(CallsRouter.NewestFirst(db.calls)))
    {
      isLoading := true;
      ClientStatusAccepted(id, updates);
      var updated := CallsRouter.Update(db, ServerUpdateInput(UpdateCallPayload(id, updates)));
      if updated.Err? {
        isLoading := false;
        return Err(updated.error);
      }
      Refetch(db);
      isLoading := false;
      r := Ok(());
    }

    method DeleteCall(db: Database, id: int) returns (r: Result<(), RpcError>)
      requires db.Valid()
      modifies this, db
      ensures db.Valid() && !isLoading
      ensures !(db.configured && db.reachable) ==>
        r == Err(Raised(InternalServerError, "Failed to delete call")) && unchanged(db) && calls == old(calls)
      ensures db.configured && db.reachable ==>
        && r == Ok(())
        && db.calls == DeleteWhere(old(db.calls), id)
        && calls == ListMapping(CallsRouter.NewestFirst(db.calls))
    {
      isLoading := true;
      var deleted := CallsRouter.Delete(db, id);
      if deleted.Err? {
        isLoading := false;
        return Err(deleted.error);
      }
      Refetch(db);
      isLoading := false;
      r := Ok(());
    }

    /** `startNewDay` always fails, leaves the list alone, and clears `isLoading`. */
    method StartNewDay() returns (r: Result<(), RpcError>)
      modifies this
      ensures r == Err(UnknownStartNewDay) && !isLoading && calls == old(calls)
    {
      isLoading := true;
      isLoading := false;
      r := Err(UnknownStartNewDay);
    }
  }
}
