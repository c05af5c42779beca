/** The `calls` procedures: `list`, `create`, `update`, `delete` and `export`,
    each over the store. Input validation is the procedures' zod schemas; a
    store failure is caught and turned into `INTERNAL_SERVER_ERROR` with the
    procedure's own message.

    As written, `create` consults no duplicate check and fills neither
    `appointmentId` nor `clinic`, although the schema declares both not null
    and the repository's tests expect them, along with an update-on-duplicate
    path; the model follows the procedures. */
module CallsRouter {
  import opened Wrappers
  import opened Schema
  import opened Seqs
  import opened Ordering
  import opened Db
  import opened Rpc
  import opened CsvExport

  // ---------------------------------------------------------------------
  // list

  /** What `list` returns: the store's order (oldest first), then
      `Array.prototype.sort` newest first, which keeps ties in place. */
  function NewestFirst(calls: seq<CallRow>): seq<CallRow> {
    SortBy(SortBy(calls, false), true)
  }

  /** `list` is a permutation of the table, newest `createdAt` first. Records
      created at the same time keep the order the store answered them in (the
      stability of `Array.prototype.sort`), and so, with the store's ties in
      table order, their order in the table. */
  lemma ListOrder(calls: seq<CallRow>, t: int)
    ensures Sorted(NewestFirst(calls), true)
    ensures multiset(NewestFirst(calls)) == multiset(calls)
    ensures CreatedAt(NewestFirst(calls), t) == CreatedAt(SortBy(calls, false), t)
    ensures CreatedAt(NewestFirst(calls), t) == CreatedAt(calls, t)
  {
    SortBySorted(calls, false);
    SortBySorted(SortBy(calls, false), true);
    SortByStable(calls, false, t);
    SortByStable(SortBy(calls, false), true, t);
  }

  method List(db: Database) returns (r: Result<seq<CallRow>, RpcError>)
    ensures !db.configured ==> r == Ok([])
    ensures db.configured && !db.reachable ==> r == Err(Raised(InternalServerError, "Failed to fetch calls"))
    ensures db.configured && db.reachable ==> r == Ok(NewestFirst(db.calls))
  {
    var all := db.GetAllCalls();
    if all.Err? {
      return Err(Raised(InternalServerError, "Failed to fetch calls"));
    }
    r := Ok(SortBy(all.value, true));
  }

  // ---------------------------------------------------------------------
  // create

  /** The input `create` accepts; a missing `comment` is `None`. */
  datatype CreateInput = CreateInput(patientName: string, appointmentTime: string, agentName: string, comment: Option<string>)

  /** The schema's issues, in field order: each of the three names must have at
      least one character (nothing is trimmed). */
  function CreateIssues(input: CreateInput): (issues: seq<string>)
    ensures issues == [] <==> input.patientName != [] && input.appointmentTime != [] && input.agentName != []
    ensures |issues| <= 3
  {
    (if input.patientName == [] then ["Patient name is required"] else [])
    + (if input.appointmentTime == [] then ["Appointment time is required"] else [])
    + (if input.agentName == [] then ["Agent name is required"] else [])
  }

  /** What `create` hands to the store. */
  function CreateRecord(input: CreateInput): InsertCall {
    InsertCall(input.patientName, None, None, input.appointmentTime, input.agentName,
               Some(NoAnswer), Some(input.comment.GetOr("")))
  }

  /** The stored record copies the three names, starts as `no_answer`, has the
      comment `""` when none was given, and is active with both times equal. */
  lemma CreatedRecord(input: CreateInput, id: nat, at: int)
    ensures var c := NewCallRow(CreateRecord(input), id, at);
      && c.id == id && c.patientName == input.patientName && c.appointmentTime == input.appointmentTime
      && c.agentName == input.agentName && c.status == NoAnswer
      && (input.comment.None? ==> c.comment == Some(""))
      && (input.comment.Some? ==> c.comment == input.comment)
      && c.appointmentId.None? && c.clinic.None?
      && c.createdAt == at && c.updatedAt == at && c.isActive == ActiveFlag
  {
  }

  /** No record `create` stores satisfies the declared schema, which wants
      `appointmentId` and `clinic` present. */
  lemma CreatedRecordOutsideSchema(input: CreateInput, id: nat, at: int)
    ensures !SchemaAdmitsCall(NewCallRow(CreateRecord(input), id, at))
  {
  }

  /** A value of only whitespace passes the schema. */
  lemma WhitespaceAccepted()
    ensures CreateIssues(CreateInput(" ", "\t", " ", None)) == []
  {
  }

  /** All missing names are reported together, in field order. */
  lemma AllIssuesReported()
    ensures CreateIssues(CreateInput("", "", "", None))
         == ["Patient name is required", "Appointment time is required", "Agent name is required"]
  {
  }

  method Create(db: Database, input: CreateInput) returns (r: Result<Reply, RpcError>)
    requires db.Valid()
    modifies db
    ensures db.Valid()
    ensures CreateIssues(input) != [] ==> r == Err(Rejected(CreateIssues(input))) && unchanged(db)
    ensures CreateIssues(input) == [] && !(db.configured && db.reachable) ==>
      r == Err(Raised(InternalServerError, "Failed to create call")) && unchanged(db)
    ensures CreateIssues(input) == [] && db.configured && db.reachable ==>
      && r == Ok(Reply(true, "Call created successfully"))
      && db.calls == old(db.calls) + [NewCallRow(CreateRecord(input), old(db.nextCallId), old(db.clock) + 1)]
      && db.sessions == old(db.sessions) && db.users == old(db.users)
  {
    var issues := CreateIssues(input);
    if issues != [] {
      return Err(Rejected(issues));
    }
    var created := db.CreateCall(CreateRecord(input));
    if created.Err? {
      return Err(Raised(InternalServerError, "Failed to create call"));
    }
    r := Ok(Reply(true, "Call created successfully"));
  }

  // ---------------------------------------------------------------------
  // update

  /** The input `update` accepts: a numeric id and any of five optional fields;
      `status` arrives as text and is checked against the enumeration. */
  datatype UpdateInput = UpdateInput(
    id: int,
    patientName: Option<string>,
    appointmentTime: Option<string>,
    agentName: Option<string>,
    status: Option<string>,
    comment: Option<string>)

  /** zod's message for a value outside the enumeration. */
  function StatusIssue(t: string): string {
    "Invalid enum value. Expected 'no_answer' | 'confirmed' | 'redirected', received '" + t + "'"
  }

  function UpdateIssues(input: UpdateInput): (issues: seq<string>)
    ensures issues == [] <==> input.status.None? || ParseStatus(input.status.value).Some?
  {
    if input.status.Some? && ParseStatus(input.status.value).None? then [StatusIssue(input.status.value)] else []
  }

  /** `const { id, ...updateData } = input`: every field but the id. */
  function UpdatePatch(input: UpdateInput): CallPatch
    requires UpdateIssues(input) == []
  {
    CallPatch(input.patientName, None, None, input.appointmentTime, input.agentName,
              if input.status.Some? then ParseStatus(input.status.value) else None,
              if input.comment.Some? then Some(Some(input.comment.value)) else None)
  }

  /** The patch names exactly the supplied fields, with their values, and cannot
      touch `appointmentId`, `clinic` or the id. */
  lemma UpdatePatchSupplied(input: UpdateInput)
    requires UpdateIssues(input) == []
    ensures var p := UpdatePatch(input);
      && p.patientName == input.patientName && p.appointmentTime == input.appointmentTime
      && p.agentName == input.agentName
      && (p.status.Some? <==> input.status.Some?)
      && (p.status.Some? ==> StatusText(p.status.value) == input.status.value)
      && (p.comment.Some? <==> input.comment.Some?)
      && (p.comment.Some? ==> p.comment.value == input.comment)
      && p.appointmentId.None? && p.clinic.None?
  {
  }

  /** The patch supplies nothing exactly when the input holds nothing besides the id. */
  lemma UpdateSuppliesNothing(input: UpdateInput)
    requires UpdateIssues(input) == []
    ensures SuppliesNothing(UpdatePatch(input)) <==>
      && input.patientName.None? && input.appointmentTime.None? && input.agentName.None?
      && input.status.None? && input.comment.None?
  {
  }

  /** An input holding only the id makes the store refuse the empty `set`, which
      the procedure reports as "Failed to update call". */
  method Update(db: Database, input: UpdateInput) returns (r: Result<Reply, RpcError>)
    requires db.Valid()
    modifies db
    ensures db.Valid()
    ensures UpdateIssues(input) != [] ==> r == Err(Rejected(UpdateIssues(input))) && unchanged(db)
    ensures UpdateIssues(input) == [] && (!(db.configured && db.reachable) || SuppliesNothing(UpdatePatch(input))) ==>
      r == Err(Raised(InternalServerError, "Failed to update call")) && unchanged(db)
    ensures UpdateIssues(input) == [] && db.configured && db.reachable && !SuppliesNothing(UpdatePatch(input)) ==>
      && r == Ok(Reply(true, "Call updated successfully"))
      && db.calls == UpdateWhere(old(db.calls), input.id, UpdatePatch(input), old(db.clock) + 1)
      && db.sessions == old(db.sessions) && db.users == old(db.users)
    ensures UpdateIssues(input) == [] && db.configured && db.reachable && !SuppliesNothing(UpdatePatch(input))
            && (forall i | 0 <= i < |old(db.calls)| :: old(db.calls)[i].id != input.id) ==>
      r.Ok? && db.calls == old(db.calls)
  {
    var issues := UpdateIssues(input);
    if issues != [] {
      return Err(Rejected(issues));
    }
    if forall i | 0 <= i < |db.calls| :: db.calls[i].id != input.id {
      UpdateAbsentId(db.calls, input.id, UpdatePatch(input), db.clock + 1);
    }
    var updated := db.UpdateCallRecord(input.id, UpdatePatch(input));
    if updated.Err? {
      return Err(Raised(InternalServerError, "Failed to update call"));
    }
    r := Ok(Reply(true, "Call updated successfully"));
  }

  // ---------------------------------------------------------------------
  // delete

  method Delete(db: Database, id: int) returns (r: Result<Reply, RpcError>)
    requires db.Valid()
    modifies db
    ensures db.Valid()
    ensures !(db.configured && db.reachable) ==>
      r == Err(Raised(InternalServerError, "Failed to delete call")) && unchanged(db)
    ensures db.configured && db.reachable ==>
      && r == Ok(Reply(true, "Call deleted successfully"))
      && db.calls == DeleteWhere(old(db.calls), id)
      && db.sessions == old(db.sessions) && db.users == old(db.users)
    ensures db.configured && db.reachable && (forall i | 0 <= i < |old(db.calls)| :: old(db.calls)[i].id != id) ==>
      db.calls == old(db.calls)
    ensures db.configured && db.reachable ==>
      forall k | 0 <= k < |old(db.calls)| && old(db.calls)[k].id == id :: db.calls == old(db.calls)[..k] + old(db.calls)[k + 1..]
  {
    if forall i | 0 <= i < |db.calls| :: db.calls[i].id != id {
      DeleteAbsentId(db.calls, id);
    }
    forall k | 0 <= k < |db.calls| && db.calls[k].id == id
      ensures DeleteWhere(db.calls, id) == db.calls[..k] + db.calls[k + 1..]
    {
      DeleteUnique(db.calls, k);
    }
    var deleted := db.DeleteCallRecord(id);
    if deleted.Err? {
      return Err(Raised(InternalServerError, "Failed to delete call"));
    }
    r := Ok(Reply(true, "Call deleted successfully"));
  }

  // ---------------------------------------------------------------------
  // export

  datatype ExportReply = ExportReply(success: bool, csv: string, fileName: string)

  /** `export` writes the store's records in `getAllCalls` order (oldest first,
      not `list` order); without a connection the file holds the header alone. */
  method Export(db: Database, iso: int -> string, nowIso: string) returns (r: Result<ExportReply, RpcError>)
    ensures !db.configured ==> r == Ok(ExportReply(true, HeaderLine, FileName(nowIso)))
    ensures db.configured && !db.reachable ==> r == Err(Raised(InternalServerError, "Failed to export calls"))
    ensures db.configured && db.reachable ==>
      r == Ok(ExportReply(true, CsvContent(SortBy(db.calls, false), iso), FileName(nowIso)))
  {
    var all := db.GetAllCalls();
    if all.Err? {
      return Err(Raised(InternalServerError, "Failed to export calls"));
    }
    if all.value == [] {
      ExportEmpty(iso);
    }
    r := Ok(ExportReply(true, CsvContent(all.value, iso), FileName(nowIso)));
  }
}
