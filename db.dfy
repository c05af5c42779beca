/** The data-access layer: the `calls`, `agent_sessions` and `users` tables
    held in memory by one `Database` object, and the functions that read and
    write them.

    `configured` says whether the lazily created connection exists (a
    `DATABASE_URL` was set); without it reads answer empty and writes throw
    "Database not available". `reachable` says whether an existing connection
    answers queries; when it does not, every query throws.
    Column defaults that the database fills in (`defaultNow`, `onUpdateNow`,
    auto-increment ids) come from the store itself: a logical `clock` that
    ticks once per insert or update (a delete sets no time column and leaves it)
    and one id counter per table. Times the application
    computes with `new Date()` come in as parameters. */
module Db {
  import opened Wrappers
  import opened Schema
  import opened Seqs
  import opened Ordering

  /** Why a store function threw. `OpenIdRequired` carries the message
      "User openId is required for upsert", `NotAvailable` the message
      "Database not available"; `QueryFailed` is the driver's own error. */
  /** `NoValuesToSet` is drizzle's refusal of an update whose set names no column. */
  datatype DbError = OpenIdRequired | NotAvailable | QueryFailed | NoValuesToSet

  // ---------------------------------------------------------------------
  // The calls table as values

  predicate UniqueIds(rows: seq<CallRow>) {
    forall i, j | 0 <= i < j < |rows| :: rows[i].id != rows[j].id
  }

  predicate IdsBelow(rows: seq<CallRow>, next: nat) {
    forall i | 0 <= i < |rows| :: 1 <= rows[i].id < next
  }

  /** `createdAt <= updatedAt`, and neither lies in the store's future. */
  predicate TimesWithin(rows: seq<CallRow>, clock: int) {
    forall i | 0 <= i < |rows| :: rows[i].createdAt <= rows[i].updatedAt <= clock
  }

  lemma TimesWithinLater(rows: seq<CallRow>, clock: int, later: int)
    requires TimesWithin(rows, clock) && clock <= later
    ensures TimesWithin(rows, later)
  {
  }

  function HasId(id: int): CallRow -> bool {
    (c: CallRow) => c.id == id
  }

  function HasOtherId(id: int): CallRow -> bool {
    (c: CallRow) => c.id != id
  }

  /** The row an insert produces: missing `status` takes the column default,
      both timestamps are the insert time. */
  function NewCallRow(data: InsertCall, id: nat, at: int): (r: CallRow)
    ensures r.id == id
    ensures r.patientName == data.patientName && r.appointmentId == data.appointmentId
    ensures r.clinic == data.clinic && r.appointmentTime == data.appointmentTime
    ensures r.agentName == data.agentName && r.comment == data.comment
    ensures data.status.Some? ==> r.status == data.status.value
    ensures data.status.None? ==> r.status == NoAnswer
    ensures r.createdAt == at && r.updatedAt == at
    ensures r.isActive == ActiveFlag
  {
    CallRow(id, data.patientName, data.appointmentId, data.clinic, data.appointmentTime,
            data.agentName, data.status.GetOr(DefaultStatus), data.comment, at, at, ActiveFlag)
  }

  /** A patch that supplies no column: `set({})` has nothing to write. */
  predicate SuppliesNothing(p: CallPatch) {
    && p.patientName.None? && p.appointmentId.None? && p.clinic.None?
    && p.appointmentTime.None? && p.agentName.None? && p.status.None? && p.comment.None?
  }

  /** The columns a patch names, written over the row. */
  function PatchFields(r: CallRow, p: CallPatch): CallRow {
    r.(patientName := p.patientName.GetOr(r.patientName),
       appointmentId := if p.appointmentId.Some? then p.appointmentId else r.appointmentId,
       clinic := if p.clinic.Some? then p.clinic else r.clinic,
       appointmentTime := p.appointmentTime.GetOr(r.appointmentTime),
       agentName := p.agentName.GetOr(r.agentName),
       status := p.status.GetOr(r.status),
       comment := p.comment.GetOr(r.comment))
  }

  /** One row under `UPDATE … SET`: `updatedAt` (`onUpdateNow`) is refreshed
      only when some column actually changes. */
  function PatchRow(r: CallRow, p: CallPatch, at: int): CallRow {
    var r' := PatchFields(r, p);
    if r' == r then r else r'.(updatedAt := at)
  }

  /** `UPDATE calls SET … WHERE id = ?` */
  function UpdateWhere(rows: seq<CallRow>, id: int, p: CallPatch, at: int): (r: seq<CallRow>)
    ensures |r| == |rows|
  {
    seq(|rows|, i requires 0 <= i < |rows| => if rows[i].id == id then PatchRow(rows[i], p, at) else rows[i])
  }

  /** `DELETE FROM calls WHERE id = ?`: the rows that stay, in order. */
  function DeleteWhere(rows: seq<CallRow>, id: int): seq<CallRow> {
    Filter(rows, HasOtherId(id))
  }

  /** `UPDATE calls SET isActive = 0`. */
  function DeactivateAll(rows: seq<CallRow>, at: int): (r: seq<CallRow>)
    ensures |r| == |rows|
  {
    seq(|rows|, i requires 0 <= i < |rows| =>
      if rows[i].isActive != 0 then rows[i].(isActive := 0, updatedAt := at) else rows[i])
  }

  function IsActive(): CallRow -> bool {
    (c: CallRow) => c.isActive == 1
  }

  /** `SELECT … WHERE isActive = 1 ORDER BY createdAt` */
  function ActiveRows(rows: seq<CallRow>): seq<CallRow> {
    SortBy(Filter(rows, IsActive()), false)
  }

  /** The condition of `findDuplicateCall`: exact, case-sensitive equality on both
      columns, as under a binary collation. */
  predicate IsDuplicate(c: CallRow, patientName: string, appointmentId: string) {
    c.patientName == patientName && c.appointmentId == Some(appointmentId)
  }

  function DuplicateOf(patientName: string, appointmentId: string): CallRow -> bool {
    (c: CallRow) => IsDuplicate(c, patientName, appointmentId)
  }

  /** The row a `WHERE … LIMIT 1` select returns. SQL leaves the choice among several
      matching rows to the server; the model takes the first in table order. */
  function FirstWhere(rows: seq<CallRow>, p: CallRow -> bool): (r: Option<CallRow>)
    ensures r.None? <==> forall i | 0 <= i < |rows| :: !p(rows[i])
    ensures r.Some? ==> r.value in rows && p(r.value)
  {
    match FirstIndex(rows, p)
    case None => None
    case Some(k) => Some(rows[k])
  }

  // Lemmas about the calls table

  /** An update touches only the row with that id; an absent id changes nothing. */
  lemma UpdateOnlyTarget(rows: seq<CallRow>, id: int, p: CallPatch, at: int, i: nat)
    requires i < |rows|
    ensures rows[i].id != id ==> UpdateWhere(rows, id, p, at)[i] == rows[i]
    ensures rows[i].id == id ==> UpdateWhere(rows, id, p, at)[i] == PatchRow(rows[i], p, at)
  {
  }

  lemma UpdateAbsentId(rows: seq<CallRow>, id: int, p: CallPatch, at: int)
    requires forall i | 0 <= i < |rows| :: rows[i].id != id
    ensures UpdateWhere(rows, id, p, at) == rows
  {
  }

  /** A patched row takes exactly the columns the patch names and keeps the rest,
      including its id and `createdAt`; `updatedAt` moves to the update time only
      when something changed. */
  lemma PatchRowColumns(r: CallRow, p: CallPatch, at: int)
    ensures var r' := PatchRow(r, p, at);
      && r'.id == r.id && r'.createdAt == r.createdAt && r'.isActive == r.isActive
      && (p.patientName.Some? ==> r'.patientName == p.patientName.value)
      && (p.patientName.None? ==> r'.patientName == r.patientName)
      && (p.appointmentTime.Some? ==> r'.appointmentTime == p.appointmentTime.value)
      && (p.appointmentTime.None? ==> r'.appointmentTime == r.appointmentTime)
      && (p.agentName.Some? ==> r'.agentName == p.agentName.value)
      && (p.agentName.None? ==> r'.agentName == r.agentName)
      && (p.status.Some? ==> r'.status == p.status.value)
      && (p.status.None? ==> r'.status == r.status)
      && (p.comment.Some? ==> r'.comment == p.comment.value)
      && (p.comment.None? ==> r'.comment == r.comment)
      && (p.appointmentId.Some? ==> r'.appointmentId == p.appointmentId)
      && (p.appointmentId.None? ==> r'.appointmentId == r.appointmentId)
      && (p.clinic.Some? ==> r'.clinic == p.clinic)
      && (p.clinic.None? ==> r'.clinic == r.clinic)
      && (PatchFields(r, p) == r ==> r' == r)
      && (PatchFields(r, p) != r ==> r'.updatedAt == at)
  {
  }

  /** Deleting keeps exactly the rows with another id, in their order. */
  lemma DeleteKeepsOthers(rows: seq<CallRow>, id: int, c: CallRow)
    ensures c in DeleteWhere(rows, id) <==> c in rows && c.id != id
  {
    FilterMember(rows, HasOtherId(id), c);
  }

  /** With unique ids, deleting a present id removes just that row and closes the gap. */
  lemma DeleteUnique(rows: seq<CallRow>, k: nat)
    requires UniqueIds(rows) && k < |rows|
    ensures DeleteWhere(rows, rows[k].id) == rows[..k] + rows[k + 1..]
  {
    FilterRemovesOne(rows, HasOtherId(rows[k].id), k);
  }

  lemma DeleteAbsentId(rows: seq<CallRow>, id: int)
    requires forall i | 0 <= i < |rows| :: rows[i].id != id
    ensures DeleteWhere(rows, id) == rows
  {
    FilterKeepsAll(rows, HasOtherId(id));
  }

  lemma {:induction false} DeleteKeepsUnique(rows: seq<CallRow>, id: int)
    requires UniqueIds(rows)
    ensures UniqueIds(DeleteWhere(rows, id))
  {
    if rows != [] {
      DeleteKeepsUnique(rows[1..], id);
      var rest := DeleteWhere(rows[1..], id);
      forall j | 0 <= j < |rest| ensures rest[j].id != rows[0].id {
        DeleteKeepsOthers(rows[1..], id, rest[j]);
        var m :| 0 <= m < |rows[1..]| && rows[1..][m] == rest[j];
        assert rows[1 + m] == rest[j];
      }
      var r := DeleteWhere(rows, id);
      if rows[0].id != id {
        assert r == [rows[0]] + rest;
        forall i, j | 0 <= i < j < |r| ensures r[i].id != r[j].id {
          if i > 0 {
            assert r[i] == rest[i - 1] && r[j] == rest[j - 1];
          }
        }
      } else {
        assert r == rest;
      }
    }
  }

  /** After deactivation no row is active and none was removed. */
  lemma DeactivateLeavesNoneActive(rows: seq<CallRow>, at: int)
    ensures |DeactivateAll(rows, at)| == |rows|
    ensures forall i | 0 <= i < |rows| :: DeactivateAll(rows, at)[i].isActive == 0
    ensures ActiveRows(DeactivateAll(rows, at)) == []
  {
    var d := DeactivateAll(rows, at);
    FilterKeepsNone(d, IsActive());
  }

  /** The active view holds exactly the active rows. */
  lemma ActiveRowsExact(rows: seq<CallRow>, c: CallRow)
    ensures c in ActiveRows(rows) <==> c in rows && c.isActive == 1
  {
    var active := Filter(rows, IsActive());
    SortBySorted(active, false);
    FilterMember(rows, IsActive(), c);
    assert c in ActiveRows(rows) <==> c in multiset(ActiveRows(rows));
    assert c in active <==> c in multiset(active);
  }

  /** Deactivation changes nothing but the flag (and the refresh of `updatedAt`). */
  lemma DeactivateKeepsRecords(rows: seq<CallRow>, at: int, i: nat)
    requires i < |rows|
    ensures DeactivateAll(rows, at)[i].(isActive := rows[i].isActive, updatedAt := rows[i].updatedAt) == rows[i]
  {
  }

  // ---------------------------------------------------------------------
  // The agent_sessions table as values

  function HasSessionId(sessionId: string): AgentSessionRow -> bool {
    (s: AgentSessionRow) => s.sessionId == sessionId
  }

  predicate UniqueSessionIds(rows: seq<AgentSessionRow>) {
    forall i, j | 0 <= i < j < |rows| :: rows[i].sessionId != rows[j].sessionId
  }

  /** The session with this id, as a `WHERE sessionId = ? LIMIT 1` select finds it. */
  function FindSession(rows: seq<AgentSessionRow>, sessionId: string): (r: Option<AgentSessionRow>)
    ensures r.Some? ==> r.value in rows && r.value.sessionId == sessionId
    ensures r.None? <==> forall i | 0 <= i < |rows| :: rows[i].sessionId != sessionId
  {
    match FirstIndex(rows, HasSessionId(sessionId))
    case None => None
    case Some(k) => Some(rows[k])
  }

  /** `INSERT … ON DUPLICATE KEY UPDATE lastActiveAt = now`: the unique key is `sessionId`. */
  function UpsertSessionRows(rows: seq<AgentSessionRow>, data: InsertAgentSession, id: nat, at: int, now: int)
    : seq<AgentSessionRow>
  {
    match FirstIndex(rows, HasSessionId(data.sessionId))
    case Some(k) => rows[k := rows[k].(lastActiveAt := now)]
    case None => rows + [AgentSessionRow(id, data.agentName, data.sessionId, data.isAdmin.GetOr(DefaultIsAdmin), at, at)]
  }

  /** On a known sessionId only that session's `lastActiveAt` changes; otherwise exactly one
      session is appended, with `isAdmin` defaulting to 0. Either way sessionIds stay unique. */
  lemma UpsertSessionEffect(rows: seq<AgentSessionRow>, data: InsertAgentSession, id: nat, at: int, now: int)
    requires UniqueSessionIds(rows)
    ensures var r := UpsertSessionRows(rows, data, id, at, now);
      && UniqueSessionIds(r)
      && ((exists k | 0 <= k < |rows| :: rows[k].sessionId == data.sessionId) ==>
            |r| == |rows| &&
            forall i | 0 <= i < |rows| ::
              r[i] == if rows[i].sessionId == data.sessionId then rows[i].(lastActiveAt := now) else rows[i])
      && ((forall k | 0 <= k < |rows| :: rows[k].sessionId != data.sessionId) ==>
            r == rows + [AgentSessionRow(id, data.agentName, data.sessionId, data.isAdmin.GetOr(DefaultIsAdmin), at, at)])
  {
    var r := UpsertSessionRows(rows, data, id, at, now);
    match FirstIndex(rows, HasSessionId(data.sessionId))
    case Some(k) =>
      assert forall i | 0 <= i < |rows| :: r[i].sessionId == rows[i].sessionId;
    case None =>
      assert forall i | 0 <= i < |rows| :: r[i] == rows[i];
  }

  // ---------------------------------------------------------------------
  // The users table as values

  /** The columns `upsertUser` may write. */
  datatype UserColumn = OpenIdColumn | NameColumn | EmailColumn | LoginMethodColumn | LastSignedInColumn | RoleColumn

  datatype UserValue = TextValue(text: Option<string>) | TimeValue(time: int) | RoleValue(role: Role)

  /** The nullable text fields, in the order the source visits them. */
  const TextFields: seq<UserColumn> := [NameColumn, EmailColumn, LoginMethodColumn]

  /** The value a defined input property contributes to both `values` and `updateSet`;
      `None` when the property is undefined. For the role this already includes the
      owner rule. */
  function Supplied(user: InsertUser, ownerOpenId: string, openId: string, f: UserColumn): Option<UserValue> {
    match f
    case OpenIdColumn => None
    case NameColumn => if user.name.Some? then Some(TextValue(user.name.value)) else None
    case EmailColumn => if user.email.Some? then Some(TextValue(user.email.value)) else None
    case LoginMethodColumn => if user.loginMethod.Some? then Some(TextValue(user.loginMethod.value)) else None
    case LastSignedInColumn => if user.lastSignedIn.Some? then Some(TimeValue(user.lastSignedIn.value)) else None
    case RoleColumn =>
      if user.role.Some? then Some(RoleValue(user.role.value))
      else if openId == ownerOpenId then Some(RoleValue(Admin))
      else None
  }

  /** The defined properties among `fs`. */
  function SuppliedAmong(user: InsertUser, ownerOpenId: string, openId: string, fs: seq<UserColumn>)
    : map<UserColumn, UserValue>
  {
    map f | f in fs && Supplied(user, ownerOpenId, openId, f).Some? :: Supplied(user, ownerOpenId, openId, f).value
  }

  const UpdateColumns: seq<UserColumn> := TextFields + [LastSignedInColumn, RoleColumn]

  /** The `updateSet` of `upsertUser`; when nothing was supplied, `lastSignedIn` alone. */
  function UpdateSetFor(user: InsertUser, ownerOpenId: string, openId: string, now: int): map<UserColumn, UserValue> {
    var m := SuppliedAmong(user, ownerOpenId, openId, UpdateColumns);
    if m == map[] then map[LastSignedInColumn := TimeValue(now)] else m
  }

  /** The `values` of `upsertUser`: the openId, every supplied property, and
      `lastSignedIn` defaulting to `now`. */
  function ValuesFor(user: InsertUser, ownerOpenId: string, openId: string, now: int): map<UserColumn, UserValue> {
    SuppliedAmong(user, ownerOpenId, openId, UpdateColumns)
      [OpenIdColumn := TextValue(Some(openId))]
      [LastSignedInColumn := TimeValue(user.lastSignedIn.GetOr(now))]
  }

  lemma SuppliedAmongSnoc(user: InsertUser, ownerOpenId: string, openId: string, fs: seq<UserColumn>, f: UserColumn)
    ensures var v := Supplied(user, ownerOpenId, openId, f);
      SuppliedAmong(user, ownerOpenId, openId, fs + [f])
        == if v.Some? then SuppliedAmong(user, ownerOpenId, openId, fs)[f := v.value]
           else SuppliedAmong(user, ownerOpenId, openId, fs)
  {
  }

  lemma UpdateCommutes(m: map<UserColumn, UserValue>, a: UserColumn, va: UserValue, b: UserColumn, vb: UserValue)
    requires a != b
    ensures m[a := va][b := vb] == m[b := vb][a := va]
  {
  }

  /** `values` is `updateSet`'s supplied part, plus the openId, plus `lastSignedIn`
      (which, when supplied, is already there). */
  lemma ValuesForShape(user: InsertUser, ownerOpenId: string, openId: string, now: int)
    ensures var m := SuppliedAmong(user, ownerOpenId, openId, UpdateColumns)[OpenIdColumn := TextValue(Some(openId))];
      ValuesFor(user, ownerOpenId, openId, now)
        == if LastSignedInColumn in m then m else m[LastSignedInColumn := TimeValue(now)]
  {
    assert LastSignedInColumn in UpdateColumns;
  }

  /** `updateSet` is never empty. */
  lemma UpdateSetNonEmpty(user: InsertUser, ownerOpenId: string, openId: string, now: int)
    ensures UpdateSetFor(user, ownerOpenId, openId, now) != map[]
  {
    assert LastSignedInColumn in map[LastSignedInColumn := TimeValue(now)];
  }

  /** Only defined properties enter `updateSet`, each with its value; `lastSignedIn`
      enters undefined only when nothing else did. */
  lemma UpdateSetOnlySupplied(user: InsertUser, ownerOpenId: string, openId: string, now: int, f: UserColumn)
    ensures var u := UpdateSetFor(user, ownerOpenId, openId, now);
      && (f in UpdateColumns && Supplied(user, ownerOpenId, openId, f).Some? ==>
            f in u && u[f] == Supplied(user, ownerOpenId, openId, f).value)
      && (f in u && f != LastSignedInColumn ==> f in UpdateColumns && Supplied(user, ownerOpenId, openId, f).Some?)
      && (f in u && f == LastSignedInColumn && user.lastSignedIn.None? ==>
            u == map[LastSignedInColumn := TimeValue(now)])
      && OpenIdColumn !in u
  {
    var m := SuppliedAmong(user, ownerOpenId, openId, UpdateColumns);
    if f in UpdateColumns && Supplied(user, ownerOpenId, openId, f).Some? {
      assert f in m;
    }
  }

  /** An explicit role wins; without one the owner's openId gets `admin`; otherwise
      the role is left to the column default on insert and untouched on update. */
  lemma RoleRule(user: InsertUser, ownerOpenId: string, openId: string, now: int)
    ensures var u := UpdateSetFor(user, ownerOpenId, openId, now);
            var v := ValuesFor(user, ownerOpenId, openId, now);
      && (user.role.Some? ==> RoleColumn in u && u[RoleColumn] == RoleValue(user.role.value)
                              && RoleColumn in v && v[RoleColumn] == RoleValue(user.role.value))
      && (user.role.None? && openId == ownerOpenId ==>
            RoleColumn in u && u[RoleColumn] == RoleValue(Admin) && v[RoleColumn] == RoleValue(Admin))
      && (user.role.None? && openId != ownerOpenId ==> RoleColumn !in u && RoleColumn !in v)
  {
    var m := SuppliedAmong(user, ownerOpenId, openId, UpdateColumns);
    assert RoleColumn in UpdateColumns;
    if user.role.Some? || openId == ownerOpenId {
      assert RoleColumn in m;
    }
  }

  function TextAt(m: map<UserColumn, UserValue>, f: UserColumn, otherwise: Option<string>): Option<string> {
    if f in m && m[f].TextValue? then m[f].text else otherwise
  }

  function HasOpenId(openId: string): UserRow -> bool {
    (u: UserRow) => u.openId == openId
  }

  predicate UniqueOpenIds(rows: seq<UserRow>) {
    forall i, j | 0 <= i < j < |rows| :: rows[i].openId != rows[j].openId
  }

  /** A new `users` row from `values`; the role defaults to `user`. */
  function NewUserRow(openId: string, values: map<UserColumn, UserValue>, id: nat, at: int): UserRow {
    UserRow(id, openId,
            TextAt(values, NameColumn, None), TextAt(values, EmailColumn, None), TextAt(values, LoginMethodColumn, None),
            if RoleColumn in values && values[RoleColumn].RoleValue? then values[RoleColumn].role else DefaultRole,
            at, at,
            if LastSignedInColumn in values && values[LastSignedInColumn].TimeValue? then values[LastSignedInColumn].time else at)
  }

  /** An existing `users` row under `updateSet`; `updatedAt` refreshes when a column changes. */
  function UpdatedUserRow(r: UserRow, changes: map<UserColumn, UserValue>, at: int): UserRow {
    var r' := r.(name := TextAt(changes, NameColumn, r.name),
                 email := TextAt(changes, EmailColumn, r.email),
                 loginMethod := TextAt(changes, LoginMethodColumn, r.loginMethod),
                 role := if RoleColumn in changes && changes[RoleColumn].RoleValue? then changes[RoleColumn].role else r.role,
                 lastSignedIn := if LastSignedInColumn in changes && changes[LastSignedInColumn].TimeValue?
                                 then changes[LastSignedInColumn].time else r.lastSignedIn);
    if r' == r then r else r'.(updatedAt := at)
  }

  /** `INSERT … ON DUPLICATE KEY UPDATE`: the unique key is `openId`. */
  function UpsertUserRows(rows: seq<UserRow>, openId: string, values: map<UserColumn, UserValue>,
                          changes: map<UserColumn, UserValue>, id: nat, at: int): seq<UserRow>
  {
    match FirstIndex(rows, HasOpenId(openId))
    case Some(k) => rows[k := UpdatedUserRow(rows[k], changes, at)]
    case None => rows + [NewUserRow(openId, values, id, at)]
  }

  predicate UserIdsBelow(rows: seq<UserRow>, next: nat) {
    forall i | 0 <= i < |rows| :: rows[i].id < next
  }

  lemma UpsertUserKeepsUnique(rows: seq<UserRow>, openId: string, values: map<UserColumn, UserValue>,
                              changes: map<UserColumn, UserValue>, id: nat, at: int)
    requires UniqueOpenIds(rows)
    ensures UniqueOpenIds(UpsertUserRows(rows, openId, values, changes, id, at))
    ensures |UpsertUserRows(rows, openId, values, changes, id, at)| <= |rows| + 1
    ensures UserIdsBelow(rows, id) ==> UserIdsBelow(UpsertUserRows(rows, openId, values, changes, id, at), id + 1)
  {
    var r := UpsertUserRows(rows, openId, values, changes, id, at);
    match FirstIndex(rows, HasOpenId(openId))
    case Some(k) =>
      assert forall i | 0 <= i < |rows| :: r[i].openId == rows[i].openId;
    case None =>
      assert forall i | 0 <= i < |rows| :: r[i] == rows[i];
  }

  // ---------------------------------------------------------------------
  // The store

  class Database {
    const configured: bool
    const reachable: bool
    var calls: seq<CallRow>
    var sessions: seq<AgentSessionRow>
    var users: seq<UserRow>
    var nextCallId: nat
    var nextSessionId: nat
    var nextUserId: nat
    var clock: int

    /** Ids are unique and never reused; each call's timestamps are ordered;
        sessionIds and openIds are unique keys. */
    ghost predicate Valid()
      reads this
    {
      && nextCallId >= 1 && UniqueIds(calls) && IdsBelow(calls, nextCallId) && TimesWithin(calls, clock)
      && UniqueSessionIds(sessions) && (forall i | 0 <= i < |sessions| :: sessions[i].id < nextSessionId)
      && UniqueOpenIds(users) && UserIdsBelow(users, nextUserId)
    }

    constructor (configured: bool, reachable: bool)
      ensures Valid()
      ensures this.configured == configured && this.reachable == reachable
      ensures calls == [] && sessions == [] && users == []
    {
      this.configured := configured;
      this.reachable := reachable;
      calls, sessions, users := [], [], [];
      nextCallId, nextSessionId, nextUserId := 1, 1, 1;
      clock := 0;
    }

    /** `getAllCalls`: every record, oldest `createdAt` first; `[]` without a connection.
        SQL leaves the order of equal `createdAt` values to the server; the model
        keeps them in table order. */
    method GetAllCalls() returns (r: Result<seq<CallRow>, DbError>)
      ensures !configured ==> r == Ok([])
      ensures configured && !reachable ==> r == Err(QueryFailed)
      ensures configured && reachable ==> r.Ok? && r.value == SortBy(calls, false)
      ensures r.Ok? && configured ==> Sorted(r.value, false) && multiset(r.value) == multiset(calls)
    {
      if !configured {
        return Ok([]);
      }
      if !reachable {
        return Err(QueryFailed);
      }
      SortBySorted(calls, false);
      r := Ok(SortBy(calls, false));
    }

    /** `getCallById` */
    method GetCallById(id: int) returns (r: Result<Option<CallRow>, DbError>)
      ensures !configured ==> r == Ok(None)
      ensures configured && !reachable ==> r == Err(QueryFailed)
      ensures configured && reachable ==> r == Ok(FirstWhere(calls, HasId(id)))
      ensures r.Ok? && r.value.Some? ==> r.value.value in calls && r.value.value.id == id
      ensures r.Ok? && configured ==> (r.value.None? <==> forall i | 0 <= i < |calls| :: calls[i].id != id)
    {
      if !configured {
        return Ok(None);
      }
      if !reachable {
        return Err(QueryFailed);
      }
      r := Ok(FirstWhere(calls, HasId(id)));
    }

    /** `createCall`: one new row with a fresh id, the others untouched. */
    method CreateCall(data: InsertCall) returns (r: Result<nat, DbError>)
      requires Valid()
      modifies this
      ensures Valid()
      ensures !configured ==> r == Err(NotAvailable) && unchanged(this)
      ensures configured && !reachable ==> r == Err(QueryFailed) && unchanged(this)
      ensures configured && reachable ==>
        && r == Ok(old(nextCallId))
        && calls == old(calls) + [NewCallRow(data, old(nextCallId), old(clock) + 1)]
        && nextCallId == old(nextCallId) + 1 && clock == old(clock) + 1
        && sessions == old(sessions) && users == old(users)
        && nextSessionId == old(nextSessionId) && nextUserId == old(nextUserId)
      ensures forall i | 0 <= i < |old(calls)| :: old(calls)[i].id != old(nextCallId)
    {
      if !configured {
        return Err(NotAvailable);
      }
      if !reachable {
        return Err(QueryFailed);
      }
      clock := clock + 1;
      calls := calls + [NewCallRow(data, nextCallId, clock)];
      r := Ok(nextCallId);
      nextCallId := nextCallId + 1;
    }

    /** `updateCallRecord`: only the named columns, only on the row with that id.
        A patch naming no column is refused while the statement is built
        ("No values to set"), before any query is sent. */
    method UpdateCallRecord(id: int, data: CallPatch) returns (r: Result<(), DbError>)
      requires Valid()
      modifies this
      ensures Valid()
      ensures !configured ==> r == Err(NotAvailable) && unchanged(this)
      ensures configured && SuppliesNothing(data) ==> r == Err(NoValuesToSet) && unchanged(this)
      ensures configured && !SuppliesNothing(data) && !reachable ==> r == Err(QueryFailed) && unchanged(this)
      ensures configured && !SuppliesNothing(data) && reachable ==>
        && r == Ok(())
        && calls == UpdateWhere(old(calls), id, data, old(clock) + 1) && clock == old(clock) + 1
        && sessions == old(sessions) && users == old(users)
        && nextCallId == old(nextCallId) && nextSessionId == old(nextSessionId) && nextUserId == old(nextUserId)
    {
      if !configured {
        return Err(NotAvailable);
      }
      if SuppliesNothing(data) {
        return Err(NoValuesToSet);
      }
      if !reachable {
        return Err(QueryFailed);
      }
      clock := clock + 1;
      calls := UpdateWhere(calls, id, data, clock);
      r := Ok(());
    }

    /** `deleteCallRecord`: only the row whose id matches goes. */
    method DeleteCallRecord(id: int) returns (r: Result<(), DbError>)
      requires Valid()
      modifies this
      ensures Valid()
      ensures !configured ==> r == Err(NotAvailable) && unchanged(this)
      ensures configured && !reachable ==> r == Err(QueryFailed) && unchanged(this)
      ensures configured && reachable ==>
        && r == Ok(())
        && calls == DeleteWhere(old(calls), id)
        && sessions == old(sessions) && users == old(users) && clock == old(clock)
        && nextCallId == old(nextCallId) && nextSessionId == old(nextSessionId) && nextUserId == old(nextUserId)
    {
      if !configured {
        return Err(NotAvailable);
      }
      if !reachable {
        return Err(QueryFailed);
      }
      DeleteKeepsUnique(calls, id);
      var kept := DeleteWhere(calls, id);
      forall i | 0 <= i < |kept|
        ensures 1 <= kept[i].id < nextCallId && kept[i].createdAt <= kept[i].updatedAt <= clock
      {
        DeleteKeepsOthers(calls, id, kept[i]);
        var m :| 0 <= m < |calls| && calls[m] == kept[i];
      }
      calls := DeleteWhere(calls, id);
      r := Ok(());
    }

    /** `findDuplicateCall`: a record with exactly this patient name and appointment id. */
    method FindDuplicateCall(patientName: string, appointmentId: string) returns (r: Result<Option<CallRow>, DbError>)
      ensures !configured ==> r == Ok(None)
      ensures configured && !reachable ==> r == Err(QueryFailed)
      ensures configured && reachable ==> r == Ok(FirstWhere(calls, DuplicateOf(patientName, appointmentId)))
      ensures r.Ok? && r.value.Some? ==> r.value.value in calls && IsDuplicate(r.value.value, patientName, appointmentId)
      ensures r.Ok? && configured ==>
        (r.value.None? <==> forall i | 0 <= i < |calls| :: !IsDuplicate(calls[i], patientName, appointmentId))
    {
      if !configured {
        return Ok(None);
      }
      if !reachable {
        return Err(QueryFailed);
      }
      r := Ok(FirstWhere(calls, DuplicateOf(patientName, appointmentId)));
    }

    /** `deactivateAllCalls`: every row's `isActive` becomes 0; no row is removed. */
    method DeactivateAllCalls() returns (r: Result<(), DbError>)
      requires Valid()
      modifies this
      ensures Valid()
      ensures !configured ==> r == Err(NotAvailable) && unchanged(this)
      ensures configured && !reachable ==> r == Err(QueryFailed) && unchanged(this)
      ensures configured && reachable ==>
        && r == Ok(())
        && calls == DeactivateAll(old(calls), old(clock) + 1) && clock == old(clock) + 1
        && sessions == old(sessions) && users == old(users)
        && nextCallId == old(nextCallId) && nextSessionId == old(nextSessionId) && nextUserId == old(nextUserId)
    {
      if !configured {
        return Err(NotAvailable);
      }
      if !reachable {
        return Err(QueryFailed);
      }
      clock := clock + 1;
      calls := DeactivateAll(calls, clock);
      r := Ok(());
    }

    /** `getActiveCalls`: exactly the rows whose `isActive` is 1, oldest first. */
    method GetActiveCalls() returns (r: Result<seq<CallRow>, DbError>)
      ensures !configured ==> r == Ok([])
      ensures configured && !reachable ==> r == Err(QueryFailed)
      ensures configured && reachable ==> r == Ok(ActiveRows(calls))
      ensures r.Ok? && configured ==> forall c :: c in r.value <==> c in calls && c.isActive == 1
    {
      if !configured {
        return Ok([]);
      }
      if !reachable {
        return Err(QueryFailed);
      }
      forall c ensures c in ActiveRows(calls) <==> c in calls && c.isActive == 1 {
        ActiveRowsExact(calls, c);
      }
      r := Ok(ActiveRows(calls));
    }

    /** `upsertAgentSession`: insert, or on a known sessionId refresh `lastActiveAt` only. */
    method UpsertAgentSession(data: InsertAgentSession, now: int) returns (r: Result<(), DbError>)
      requires Valid()
      modifies this
      ensures Valid()
      ensures !configured ==> r == Err(NotAvailable) && unchanged(this)
      ensures configured && !reachable ==> r == Err(QueryFailed) && unchanged(this)
      ensures configured && reachable ==>
        && r == Ok(())
        && sessions == UpsertSessionRows(old(sessions), data, old(nextSessionId), old(clock) + 1, now)
        && nextSessionId == old(nextSessionId) + 1 && clock == old(clock) + 1
        && calls == old(calls) && users == old(users)
        && nextCallId == old(nextCallId) && nextUserId == old(nextUserId)
    {
      if !configured {
        return Err(NotAvailable);
      }
      if !reachable {
        return Err(QueryFailed);
      }
      UpsertSessionEffect(sessions, data, nextSessionId, clock + 1, now);
      clock := clock + 1;
      sessions := UpsertSessionRows(sessions, data, nextSessionId, clock, now);
      nextSessionId := nextSessionId + 1;
      r := Ok(());
    }

    /** `getAgentSession` */
    method GetAgentSession(sessionId: string) returns (r: Result<Option<AgentSessionRow>, DbError>)
      ensures !configured ==> r == Ok(None)
      ensures configured && !reachable ==> r == Err(QueryFailed)
      ensures configured && reachable ==> r == Ok(FindSession(sessions, sessionId))
      ensures r.Ok? && r.value.Some? ==> r.value.value in sessions && r.value.value.sessionId == sessionId
      ensures r.Ok? && configured ==> (r.value.None? <==> forall i | 0 <= i < |sessions| :: sessions[i].sessionId != sessionId)
    {
      if !configured {
        return Ok(None);
      }
      if !reachable {
        return Err(QueryFailed);
      }
      r := Ok(FindSession(sessions, sessionId));
    }

    /** Fills `values` and `updateSet` the way `upsertUser` does: the three text
        fields one by one, then `lastSignedIn`, then the role. */
    static method BuildUpsert(user: InsertUser, openId: string, ownerOpenId: string, now: int)
      returns (values: map<UserColumn, UserValue>, updateSet: map<UserColumn, UserValue>)
      ensures values == ValuesFor(user, ownerOpenId, openId, now)
      ensures updateSet == UpdateSetFor(user, ownerOpenId, openId, now)
    {
      values := map[OpenIdColumn := TextValue(Some(openId))];
      updateSet := map[];
      for i := 0 to |TextFields|
        invariant updateSet == SuppliedAmong(user, ownerOpenId, openId, TextFields[..i])
        invariant values == updateSet[OpenIdColumn := TextValue(Some(openId))]
      {
        var f := TextFields[i];
        var v := Supplied(user, ownerOpenId, openId, f);
        assert TextFields[..i + 1] == TextFields[..i] + [f];
        SuppliedAmongSnoc(user, ownerOpenId, openId, TextFields[..i], f);
        if v.Some? {
          UpdateCommutes(updateSet, OpenIdColumn, TextValue(Some(openId)), f, v.value);
          values := values[f := v.value];
          updateSet := updateSet[f := v.value];
        }
      }
      assert TextFields[..|TextFields|] == TextFields;
      SuppliedAmongSnoc(user, ownerOpenId, openId, TextFields, LastSignedInColumn);
      if user.lastSignedIn.Some? {
        UpdateCommutes(updateSet, OpenIdColumn, TextValue(Some(openId)), LastSignedInColumn, TimeValue(user.lastSignedIn.value));
        values := values[LastSignedInColumn := TimeValue(user.lastSignedIn.value)];
        updateSet := updateSet[LastSignedInColumn := TimeValue(user.lastSignedIn.value)];
      }
      assert TextFields + [LastSignedInColumn] + [RoleColumn] == UpdateColumns;
      SuppliedAmongSnoc(user, ownerOpenId, openId, TextFields + [LastSignedInColumn], RoleColumn);
      var role := Supplied(user, ownerOpenId, openId, RoleColumn);
      if role.Some? {
        UpdateCommutes(updateSet, OpenIdColumn, TextValue(Some(openId)), RoleColumn, role.value);
        values := values[RoleColumn := role.value];
        updateSet := updateSet[RoleColumn := role.value];
      }
      ValuesForShape(user, ownerOpenId, openId, now);
      if LastSignedInColumn !in values {
        values := values[LastSignedInColumn := TimeValue(now)];
      }
      if updateSet == map[] {
        updateSet := updateSet[LastSignedInColumn := TimeValue(now)];
      }
    }

    /** `db.insert(users).values(values).onDuplicateKeyUpdate({ set: updateSet })` */
    method WriteUser(openId: string, values: map<UserColumn, UserValue>, updateSet: map<UserColumn, UserValue>)
      returns (r: Result<(), DbError>)
      requires Valid() && configured
      modifies this
      ensures Valid()
      ensures !reachable ==> r == Err(QueryFailed) && unchanged(this)
      ensures reachable ==>
        && r == Ok(())
        && users == UpsertUserRows(old(users), openId, values, updateSet, old(nextUserId), old(clock) + 1)
        && nextUserId == old(nextUserId) + 1 && clock == old(clock) + 1
        && calls == old(calls) && sessions == old(sessions)
        && nextCallId == old(nextCallId) && nextSessionId == old(nextSessionId)
    {
      if !reachable {
        return Err(QueryFailed);
      }
      UpsertUserKeepsUnique(users, openId, values, updateSet, nextUserId, clock + 1);
      TimesWithinLater(calls, clock, clock + 1);
      clock := clock + 1;
      users := UpsertUserRows(users, openId, values, updateSet, nextUserId, clock);
      nextUserId := nextUserId + 1;
      r := Ok(());
    }

    /** `upsertUser`: refuses a missing or empty openId, silently does nothing
        without a connection, and otherwise inserts or merges by openId. */
    method UpsertUser(user: InsertUser, ownerOpenId: string, now: int) returns (r: Result<(), DbError>)
      requires Valid()
      modifies this
      ensures Valid()
      ensures (user.openId.None? || user.openId == Some("")) ==> r == Err(OpenIdRequired) && unchanged(this)
      ensures user.openId.Some? && user.openId != Some("") && !configured ==> r == Ok(()) && unchanged(this)
      ensures user.openId.Some? && user.openId != Some("") && configured && !reachable ==>
        r == Err(QueryFailed) && unchanged(this)
      ensures user.openId.Some? && user.openId != Some("") && configured && reachable ==>
        && r == Ok(())
        && users == UpsertUserRows(old(users), user.openId.value, ValuesFor(user, ownerOpenId, user.openId.value, now),
                                   UpdateSetFor(user, ownerOpenId, user.openId.value, now), old(nextUserId), old(clock) + 1)
        && nextUserId == old(nextUserId) + 1 && clock == old(clock) + 1
        && calls == old(calls) && sessions == old(sessions)
        && nextCallId == old(nextCallId) && nextSessionId == old(nextSessionId)
    {
      if user.openId.None? || user.openId.value == "" {
        return Err(OpenIdRequired);
      }
      if !configured {
        return Ok(());
      }
      var values, updateSet := BuildUpsert(user, user.openId.value, ownerOpenId, now);
      r := WriteUser(user.openId.value, values, updateSet);
    }
  }
}
