/** The `agents` procedures: `login` writes a session row, `getSession` reads
    one back, `logout` answers without touching anything. The random session
    id (`nanoid(32)`) and the current time come in as parameters. */
module AgentsRouter {
  import opened Wrappers
  import opened Schema
  import opened Seqs
  import opened Db
  import opened Rpc

  /** The input `login` accepts; a missing `isAdmin` is `None`. */
  datatype LoginInput = LoginInput(agentName: string, isAdmin: Option<bool>)

  function LoginIssues(input: LoginInput): (issues: seq<string>)
    ensures issues == [] <==> input.agentName != []
  {
    if input.agentName == [] then ["Agent name is required"] else []
  }

  /** `isAdmin ? 1 : 0` */
  function AdminFlag(isAdmin: bool): int {
    if isAdmin then 1 else 0
  }

  /** The row `login` asks the store to upsert. */
  function LoginRecord(input: LoginInput, sessionId: string): InsertAgentSession {
    InsertAgentSession(input.agentName, sessionId, Some(AdminFlag(input.isAdmin.GetOr(false))))
  }

  datatype LoginReply = LoginReply(success: bool, sessionId: string, agentName: string, isAdmin: bool, message: string)

  function LoginReplyFor(input: LoginInput, sessionId: string): LoginReply {
    LoginReply(true, sessionId, input.agentName, input.isAdmin.GetOr(false), "Welcome, " + input.agentName + "!")
  }

  /** The session as `getSession` shows it: the stored flag read as `isAdmin === 1`. */
  datatype SessionView = SessionView(agentName: string, isAdmin: bool, sessionId: string)

  datatype SessionReply = SessionReply(success: bool, session: Option<SessionView>)

  function ViewOf(row: AgentSessionRow): SessionView {
    SessionView(row.agentName, row.isAdmin == 1, row.sessionId)
  }

  function SessionReplyFor(found: Option<AgentSessionRow>): (r: SessionReply)
    ensures r.success <==> r.session.Some?
    ensures r.success <==> found.Some?
    ensures found.Some? ==> r.session == Some(SessionView(found.value.agentName, found.value.isAdmin == 1, found.value.sessionId))
  {
    if found.None? then SessionReply(false, None) else SessionReply(true, Some(ViewOf(found.value)))
  }

  // Properties

  /** The 1/0 encoding reads back as the flag it encodes. */
  lemma AdminFlagRoundTrip(isAdmin: bool)
    ensures (AdminFlag(isAdmin) == 1) == isAdmin
  {
  }

  /** `isAdmin` defaults to false: a login without it stores 0 and reports false. */
  lemma AdminDefaultsFalse(name: string, sessionId: string)
    ensures LoginRecord(LoginInput(name, None), sessionId).isAdmin == Some(0)
    ensures !LoginReplyFor(LoginInput(name, None), sessionId).isAdmin
  {
  }

  /** Any non-empty name may log in as admin: the allow-list of admin names is not consulted. */
  lemma AdminNotRestricted(name: string, sessionId: string)
    requires name != [] && name !in ADMIN_NAMES
    ensures LoginIssues(LoginInput(name, Some(true))) == []
    ensures LoginReplyFor(LoginInput(name, Some(true)), sessionId).isAdmin
    ensures LoginRecord(LoginInput(name, Some(true)), sessionId).isAdmin == Some(1)
  {
  }

  /** Looking up a fresh session id right after `login` stored it shows the same
      name and admin flag that `login` returned. */
  lemma LoginThenSession(rows: seq<AgentSessionRow>, input: LoginInput, sessionId: string, id: nat, at: int, now: int)
    requires UniqueSessionIds(rows)
    requires forall i | 0 <= i < |rows| :: rows[i].sessionId != sessionId
    ensures var stored := UpsertSessionRows(rows, LoginRecord(input, sessionId), id, at, now);
            var reply := SessionReplyFor(FindSession(stored, sessionId));
            var login := LoginReplyFor(input, sessionId);
      && reply.success
      && reply.session == Some(SessionView(login.agentName, login.isAdmin, login.sessionId))
  {
    var rec := LoginRecord(input, sessionId);
    UpsertSessionEffect(rows, rec, id, at, now);
    var stored := UpsertSessionRows(rows, rec, id, at, now);
    assert stored[|rows|].sessionId == sessionId;
    var found := FindSession(stored, sessionId);
    assert found == Some(stored[|rows|]) by {
      var k := FirstIndex(stored, HasSessionId(sessionId));
      assert k.Some? && k.value == |rows| by {
        assert HasSessionId(sessionId)(stored[|rows|]);
        assert forall j | 0 <= j < |rows| :: !HasSessionId(sessionId)(stored[j]);
      }
    }
  }

  /** If the session id is already taken, the stored name and flag are kept, so the
      session read back is the earlier one, not the one `login` reported. */
  lemma LoginOnTakenSessionId(rows: seq<AgentSessionRow>, input: LoginInput, k: nat, id: nat, at: int, now: int)
    requires UniqueSessionIds(rows) && k < |rows|
    ensures var sessionId := rows[k].sessionId;
            var stored := UpsertSessionRows(rows, LoginRecord(input, sessionId), id, at, now);
      SessionReplyFor(FindSession(stored, sessionId)) == SessionReply(true, Some(ViewOf(rows[k])))
  {
    var sessionId := rows[k].sessionId;
    var rec := LoginRecord(input, sessionId);
    UpsertSessionEffect(rows, rec, id, at, now);
    var stored := UpsertSessionRows(rows, rec, id, at, now);
    assert stored[k] == rows[k].(lastActiveAt := now);
    var found := FindSession(stored, sessionId);
    assert found.Some?;
    assert found.value == stored[k] by {
      var j :| 0 <= j < |stored| && stored[j] == found.value;
      assert stored[j].sessionId == rows[j].sessionId;
    }
  }

  // The procedures

  method Login(db: Database, input: LoginInput, sessionId: string, now: int) returns (r: Result<LoginReply, RpcError>)
    requires db.Valid()
    modifies db
    ensures db.Valid()
    ensures LoginIssues(input) != [] ==> r == Err(Rejected(LoginIssues(input))) && unchanged(db)
    ensures LoginIssues(input) == [] && !(db.configured && db.reachable) ==>
      r == Err(Raised(InternalServerError, "Failed to login")) && unchanged(db)
    ensures LoginIssues(input) == [] && db.configured && db.reachable ==>
      && r == Ok(LoginReplyFor(input, sessionId))
      && db.sessions == UpsertSessionRows(old(db.sessions), LoginRecord(input, sessionId), old(db.nextSessionId), old(db.clock) + 1, now)
      && db.calls == old(db.calls) && db.users == old(db.users)
  {
    var issues := LoginIssues(input);
    if issues != [] {
      return Err(Rejected(issues));
    }
    var stored := db.UpsertAgentSession(LoginRecord(input, sessionId), now);
    if stored.Err? {
      return Err(Raised(InternalServerError, "Failed to login"));
    }
    r := Ok(LoginReplyFor(input, sessionId));
  }

  /** `getSession`: an unknown id, a missing connection and a store error all answer
      `{ success: false, session: null }`. */
  method GetSession(db: Database, sessionId: string) returns (r: SessionReply)
    ensures !(db.configured && db.reachable) ==> r == SessionReply(false, None)
    ensures db.configured && db.reachable ==> r == SessionReplyFor(FindSession(db.sessions, sessionId))
    ensures r.success ==> r.session.Some? && r.session.value.sessionId == sessionId
  {
    var found := db.GetAgentSession(sessionId);
    if found.Err? || found.value.None? {
      return SessionReply(false, None);
    }
    r := SessionReplyFor(found.value);
  }

  /** `logout` answers success and changes nothing. */
  method Logout(db: Database, sessionId: string) returns (r: Reply)
    ensures r == Reply(true, "Logged out successfully")
  {
    r := Reply(true, "Logged out successfully");
  }
}
