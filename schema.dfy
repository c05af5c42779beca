/** Record shapes of the three tables (`users`, `agent_sessions`, `calls`),
    the status and role enumerations with their defaults, the declared
    column lengths, and the two constant lists `CLINICS` and `ADMIN_NAMES`.
    Timestamps are integers (milliseconds). */
module Schema {
  import opened Wrappers

  /** The `status` enumeration of `calls`. */
  datatype Status = NoAnswer | Confirmed | Redirected

  const DefaultStatus: Status := NoAnswer

  /** The enumeration value as stored and as exported. */
  function StatusText(s: Status): string {
    match s
    case NoAnswer => "no_answer"
    case Confirmed => "confirmed"
    case Redirected => "redirected"
  }

  /** The check `z.enum(["no_answer", "confirmed", "redirected"])` applies to a status string. */
  function ParseStatus(t: string): (r: Option<Status>)
    ensures r.Some? ==> StatusText(r.value) == t
  {
    if t == "no_answer" then Some(NoAnswer)
    else if t == "confirmed" then Some(Confirmed)
    else if t == "redirected" then Some(Redirected)
    else None
  }

  /** Exactly the three enumeration texts are accepted, each as its own value. */
  lemma ParseStatusExact(t: string, s: Status)
    ensures ParseStatus(t) == Some(s) <==> t == StatusText(s)
  {
  }

  /** The `role` enumeration of `users`. */
  datatype Role = User | Admin

  const DefaultRole: Role := User

  /** A row of `users`; `name`, `email` and `loginMethod` are nullable. */
  datatype UserRow = UserRow(
    id: nat,
    openId: string,
    name: Option<string>,
    email: Option<string>,
    loginMethod: Option<string>,
    role: Role,
    createdAt: int,
    updatedAt: int,
    lastSignedIn: int)

  /** What a caller may hand to `upsertUser`: the outer `Option` is whether the
      property is present at all (`undefined` is `None`), the inner one is the
      column's `null`. `openId` is typed as required but checked at run time. */
  datatype InsertUser = InsertUser(
    openId: Option<string>,
    name: Option<Option<string>>,
    email: Option<Option<string>>,
    loginMethod: Option<Option<string>>,
    lastSignedIn: Option<int>,
    role: Option<Role>)

  /** A row of `agent_sessions`; `isAdmin` is an integer flag, 1 for admin. */
  datatype AgentSessionRow = AgentSessionRow(
    id: nat,
    agentName: string,
    sessionId: string,
    isAdmin: int,
    createdAt: int,
    lastActiveAt: int)

  const DefaultIsAdmin: int := 0

  datatype InsertAgentSession = InsertAgentSession(
    agentName: string,
    sessionId: string,
    isAdmin: Option<int>)

  /** A row of `calls`.
      `appointmentId` and `clinic` are declared `notNull` in the schema, but the
      create path as written never fills them; `None` records that the insert
      left them out. `isActive` is not declared in the schema at all, yet the
      store functions read and write it; it is kept here as an integer flag. */
  datatype CallRow = CallRow(
    id: nat,
    patientName: string,
    appointmentId: Option<string>,
    clinic: Option<string>,
    appointmentTime: string,
    agentName: string,
    status: Status,
    comment: Option<string>,
    createdAt: int,
    updatedAt: int,
    isActive: int)

  /** The value a new record's `isActive` takes (the column has no declaration to
      take a default from; fresh records are taken to be active). */
  const ActiveFlag: int := 1

  /** What `createCall` accepts: missing `status` takes the column default. */
  datatype InsertCall = InsertCall(
    patientName: string,
    appointmentId: Option<string>,
    clinic: Option<string>,
    appointmentTime: string,
    agentName: string,
    status: Option<Status>,
    comment: Option<string>)

  /** A partial update (`Partial<InsertCall>`): `None` leaves the column alone;
      for `comment`, `Some(None)` would set it to null. */
  datatype CallPatch = CallPatch(
    patientName: Option<string>,
    appointmentId: Option<string>,
    clinic: Option<string>,
    appointmentTime: Option<string>,
    agentName: Option<string>,
    status: Option<Status>,
    comment: Option<Option<string>>)

  // Declared column lengths.
  const PatientNameMax: nat := 255
  const AppointmentIdMax: nat := 50
  const ClinicMax: nat := 255
  const AppointmentTimeMax: nat := 50
  const AgentNameMax: nat := 255
  const SessionIdMax: nat := 64
  const OpenIdMax: nat := 64
  const EmailMax: nat := 320
  const LoginMethodMax: nat := 64

  /** A `calls` row the declared schema admits: the `notNull` text columns are
      present and every text column fits its declared length. */
  predicate SchemaAdmitsCall(r: CallRow) {
    && |r.patientName| <= PatientNameMax
    && r.appointmentId.Some? && |r.appointmentId.value| <= AppointmentIdMax
    && r.clinic.Some? && |r.clinic.value| <= ClinicMax
    && |r.appointmentTime| <= AppointmentTimeMax
    && |r.agentName| <= AgentNameMax
  }

  predicate SchemaAdmitsSession(s: AgentSessionRow) {
    |s.sessionId| <= SessionIdMax && |s.agentName| <= AgentNameMax
  }

  predicate SchemaAdmitsUser(u: UserRow) {
    && |u.openId| <= OpenIdMax
    && (u.email.Some? ==> |u.email.value| <= EmailMax)
    && (u.loginMethod.Some? ==> |u.loginMethod.value| <= LoginMethodMax)
  }

  const CLINICS: seq<string> := [
    "SSMC",
    "Al Neyadat Health Center",
    "Al Khatim Healthcare Center",
    "Sweihan Healthcare Center",
    "Al Hayar Health Center",
    "Al Maqta Center",
    "Al Samha Health Center",
    "Al Rowdha Health Center",
    "Oud Al Touba Health Center",
    "Neima Health Center",
    "Al Towyaa Health Center",
    "Al Muwaji Health Center",
    "Sir Baniyas Clinic",
    "Abu Al Abyad Clinic",
    "Mohamed Ben Zayed C"
  ]

  const ADMIN_NAMES: seq<string> := ["Chandan", "Esmail"]

  predicate Distinct(s: seq<string>) {
    forall i, j | 0 <= i < j < |s| :: s[i] != s[j]
  }

  /** The clinic list names fifteen different facilities. */
  lemma ClinicsAreDistinct()
    ensures |CLINICS| == 15 && Distinct(CLINICS)
  {
  }

  /** The admin allow-list is exactly the two names. */
  lemma AdminNamesExact(n: string)
    ensures n in ADMIN_NAMES <==> n == "Chandan" || n == "Esmail"
  {
  }
}
