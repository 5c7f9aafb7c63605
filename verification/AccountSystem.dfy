/** Logins, second-factor handlers and account administration as one system of
    interleaving processes over the account tables.  One action is one SQL
    statement or transaction together with the local work around it; a process
    is a request in flight.  Handlers that hold the MFA lock exclude each other
    but interleave with everything else. */
module AccountSystem {
  import opened Wrappers
  import opened AccountStore
  import opened Totp

  // ---- history: what the model remembers beside the tables ----

  /** Why a session may be fully authenticated.  `Unproven` carries whether the
      user already had a factor when the login was decided. */
  datatype Evidence =
    | Code(counter: int)
    | Assertion(credential: string)
    | Passkey(credential: string)
    | Trust(device: nat)
    | EnrolledFactor
    | Unproven(sawFactor: bool)

  /** `checked` is the hash a password login checked and `stored` the hash in
      the table at the insert; `reauth` is the same pair for the latest
      re-authentication.  `lineage` survives identifier rotation and `born` is
      the user's version at the insert. */
  datatype Trail = Trail(
    evidence: Evidence, checked: Option<string>, stored: string,
    lineage: nat, born: nat, reauth: Option<(string, string)>)

  datatype Acceptance = Acceptance(counter: int, now: nat, secret: string, code: string)

  /** `accepted` are the codes accepted in the current TOTP enrolment; `keeper`
      is the lineage of the session that made the latest revoking change. */
  datatype Marks = Marks(accepted: seq<Acceptance>, keeper: Option<nat>)

  // ---- requests in flight ----

  datatype Origin = ByPassword(hash: string) | BySetup | ByPasskey

  datatype Process =
    | PasswordOk(user: int, hash: string, version: nat)
    | SetupCreated(user: int)
    | Loaded(user: int, version: nat, enrolled: bool, role: string, origin: Origin)
    | Decided(user: int, version: nat, level: Level, evidence: Evidence, origin: Origin)
    | Fetched(user: int, sid: nat, level: Level, role: string, enrolled: bool)
    | Request(user: int, sid: nat, level: Level)
    | Verifying(user: int, sid: nat, secret: string, confirmed: bool)
    | VerifyMatched(user: int, sid: nat, accepted: Acceptance)
    | Enrolling(user: int, sid: nat, level: Level)
    | Confirming(user: int, sid: nat, level: Level, secret: string)
    | ConfirmMatched(user: int, sid: nat, level: Level, accepted: Acceptance)
    | Proven(user: int, sid: nat, evidence: Evidence)
    | Remembering(user: int, version: nat)
    | ChangingPassword(user: int, sid: nat, hash: string)
    | Reauthing(user: int, sid: nat, hash: string, version: nat)

  /** `grants` gives for each trusted device the version its user had when the
      request that asked for it raised its session. */
  datatype System = System(
    db: Db, trails: map<nat, Trail>, marks: map<int, Marks>, grants: map<nat, nat>,
    procs: map<nat, Process>, lock: Option<nat>)

  const INITIAL := System(EMPTY, map[], map[], map[], map[], None)

  /** Processes inside a handler that holds the MFA lock. */
  predicate Holding(p: Process) {
    match p
    case Loaded(_, _, _, _, origin) => origin.ByPasskey?
    case Decided(_, _, _, _, origin) => origin.ByPasskey?
    case Verifying(_, _, _, _) => true
    case VerifyMatched(_, _, _) => true
    case Enrolling(_, _, _) => true
    case Confirming(_, _, _, _) => true
    case ConfirmMatched(_, _, _, _) => true
    case Proven(_, _, _) => true
    case Remembering(_, _) => true
    case _ => false
  }

  function End(s: System, pid: nat): System {
    s.(procs := s.procs - {pid}, lock := if s.lock == Some(pid) then None else s.lock)
  }

  function Go(s: System, pid: nat, p: Process): System {
    s.(procs := s.procs[pid := p])
  }

  function Take(s: System, pid: nat, p: Process): System {
    s.(procs := s.procs[pid := p], lock := Some(pid))
  }

  // ---- how the history follows the tables ----

  function Restrict(trails: map<nat, Trail>, sessions: map<nat, Session>): map<nat, Trail> {
    map sid | sid in trails && sid in sessions :: trails[sid]
  }

  /** New tables, with the history of the sessions that are left. */
  function WithDb(s: System, db: Db): System {
    s.(db := db, trails := Restrict(s.trails, db.sessions))
  }

  function MarksOf(s: System, id: int): Marks {
    if id in s.marks then s.marks[id] else Marks([], None)
  }

  function SetAccepted(s: System, id: int, accepted: seq<Acceptance>): System {
    s.(marks := s.marks[id := MarksOf(s, id).(accepted := accepted)])
  }

  function Lineage(trails: map<nat, Trail>, keep: Option<nat>): Option<nat> {
    if keep.Some? && keep.value in trails then Some(trails[keep.value].lineage) else None
  }

  /** After a change that revokes everything of `id` but session `keep`. */
  function Revoked(s: System, db: Db, id: int, keep: Option<nat>): System {
    WithDb(s, db).(marks := s.marks[id := MarksOf(s, id).(keeper := Lineage(s.trails, keep))])
  }

  function SetEvidence(s: System, sid: nat, e: Evidence): System {
    if sid in s.trails then s.(trails := s.trails[sid := s.trails[sid].(evidence := e)]) else s
  }

  // ---- administration and sessions ----

  function DoCreateUser(s: System, name: string, hash: string, role: string): System {
    match CreateUser(s.db, name, hash, role)
    case Err(_) => s
    case Ok(db) => s.(db := db, marks := s.marks[s.db.nextUser := Marks([], None)])
  }

  function DoChangeAccount(s: System, id: int, role: Option<string>, hash: Option<string>): System {
    match ChangeAccount(s.db, id, role, hash)
    case Err(_) => s
    case Ok(db) => if hash.Some? then Revoked(s, db, id, None) else s.(db := db)
  }

  function DoDeleteUser(s: System, id: int): System {
    match DeleteUser(s.db, id)
    case Err(_) => s
    case Ok(db) => WithDb(s, db)
  }

  function DoPolicy(s: System, roles: set<string>): System {
    WithDb(s, SetPolicy(s.db, roles))
  }

  function DoResetMfa(s: System, id: int): System {
    if s.lock == None then SetAccepted(Revoked(s, ClearMfa(s.db, id), id, None), id, []) else s
  }

  /** Logout, revocation of one device, or expiry. */
  function DoDrop(s: System, sid: nat): System {
    if sid in s.db.sessions then
      match DeleteSession(s.db, sid, s.db.sessions[sid].user)
      case None => s
      case Some(db) => WithDb(s, db)
    else s
  }

  // ---- logins ----

  function DoCheckPassword(s: System, pid: nat, id: int): System {
    if pid !in s.procs && id in s.db.users then
      Go(s, pid, PasswordOk(id, s.db.users[id].hash, s.db.users[id].version))
    else s
  }

  function DoSetup(s: System, pid: nat, name: string, hash: string): System {
    if pid in s.procs then s
    else match CreateFirstAdmin(s.db, name, hash)
      case Err(_) => s
      case Ok(db) =>
        Go(s.(db := db, marks := s.marks[s.db.nextUser := Marks([], None)]), pid, SetupCreated(s.db.nextUser))
  }

  function DoBeginPasskey(s: System, pid: nat, id: int): System {
    if pid !in s.procs && s.lock == None && id in s.db.users then
      Take(s, pid, Loaded(id, s.db.users[id].version, Enrolled(s.db, id), s.db.users[id].role, ByPasskey))
    else s
  }

  function Load(db: Db, id: int, origin: Origin): Process
    requires id in db.users
  {
    Loaded(id, db.users[id].version, Enrolled(db, id), db.users[id].role, origin)
  }

  function DoLoad(s: System, pid: nat): System {
    if pid !in s.procs then s
    else match s.procs[pid]
      case PasswordOk(id, hash, version) =>
        if id in s.db.users && s.db.users[id].version == version then Go(s, pid, Load(s.db, id, ByPassword(hash)))
        else End(s, pid)
      case SetupCreated(id) =>
        if id in s.db.users then Go(s, pid, Load(s.db, id, BySetup)) else End(s, pid)
      case _ => s
  }

  /** The policy is read after the user; setup does not look at factors. */
  function DoDecide(s: System, pid: nat): System {
    if pid in s.procs && s.procs[pid].Loaded? && !s.procs[pid].origin.ByPasskey? then
      var p := s.procs[pid];
      var level := LevelFor(p.enrolled && p.origin.ByPassword?, Required(s.db, p.role));
      Go(s, pid, Decided(p.user, p.version, level, Unproven(p.enrolled), p.origin))
    else s
  }

  function DoUseTrust(s: System, pid: nat, device: nat): System {
    if pid in s.procs && s.procs[pid].Decided? && s.procs[pid].origin.ByPassword? && s.procs[pid].level == Mfa &&
       device in s.db.trusted && s.db.trusted[device] == s.procs[pid].user then
      Go(s, pid, s.procs[pid].(level := Full, evidence := Trust(device)))
    else s
  }

  function DoAssertPasskey(s: System, pid: nat, credential: string): System {
    if pid in s.procs && s.procs[pid].Loaded? && s.procs[pid].origin.ByPasskey? &&
       credential in s.db.credentials && s.db.credentials[credential] == s.procs[pid].user then
      var p := s.procs[pid];
      Go(s, pid, Decided(p.user, p.version, Full, Passkey(credential), ByPasskey))
    else s
  }

  function DoInsert(s: System, pid: nat, now: Clock): System {
    if pid in s.procs && s.procs[pid].Decided? then
      var p := s.procs[pid];
      match CreateSession(s.db, p.user, p.version, p.level, now)
      case None => End(s, pid)
      case Some(db) =>
        var checked := if p.origin.ByPassword? then Some(p.origin.hash) else None;
        var trail := Trail(p.evidence, checked, s.db.users[p.user].hash, s.db.nextSid, p.version, None);
        End(s.(db := db, trails := s.trails[s.db.nextSid := trail]), pid)
    else s
  }

  // ---- requests of an existing session ----

  /** Reads an unexpired session with its user's role and factors. */
  function DoBegin(s: System, pid: nat, sid: nat, now: int): System {
    if pid !in s.procs && sid in s.db.sessions && now < s.db.sessions[sid].expires &&
       s.db.sessions[sid].user in s.db.users then
      var r := s.db.sessions[sid];
      Go(s, pid, Fetched(r.user, sid, r.level, s.db.users[r.user].role, Enrolled(s.db, r.user)))
    else s
  }

  /** Then reads the policy: a full session whose user has no factor is treated
      as one that must enrol if the role requires a factor. */
  function DoAdmit(s: System, pid: nat): System {
    if pid in s.procs && s.procs[pid].Fetched? then
      var p := s.procs[pid];
      var level := if p.level == Full && Required(s.db, p.role) && !p.enrolled then Enroll else p.level;
      Go(s, pid, Request(p.user, p.sid, level))
    else s
  }

  predicate Requesting(s: System, pid: nat, level: Level) {
    pid in s.procs && s.procs[pid].Request? && s.procs[pid].level == level
  }

  function DoEnterVerify(s: System, pid: nat): System {
    if Requesting(s, pid, Mfa) && s.lock == None && s.procs[pid].user in s.db.users then
      var p := s.procs[pid];
      Take(s, pid, Verifying(p.user, p.sid, s.db.users[p.user].secret, s.db.users[p.user].confirmed))
    else s
  }

  function DoVerifyCode(codes: Codes, s: System, pid: nat, code: string, now: nat): System {
    if pid in s.procs && s.procs[pid].Verifying? then
      var p := s.procs[pid];
      var m := if p.user in s.db.users then Matched(codes, p.secret, code, s.db.users[p.user].lastUsed, now) else None;
      if p.confirmed && m.Some? then
        Go(s, pid, VerifyMatched(p.user, p.sid, Acceptance(m.value, now, p.secret, code)))
      else End(s, pid)
    else s
  }

  function DoConsume(s: System, pid: nat): System {
    if pid in s.procs && s.procs[pid].VerifyMatched? then
      var p := s.procs[pid];
      match SetLastUsed(s.db, p.user, p.accepted.counter)
      case None => End(s, pid)
      case Some(db) =>
        Go(SetAccepted(s.(db := db), p.user, MarksOf(s, p.user).accepted + [p.accepted]),
           pid, Proven(p.user, p.sid, Code(p.accepted.counter)))
    else s
  }

  function DoEnterAssert(s: System, pid: nat, credential: string): System {
    if Requesting(s, pid, Mfa) && s.lock == None &&
       credential in s.db.credentials && s.db.credentials[credential] == s.procs[pid].user then
      Take(s, pid, Proven(s.procs[pid].user, s.procs[pid].sid, Assertion(credential)))
    else s
  }

  /** A session forced to enrol is refused once a factor exists. */
  function DoEnterEnrol(s: System, pid: nat): System {
    if s.lock == None &&
       (Requesting(s, pid, Full) || (Requesting(s, pid, Enroll) && !Enrolled(s.db, s.procs[pid].user))) then
      Take(s, pid, Enrolling(s.procs[pid].user, s.procs[pid].sid, s.procs[pid].level))
    else s
  }

  function DoBeginTotp(s: System, pid: nat, secret: string): System {
    if pid in s.procs && s.procs[pid].Enrolling? && secret != "" then
      var id := s.procs[pid].user;
      match SetPendingTotp(s.db, id, secret)
      case None => End(s, pid)
      case Some(db) => End(SetAccepted(s.(db := db), id, []), pid)
    else s
  }

  function DoReadPending(s: System, pid: nat): System {
    if pid in s.procs && s.procs[pid].Enrolling? then
      var p := s.procs[pid];
      if p.user in s.db.users && s.db.users[p.user].secret != "" && !s.db.users[p.user].confirmed then
        Go(s, pid, Confirming(p.user, p.sid, p.level, s.db.users[p.user].secret))
      else End(s, pid)
    else s
  }

  function DoConfirmCode(codes: Codes, s: System, pid: nat, code: string, now: nat): System {
    if pid in s.procs && s.procs[pid].Confirming? then
      var p := s.procs[pid];
      match Matched(codes, p.secret, code, 0, now)
      case None => End(s, pid)
      case Some(c) => Go(s, pid, ConfirmMatched(p.user, p.sid, p.level, Acceptance(c, now, p.secret, code)))
    else s
  }

  /** What follows an enrolment: a forced one still has to raise its session. */
  function AfterEnrol(s: System, pid: nat, id: int, sid: nat, level: Level): System {
    var s1 := SetEvidence(s, sid, EnrolledFactor);
    if level == Enroll then Go(s1, pid, Proven(id, sid, EnrolledFactor)) else End(s1, pid)
  }

  function DoConfirm(s: System, pid: nat): System {
    if pid in s.procs && s.procs[pid].ConfirmMatched? then
      var p := s.procs[pid];
      match ConfirmTotp(s.db, p.user, p.accepted.counter, Some(p.sid))
      case None => End(s, pid)
      case Some(db) =>
        AfterEnrol(SetAccepted(Revoked(s, db, p.user, Some(p.sid)), p.user, [p.accepted]), pid, p.user, p.sid, p.level)
    else s
  }

  function DoRegister(s: System, pid: nat, credential: string): System {
    if pid in s.procs && s.procs[pid].Enrolling? then
      var p := s.procs[pid];
      match AddCredential(s.db, p.user, credential, Some(p.sid))
      case None => End(s, pid)
      case Some(db) => AfterEnrol(Revoked(s, db, p.user, Some(p.sid)), pid, p.user, p.sid, p.level)
    else s
  }

  /** Raises the session and rotates its identifier. */
  function DoUpgrade(s: System, pid: nat, now: Clock, remember: bool): System {
    if pid in s.procs && s.procs[pid].Proven? then
      var p := s.procs[pid];
      match UpgradeSession(s.db, p.sid, now)
      case None => End(s, pid)
      case Some(db) =>
        var moved := if p.sid in s.trails
          then (s.trails - {p.sid})[s.db.nextSid := s.trails[p.sid].(evidence := p.evidence)] else s.trails;
        var s1 := s.(db := db, trails := moved);
        if remember && (p.evidence.Code? || p.evidence.Assertion?) && p.user in s.db.users
        then Go(s1, pid, Remembering(p.user, s.db.users[p.user].version)) else End(s1, pid)
    else s
  }

  function DoRemember(s: System, pid: nat): System {
    if pid in s.procs && s.procs[pid].Remembering? then
      match AddTrustedDevice(s.db, s.procs[pid].user)
      case None => End(s, pid)
      case Some(db) => End(s.(db := db, grants := s.grants[s.db.nextSid := s.procs[pid].version]), pid)
    else s
  }

  function DoRemoveFactor(s: System, pid: nat, credential: string): System {
    if Requesting(s, pid, Full) && s.lock == None then
      var p := s.procs[pid];
      match RemoveFactor(s.db, p.user, credential, Some(p.sid))
      case None => End(s, pid)
      case Some(db) =>
        var s1 := Revoked(s, db, p.user, Some(p.sid));
        End(if credential == "" then SetAccepted(s1, p.user, []) else s1, pid)
    else s
  }

  function DoReadPassword(s: System, pid: nat): System {
    if Requesting(s, pid, Full) && s.procs[pid].user in s.db.users then
      var p := s.procs[pid];
      Go(s, pid, ChangingPassword(p.user, p.sid, s.db.users[p.user].hash))
    else s
  }

  function DoWritePassword(s: System, pid: nat, hash: string): System {
    if pid in s.procs && s.procs[pid].ChangingPassword? then
      var p := s.procs[pid];
      match ChangePassword(s.db, p.user, hash, Some(p.sid), Some(p.hash))
      case None => End(s, pid)
      case Some(db) => End(Revoked(s, db, p.user, Some(p.sid)), pid)
    else s
  }

  function DoReadReauth(s: System, pid: nat): System {
    if Requesting(s, pid, Full) && s.procs[pid].user in s.db.users then
      var p := s.procs[pid];
      Go(s, pid, Reauthing(p.user, p.sid, s.db.users[p.user].hash, s.db.users[p.user].version))
    else s
  }

  function DoMark(s: System, pid: nat, now: int): System {
    if pid in s.procs && s.procs[pid].Reauthing? then
      var p := s.procs[pid];
      match MarkReauthenticated(s.db, p.sid, p.user, p.version, now)
      case None => End(s, pid)
      case Some(db) =>
        var trails := if p.sid in s.trails
          then s.trails[p.sid := s.trails[p.sid].(reauth := Some((p.hash, s.db.users[p.user].hash)))] else s.trails;
        End(s.(db := db, trails := trails), pid)
    else s
  }

  // ---- steps and runs ----

  datatype Action =
    | NewUser(name: string, hash: string, role: string)
    | ChangeUser(id: int, newRole: Option<string>, newHash: Option<string>)
    | RemoveUser(id: int)
    | Policy(roles: set<string>)
    | ResetMfa(id: int)
    | Drop(sid: nat)
    | Setup(pid: nat, name: string, hash: string)
    | CheckPassword(pid: nat, id: int)
    | BeginPasskey(pid: nat, id: int)
    | LoadUser(pid: nat)
    | Decide(pid: nat)
    | UseTrust(pid: nat, device: nat)
    | AssertPasskey(pid: nat, credential: string)
    | Insert(pid: nat, clock: Clock)
    | Begin(pid: nat, sid: nat, now: int)
    | Admit(pid: nat)
    | EnterVerify(pid: nat)
    | VerifyCode(pid: nat, code: string, at: nat)
    | Consume(pid: nat)
    | EnterAssert(pid: nat, credential: string)
    | EnterEnrol(pid: nat)
    | BeginTotp(pid: nat, secret: string)
    | ReadPending(pid: nat)
    | ConfirmCode(pid: nat, code: string, at: nat)
    | Confirm(pid: nat)
    | Register(pid: nat, credential: string)
    | Upgrade(pid: nat, clock: Clock, remember: bool)
    | Remember(pid: nat)
    | RemoveOwn(pid: nat, credential: string)
    | ReadPassword(pid: nat)
    | WritePassword(pid: nat, hash: string)
    | ReadReauth(pid: nat)
    | Mark(pid: nat, now: int)
    | Abort(pid: nat)

  predicate IsAdministration(a: Action) {
    a.NewUser? || a.ChangeUser? || a.RemoveUser? || a.Policy? || a.ResetMfa? || a.Drop?
  }

  predicate IsLogin(a: Action) {
    a.Setup? || a.CheckPassword? || a.BeginPasskey? || a.LoadUser? || a.Decide?
  }

  predicate IsCommit(a: Action) {
    a.UseTrust? || a.AssertPasskey? || a.Insert? || a.Begin? || a.Admit?
  }

  predicate IsVerification(a: Action) {
    a.EnterVerify? || a.VerifyCode? || a.Consume? || a.EnterAssert? || a.Upgrade? || a.Remember?
  }

  predicate IsEnrolment(a: Action) {
    a.EnterEnrol? || a.BeginTotp? || a.ReadPending? || a.ConfirmCode? || a.Confirm? || a.Register?
  }

  /** Administration and revocation. */
  function AdministrationStep(codes: Codes, s: System, a: Action): System {
    match a
    case NewUser(name, hash, role) => DoCreateUser(s, name, hash, role)
    case ChangeUser(id, role, hash) => DoChangeAccount(s, id, role, hash)
    case RemoveUser(id) => DoDeleteUser(s, id)
    case Policy(roles) => DoPolicy(s, roles)
    case ResetMfa(id) => DoResetMfa(s, id)
    case Drop(sid) => DoDrop(s, sid)
    case _ => s
  }

  /** Logins up to the decision. */
  function LoginStep(codes: Codes, s: System, a: Action): System {
    match a
    case Setup(pid, name, hash) => DoSetup(s, pid, name, hash)
    case CheckPassword(pid, id) => DoCheckPassword(s, pid, id)
    case BeginPasskey(pid, id) => DoBeginPasskey(s, pid, id)
    case LoadUser(pid) => DoLoad(s, pid)
    case Decide(pid) => DoDecide(s, pid)
    case _ => s
  }

  /** Logins from the decision to the insert, and the start of a request. */
  function CommitStep(codes: Codes, s: System, a: Action): System {
    match a
    case UseTrust(pid, device) => DoUseTrust(s, pid, device)
    case AssertPasskey(pid, credential) => DoAssertPasskey(s, pid, credential)
    case Insert(pid, now) => DoInsert(s, pid, now)
    case Begin(pid, sid, now) => DoBegin(s, pid, sid, now)
    case Admit(pid) => DoAdmit(s, pid)
    case _ => s
  }

  /** The second factor of a login, up to the raised session. */
  function VerificationStep(codes: Codes, s: System, a: Action): System {
    match a
    case EnterVerify(pid) => DoEnterVerify(s, pid)
    case VerifyCode(pid, code, at) => DoVerifyCode(codes, s, pid, code, at)
    case Consume(pid) => DoConsume(s, pid)
    case EnterAssert(pid, credential) => DoEnterAssert(s, pid, credential)
    case Upgrade(pid, now, remember) => DoUpgrade(s, pid, now, remember)
    case Remember(pid) => DoRemember(s, pid)
    case _ => s
  }

  /** Enrolling a factor. */
  function EnrolmentStep(codes: Codes, s: System, a: Action): System {
    match a
    case EnterEnrol(pid) => DoEnterEnrol(s, pid)
    case BeginTotp(pid, secret) => DoBeginTotp(s, pid, secret)
    case ReadPending(pid) => DoReadPending(s, pid)
    case ConfirmCode(pid, code, at) => DoConfirmCode(codes, s, pid, code, at)
    case Confirm(pid) => DoConfirm(s, pid)
    case Register(pid, credential) => DoRegister(s, pid, credential)
    case _ => s
  }

  /** What a full session changes about its own account. */
  function SessionStep(codes: Codes, s: System, a: Action): System {
    match a
    case RemoveOwn(pid, credential) => DoRemoveFactor(s, pid, credential)
    case ReadPassword(pid) => DoReadPassword(s, pid)
    case WritePassword(pid, hash) => DoWritePassword(s, pid, hash)
    case ReadReauth(pid) => DoReadReauth(s, pid)
    case Mark(pid, now) => DoMark(s, pid, now)
    case Abort(pid) => if pid in s.procs then End(s, pid) else s
    case _ => s
  }

  /** An action that is not enabled changes nothing. */
  function Step(codes: Codes, s: System, a: Action): System {
    if IsAdministration(a) then AdministrationStep(codes, s, a)
    else if IsLogin(a) then LoginStep(codes, s, a)
    else if IsCommit(a) then CommitStep(codes, s, a)
    else if IsVerification(a) then VerificationStep(codes, s, a)
    else if IsEnrolment(a) then EnrolmentStep(codes, s, a)
    else SessionStep(codes, s, a)
  }

  function Run(codes: Codes, s: System, actions: seq<Action>): System
    decreases |actions|
  {
    if actions == [] then s else Run(codes, Step(codes, s, actions[0]), actions[1..])
  }
}
