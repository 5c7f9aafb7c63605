/** How a request in flight gets from one stage to the next: for every stage the
    one way into it, and when a request is over. */
module AccountStages {
  import opened Wrappers
  import opened AccountStore
  import opened Totp
  import opened AccountSystem
  import opened AccountInvariants
  import opened AccountTheorems
  import opened AccountEffects

  /** The user has a factor: a confirmed TOTP enrolment or a passkey. */
  ghost predicate Protected(db: Db, id: int) {
    HasTotp(db, id, false) || exists c :: c in db.credentials && db.credentials[c] == id
  }

  ghost predicate Demanded(db: Db, role: string) {
    db.required.Some? && role in db.required.value
  }

  /** `c` is the counter that a code is accepted for. */
  ghost predicate Accepts(codes: Codes, secret: string, code: string, after: int, now: nat, c: int) {
    && |code| == 6 && codes.valid(secret)
    && now / 30 - 1 <= c <= now / 30 + 1 && c > after && codes.at(secret, c) == code
    && forall d :: now / 30 - 1 <= d < c && d > after ==> codes.at(secret, d) != code
  }

  ghost predicate AcceptsNow(codes: Codes, a: Acceptance, after: int, code: string, now: nat) {
    a.code == code && a.now == now && Accepts(codes, a.secret, code, after, now, a.counter)
  }

  // ---- the way into every stage ----

  /** The account as a request reads it. */
  ghost predicate Reads(db: Db, id: int, hash: string, version: nat) {
    id in db.users && db.users[id].hash == hash && db.users[id].version == version
  }

  /** The account is loaded at the version a password was checked at, read back by
      setup, or loaded for a passkey. */
  ghost predicate EntersLoaded(s: System, a: Action, p: Option<Process>, q: Process)
    requires q.Loaded?
  {
    && q.user in s.db.users && s.db.users[q.user].version == q.version && s.db.users[q.user].role == q.role
    && (q.enrolled <==> Protected(s.db, q.user))
    && match q.origin
       case ByPassword(hash) => a.LoadUser? && p == Some(PasswordOk(q.user, hash, q.version))
       case BySetup => a.LoadUser? && p == Some(SetupCreated(q.user))
       case ByPasskey => a.BeginPasskey? && a.id == q.user && p == None && s.lock == None
  }

  /** A decision: by the policy and the factors that were read, by a trusted
      device of the user, or by a passkey of the user. */
  ghost predicate EntersDecided(s: System, a: Action, p: Process, q: Process)
    requires q.Decided?
  {
    p.user == q.user &&
    match q.evidence
    case Unproven(saw) =>
      a.Decide? && p.Loaded? && p.origin == q.origin && !p.origin.ByPasskey? && p.version == q.version && p.enrolled == saw &&
      q.level == if saw && p.origin.ByPassword? then Mfa else if Demanded(s.db, p.role) then Enroll else Full
    case Trust(device) =>
      a.UseTrust? && a.device == device && At(s.db.trusted, device) == Some(q.user) &&
      p.Decided? && p.level == Mfa && p.origin.ByPassword? && p.origin == q.origin && p.version == q.version && q.level == Full
    case Passkey(credential) =>
      a.AssertPasskey? && a.credential == credential && At(s.db.credentials, credential) == Some(q.user) &&
      p.Loaded? && p.origin.ByPasskey? && q.origin.ByPasskey? && p.version == q.version && q.level == Full
    case _ => false
  }

  /** A proof: a code that is consumed, an assertion of a passkey of the user, or
      an enrolment that the user was forced to. */
  ghost predicate EntersProven(s: System, a: Action, p: Process, q: Process)
    requires q.Proven?
  {
    match q.evidence
    case Code(c) =>
      a.Consume? && p.VerifyMatched? && p.user == q.user && p.sid == q.sid && p.accepted.counter == c &&
      q.user in s.db.users && s.db.users[q.user].lastUsed < c
    case Assertion(credential) =>
      a.EnterAssert? && a.credential == credential && p == Request(q.user, q.sid, Mfa) && s.lock == None &&
      At(s.db.credentials, credential) == Some(q.user)
    case EnrolledFactor =>
      || (a.Confirm? && p.ConfirmMatched? && p.user == q.user && p.sid == q.sid && p.level == Enroll &&
          HasTotp(s.db, q.user, true))
      || (a.Register? && p == Enrolling(q.user, q.sid, Enroll) && q.user in s.db.users && a.credential !in s.db.credentials)
    case _ => false
  }

  /** The stages before a session is inserted; `p` is the stage before the step. */
  ghost predicate EntersLogin(s: System, a: Action, p: Option<Process>, q: Process) {
    match q
    case PasswordOk(id, hash, version) => a.CheckPassword? && a.id == id && p == None && Reads(s.db, id, hash, version)
    case SetupCreated(id) =>
      a.Setup? && p == None && id == s.db.nextUser && NameFree(s.db, a.name) &&
      forall k :: k in s.db.users ==> s.db.users[k].role != "admin"
    case Loaded(_, _, _, _, _) => EntersLoaded(s, a, p, q)
    case Decided(_, _, _, _, _) => p.Some? && EntersDecided(s, a, p.value, q)
    case _ => false
  }

  /** The stages of a request and of the second factor of a login. */
  ghost predicate EntersRequest(codes: Codes, s: System, a: Action, p: Option<Process>, q: Process) {
    match q
    case Fetched(id, sid, level, role, enrolled) =>
      a.Begin? && a.sid == sid && p == None && sid in s.db.sessions && a.now < s.db.sessions[sid].expires &&
      s.db.sessions[sid].user == id && s.db.sessions[sid].level == level &&
      id in s.db.users && s.db.users[id].role == role && (enrolled <==> Protected(s.db, id))
    case Request(id, sid, level) =>
      a.Admit? && p.Some? && p.value.Fetched? && p.value.user == id && p.value.sid == sid &&
      level == if p.value.level == Full && Demanded(s.db, p.value.role) && !p.value.enrolled then Enroll else p.value.level
    case Verifying(id, sid, secret, confirmed) =>
      a.EnterVerify? && p == Some(Request(id, sid, Mfa)) && s.lock == None &&
      id in s.db.users && s.db.users[id].secret == secret && s.db.users[id].confirmed == confirmed
    case VerifyMatched(id, sid, accepted) =>
      a.VerifyCode? && p == Some(Verifying(id, sid, accepted.secret, true)) &&
      id in s.db.users && AcceptsNow(codes, accepted, s.db.users[id].lastUsed, a.code, a.at)
    case Proven(_, _, _) => p.Some? && EntersProven(s, a, p.value, q)
    case Remembering(id, version) =>
      a.Upgrade? && a.remember && p.Some? && p.value.Proven? && p.value.user == id &&
      p.value.sid in s.db.sessions && a.clock.time < s.db.sessions[p.value.sid].expires &&
      (p.value.evidence.Code? || p.value.evidence.Assertion?) &&
      id in s.db.users && s.db.users[id].version == version
    case _ => false
  }

  /** The stages of an enrolment and of changes of one's own account. */
  ghost predicate EntersOwn(codes: Codes, s: System, a: Action, p: Option<Process>, q: Process) {
    match q
    case Enrolling(id, sid, level) =>
      a.EnterEnrol? && p == Some(Request(id, sid, level)) && s.lock == None &&
      (level == Full || (level == Enroll && !Protected(s.db, id)))
    case Confirming(id, sid, level, secret) =>
      a.ReadPending? && p == Some(Enrolling(id, sid, level)) && HasTotp(s.db, id, true) && s.db.users[id].secret == secret
    case ConfirmMatched(id, sid, level, accepted) =>
      a.ConfirmCode? && p == Some(Confirming(id, sid, level, accepted.secret)) &&
      AcceptsNow(codes, accepted, 0, a.code, a.at)
    case ChangingPassword(id, sid, hash) =>
      a.ReadPassword? && p == Some(Request(id, sid, Full)) && id in s.db.users && s.db.users[id].hash == hash
    case Reauthing(id, sid, hash, version) =>
      a.ReadReauth? && p == Some(Request(id, sid, Full)) && Reads(s.db, id, hash, version)
    case _ => false
  }

  /** After these steps a request is at its next stage or over. */
  ghost predicate Spends(s: System, a: Action, p: Process) {
    match a
    case LoadUser(_) => p.PasswordOk? || p.SetupCreated?
    case Insert(_, _) => p.Decided?
    case VerifyCode(_, _, _) => p.Verifying?
    case Consume(_) => p.VerifyMatched?
    case BeginTotp(_, secret) => p.Enrolling? && secret != ""
    case ReadPending(_) => p.Enrolling?
    case ConfirmCode(_, _, _) => p.Confirming?
    case Confirm(_) => p.ConfirmMatched?
    case Register(_, _) => p.Enrolling?
    case Upgrade(_, _, _) => p.Proven?
    case Remember(_) => p.Remembering?
    case RemoveOwn(_, _) => p.Request? && p.level == Full && s.lock == None
    case WritePassword(_, _) => p.ChangingPassword?
    case Mark(_, _) => p.Reauthing?
    case Abort(_) => true
    case _ => false
  }

  /** The request a step belongs to. */
  ghost function Actor(a: Action): Option<nat> {
    if IsAdministration(a) then None else Some(a.pid)
  }

  ghost predicate Enters(codes: Codes, s: System, a: Action, p: Option<Process>, q: Process) {
    EntersLogin(s, a, p, q) || EntersRequest(codes, s, a, p, q) || EntersOwn(codes, s, a, p, q)
  }

  /** What became of a request at stage `p`: it is at stage `q` afterwards exactly
      when the step is the way into `q`, or `q` is where it was, the step has not
      used it up and is the way into no other stage. */
  ghost predicate MovesExactly(codes: Codes, s: System, a: Action, p: Option<Process>, p': Option<Process>, q: Process) {
    && (Enters(codes, s, a, p, q) ==> p' == Some(q))
    && (p' == Some(q) && (p != p' || Spends(s, a, q)) ==> Enters(codes, s, a, p, q))
    && (p.Some? && !Spends(s, a, p.value) ==> p'.Some?)
  }

  /** The request that acts moves, all others stay where they are. */
  ghost predicate Moves(codes: Codes, s: System, s': System, a: Action, k: nat, q: Process) {
    if Actor(a) == Some(k) then MovesExactly(codes, s, a, At(s.procs, k), At(s'.procs, k), q)
    else At(s'.procs, k) == At(s.procs, k)
  }

  lemma ProtectedIs(db: Db, id: int)
    ensures Enrolled(db, id) <==> Protected(db, id)
  {
  }

  lemma AcceptsIs(codes: Codes, secret: string, code: string, after: int, now: nat, c: int)
    ensures Matched(codes, secret, code, after, now) == Some(c) <==> Accepts(codes, secret, code, after, now, c)
  {
    MatchedMeaning(codes, secret, code, after, now);
    var m := Matched(codes, secret, code, after, now);
    if Accepts(codes, secret, code, after, now, c) {
      assert m.Some? && codes.at(secret, m.value) == code && codes.at(secret, c) == code;
    }
  }

  // ---- logins ----

  lemma SetupStage(codes: Codes, s: System, pid: nat, name: string, hash: string, q: Process)
    ensures MovesExactly(codes, s, Setup(pid, name, hash), At(s.procs, pid), At(DoSetup(s, pid, name, hash).procs, pid), q)
  {
  }

  lemma CheckStage(codes: Codes, s: System, pid: nat, id: int, q: Process)
    ensures MovesExactly(codes, s, CheckPassword(pid, id), At(s.procs, pid), At(DoCheckPassword(s, pid, id).procs, pid), q)
  {
  }

  lemma PasskeyStage(codes: Codes, s: System, pid: nat, id: int, q: Process)
    ensures MovesExactly(codes, s, BeginPasskey(pid, id), At(s.procs, pid), At(DoBeginPasskey(s, pid, id).procs, pid), q)
  {
    ProtectedIs(s.db, id);
  }

  /** What loading the account makes of a login. */
  function AfterLoad(db: Db, p: Process): Option<Process>
    requires p.PasswordOk? || p.SetupCreated?
  {
    var u := At(db.users, p.user);
    if u.None? || (p.PasswordOk? && u.value.version != p.version) then None
    else Some(Loaded(p.user, u.value.version, Enrolled(db, p.user), u.value.role, if p.PasswordOk? then ByPassword(p.hash) else BySetup))
  }

  lemma LoadLeads(s: System, pid: nat)
    ensures At(DoLoad(s, pid).procs, pid) ==
            if pid in s.procs && (s.procs[pid].PasswordOk? || s.procs[pid].SetupCreated?) then AfterLoad(s.db, s.procs[pid])
            else At(s.procs, pid)
  {
  }

  lemma LoadMoves(codes: Codes, s: System, pid: nat, p: Process, q: Process)
    requires p.PasswordOk? || p.SetupCreated?
    ensures MovesExactly(codes, s, LoadUser(pid), Some(p), AfterLoad(s.db, p), q)
  {
    ProtectedIs(s.db, p.user);
  }

  lemma NotLoading(codes: Codes, s: System, pid: nat, p: Option<Process>, q: Process)
    requires p.None? || !(p.value.PasswordOk? || p.value.SetupCreated?)
    ensures MovesExactly(codes, s, LoadUser(pid), p, p, q)
  {
  }

  lemma LoadStage(codes: Codes, s: System, pid: nat, q: Process)
    ensures MovesExactly(codes, s, LoadUser(pid), At(s.procs, pid), At(DoLoad(s, pid).procs, pid), q)
  {
    LoadLeads(s, pid);
    if pid in s.procs && (s.procs[pid].PasswordOk? || s.procs[pid].SetupCreated?) {
      LoadMoves(codes, s, pid, s.procs[pid], q);
    } else {
      NotLoading(codes, s, pid, At(s.procs, pid), q);
    }
  }

  lemma DecideStage(codes: Codes, s: System, pid: nat, q: Process)
    ensures MovesExactly(codes, s, Decide(pid), At(s.procs, pid), At(DoDecide(s, pid).procs, pid), q)
  {
  }

  lemma TrustStage(codes: Codes, s: System, pid: nat, device: nat, q: Process)
    ensures MovesExactly(codes, s, UseTrust(pid, device), At(s.procs, pid), At(DoUseTrust(s, pid, device).procs, pid), q)
  {
  }

  lemma AssertStage(codes: Codes, s: System, pid: nat, credential: string, q: Process)
    ensures MovesExactly(codes, s, AssertPasskey(pid, credential), At(s.procs, pid), At(DoAssertPasskey(s, pid, credential).procs, pid), q)
  {
  }

  lemma InsertStage(codes: Codes, s: System, pid: nat, now: Clock, q: Process)
    ensures MovesExactly(codes, s, Insert(pid, now), At(s.procs, pid), At(DoInsert(s, pid, now).procs, pid), q)
  {
  }

  // ---- requests ----

  /** What beginning a request reads of its session and its user. */
  function AfterBegin(db: Db, sid: nat, now: int): Option<Process> {
    var r := At(db.sessions, sid);
    if r.None? || r.value.expires <= now || r.value.user !in db.users then None
    else Some(Fetched(r.value.user, sid, r.value.level, db.users[r.value.user].role, Enrolled(db, r.value.user)))
  }

  lemma BeginLeads(s: System, pid: nat, sid: nat, now: int)
    ensures At(DoBegin(s, pid, sid, now).procs, pid) ==
            if pid in s.procs then Some(s.procs[pid]) else AfterBegin(s.db, sid, now)
  {
  }

  lemma BeginMoves(codes: Codes, s: System, pid: nat, sid: nat, now: int, q: Process)
    ensures MovesExactly(codes, s, Begin(pid, sid, now), None, AfterBegin(s.db, sid, now), q)
  {
    if sid in s.db.sessions {
      ProtectedIs(s.db, s.db.sessions[sid].user);
    }
  }

  lemma NotBeginning(codes: Codes, s: System, pid: nat, sid: nat, now: int, p: Process, q: Process)
    ensures MovesExactly(codes, s, Begin(pid, sid, now), Some(p), Some(p), q)
  {
  }

  lemma BeginStage(codes: Codes, s: System, pid: nat, sid: nat, now: int, q: Process)
    ensures MovesExactly(codes, s, Begin(pid, sid, now), At(s.procs, pid), At(DoBegin(s, pid, sid, now).procs, pid), q)
  {
    BeginLeads(s, pid, sid, now);
    if pid in s.procs {
      NotBeginning(codes, s, pid, sid, now, s.procs[pid], q);
    } else {
      BeginMoves(codes, s, pid, sid, now, q);
    }
  }

  lemma AdmitStage(codes: Codes, s: System, pid: nat, q: Process)
    ensures MovesExactly(codes, s, Admit(pid), At(s.procs, pid), At(DoAdmit(s, pid).procs, pid), q)
  {
  }

  lemma EnterVerifyStage(codes: Codes, s: System, pid: nat, q: Process)
    ensures MovesExactly(codes, s, EnterVerify(pid), At(s.procs, pid), At(DoEnterVerify(s, pid).procs, pid), q)
  {
  }

  lemma VerifyLeads(codes: Codes, s: System, pid: nat, code: string, now: nat)
    ensures At(DoVerifyCode(codes, s, pid, code, now).procs, pid) ==
            if pid in s.procs && s.procs[pid].Verifying? then
              AfterVerify(codes, s.procs[pid], At(s.db.users, s.procs[pid].user), code, now)
            else At(s.procs, pid)
  {
  }

  /** A code is checked against the secret that was read, and against the last
      counter of the user as it is now. */
  function AfterVerify(codes: Codes, p: Process, u: Option<User>, code: string, now: nat): Option<Process>
    requires p.Verifying?
  {
    if u.Some? && p.confirmed then
      match Matched(codes, p.secret, code, u.value.lastUsed, now)
      case Some(c) => Some(VerifyMatched(p.user, p.sid, Acceptance(c, now, p.secret, code)))
      case None => None
    else None
  }

  lemma VerifyMoves(codes: Codes, s: System, pid: nat, code: string, now: nat, p: Process, q: Process)
    requires p.Verifying?
    ensures MovesExactly(codes, s, VerifyCode(pid, code, now), Some(p),
                         AfterVerify(codes, p, At(s.db.users, p.user), code, now), q)
  {
    var u := At(s.db.users, p.user);
    if u.Some? && q.VerifyMatched? {
      AcceptsIs(codes, p.secret, code, u.value.lastUsed, now, q.accepted.counter);
    }
  }

  lemma NotVerifying(codes: Codes, s: System, pid: nat, code: string, now: nat, p: Option<Process>, q: Process)
    requires p.None? || !p.value.Verifying?
    ensures MovesExactly(codes, s, VerifyCode(pid, code, now), p, p, q)
  {
  }

  lemma VerifyStage(codes: Codes, s: System, pid: nat, code: string, now: nat, q: Process)
    ensures MovesExactly(codes, s, VerifyCode(pid, code, now), At(s.procs, pid),
                         At(DoVerifyCode(codes, s, pid, code, now).procs, pid), q)
  {
    VerifyLeads(codes, s, pid, code, now);
    if pid in s.procs && s.procs[pid].Verifying? {
      VerifyMoves(codes, s, pid, code, now, s.procs[pid], q);
    } else {
      NotVerifying(codes, s, pid, code, now, At(s.procs, pid), q);
    }
  }

  lemma ConsumeStage(codes: Codes, s: System, pid: nat, q: Process)
    ensures MovesExactly(codes, s, Consume(pid), At(s.procs, pid), At(DoConsume(s, pid).procs, pid), q)
  {
  }

  lemma EnterAssertStage(codes: Codes, s: System, pid: nat, credential: string, q: Process)
    ensures MovesExactly(codes, s, EnterAssert(pid, credential), At(s.procs, pid), At(DoEnterAssert(s, pid, credential).procs, pid), q)
  {
  }

  /** What raising a session leads to: remembering the device, if that was asked
      for and the proof is of a second factor that was there. */
  function AfterUpgrade(db: Db, p: Process, now: Clock, remember: bool): Option<Process>
    requires p.Proven?
  {
    if p.sid in db.sessions && now.time < db.sessions[p.sid].expires && remember && p.user in db.users &&
       (p.evidence.Code? || p.evidence.Assertion?)
    then Some(Remembering(p.user, db.users[p.user].version))
    else None
  }

  lemma UpgradeLeads(s: System, pid: nat, now: Clock, remember: bool)
    ensures At(DoUpgrade(s, pid, now, remember).procs, pid) ==
            if pid in s.procs && s.procs[pid].Proven? then AfterUpgrade(s.db, s.procs[pid], now, remember)
            else At(s.procs, pid)
  {
  }

  lemma UpgradeMoves(codes: Codes, s: System, pid: nat, now: Clock, remember: bool, p: Option<Process>, q: Process)
    ensures MovesExactly(codes, s, Upgrade(pid, now, remember), p,
                         if p.Some? && p.value.Proven? then AfterUpgrade(s.db, p.value, now, remember) else p, q)
  {
  }

  lemma UpgradeStage(codes: Codes, s: System, pid: nat, now: Clock, remember: bool, q: Process)
    ensures MovesExactly(codes, s, Upgrade(pid, now, remember), At(s.procs, pid),
                         At(DoUpgrade(s, pid, now, remember).procs, pid), q)
  {
    UpgradeLeads(s, pid, now, remember);
    UpgradeMoves(codes, s, pid, now, remember, At(s.procs, pid), q);
  }

  lemma RememberStage(codes: Codes, s: System, pid: nat, q: Process)
    ensures MovesExactly(codes, s, Remember(pid), At(s.procs, pid), At(DoRemember(s, pid).procs, pid), q)
  {
  }

  lemma EnterEnrolLeads(s: System, pid: nat)
    ensures At(DoEnterEnrol(s, pid).procs, pid) ==
            if pid in s.procs && s.procs[pid].Request? && s.lock == None &&
               (s.procs[pid].level == Full || (s.procs[pid].level == Enroll && !Enrolled(s.db, s.procs[pid].user)))
            then Some(Enrolling(s.procs[pid].user, s.procs[pid].sid, s.procs[pid].level))
            else At(s.procs, pid)
  {
  }

  lemma EnterEnrolMoves(codes: Codes, s: System, pid: nat, p: Option<Process>, q: Process)
    ensures MovesExactly(codes, s, EnterEnrol(pid), p,
                         if p.Some? && p.value.Request? && s.lock == None &&
                            (p.value.level == Full || (p.value.level == Enroll && !Enrolled(s.db, p.value.user)))
                         then Some(Enrolling(p.value.user, p.value.sid, p.value.level)) else p, q)
  {
    if p.Some? {
      ProtectedIs(s.db, p.value.user);
    }
  }

  lemma EnterEnrolStage(codes: Codes, s: System, pid: nat, q: Process)
    ensures MovesExactly(codes, s, EnterEnrol(pid), At(s.procs, pid), At(DoEnterEnrol(s, pid).procs, pid), q)
  {
    EnterEnrolLeads(s, pid);
    EnterEnrolMoves(codes, s, pid, At(s.procs, pid), q);
  }

  lemma BeginTotpStage(codes: Codes, s: System, pid: nat, secret: string, q: Process)
    ensures MovesExactly(codes, s, BeginTotp(pid, secret), At(s.procs, pid), At(DoBeginTotp(s, pid, secret).procs, pid), q)
  {
  }

  lemma PendingStage(codes: Codes, s: System, pid: nat, q: Process)
    ensures MovesExactly(codes, s, ReadPending(pid), At(s.procs, pid), At(DoReadPending(s, pid).procs, pid), q)
  {
  }

  /** A pending enrolment's code is checked without regard to used counters. */
  function AfterConfirmCode(codes: Codes, p: Process, code: string, now: nat): Option<Process>
    requires p.Confirming?
  {
    match Matched(codes, p.secret, code, 0, now)
    case Some(c) => Some(ConfirmMatched(p.user, p.sid, p.level, Acceptance(c, now, p.secret, code)))
    case None => None
  }

  lemma ConfirmCodeLeads(codes: Codes, s: System, pid: nat, code: string, now: nat)
    ensures At(DoConfirmCode(codes, s, pid, code, now).procs, pid) ==
            if pid in s.procs && s.procs[pid].Confirming? then AfterConfirmCode(codes, s.procs[pid], code, now)
            else At(s.procs, pid)
  {
  }

  lemma ConfirmCodeMoves(codes: Codes, s: System, pid: nat, code: string, now: nat, p: Process, q: Process)
    requires p.Confirming?
    ensures MovesExactly(codes, s, ConfirmCode(pid, code, now), Some(p), AfterConfirmCode(codes, p, code, now), q)
  {
    if q.ConfirmMatched? {
      AcceptsIs(codes, p.secret, code, 0, now, q.accepted.counter);
    }
  }

  lemma NotConfirming(codes: Codes, s: System, pid: nat, code: string, now: nat, p: Option<Process>, q: Process)
    requires p.None? || !p.value.Confirming?
    ensures MovesExactly(codes, s, ConfirmCode(pid, code, now), p, p, q)
  {
  }

  lemma ConfirmCodeStage(codes: Codes, s: System, pid: nat, code: string, now: nat, q: Process)
    ensures MovesExactly(codes, s, ConfirmCode(pid, code, now), At(s.procs, pid),
                         At(DoConfirmCode(codes, s, pid, code, now).procs, pid), q)
  {
    ConfirmCodeLeads(codes, s, pid, code, now);
    if pid in s.procs && s.procs[pid].Confirming? {
      ConfirmCodeMoves(codes, s, pid, code, now, s.procs[pid], q);
    } else {
      NotConfirming(codes, s, pid, code, now, At(s.procs, pid), q);
    }
  }

  /** What an enrolment leads to: a forced one still has to raise its session. */
  function AfterEnrolment(p: Process): Option<Process>
    requires p.Enrolling? || p.ConfirmMatched?
  {
    if p.level == Enroll then Some(Proven(p.user, p.sid, EnrolledFactor)) else None
  }

  lemma ConfirmLeads(s: System, pid: nat)
    ensures At(DoConfirm(s, pid).procs, pid) ==
            if pid in s.procs && s.procs[pid].ConfirmMatched? then
              if HasTotp(s.db, s.procs[pid].user, true) then AfterEnrolment(s.procs[pid]) else None
            else At(s.procs, pid)
  {
  }

  lemma ConfirmMoves(codes: Codes, s: System, pid: nat, p: Option<Process>, q: Process)
    ensures var p' := if p.Some? && p.value.ConfirmMatched? then
                        if HasTotp(s.db, p.value.user, true) then AfterEnrolment(p.value) else None
                      else p;
            MovesExactly(codes, s, Confirm(pid), p, p', q)
  {
  }

  lemma ConfirmStage(codes: Codes, s: System, pid: nat, q: Process)
    ensures MovesExactly(codes, s, Confirm(pid), At(s.procs, pid), At(DoConfirm(s, pid).procs, pid), q)
  {
    ConfirmLeads(s, pid);
    ConfirmMoves(codes, s, pid, At(s.procs, pid), q);
  }

  lemma RegisterLeads(s: System, pid: nat, credential: string)
    ensures At(DoRegister(s, pid, credential).procs, pid) ==
            if pid in s.procs && s.procs[pid].Enrolling? then
              if s.procs[pid].user in s.db.users && credential !in s.db.credentials then AfterEnrolment(s.procs[pid]) else None
            else At(s.procs, pid)
  {
  }

  lemma RegisterMoves(codes: Codes, s: System, pid: nat, credential: string, p: Option<Process>, q: Process)
    ensures var p' := if p.Some? && p.value.Enrolling? then
                        if p.value.user in s.db.users && credential !in s.db.credentials then AfterEnrolment(p.value) else None
                      else p;
            MovesExactly(codes, s, Register(pid, credential), p, p', q)
  {
  }

  lemma RegisterStage(codes: Codes, s: System, pid: nat, credential: string, q: Process)
    ensures MovesExactly(codes, s, Register(pid, credential), At(s.procs, pid), At(DoRegister(s, pid, credential).procs, pid), q)
  {
    RegisterLeads(s, pid, credential);
    RegisterMoves(codes, s, pid, credential, At(s.procs, pid), q);
  }

  lemma RemoveOwnStage(codes: Codes, s: System, pid: nat, credential: string, q: Process)
    ensures MovesExactly(codes, s, RemoveOwn(pid, credential), At(s.procs, pid), At(DoRemoveFactor(s, pid, credential).procs, pid), q)
  {
  }

  lemma ReadPasswordStage(codes: Codes, s: System, pid: nat, q: Process)
    ensures MovesExactly(codes, s, ReadPassword(pid), At(s.procs, pid), At(DoReadPassword(s, pid).procs, pid), q)
  {
  }

  lemma WritePasswordStage(codes: Codes, s: System, pid: nat, hash: string, q: Process)
    ensures MovesExactly(codes, s, WritePassword(pid, hash), At(s.procs, pid), At(DoWritePassword(s, pid, hash).procs, pid), q)
  {
  }

  lemma ReadReauthStage(codes: Codes, s: System, pid: nat, q: Process)
    ensures MovesExactly(codes, s, ReadReauth(pid), At(s.procs, pid), At(DoReadReauth(s, pid).procs, pid), q)
  {
  }

  lemma MarkStage(codes: Codes, s: System, pid: nat, now: int, q: Process)
    ensures MovesExactly(codes, s, Mark(pid, now), At(s.procs, pid), At(DoMark(s, pid, now).procs, pid), q)
  {
  }

  // ---- every step ----

  lemma AdministrationStages(codes: Codes, s: System, a: Action, k: nat)
    requires IsAdministration(a)
    ensures At(AdministrationStep(codes, s, a).procs, k) == At(s.procs, k)
  {
  }

  lemma LoginOthersStay(codes: Codes, s: System, a: Action, k: nat)
    requires IsLogin(a) && a.pid != k
    ensures At(LoginStep(codes, s, a).procs, k) == At(s.procs, k)
  {
  }

  lemma LoginStages(codes: Codes, s: System, a: Action, q: Process)
    requires IsLogin(a)
    ensures MovesExactly(codes, s, a, At(s.procs, a.pid), At(LoginStep(codes, s, a).procs, a.pid), q)
  {
    if a.Setup? {
      assert LoginStep(codes, s, a) == DoSetup(s, a.pid, a.name, a.hash);
      SetupStage(codes, s, a.pid, a.name, a.hash, q);
    } else if a.CheckPassword? {
      assert LoginStep(codes, s, a) == DoCheckPassword(s, a.pid, a.id);
      CheckStage(codes, s, a.pid, a.id, q);
    } else if a.BeginPasskey? {
      assert LoginStep(codes, s, a) == DoBeginPasskey(s, a.pid, a.id);
      PasskeyStage(codes, s, a.pid, a.id, q);
    } else if a.LoadUser? {
      assert LoginStep(codes, s, a) == DoLoad(s, a.pid);
      LoadStage(codes, s, a.pid, q);
    } else if a.Decide? {
      assert LoginStep(codes, s, a) == DoDecide(s, a.pid);
      DecideStage(codes, s, a.pid, q);
    }
  }

  lemma CommitOthersStay(codes: Codes, s: System, a: Action, k: nat)
    requires IsCommit(a) && a.pid != k
    ensures At(CommitStep(codes, s, a).procs, k) == At(s.procs, k)
  {
  }

  lemma CommitStages(codes: Codes, s: System, a: Action, q: Process)
    requires IsCommit(a)
    ensures MovesExactly(codes, s, a, At(s.procs, a.pid), At(CommitStep(codes, s, a).procs, a.pid), q)
  {
    if a.UseTrust? {
      assert CommitStep(codes, s, a) == DoUseTrust(s, a.pid, a.device);
      TrustStage(codes, s, a.pid, a.device, q);
    } else if a.AssertPasskey? {
      assert CommitStep(codes, s, a) == DoAssertPasskey(s, a.pid, a.credential);
      AssertStage(codes, s, a.pid, a.credential, q);
    } else if a.Insert? {
      assert CommitStep(codes, s, a) == DoInsert(s, a.pid, a.clock);
      InsertStage(codes, s, a.pid, a.clock, q);
    } else if a.Begin? {
      assert CommitStep(codes, s, a) == DoBegin(s, a.pid, a.sid, a.now);
      BeginStage(codes, s, a.pid, a.sid, a.now, q);
    } else if a.Admit? {
      assert CommitStep(codes, s, a) == DoAdmit(s, a.pid);
      AdmitStage(codes, s, a.pid, q);
    }
  }

  lemma UpgradeOthersStay(s: System, pid: nat, now: Clock, remember: bool, k: nat)
    requires pid != k
    ensures At(DoUpgrade(s, pid, now, remember).procs, k) == At(s.procs, k)
  {
  }

  lemma VerificationOthersStay(codes: Codes, s: System, a: Action, k: nat)
    requires IsVerification(a) && a.pid != k
    ensures At(VerificationStep(codes, s, a).procs, k) == At(s.procs, k)
  {
    if a.Upgrade? {
      assert VerificationStep(codes, s, a) == DoUpgrade(s, a.pid, a.clock, a.remember);
      UpgradeOthersStay(s, a.pid, a.clock, a.remember, k);
    }
  }

  lemma VerificationStages(codes: Codes, s: System, a: Action, q: Process)
    requires IsVerification(a)
    ensures MovesExactly(codes, s, a, At(s.procs, a.pid), At(VerificationStep(codes, s, a).procs, a.pid), q)
  {
    if a.EnterVerify? {
      assert VerificationStep(codes, s, a) == DoEnterVerify(s, a.pid);
      EnterVerifyStage(codes, s, a.pid, q);
    } else if a.VerifyCode? {
      assert VerificationStep(codes, s, a) == DoVerifyCode(codes, s, a.pid, a.code, a.at);
      VerifyStage(codes, s, a.pid, a.code, a.at, q);
    } else if a.Consume? {
      assert VerificationStep(codes, s, a) == DoConsume(s, a.pid);
      ConsumeStage(codes, s, a.pid, q);
    } else if a.EnterAssert? {
      assert VerificationStep(codes, s, a) == DoEnterAssert(s, a.pid, a.credential);
      EnterAssertStage(codes, s, a.pid, a.credential, q);
    } else if a.Upgrade? {
      assert VerificationStep(codes, s, a) == DoUpgrade(s, a.pid, a.clock, a.remember);
      UpgradeStage(codes, s, a.pid, a.clock, a.remember, q);
    } else if a.Remember? {
      assert VerificationStep(codes, s, a) == DoRemember(s, a.pid);
      RememberStage(codes, s, a.pid, q);
    }
  }

  lemma ConfirmOthersStay(s: System, pid: nat, k: nat)
    requires pid != k
    ensures At(DoConfirm(s, pid).procs, k) == At(s.procs, k)
  {
  }

  lemma RegisterOthersStay(s: System, pid: nat, credential: string, k: nat)
    requires pid != k
    ensures At(DoRegister(s, pid, credential).procs, k) == At(s.procs, k)
  {
  }

  lemma EnrolmentOthersStay(codes: Codes, s: System, a: Action, k: nat)
    requires IsEnrolment(a) && a.pid != k
    ensures At(EnrolmentStep(codes, s, a).procs, k) == At(s.procs, k)
  {
    match a
    case Confirm(pid) => ConfirmOthersStay(s, pid, k);
    case Register(pid, credential) => RegisterOthersStay(s, pid, credential, k);
    case _ =>
  }

  lemma EnrolmentStages(codes: Codes, s: System, a: Action, q: Process)
    requires IsEnrolment(a)
    ensures MovesExactly(codes, s, a, At(s.procs, a.pid), At(EnrolmentStep(codes, s, a).procs, a.pid), q)
  {
    if a.EnterEnrol? {
      assert EnrolmentStep(codes, s, a) == DoEnterEnrol(s, a.pid);
      EnterEnrolStage(codes, s, a.pid, q);
    } else if a.BeginTotp? {
      assert EnrolmentStep(codes, s, a) == DoBeginTotp(s, a.pid, a.secret);
      BeginTotpStage(codes, s, a.pid, a.secret, q);
    } else if a.ReadPending? {
      assert EnrolmentStep(codes, s, a) == DoReadPending(s, a.pid);
      PendingStage(codes, s, a.pid, q);
    } else if a.ConfirmCode? {
      assert EnrolmentStep(codes, s, a) == DoConfirmCode(codes, s, a.pid, a.code, a.at);
      ConfirmCodeStage(codes, s, a.pid, a.code, a.at, q);
    } else if a.Confirm? {
      assert EnrolmentStep(codes, s, a) == DoConfirm(s, a.pid);
      ConfirmStage(codes, s, a.pid, q);
    } else if a.Register? {
      assert EnrolmentStep(codes, s, a) == DoRegister(s, a.pid, a.credential);
      RegisterStage(codes, s, a.pid, a.credential, q);
    }
  }

  lemma AbortStage(codes: Codes, s: System, pid: nat, q: Process)
    ensures MovesExactly(codes, s, Abort(pid), At(s.procs, pid), None, q)
  {
  }

  lemma OwnOthersStay(codes: Codes, s: System, a: Action, k: nat)
    requires IsOwn(a) && a.pid != k
    ensures At(SessionStep(codes, s, a).procs, k) == At(s.procs, k)
  {
  }

  lemma OwnStages(codes: Codes, s: System, a: Action, q: Process)
    requires IsOwn(a)
    ensures MovesExactly(codes, s, a, At(s.procs, a.pid), At(SessionStep(codes, s, a).procs, a.pid), q)
  {
    if a.RemoveOwn? {
      assert SessionStep(codes, s, a) == DoRemoveFactor(s, a.pid, a.credential);
      RemoveOwnStage(codes, s, a.pid, a.credential, q);
    } else if a.ReadPassword? {
      assert SessionStep(codes, s, a) == DoReadPassword(s, a.pid);
      ReadPasswordStage(codes, s, a.pid, q);
    } else if a.WritePassword? {
      assert SessionStep(codes, s, a) == DoWritePassword(s, a.pid, a.hash);
      WritePasswordStage(codes, s, a.pid, a.hash, q);
    } else if a.ReadReauth? {
      assert SessionStep(codes, s, a) == DoReadReauth(s, a.pid);
      ReadReauthStage(codes, s, a.pid, q);
    } else if a.Mark? {
      assert SessionStep(codes, s, a) == DoMark(s, a.pid, a.now);
      MarkStage(codes, s, a.pid, a.now, q);
    } else if a.Abort? {
      assert a.pid !in SessionStep(codes, s, a).procs;
      AbortStage(codes, s, a.pid, q);
    }
  }

  lemma OthersStay(codes: Codes, s: System, a: Action, k: nat)
    requires Actor(a) != Some(k)
    ensures At(Step(codes, s, a).procs, k) == At(s.procs, k)
  {
    if IsAdministration(a) {
      AdministrationStages(codes, s, a, k);
    } else if IsLogin(a) {
      LoginOthersStay(codes, s, a, k);
    } else if IsCommit(a) {
      CommitOthersStay(codes, s, a, k);
    } else if IsVerification(a) {
      VerificationOthersStay(codes, s, a, k);
    } else if IsEnrolment(a) {
      EnrolmentOthersStay(codes, s, a, k);
    } else {
      OwnOthersStay(codes, s, a, k);
    }
  }

  lemma ActorMoves(codes: Codes, s: System, a: Action, q: Process)
    requires !IsAdministration(a)
    ensures MovesExactly(codes, s, a, At(s.procs, a.pid), At(Step(codes, s, a).procs, a.pid), q)
  {
    if IsLogin(a) {
      LoginStages(codes, s, a, q);
    } else if IsCommit(a) {
      CommitStages(codes, s, a, q);
    } else if IsVerification(a) {
      VerificationStages(codes, s, a, q);
    } else if IsEnrolment(a) {
      EnrolmentStages(codes, s, a, q);
    } else {
      OwnStages(codes, s, a, q);
    }
  }

  /** In every state and for every step: the requests that do not act stay where
      they are, and the one that acts is at a stage afterwards exactly when the step
      is the one way into it, or it was there and the step did not use it up. */
  lemma StagesExactly(codes: Codes, s: System, a: Action, k: nat, q: Process)
    ensures Moves(codes, s, Step(codes, s, a), a, k, q)
  {
    if Actor(a) == Some(k) {
      ActorMoves(codes, s, a, q);
    } else {
      OthersStay(codes, s, a, k);
    }
  }
}
