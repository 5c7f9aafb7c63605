/** What every step does to the account tables, row by row, and that it does
    nothing else: users, sessions, credentials, trusted devices and the policy. */
module AccountEffects {
  import opened Wrappers
  import NoCase
  import opened AccountStore
  import opened Totp
  import opened AccountSystem
  import opened AccountInvariants
  import opened AccountTheorems

  // ---- what goes through ----

  ghost predicate OtherAdmin(db: Db, id: int) {
    exists k :: k in db.users && k != id && db.users[k].role == "admin"
  }

  /** The last admin keeps the role. */
  ghost predicate MayTake(db: Db, id: int, role: string) {
    id in db.users && (db.users[id].role == role || db.users[id].role != "admin" || OtherAdmin(db, id))
  }

  ghost predicate Changes(db: Db, id: int, role: Option<string>, hash: Option<string>) {
    (role.Some? ==> MayTake(db, id, role.value)) && (hash.Some? ==> id in db.users)
  }

  ghost predicate Removes(db: Db, id: int) {
    id in db.users && (db.users[id].role != "admin" || OtherAdmin(db, id))
  }

  ghost predicate NameFree(db: Db, name: string) {
    forall k :: k in db.users ==> !NoCase.SameName(db.users[k].name, name)
  }

  /** The user has the role and no factor. */
  ghost predicate Owing(db: Db, roles: set<string>, id: int) {
    && id in db.users && db.users[id].role in roles && !db.users[id].confirmed
    && forall c :: c in db.credentials ==> db.credentials[c] != id
  }

  ghost predicate HasTotp(db: Db, id: int, pending: bool) {
    id in db.users && db.users[id].secret != "" && db.users[id].confirmed != pending
  }

  /** The user whom a step revokes, and the session that is spared. */
  ghost function RevokedBy(s: System, a: Action): Option<(int, Option<nat>)> {
    match a
    case ChangeUser(id, role, hash) => if hash.Some? && Changes(s.db, id, role, hash) then Some((id, None)) else None
    case ResetMfa(id) => if s.lock == None then Some((id, None)) else None
    case Confirm(pid) =>
      if pid in s.procs && s.procs[pid].ConfirmMatched? && HasTotp(s.db, s.procs[pid].user, true)
      then Some((s.procs[pid].user, Some(s.procs[pid].sid))) else None
    case Register(pid, credential) =>
      if pid in s.procs && s.procs[pid].Enrolling? && s.procs[pid].user in s.db.users && credential !in s.db.credentials
      then Some((s.procs[pid].user, Some(s.procs[pid].sid))) else None
    case RemoveOwn(pid, credential) =>
      if Requesting(s, pid, Full) && s.lock == None &&
         (if credential == "" then s.procs[pid].user in s.db.users
          else At(s.db.credentials, credential) == Some(s.procs[pid].user))
      then Some((s.procs[pid].user, Some(s.procs[pid].sid))) else None
    case WritePassword(pid, hash) =>
      if pid in s.procs && s.procs[pid].ChangingPassword? && s.procs[pid].user in s.db.users &&
         s.db.users[s.procs[pid].user].hash == s.procs[pid].hash
      then Some((s.procs[pid].user, Some(s.procs[pid].sid))) else None
    case _ => None
  }

  ghost predicate Revokes(s: System, a: Action, id: int) {
    RevokedBy(s, a).Some? && RevokedBy(s, a).value.0 == id
  }

  // ---- users ----

  /** The account a step creates. */
  ghost function Created(s: System, a: Action): Option<User> {
    match a
    case NewUser(name, hash, role) =>
      if NameFree(s.db, name) then Some(User(name, hash, role, 0, "", false, 0)) else None
    case Setup(pid, name, hash) =>
      if pid !in s.procs && NameFree(s.db, name) && forall k :: k in s.db.users ==> s.db.users[k].role != "admin"
      then Some(User(name, hash, "admin", 0, "", false, 0)) else None
    case _ => None
  }

  ghost function RoleAfter(s: System, a: Action, id: int): string
    requires id in s.db.users
  {
    if a.ChangeUser? && a.id == id && a.newRole.Some? && Changes(s.db, id, a.newRole, a.newHash) then a.newRole.value
    else s.db.users[id].role
  }

  ghost function HashAfter(s: System, a: Action, id: int): string
    requires id in s.db.users
  {
    if a.ChangeUser? && Revokes(s, a, id) then a.newHash.value
    else if a.WritePassword? && Revokes(s, a, id) then a.hash
    else s.db.users[id].hash
  }

  ghost function VersionAfter(s: System, a: Action, id: int): nat
    requires id in s.db.users
  {
    s.db.users[id].version + if Revokes(s, a, id) || (a.Policy? && Owing(s.db, a.roles, id)) then 1 else 0
  }

  /** The TOTP secret, whether it is confirmed, and the last counter used. */
  ghost function TotpAfter(s: System, a: Action, id: int): (string, bool, int)
    requires id in s.db.users
  {
    var u := s.db.users[id];
    match a
    case ResetMfa(_) => if Revokes(s, a, id) then ("", false, 0) else (u.secret, u.confirmed, u.lastUsed)
    case RemoveOwn(_, credential) =>
      if Revokes(s, a, id) && credential == "" then ("", false, 0) else (u.secret, u.confirmed, u.lastUsed)
    case BeginTotp(pid, secret) =>
      if pid in s.procs && s.procs[pid].Enrolling? && s.procs[pid].user == id && secret != ""
      then (secret, false, 0) else (u.secret, u.confirmed, u.lastUsed)
    case Confirm(pid) =>
      if Revokes(s, a, id) then (u.secret, true, s.procs[pid].accepted.counter) else (u.secret, u.confirmed, u.lastUsed)
    case Consume(pid) =>
      if pid in s.procs && s.procs[pid].VerifyMatched? && s.procs[pid].user == id && u.lastUsed < s.procs[pid].accepted.counter
      then (u.secret, u.confirmed, s.procs[pid].accepted.counter) else (u.secret, u.confirmed, u.lastUsed)
    case _ => (u.secret, u.confirmed, u.lastUsed)
  }

  ghost function RowAfter(s: System, a: Action, id: int): Option<User> {
    if id in s.db.users then
      if a == RemoveUser(id) && Removes(s.db, id) then None
      else
        var totp := TotpAfter(s, a, id);
        Some(User(s.db.users[id].name, HashAfter(s, a, id), RoleAfter(s, a, id), VersionAfter(s, a, id),
                  totp.0, totp.1, totp.2))
    else if id == s.db.nextUser then Created(s, a) else None
  }

  // ---- sessions ----

  /** A login commits while the version it read is the user's. */
  ghost predicate Commits(s: System, pid: nat) {
    pid in s.procs && s.procs[pid].Decided? && s.procs[pid].user in s.db.users &&
    s.db.users[s.procs[pid].user].version == s.procs[pid].version
  }

  /** A session is raised while it is stored and has not expired. */
  ghost predicate Raises(s: System, pid: nat, time: int) {
    pid in s.procs && s.procs[pid].Proven? && s.procs[pid].sid in s.db.sessions &&
    time < s.db.sessions[s.procs[pid].sid].expires
  }

  /** A re-authentication is recorded on the user's own session while the version
      it read is the user's. */
  ghost predicate Marks(s: System, pid: nat) {
    pid in s.procs && s.procs[pid].Reauthing? && s.procs[pid].user in s.db.users &&
    s.db.users[s.procs[pid].user].version == s.procs[pid].version &&
    s.procs[pid].sid in s.db.sessions && s.db.sessions[s.procs[pid].sid].user == s.procs[pid].user
  }

  /** The step ends a session that is stored. */
  ghost predicate Ends(s: System, a: Action, sid: nat)
    requires sid in s.db.sessions
  {
    var owner := s.db.sessions[sid].user;
    || (Revokes(s, a, owner) && RevokedBy(s, a).value.1 != Some(sid))
    || (a == RemoveUser(owner) && Removes(s.db, owner))
    || (a.Policy? && Owing(s.db, a.roles, owner))
    || a == Drop(sid)
    || (a.Upgrade? && Raises(s, a.pid, a.clock.time) && s.procs[a.pid].sid == sid)
  }

  ghost function SessionAfter(s: System, a: Action, sid: nat): Option<Session> {
    if sid in s.db.sessions then
      if Ends(s, a, sid) then None
      else if a.Mark? && Marks(s, a.pid) && s.procs[a.pid].sid == sid then
        Some(Session(s.db.sessions[sid].user, s.db.sessions[sid].level, a.now, s.db.sessions[sid].expires))
      else Some(s.db.sessions[sid])
    else if sid == s.db.nextSid && a.Insert? && Commits(s, a.pid) then
      Some(Session(s.procs[a.pid].user, s.procs[a.pid].level, a.clock.time, a.clock.until))
    else if sid == s.db.nextSid && a.Upgrade? && Raises(s, a.pid, a.clock.time) then
      Some(Session(s.db.sessions[s.procs[a.pid].sid].user, Full, a.clock.time, a.clock.until))
    else None
  }

  // ---- credentials and trusted devices ----

  ghost function KeyAfter(s: System, a: Action, c: string): Option<int> {
    if c in s.db.credentials then
      var owner := s.db.credentials[c];
      if (a == ResetMfa(owner) && s.lock == None) || (a == RemoveUser(owner) && Removes(s.db, owner)) ||
         (a.RemoveOwn? && a.credential == c != "" && Revokes(s, a, owner))
      then None else Some(owner)
    else if a.Register? && a.credential == c && RevokedBy(s, a).Some? then Some(s.procs[a.pid].user)
    else None
  }

  ghost function DeviceAfter(s: System, a: Action, t: nat): Option<int> {
    if t in s.db.trusted then
      var owner := s.db.trusted[t];
      if Revokes(s, a, owner) || (a == RemoveUser(owner) && Removes(s.db, owner)) ||
         (a.Policy? && Owing(s.db, a.roles, owner))
      then None else Some(owner)
    else if t == s.db.nextSid && a.Remember? && a.pid in s.procs && s.procs[a.pid].Remembering? &&
            s.procs[a.pid].user in s.db.users
    then Some(s.procs[a.pid].user)
    else None
  }

  ghost predicate Rows(s: System, a: Action, b: Db) {
    forall id :: At(b.users, id) == RowAfter(s, a, id)
  }

  ghost predicate Sessions(s: System, a: Action, b: Db) {
    forall sid :: At(b.sessions, sid) == SessionAfter(s, a, sid)
  }

  ghost predicate Keys(s: System, a: Action, b: Db) {
    forall c :: At(b.credentials, c) == KeyAfter(s, a, c)
  }

  ghost predicate Devices(s: System, a: Action, b: Db) {
    forall t :: At(b.trusted, t) == DeviceAfter(s, a, t)
  }

  /** Identifiers are given out in order. */
  ghost predicate Counters(s: System, a: Action, b: Db) {
    && b.nextUser == s.db.nextUser + (if Created(s, a).Some? then 1 else 0)
    && b.nextSid == s.db.nextSid +
       if (a.Insert? && Commits(s, a.pid)) || (a.Upgrade? && Raises(s, a.pid, a.clock.time)) ||
          (a.Remember? && a.pid in s.procs && s.procs[a.pid].Remembering? && s.procs[a.pid].user in s.db.users)
       then 1 else 0
  }

  ghost predicate Effect(s: System, a: Action, b: Db) {
    && Rows(s, a, b) && Sessions(s, a, b) && Keys(s, a, b) && Devices(s, a, b)
    && b.required == (if a.Policy? then Some(a.roles) else s.db.required) && Counters(s, a, b)
  }

  // ---- steps that leave the tables alone, and the tables after the others ----

  lemma LocalLogin(codes: Codes, s: System, a: Action)
    requires !a.Setup?
    ensures LoginStep(codes, s, a).db == s.db && LoginStep(codes, s, a).trails == s.trails
  {
  }

  lemma LocalCommit(codes: Codes, s: System, a: Action)
    requires !a.Insert?
    ensures CommitStep(codes, s, a).db == s.db
  {
  }

  lemma LocalChecks(codes: Codes, s: System, a: Action)
    requires a.EnterVerify? || a.VerifyCode? || a.EnterAssert?
    ensures VerificationStep(codes, s, a).db == s.db
  {
  }

  lemma LocalEnrolment(codes: Codes, s: System, a: Action)
    requires a.EnterEnrol? || a.ReadPending? || a.ConfirmCode?
    ensures EnrolmentStep(codes, s, a).db == s.db
  {
  }

  lemma ConfirmDb(s: System, pid: nat)
    ensures DoConfirm(s, pid).db ==
            if pid in s.procs && s.procs[pid].ConfirmMatched? then
              var p := s.procs[pid];
              var r := ConfirmTotp(s.db, p.user, p.accepted.counter, Some(p.sid));
              if r.Some? then r.value else s.db
            else s.db
  {
  }

  lemma RegisterDb(s: System, pid: nat, credential: string)
    ensures DoRegister(s, pid, credential).db ==
            if pid in s.procs && s.procs[pid].Enrolling? then
              var r := AddCredential(s.db, s.procs[pid].user, credential, Some(s.procs[pid].sid));
              if r.Some? then r.value else s.db
            else s.db
  {
  }

  lemma BeginTotpDb(s: System, pid: nat, secret: string)
    ensures DoBeginTotp(s, pid, secret).db ==
            if pid in s.procs && s.procs[pid].Enrolling? && secret != "" then
              var r := SetPendingTotp(s.db, s.procs[pid].user, secret);
              if r.Some? then r.value else s.db
            else s.db
  {
  }

  // ---- administration ----

  /** Among several there is one that is not `id`. */
  lemma Another(admins: set<int>, id: int) returns (k: int)
    requires |admins| > 1
    ensures k in admins && k != id
  {
    if forall x :: x in admins ==> x == id {
      SmallSet(admins, id);
    }
    var x :| x in admins && x != id;
    k := x;
  }

  lemma SmallSet(a: set<int>, id: int)
    requires a <= {id}
    ensures |a| <= 1
  {
    if id in a {
      assert a == {id};
    } else {
      assert a == {};
    }
  }

  lemma AdminCount(db: Db, id: int)
    requires id in db.users && db.users[id].role == "admin"
    ensures |Admins(db.users)| > 1 <==> OtherAdmin(db, id)
  {
    if |Admins(db.users)| > 1 {
      var k := Another(Admins(db.users), id);
    }
    if OtherAdmin(db, id) {
      var k :| k in db.users && k != id && db.users[k].role == "admin";
      assert {id, k} <= Admins(db.users);
      assert |Admins(db.users)| >= |{id, k}| by {
        assert Admins(db.users) == {id, k} + (Admins(db.users) - {id, k});
      }
    }
  }

  lemma MayTakeExactly(db: Db, id: int, role: string)
    ensures MayChangeRole(db, id, role) <==> MayTake(db, id, role)
  {
    if id in db.users && db.users[id].role == "admin" {
      AdminCount(db, id);
    }
  }

  lemma CreationEffect(s: System, a: Action, name: string, hash: string, role: string)
    requires DbInv(s.db) && (a.NewUser? || a.Setup?)
    requires Created(s, a) == Some(User(name, hash, role, 0, "", false, 0))
    ensures Effect(s, a, WithUser(s.db, name, hash, role))
  {
  }

  lemma NothingCreated(s: System, a: Action)
    requires (a.NewUser? || a.Setup?) && Created(s, a) == None
    ensures Effect(s, a, s.db)
  {
  }

  lemma NewUserEffect(s: System, name: string, hash: string, role: string)
    requires DbInv(s.db)
    ensures Effect(s, NewUser(name, hash, role), DoCreateUser(s, name, hash, role).db)
  {
    if NameFree(s.db, name) {
      CreationEffect(s, NewUser(name, hash, role), name, hash, role);
    } else {
      NothingCreated(s, NewUser(name, hash, role));
    }
  }

  lemma SetupEffect(s: System, pid: nat, name: string, hash: string)
    requires DbInv(s.db)
    ensures Effect(s, Setup(pid, name, hash), DoSetup(s, pid, name, hash).db)
  {
    if Created(s, Setup(pid, name, hash)).Some? {
      CreationEffect(s, Setup(pid, name, hash), name, hash, "admin");
    } else {
      NothingCreated(s, Setup(pid, name, hash));
    }
  }

  // ---- revoking steps ----

  lemma RevokedSessions(s: System, a: Action, b: Db, id: int, keep: Option<nat>)
    requires RevokedBy(s, a) == Some((id, keep)) && b.sessions == s.db.sessions
    ensures Sessions(s, a, FactorChange(b, id, keep))
  {
    WithoutMeaning(s.db.sessions, id, keep);
  }

  lemma RevokedDevices(s: System, a: Action, b: Db, id: int, keep: Option<nat>)
    requires RevokedBy(s, a) == Some((id, keep)) && b.trusted == s.db.trusted
    ensures Devices(s, a, FactorChange(b, id, keep))
  {
  }

  /** Revoking bumps the version; the rest of the row is as the step has set it. */
  lemma RevokedRows(s: System, a: Action, b: Db, id: int, keep: Option<nat>)
    requires DbInv(s.db) && RevokedBy(s, a) == Some((id, keep)) && b.users.Keys == s.db.users.Keys
    requires forall k :: k in s.db.users && k != id ==> b.users[k] == s.db.users[k]
    requires id in s.db.users ==> RowAfter(s, a, id) == Some(b.users[id].(version := b.users[id].version + 1))
    ensures Rows(s, a, FactorChange(b, id, keep))
  {
    forall k
      ensures At(FactorChange(b, id, keep).users, k) == RowAfter(s, a, k)
    {
      if k in s.db.users && k != id {
        RowUntouched(s, a, k);
      } else if k !in s.db.users {
        assert k !in b.users.Keys && RowAfter(s, a, k) == None;
      }
    }
  }

  lemma RowUntouched(s: System, a: Action, k: int)
    requires RevokedBy(s, a).Some? && RevokedBy(s, a).value.0 != k && k in s.db.users
    ensures RowAfter(s, a, k) == Some(s.db.users[k])
  {
  }

  lemma RevocationEffect(s: System, a: Action, b: Db, id: int, keep: Option<nat>)
    requires DbInv(s.db) && RevokedBy(s, a) == Some((id, keep)) && b.users.Keys == s.db.users.Keys
    requires forall k :: k in s.db.users && k != id ==> b.users[k] == s.db.users[k]
    requires id in s.db.users ==> RowAfter(s, a, id) == Some(b.users[id].(version := b.users[id].version + 1))
    requires b.sessions == s.db.sessions && b.trusted == s.db.trusted && b.required == s.db.required
    requires b.nextUser == s.db.nextUser && b.nextSid == s.db.nextSid
    requires Keys(s, a, b)
    ensures Effect(s, a, FactorChange(b, id, keep))
  {
    RevokedSessions(s, a, b, id, keep);
    RevokedDevices(s, a, b, id, keep);
    RevokedRows(s, a, b, id, keep);
  }

  /** A step that does nothing to the tables. */
  ghost predicate Idle(s: System, a: Action) {
    && RevokedBy(s, a) == None && Created(s, a) == None
    && (a.ChangeUser? ==> !Changes(s.db, a.id, a.newRole, a.newHash))
    && !a.RemoveUser? && !a.Policy? && !a.Drop? && !a.BeginTotp? && !a.Consume?
    && !a.Insert? && !a.Upgrade? && !a.Mark? && !a.Remember?
  }

  lemma IdleRows(s: System, a: Action)
    requires Idle(s, a)
    ensures Rows(s, a, s.db)
  {
  }

  lemma IdleSessions(s: System, a: Action)
    requires Idle(s, a)
    ensures Sessions(s, a, s.db)
  {
  }

  lemma IdleKeys(s: System, a: Action)
    requires Idle(s, a)
    ensures Keys(s, a, s.db) && Devices(s, a, s.db)
  {
  }

  lemma IdleEffect(s: System, a: Action)
    requires Idle(s, a)
    ensures Effect(s, a, s.db)
  {
    IdleRows(s, a);
    IdleSessions(s, a);
    IdleKeys(s, a);
  }

  lemma RoleEffect(s: System, id: int, role: Option<string>)
    requires DbInv(s.db)
    ensures Effect(s, ChangeUser(id, role, None), DoChangeAccount(s, id, role, None).db)
  {
    if role.Some? {
      MayTakeExactly(s.db, id, role.value);
    }
  }

  lemma RoleAndHashEffect(s: System, id: int, role: Option<string>, hash: string)
    requires DbInv(s.db) && Changes(s.db, id, role, Some(hash))
    ensures Effect(s, ChangeUser(id, role, Some(hash)), DoChangeAccount(s, id, role, Some(hash)).db)
  {
    if role.Some? {
      MayTakeExactly(s.db, id, role.value);
    }
    var db1 := if role.Some? then WithRole(s.db, id, role.value) else s.db;
    var b := db1.(users := db1.users[id := db1.users[id].(hash := hash)]);
    assert DoChangeAccount(s, id, role, Some(hash)).db == FactorChange(b, id, None);
    RevocationEffect(s, ChangeUser(id, role, Some(hash)), b, id, None);
  }

  lemma ChangeEffect(s: System, id: int, role: Option<string>, hash: Option<string>)
    requires DbInv(s.db)
    ensures Effect(s, ChangeUser(id, role, hash), DoChangeAccount(s, id, role, hash).db)
  {
    if hash.None? {
      RoleEffect(s, id, role);
    } else if Changes(s.db, id, role, hash) {
      RoleAndHashEffect(s, id, role, hash.value);
    } else {
      if role.Some? {
        MayTakeExactly(s.db, id, role.value);
      }
      assert DoChangeAccount(s, id, role, hash).db == s.db;
      IdleEffect(s, ChangeUser(id, role, hash));
    }
  }

  lemma DeletedRows(s: System, id: int)
    requires DbInv(s.db) && Removes(s.db, id)
    ensures var b := s.db.(users := s.db.users - {id}, sessions := Without(s.db.sessions, id, None),
                           credentials := KeysOfOthers(s.db.credentials, id), trusted := Untrusted(s.db.trusted, id));
            Rows(s, RemoveUser(id), b) && Sessions(s, RemoveUser(id), b)
  {
    WithoutMeaning(s.db.sessions, id, None);
  }

  lemma DeletedKeys(s: System, id: int)
    requires DbInv(s.db) && Removes(s.db, id)
    ensures var b := s.db.(users := s.db.users - {id}, sessions := Without(s.db.sessions, id, None),
                           credentials := KeysOfOthers(s.db.credentials, id), trusted := Untrusted(s.db.trusted, id));
            Keys(s, RemoveUser(id), b) && Devices(s, RemoveUser(id), b)
  {
  }

  lemma NothingRemoved(s: System, id: int)
    requires DbInv(s.db) && !Removes(s.db, id)
    ensures Effect(s, RemoveUser(id), s.db)
  {
  }

  lemma RemovalEffect(s: System, id: int)
    requires DbInv(s.db)
    ensures Effect(s, RemoveUser(id), DoDeleteUser(s, id).db)
  {
    if id in s.db.users && s.db.users[id].role == "admin" {
      AdminCount(s.db, id);
    }
    if Removes(s.db, id) {
      DeletedRows(s, id);
      DeletedKeys(s, id);
    } else {
      NothingRemoved(s, id);
    }
  }

  lemma PolicyEffect(s: System, roles: set<string>)
    requires DbInv(s.db)
    ensures Effect(s, Policy(roles), DoPolicy(s, roles).db)
  {
    assert forall id :: Owes(s.db, roles, id) <==> Owing(s.db, roles, id);
  }

  lemma ResetEffect(s: System, id: int)
    requires DbInv(s.db)
    ensures Effect(s, ResetMfa(id), DoResetMfa(s, id).db)
  {
    if s.lock == None {
      var users := if id in s.db.users then s.db.users[id := ClearTotp(s.db.users[id])] else s.db.users;
      var b := s.db.(users := users, credentials := KeysOfOthers(s.db.credentials, id));
      assert DoResetMfa(s, id).db == FactorChange(b, id, None);
      RevocationEffect(s, ResetMfa(id), b, id, None);
    } else {
      IdleEffect(s, ResetMfa(id));
    }
  }

  lemma DroppedSessions(s: System, sid: nat)
    ensures Sessions(s, Drop(sid), DoDrop(s, sid).db)
  {
  }

  lemma DroppedOthers(s: System, sid: nat, b: Db)
    requires b.users == s.db.users && b.credentials == s.db.credentials && b.trusted == s.db.trusted
    requires b.required == s.db.required && b.nextUser == s.db.nextUser && b.nextSid == s.db.nextSid
    requires Sessions(s, Drop(sid), b)
    ensures Effect(s, Drop(sid), b)
  {
  }

  lemma DropEffect(s: System, sid: nat)
    requires DbInv(s.db)
    ensures Effect(s, Drop(sid), DoDrop(s, sid).db)
  {
    DroppedSessions(s, sid);
    DroppedOthers(s, sid, DoDrop(s, sid).db);
  }

  // ---- requests ----

  lemma SessionEffect(s: System, a: Action, b: Db)
    requires a.Insert? || a.Upgrade? || a.Mark?
    requires b.users == s.db.users && b.credentials == s.db.credentials && b.trusted == s.db.trusted
    requires b.required == s.db.required && Sessions(s, a, b) && Counters(s, a, b)
    ensures Effect(s, a, b)
  {
  }

  lemma InsertSessions(s: System, pid: nat, now: Clock)
    requires DbInv(s.db)
    ensures var b := DoInsert(s, pid, now).db;
            Sessions(s, Insert(pid, now), b) && b.users == s.db.users && b.credentials == s.db.credentials &&
            b.trusted == s.db.trusted && b.required == s.db.required && Counters(s, Insert(pid, now), b)
  {
    if Commits(s, pid) {
      var p := s.procs[pid];
      assert DoInsert(s, pid, now).db.sessions == s.db.sessions[s.db.nextSid := Session(p.user, p.level, now.time, now.until)];
    } else {
      assert DoInsert(s, pid, now).db == s.db;
    }
  }

  lemma InsertEffect(s: System, pid: nat, now: Clock)
    requires DbInv(s.db)
    ensures Effect(s, Insert(pid, now), DoInsert(s, pid, now).db)
  {
    InsertSessions(s, pid, now);
    SessionEffect(s, Insert(pid, now), DoInsert(s, pid, now).db);
  }

  lemma UpgradeDb(s: System, pid: nat, now: Clock, remember: bool)
    ensures DoUpgrade(s, pid, now, remember).db ==
            if pid in s.procs && s.procs[pid].Proven? then
              var r := UpgradeSession(s.db, s.procs[pid].sid, now);
              if r.Some? then r.value else s.db
            else s.db
  {
  }

  lemma UpgradeSessions(s: System, pid: nat, now: Clock, remember: bool)
    requires DbInv(s.db)
    ensures var b := DoUpgrade(s, pid, now, remember).db;
            Sessions(s, Upgrade(pid, now, remember), b) && b.users == s.db.users && b.credentials == s.db.credentials &&
            b.trusted == s.db.trusted && b.required == s.db.required && Counters(s, Upgrade(pid, now, remember), b)
  {
    UpgradeDb(s, pid, now, remember);
    var b := DoUpgrade(s, pid, now, remember).db;
    if Raises(s, pid, now.time) {
      var sid := s.procs[pid].sid;
      forall k
        ensures At(b.sessions, k) == if k == s.db.nextSid then Some(Session(s.db.sessions[sid].user, Full, now.time, now.until))
                                     else if k == sid then None else At(s.db.sessions, k)
      {
      }
    } else {
      assert b == s.db;
    }
  }

  lemma UpgradeEffect(s: System, pid: nat, now: Clock, remember: bool)
    requires DbInv(s.db)
    ensures Effect(s, Upgrade(pid, now, remember), DoUpgrade(s, pid, now, remember).db)
  {
    UpgradeSessions(s, pid, now, remember);
    SessionEffect(s, Upgrade(pid, now, remember), DoUpgrade(s, pid, now, remember).db);
  }

  lemma MarkDb(s: System, pid: nat, now: int)
    ensures DoMark(s, pid, now).db ==
            if pid in s.procs && s.procs[pid].Reauthing? then
              var p := s.procs[pid];
              var r := MarkReauthenticated(s.db, p.sid, p.user, p.version, now);
              if r.Some? then r.value else s.db
            else s.db
  {
  }

  lemma MarkEffect(s: System, pid: nat, now: int)
    requires DbInv(s.db)
    ensures Effect(s, Mark(pid, now), DoMark(s, pid, now).db)
  {
    MarkDb(s, pid, now);
    SessionEffect(s, Mark(pid, now), DoMark(s, pid, now).db);
  }

  lemma RememberDb(s: System, pid: nat)
    ensures DoRemember(s, pid).db ==
            if pid in s.procs && s.procs[pid].Remembering? then
              var r := AddTrustedDevice(s.db, s.procs[pid].user);
              if r.Some? then r.value else s.db
            else s.db
  {
  }

  lemma RememberEffect(s: System, pid: nat)
    requires DbInv(s.db)
    ensures Effect(s, Remember(pid), DoRemember(s, pid).db)
  {
    RememberDb(s, pid);
  }

  lemma ConsumeDb(s: System, pid: nat)
    ensures DoConsume(s, pid).db ==
            if pid in s.procs && s.procs[pid].VerifyMatched? then
              var r := SetLastUsed(s.db, s.procs[pid].user, s.procs[pid].accepted.counter);
              if r.Some? then r.value else s.db
            else s.db
  {
  }

  /** A step that only touches a TOTP enrolment without revoking. */
  lemma TotpEffect(s: System, a: Action, b: Db)
    requires (a.Consume? || a.BeginTotp?) && Rows(s, a, b)
    requires b.sessions == s.db.sessions && b.credentials == s.db.credentials && b.trusted == s.db.trusted
    requires b.required == s.db.required && b.nextUser == s.db.nextUser && b.nextSid == s.db.nextSid
    ensures Effect(s, a, b)
  {
  }

  lemma ConsumeEffect(s: System, pid: nat)
    requires DbInv(s.db)
    ensures Effect(s, Consume(pid), DoConsume(s, pid).db)
  {
    ConsumeDb(s, pid);
    TotpEffect(s, Consume(pid), DoConsume(s, pid).db);
  }

  lemma BeginTotpEffect(s: System, pid: nat, secret: string)
    requires DbInv(s.db)
    ensures Effect(s, BeginTotp(pid, secret), DoBeginTotp(s, pid, secret).db)
  {
    BeginTotpDb(s, pid, secret);
    TotpEffect(s, BeginTotp(pid, secret), DoBeginTotp(s, pid, secret).db);
  }

  lemma ConfirmRevokes(s: System, pid: nat)
    requires DbInv(s.db) && RevokedBy(s, Confirm(pid)).Some?
    ensures var p := s.procs[pid];
            var u := s.db.users[p.user].(confirmed := true, lastUsed := p.accepted.counter);
            Effect(s, Confirm(pid), FactorChange(s.db.(users := s.db.users[p.user := u]), p.user, Some(p.sid)))
  {
    var p := s.procs[pid];
    var u := s.db.users[p.user].(confirmed := true, lastUsed := p.accepted.counter);
    RevocationEffect(s, Confirm(pid), s.db.(users := s.db.users[p.user := u]), p.user, Some(p.sid));
  }

  lemma ConfirmEffect(s: System, pid: nat)
    requires DbInv(s.db)
    ensures Effect(s, Confirm(pid), DoConfirm(s, pid).db)
  {
    ConfirmDb(s, pid);
    if RevokedBy(s, Confirm(pid)).Some? {
      ConfirmRevokes(s, pid);
    } else {
      IdleEffect(s, Confirm(pid));
    }
  }

  lemma RegisterRevokes(s: System, pid: nat, credential: string)
    requires DbInv(s.db) && RevokedBy(s, Register(pid, credential)).Some?
    ensures var p := s.procs[pid];
            Effect(s, Register(pid, credential),
                   FactorChange(s.db.(credentials := s.db.credentials[credential := p.user]), p.user, Some(p.sid)))
  {
    var p := s.procs[pid];
    RevocationEffect(s, Register(pid, credential), s.db.(credentials := s.db.credentials[credential := p.user]),
                     p.user, Some(p.sid));
  }

  lemma RegisterEffect(s: System, pid: nat, credential: string)
    requires DbInv(s.db)
    ensures Effect(s, Register(pid, credential), DoRegister(s, pid, credential).db)
  {
    RegisterDb(s, pid, credential);
    if RevokedBy(s, Register(pid, credential)).Some? {
      RegisterRevokes(s, pid, credential);
    } else {
      IdleEffect(s, Register(pid, credential));
    }
  }

  lemma FactorRemovalRevokes(s: System, pid: nat, credential: string)
    requires DbInv(s.db) && RevokedBy(s, RemoveOwn(pid, credential)).Some?
    ensures var p := s.procs[pid];
            var b := if credential == "" then s.db.(users := s.db.users[p.user := ClearTotp(s.db.users[p.user])])
                     else s.db.(credentials := s.db.credentials - {credential});
            Effect(s, RemoveOwn(pid, credential), FactorChange(b, p.user, Some(p.sid)))
  {
    var p := s.procs[pid];
    var b := if credential == "" then s.db.(users := s.db.users[p.user := ClearTotp(s.db.users[p.user])])
             else s.db.(credentials := s.db.credentials - {credential});
    RevocationEffect(s, RemoveOwn(pid, credential), b, p.user, Some(p.sid));
  }

  lemma FactorRemovalEffect(s: System, pid: nat, credential: string)
    requires DbInv(s.db)
    ensures Effect(s, RemoveOwn(pid, credential), DoRemoveFactor(s, pid, credential).db)
  {
    if RevokedBy(s, RemoveOwn(pid, credential)).Some? {
      FactorRemovalRevokes(s, pid, credential);
    } else {
      assert DoRemoveFactor(s, pid, credential).db == s.db;
      IdleEffect(s, RemoveOwn(pid, credential));
    }
  }

  lemma PasswordEffect(s: System, pid: nat, hash: string)
    requires DbInv(s.db)
    ensures Effect(s, WritePassword(pid, hash), DoWritePassword(s, pid, hash).db)
  {
    if RevokedBy(s, WritePassword(pid, hash)).Some? {
      var p := s.procs[pid];
      var b := s.db.(users := s.db.users[p.user := s.db.users[p.user].(hash := hash)]);
      assert DoWritePassword(s, pid, hash).db == FactorChange(b, p.user, Some(p.sid));
      RevocationEffect(s, WritePassword(pid, hash), b, p.user, Some(p.sid));
    } else {
      assert DoWritePassword(s, pid, hash).db == s.db;
      IdleEffect(s, WritePassword(pid, hash));
    }
  }

  // ---- every step ----

  lemma AdministrationEffect(codes: Codes, s: System, a: Action)
    requires DbInv(s.db) && IsAdministration(a)
    ensures Effect(s, a, AdministrationStep(codes, s, a).db)
  {
    match a
    case NewUser(name, hash, role) => NewUserEffect(s, name, hash, role);
    case ChangeUser(id, role, hash) => ChangeEffect(s, id, role, hash);
    case RemoveUser(id) => RemovalEffect(s, id);
    case Policy(roles) => PolicyEffect(s, roles);
    case ResetMfa(id) => ResetEffect(s, id);
    case Drop(sid) => DropEffect(s, sid);
    case _ =>
  }

  lemma LoginEffect(codes: Codes, s: System, a: Action)
    requires DbInv(s.db) && IsLogin(a)
    ensures Effect(s, a, LoginStep(codes, s, a).db)
  {
    if a.Setup? {
      SetupEffect(s, a.pid, a.name, a.hash);
    } else {
      LocalLogin(codes, s, a);
      IdleEffect(s, a);
    }
  }

  lemma CommitEffect(codes: Codes, s: System, a: Action)
    requires DbInv(s.db) && IsCommit(a)
    ensures Effect(s, a, CommitStep(codes, s, a).db)
  {
    if a.Insert? {
      InsertEffect(s, a.pid, a.clock);
    } else {
      LocalCommit(codes, s, a);
      IdleEffect(s, a);
    }
  }

  lemma VerificationEffect(codes: Codes, s: System, a: Action)
    requires DbInv(s.db) && IsVerification(a)
    ensures Effect(s, a, VerificationStep(codes, s, a).db)
  {
    if a.Consume? {
      assert VerificationStep(codes, s, a) == DoConsume(s, a.pid);
      ConsumeEffect(s, a.pid);
    } else if a.Upgrade? {
      assert VerificationStep(codes, s, a) == DoUpgrade(s, a.pid, a.clock, a.remember);
      UpgradeEffect(s, a.pid, a.clock, a.remember);
    } else if a.Remember? {
      assert VerificationStep(codes, s, a) == DoRemember(s, a.pid);
      RememberEffect(s, a.pid);
    } else {
      LocalChecks(codes, s, a);
      IdleEffect(s, a);
    }
  }

  lemma EnrolmentEffect(codes: Codes, s: System, a: Action)
    requires DbInv(s.db) && IsEnrolment(a)
    ensures Effect(s, a, EnrolmentStep(codes, s, a).db)
  {
    if a.BeginTotp? {
      assert EnrolmentStep(codes, s, a) == DoBeginTotp(s, a.pid, a.secret);
      BeginTotpEffect(s, a.pid, a.secret);
    } else if a.Confirm? {
      assert EnrolmentStep(codes, s, a) == DoConfirm(s, a.pid);
      ConfirmEffect(s, a.pid);
    } else if a.Register? {
      assert EnrolmentStep(codes, s, a) == DoRegister(s, a.pid, a.credential);
      RegisterEffect(s, a.pid, a.credential);
    } else {
      LocalEnrolment(codes, s, a);
      IdleEffect(s, a);
    }
  }

  ghost predicate IsOwn(a: Action) {
    a.RemoveOwn? || a.ReadPassword? || a.WritePassword? || a.ReadReauth? || a.Mark? || a.Abort?
  }

  lemma OwnReads(codes: Codes, s: System, a: Action)
    requires a.ReadPassword? || a.ReadReauth? || a.Abort?
    ensures SessionStep(codes, s, a).db == s.db
  {
  }

  lemma OwnEffect(codes: Codes, s: System, a: Action)
    requires DbInv(s.db) && IsOwn(a)
    ensures Effect(s, a, SessionStep(codes, s, a).db)
  {
    if a.RemoveOwn? {
      assert SessionStep(codes, s, a) == DoRemoveFactor(s, a.pid, a.credential);
      FactorRemovalEffect(s, a.pid, a.credential);
    } else if a.WritePassword? {
      assert SessionStep(codes, s, a) == DoWritePassword(s, a.pid, a.hash);
      PasswordEffect(s, a.pid, a.hash);
    } else if a.Mark? {
      assert SessionStep(codes, s, a) == DoMark(s, a.pid, a.now);
      MarkEffect(s, a.pid, a.now);
    } else {
      OwnReads(codes, s, a);
      IdleEffect(s, a);
    }
  }

  lemma StepEffect(codes: Codes, s: System, a: Action)
    requires DbInv(s.db)
    ensures Effect(s, a, Step(codes, s, a).db)
  {
    if IsAdministration(a) {
      AdministrationEffect(codes, s, a);
    } else if IsLogin(a) {
      LoginEffect(codes, s, a);
    } else if IsCommit(a) {
      CommitEffect(codes, s, a);
    } else if IsVerification(a) {
      VerificationEffect(codes, s, a);
    } else if IsEnrolment(a) {
      EnrolmentEffect(codes, s, a);
    } else {
      OwnEffect(codes, s, a);
    }
  }

  // ---- in every reachable state ----

  /** Which steps change a user's row, and to what: an account is created with a
      free name and, by setup, only while there is no admin; it is removed unless
      it is the last admin; and of a row that stays, the name never changes, the
      role only by an administrator and not of the last admin, the hash only by
      an administrator or from the hash the request read, the version exactly by a
      revocation, and the TOTP enrolment as the step says. */
  lemma RowsChangeExactly(codes: Codes, actions: seq<Action>, a: Action, id: int)
    ensures var s := Reached(codes, actions);
            At(Step(codes, s, a).db.users, id) == RowAfter(s, a, id)
  {
    ReachedInv(codes, actions);
    StepEffect(codes, Reached(codes, actions), a);
  }

  /** Which sessions a step ends, changes or stores: a login stores one at the
      level that was decided; raising one that is stored and has not expired
      replaces it by a full one of the same user under a new identifier; a
      revocation ends all of the user's but the one spared; and every other
      session is as it was. */
  lemma SessionsChangeExactly(codes: Codes, actions: seq<Action>, a: Action, sid: nat)
    ensures var s := Reached(codes, actions);
            At(Step(codes, s, a).db.sessions, sid) == SessionAfter(s, a, sid)
  {
    ReachedInv(codes, actions);
    StepEffect(codes, Reached(codes, actions), a);
  }

  /** The sessions after raising one. */
  ghost predicate Raised(s: System, pid: nat, now: Clock, after: map<nat, Session>)
    requires pid in s.procs && s.procs[pid].Proven? && s.procs[pid].sid in s.db.sessions
  {
    var was := s.procs[pid].sid;
    && was !in after && s.db.nextSid !in s.db.sessions
    && At(after, s.db.nextSid) == Some(Session(s.db.sessions[was].user, Full, now.time, now.until))
    && forall sid :: sid != was && sid != s.db.nextSid ==> At(after, sid) == At(s.db.sessions, sid)
  }

  lemma RaisedTable(s: System, pid: nat, now: Clock, remember: bool, b: Db)
    requires DbInv(s.db) && Sessions(s, Upgrade(pid, now, remember), b) && Raises(s, pid, now.time)
    ensures Raised(s, pid, now, b.sessions)
  {
    var a := Upgrade(pid, now, remember);
    var was := s.procs[pid].sid;
    assert At(b.sessions, was) == SessionAfter(s, a, was);
    assert At(b.sessions, s.db.nextSid) == SessionAfter(s, a, s.db.nextSid);
    forall sid | sid != was && sid != s.db.nextSid
      ensures At(b.sessions, sid) == At(s.db.sessions, sid)
    {
      assert At(b.sessions, sid) == SessionAfter(s, a, sid);
    }
  }

  lemma UnraisedTable(s: System, pid: nat, now: Clock, remember: bool, b: Db)
    requires Sessions(s, Upgrade(pid, now, remember), b) && !Raises(s, pid, now.time)
    ensures b.sessions == s.db.sessions
  {
    forall k
      ensures At(b.sessions, k) == At(s.db.sessions, k)
    {
      assert At(b.sessions, k) == SessionAfter(s, Upgrade(pid, now, remember), k);
    }
    SameTable(b.sessions, s.db.sessions);
  }

  /** Raising a session, in full: after a proof, the stored and unexpired session
      of the request is gone, a full one of its user stands under the next
      identifier, and every other session is as it was; otherwise no session
      changes. */
  lemma RaisedExactly(codes: Codes, actions: seq<Action>, pid: nat, now: Clock, remember: bool)
    ensures var s := Reached(codes, actions);
            var after := Step(codes, s, Upgrade(pid, now, remember)).db.sessions;
            if pid in s.procs && s.procs[pid].Proven? && s.procs[pid].sid in s.db.sessions &&
               now.time < s.db.sessions[s.procs[pid].sid].expires
            then Raised(s, pid, now, after)
            else after == s.db.sessions
  {
    var s := Reached(codes, actions);
    var a := Upgrade(pid, now, remember);
    ReachedInv(codes, actions);
    StepEffect(codes, s, a);
    if Raises(s, pid, now.time) {
      RaisedTable(s, pid, now, remember, Step(codes, s, a).db);
    } else {
      UnraisedTable(s, pid, now, remember, Step(codes, s, a).db);
    }
  }

  lemma SameTable(a: map<nat, Session>, b: map<nat, Session>)
    requires forall k :: At(a, k) == At(b, k)
    ensures a == b
  {
    forall k
      ensures k in a <==> k in b
      ensures k in a ==> a[k] == b[k]
    {
      assert At(a, k) == At(b, k);
    }
  }

  /** Which passkeys and trusted devices a step stores or removes. */
  lemma KeysChangeExactly(codes: Codes, actions: seq<Action>, a: Action, credential: string, device: nat)
    ensures var s := Reached(codes, actions);
            At(Step(codes, s, a).db.credentials, credential) == KeyAfter(s, a, credential) &&
            At(Step(codes, s, a).db.trusted, device) == DeviceAfter(s, a, device)
  {
    ReachedInv(codes, actions);
    StepEffect(codes, Reached(codes, actions), a);
  }

  /** The policy in force is the one that was set last: a role requires a factor
      exactly when the latest policy names it. */
  lemma PolicyInForce(codes: Codes, actions: seq<Action>, a: Action, role: string)
    ensures var s := Reached(codes, actions);
            Required(Step(codes, s, a).db, role) <==>
              if a.Policy? then role in a.roles else s.db.required.Some? && role in s.db.required.value
  {
    ReachedInv(codes, actions);
    StepEffect(codes, Reached(codes, actions), a);
  }
}
