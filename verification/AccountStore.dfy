/** The account tables and every transaction on them.  Each transaction is a
    function on the tables (`None` when it is rolled back) and a method of
    `Store` that performs its SQL statements one after the other. */
module AccountStore {
  import opened Wrappers
  import NoCase

  datatype Level = Full | Mfa | Enroll

  /** `secret` is "" without a TOTP enrolment; it is pending until confirmed. */
  datatype User = User(
    name: string, hash: string, role: string, version: nat,
    secret: string, confirmed: bool, lastUsed: int)

  datatype Session = Session(user: int, level: Level, verifiedAt: int, expires: int)

  /** The clock of an insert or update, and when the session it writes expires. */
  datatype Clock = Clock(time: int, until: int)

  /** `required` is the effective MFA policy: None until it is decided. */
  datatype Db = Db(
    users: map<int, User>,
    sessions: map<nat, Session>,
    credentials: map<string, int>,
    trusted: map<nat, int>,
    required: Option<set<string>>,
    nextUser: int,
    nextSid: nat)

  const EMPTY := Db(map[], map[], map[], map[], None, 1, 0)

  // ---- queries ----

  predicate HasKey(credentials: map<string, int>, id: int) {
    exists c :: c in credentials && credentials[c] == id
  }

  /** `User.MFAEnrolled`: some confirmed second factor. */
  predicate Enrolled(db: Db, id: int) {
    (id in db.users && db.users[id].confirmed && db.users[id].secret != "") || HasKey(db.credentials, id)
  }

  predicate Required(db: Db, role: string) {
    db.required.Some? && role in db.required.value
  }

  function Admins(users: map<int, User>): set<int> {
    set id | id in users && users[id].role == "admin"
  }

  predicate HasAdmin(users: map<int, User>) {
    exists id :: id in users && users[id].role == "admin"
  }

  /** What a password login owes, from the loaded user and the policy. */
  function LevelFor(enrolled: bool, required: bool): Level {
    if enrolled then Mfa else if required then Enroll else Full
  }

  // ---- statements ----

  function Bumped(users: map<int, User>, id: int): map<int, User> {
    if id in users then users[id := users[id].(version := users[id].version + 1)] else users
  }

  function Without(sessions: map<nat, Session>, id: int, keep: Option<nat>): map<nat, Session> {
    map sid | sid in sessions && !(sessions[sid].user == id && keep != Some(sid)) :: sessions[sid]
  }

  function Untrusted(trusted: map<nat, int>, id: int): map<nat, int> {
    map t | t in trusted && trusted[t] != id :: trusted[t]
  }

  function KeysOfOthers(credentials: map<string, int>, id: int): map<string, int> {
    map c | c in credentials && credentials[c] != id :: credentials[c]
  }

  // ---- transactions ----

  /** Bumps the version and revokes every other session and all trust. */
  function FactorChange(db: Db, id: int, keep: Option<nat>): Db {
    db.(users := Bumped(db.users, id),
        sessions := Without(db.sessions, id, keep),
        trusted := Untrusted(db.trusted, id))
  }

  function ConfirmTotp(db: Db, id: int, counter: int, keep: Option<nat>): Option<Db> {
    if id in db.users && db.users[id].secret != "" && !db.users[id].confirmed then
      var u := db.users[id].(confirmed := true, lastUsed := counter);
      Some(FactorChange(db.(users := db.users[id := u]), id, keep))
    else None
  }

  function AddCredential(db: Db, id: int, credential: string, keep: Option<nat>): Option<Db> {
    if id in db.users && credential !in db.credentials then
      Some(FactorChange(db.(credentials := db.credentials[credential := id]), id, keep))
    else None
  }

  function ClearTotp(u: User): User {
    u.(secret := "", confirmed := false, lastUsed := 0)
  }

  /** An empty credential id removes the TOTP enrolment. */
  function RemoveFactor(db: Db, id: int, credential: string, keep: Option<nat>): Option<Db> {
    if credential == "" then
      if id in db.users then
        Some(FactorChange(db.(users := db.users[id := ClearTotp(db.users[id])]), id, keep))
      else None
    else if credential in db.credentials && db.credentials[credential] == id then
      Some(FactorChange(db.(credentials := db.credentials - {credential}), id, keep))
    else None
  }

  function ClearMfa(db: Db, id: int): Db {
    var users := if id in db.users then db.users[id := ClearTotp(db.users[id])] else db.users;
    FactorChange(db.(users := users, credentials := KeysOfOthers(db.credentials, id)), id, None)
  }

  predicate Owes(db: Db, roles: set<string>, id: int) {
    id in db.users && db.users[id].role in roles && !db.users[id].confirmed && !HasKey(db.credentials, id)
  }

  function BumpedOwing(db: Db, roles: set<string>): map<int, User> {
    map id | id in db.users ::
      if Owes(db, roles, id) then db.users[id].(version := db.users[id].version + 1) else db.users[id]
  }

  function KeptSessions(db: Db, roles: set<string>): map<nat, Session> {
    map sid | sid in db.sessions && !Owes(db, roles, db.sessions[sid].user) :: db.sessions[sid]
  }

  function KeptTrust(db: Db, roles: set<string>): map<nat, int> {
    map t | t in db.trusted && !Owes(db, roles, db.trusted[t]) :: db.trusted[t]
  }

  function SetPolicy(db: Db, roles: set<string>): Db {
    db.(required := Some(roles), users := BumpedOwing(db, roles),
        sessions := KeptSessions(db, roles), trusted := KeptTrust(db, roles))
  }

  lemma OwingIgnoresSessions(db: Db, db': Db, roles: set<string>)
    requires db.users == db'.users && db.credentials == db'.credentials
    ensures forall id :: Owes(db, roles, id) <==> Owes(db', roles, id)
  {
  }

  lemma BumpKeepsOwing(db: Db, before: Db, roles: set<string>)
    requires db.users == before.users && db.credentials == before.credentials
    requires db.sessions == before.sessions && db.trusted == before.trusted
    ensures var bumped := db.(users := BumpedOwing(db, roles));
            BumpedOwing(db, roles) == BumpedOwing(before, roles) &&
            KeptSessions(bumped, roles) == KeptSessions(before, roles) &&
            KeptTrust(bumped, roles) == KeptTrust(before, roles)
  {
    var bumped := db.(users := BumpedOwing(db, roles));
    assert forall id :: Owes(bumped, roles, id) <==> Owes(before, roles, id);
  }

  function SetPendingTotp(db: Db, id: int, secret: string): Option<Db> {
    if id in db.users then
      Some(db.(users := db.users[id := db.users[id].(secret := secret, confirmed := false, lastUsed := 0)]))
    else None
  }

  function SetLastUsed(db: Db, id: int, counter: int): Option<Db> {
    if id in db.users && db.users[id].lastUsed < counter then
      Some(db.(users := db.users[id := db.users[id].(lastUsed := counter)]))
    else None
  }

  function CreateSession(db: Db, id: int, version: nat, level: Level, now: Clock): Option<Db> {
    if id in db.users && db.users[id].version == version then
      Some(db.(sessions := db.sessions[db.nextSid := Session(id, level, now.time, now.until)], nextSid := db.nextSid + 1))
    else None
  }

  /** Raises a session that has not expired, under a new identifier. */
  function UpgradeSession(db: Db, sid: nat, now: Clock): Option<Db> {
    if sid in db.sessions && db.sessions[sid].expires > now.time then
      Some(db.(sessions := (db.sessions - {sid})[db.nextSid := Session(db.sessions[sid].user, Full, now.time, now.until)],
               nextSid := db.nextSid + 1))
    else None
  }

  function MarkReauthenticated(db: Db, sid: nat, id: int, version: nat, now: int): Option<Db> {
    if sid in db.sessions && db.sessions[sid].user == id && id in db.users && db.users[id].version == version then
      Some(db.(sessions := db.sessions[sid := db.sessions[sid].(verifiedAt := now)]))
    else None
  }

  function DeleteSession(db: Db, sid: nat, id: int): Option<Db> {
    if sid in db.sessions && db.sessions[sid].user == id then Some(db.(sessions := db.sessions - {sid}))
    else None
  }

  function AddTrustedDevice(db: Db, id: int): Option<Db> {
    if id in db.users then Some(db.(trusted := db.trusted[db.nextSid := id], nextSid := db.nextSid + 1))
    else None
  }

  function ChangePassword(db: Db, id: int, hash: string, keep: Option<nat>, expected: Option<string>): Option<Db> {
    if id in db.users && (expected.None? || db.users[id].hash == expected.value) then
      Some(FactorChange(db.(users := db.users[id := db.users[id].(hash := hash)]), id, keep))
    else None
  }

  datatype AccountError = LastAdmin | NotFound | Exists | NotFirstAdmin

  predicate MayChangeRole(db: Db, id: int, role: string) {
    id in db.users && (db.users[id].role == role || db.users[id].role != "admin" || |Admins(db.users)| > 1)
  }

  function WithRole(db: Db, id: int, role: string): Db
    requires id in db.users
  {
    db.(users := db.users[id := db.users[id].(role := role)])
  }

  /** Role and password together, or nothing. */
  function ChangeAccount(db: Db, id: int, role: Option<string>, hash: Option<string>): Result<Db, AccountError> {
    if role.Some? && !MayChangeRole(db, id, role.value) then Err(LastAdmin)
    else
      var db1 := if role.Some? then WithRole(db, id, role.value) else db;
      if hash.None? then Ok(db1)
      else match ChangePassword(db1, id, hash.value, None, None)
        case None => Err(NotFound)
        case Some(db2) => Ok(db2)
  }

  function SetRole(db: Db, id: int, role: string): Result<Db, AccountError> {
    if MayChangeRole(db, id, role) then Ok(WithRole(db, id, role))
    else Err(if id in db.users then LastAdmin else NotFound)
  }

  /** Sessions, credentials and trusted devices go with the user. */
  function DeleteUser(db: Db, id: int): Result<Db, AccountError> {
    if id in db.users && (db.users[id].role != "admin" || |Admins(db.users)| > 1) then
      Ok(db.(users := db.users - {id},
             sessions := Without(db.sessions, id, None),
             credentials := KeysOfOthers(db.credentials, id),
             trusted := Untrusted(db.trusted, id)))
    else Err(if id in db.users then LastAdmin else NotFound)
  }

  predicate NameTaken(users: map<int, User>, name: string) {
    exists id :: id in users && NoCase.SameName(users[id].name, name)
  }

  function WithUser(db: Db, name: string, hash: string, role: string): Db {
    db.(users := db.users[db.nextUser := User(name, hash, role, 0, "", false, 0)], nextUser := db.nextUser + 1)
  }

  function CreateUser(db: Db, name: string, hash: string, role: string): Result<Db, AccountError> {
    if NameTaken(db.users, name) then Err(Exists) else Ok(WithUser(db, name, hash, role))
  }

  function CreateFirstAdmin(db: Db, name: string, hash: string): Result<Db, AccountError> {
    if HasAdmin(db.users) then Err(NotFirstAdmin)
    else if NameTaken(db.users, name) then Err(Exists)
    else Ok(WithUser(db, name, hash, "admin"))
  }

  // ---- the store ----

  class Store {
    var users: map<int, User>
    var sessions: map<nat, Session>
    var credentials: map<string, int>
    var trusted: map<nat, int>
    var required: Option<set<string>>
    var nextUser: int
    var nextSid: nat

    function Tables(): Db
      reads this
    {
      Db(users, sessions, credentials, trusted, required, nextUser, nextSid)
    }

    constructor ()
      ensures Tables() == EMPTY
    {
      users, sessions, credentials, trusted := map[], map[], map[], map[];
      required, nextUser, nextSid := None, 1, 0;
    }

    /** Ends every session but one and forgets the trusted devices. */
    method EndOthers(id: int, keep: Option<nat>)
      modifies this`sessions, this`trusted
      ensures sessions == Without(old(sessions), id, keep) && trusted == Untrusted(old(trusted), id)
    {
      sessions := map sid | sid in sessions && !(sessions[sid].user == id && keep != Some(sid)) :: sessions[sid];
      trusted := map t | t in trusted && trusted[t] != id :: trusted[t];
    }

    /** The statements that follow every factor change. */
    method RevokeOthers(id: int, keep: Option<nat>)
      modifies this`users, this`sessions, this`trusted
      ensures Tables() == FactorChange(old(Tables()), id, keep)
    {
      if id in users {
        users := users[id := users[id].(version := users[id].version + 1)];
      }
      EndOthers(id, keep);
    }

    method ConfirmTotpForSession(id: int, counter: int, keep: Option<nat>) returns (ok: bool)
      modifies this
      ensures ok == ConfirmTotp(old(Tables()), id, counter, keep).Some?
      ensures Tables() == if ok then ConfirmTotp(old(Tables()), id, counter, keep).value else old(Tables())
    {
      if id !in users || users[id].secret == "" || users[id].confirmed {
        return false;
      }
      users := users[id := users[id].(confirmed := true, lastUsed := counter)];
      RevokeOthers(id, keep);
      return true;
    }

    method AddCredentialForSession(id: int, credential: string, keep: Option<nat>) returns (ok: bool)
      modifies this
      ensures ok == AddCredential(old(Tables()), id, credential, keep).Some?
      ensures Tables() == if ok then AddCredential(old(Tables()), id, credential, keep).value else old(Tables())
    {
      if id !in users || credential in credentials {
        return false;
      }
      credentials := credentials[credential := id];
      RevokeOthers(id, keep);
      return true;
    }

    method RemoveFactorForSession(id: int, credential: string, keep: Option<nat>) returns (ok: bool)
      modifies this
      ensures ok == RemoveFactor(old(Tables()), id, credential, keep).Some?
      ensures Tables() == if ok then RemoveFactor(old(Tables()), id, credential, keep).value else old(Tables())
    {
      if credential == "" {
        if id !in users {
          return false;
        }
        users := users[id := users[id].(secret := "", confirmed := false, lastUsed := 0)];
      } else {
        if credential !in credentials || credentials[credential] != id {
          return false;
        }
        credentials := credentials - {credential};
      }
      RevokeOthers(id, keep);
      return true;
    }

    method ClearMfaOf(id: int)
      modifies this
      ensures Tables() == ClearMfa(old(Tables()), id)
    {
      credentials := map c | c in credentials && credentials[c] != id :: credentials[c];
      sessions := map sid | sid in sessions && sessions[sid].user != id :: sessions[sid];
      trusted := map t | t in trusted && trusted[t] != id :: trusted[t];
      if id in users {
        var u := users[id];
        users := users[id := u.(secret := "", confirmed := false, lastUsed := 0, version := u.version + 1)];
      }
    }

    /** Bumps everyone who owes a factor. */
    method BumpOwing(roles: set<string>)
      modifies this`users
      ensures Tables() == old(Tables()).(users := BumpedOwing(old(Tables()), roles))
    {
      users := map id | id in users ::
        if users[id].role in roles && !users[id].confirmed && !HasKey(credentials, id)
        then users[id].(version := users[id].version + 1) else users[id];
    }

    /** Records the policy and revokes everyone who now owes a factor. */
    method SetMfaPolicy(roles: set<string>)
      modifies this
      ensures Tables() == SetPolicy(old(Tables()), roles)
    {
      required := Some(roles);
      BumpOwing(roles);
      ghost var bumped := Tables();
      BumpKeepsOwing(old(Tables()).(required := Some(roles)), old(Tables()), roles);
      sessions := map sid | sid in sessions && !Owes(Tables(), roles, sessions[sid].user) :: sessions[sid];
      assert sessions == KeptSessions(bumped, roles);
      OwingIgnoresSessions(Tables(), bumped, roles);
      trusted := map t | t in trusted && !Owes(Tables(), roles, trusted[t]) :: trusted[t];
      assert trusted == KeptTrust(bumped, roles);
    }

    method SetPending(id: int, secret: string) returns (ok: bool)
      modifies this`users
      ensures ok == SetPendingTotp(old(Tables()), id, secret).Some?
      ensures Tables() == if ok then SetPendingTotp(old(Tables()), id, secret).value else old(Tables())
    {
      if id !in users {
        return false;
      }
      users := users[id := users[id].(secret := secret, confirmed := false, lastUsed := 0)];
      return true;
    }

    method SetTotpLastUsed(id: int, counter: int) returns (ok: bool)
      modifies this`users
      ensures ok == SetLastUsed(old(Tables()), id, counter).Some?
      ensures Tables() == if ok then SetLastUsed(old(Tables()), id, counter).value else old(Tables())
    {
      if id !in users || users[id].lastUsed >= counter {
        return false;
      }
      users := users[id := users[id].(lastUsed := counter)];
      return true;
    }

    method CreateUserSession(id: int, version: nat, level: Level, now: Clock) returns (sid: Option<nat>)
      modifies this`sessions, this`nextSid
      ensures sid == if CreateSession(old(Tables()), id, version, level, now).Some? then Some(old(nextSid)) else None
      ensures Tables() == if sid.Some? then CreateSession(old(Tables()), id, version, level, now).value else old(Tables())
    {
      if id !in users || users[id].version != version {
        return None;
      }
      sid := Some(nextSid);
      sessions := sessions[nextSid := Session(id, level, now.time, now.until)];
      nextSid := nextSid + 1;
    }

    method Upgrade(sid: nat, now: Clock) returns (replacement: Option<nat>)
      modifies this`sessions, this`nextSid
      ensures replacement == if UpgradeSession(old(Tables()), sid, now).Some? then Some(old(nextSid)) else None
      ensures Tables() == if replacement.Some? then UpgradeSession(old(Tables()), sid, now).value else old(Tables())
    {
      if sid !in sessions || sessions[sid].expires <= now.time {
        return None;
      }
      replacement := Some(nextSid);
      var upgraded := sessions[sid].(level := Full, verifiedAt := now.time, expires := now.until);
      var others: map<nat, Session> := sessions - {sid};
      sessions := others[nextSid := upgraded];
      nextSid := nextSid + 1;
    }

    method Mark(sid: nat, id: int, version: nat, now: int) returns (ok: bool)
      modifies this`sessions
      ensures ok == MarkReauthenticated(old(Tables()), sid, id, version, now).Some?
      ensures Tables() == if ok then MarkReauthenticated(old(Tables()), sid, id, version, now).value else old(Tables())
    {
      if sid !in sessions || sessions[sid].user != id || id !in users || users[id].version != version {
        return false;
      }
      sessions := sessions[sid := sessions[sid].(verifiedAt := now)];
      return true;
    }

    method ChangePasswordOf(id: int, hash: string, keep: Option<nat>, expected: Option<string>) returns (ok: bool)
      modifies this
      ensures ok == ChangePassword(old(Tables()), id, hash, keep, expected).Some?
      ensures Tables() == if ok then ChangePassword(old(Tables()), id, hash, keep, expected).value else old(Tables())
    {
      if id !in users || (expected.Some? && users[id].hash != expected.value) {
        return false;
      }
      users := users[id := users[id].(hash := hash, version := users[id].version + 1)];
      EndOthers(id, keep);
      return true;
    }

    /** One transaction: a failing second half undoes the first. */
    method ChangeRoleAndPassword(id: int, role: Option<string>, hash: Option<string>)
      returns (r: Result<(), AccountError>)
      modifies this
      ensures r.Ok? == ChangeAccount(old(Tables()), id, role, hash).Ok?
      ensures r.Ok? ==> Tables() == ChangeAccount(old(Tables()), id, role, hash).value
      ensures r.Err? ==> Tables() == old(Tables()) && r.error == ChangeAccount(old(Tables()), id, role, hash).error
    {
      var begun := users;
      if role.Some? {
        if !(id in users && (users[id].role == role.value || users[id].role != "admin" || |Admins(users)| > 1)) {
          return Err(LastAdmin);
        }
        users := users[id := users[id].(role := role.value)];
      }
      if hash.Some? {
        var ok := ChangePasswordOf(id, hash.value, None, None);
        if !ok {
          users := begun;
          return Err(NotFound);
        }
      }
      return Ok(());
    }

    method SetRoleOf(id: int, role: string) returns (r: Result<(), AccountError>)
      modifies this`users
      ensures r.Ok? == SetRole(old(Tables()), id, role).Ok?
      ensures r.Ok? ==> Tables() == SetRole(old(Tables()), id, role).value
      ensures r.Err? ==> Tables() == old(Tables()) && r.error == SetRole(old(Tables()), id, role).error
    {
      if id in users && (users[id].role == role || users[id].role != "admin" || |Admins(users)| > 1) {
        users := users[id := users[id].(role := role)];
        return Ok(());
      }
      return Err(if id in users then LastAdmin else NotFound);
    }

    method Delete(id: int) returns (r: Result<(), AccountError>)
      modifies this
      ensures r.Ok? == DeleteUser(old(Tables()), id).Ok?
      ensures r.Ok? ==> Tables() == DeleteUser(old(Tables()), id).value
      ensures r.Err? ==> Tables() == old(Tables()) && r.error == DeleteUser(old(Tables()), id).error
    {
      if id !in users {
        return Err(NotFound);
      }
      if users[id].role == "admin" && |Admins(users)| <= 1 {
        return Err(LastAdmin);
      }
      users := users - {id};
      sessions := map sid | sid in sessions && sessions[sid].user != id :: sessions[sid];
      credentials := map c | c in credentials && credentials[c] != id :: credentials[c];
      trusted := map t | t in trusted && trusted[t] != id :: trusted[t];
      return Ok(());
    }

    method InsertFirstAdmin(name: string, hash: string) returns (r: Result<int, AccountError>)
      modifies this`users, this`nextUser
      ensures r.Ok? == CreateFirstAdmin(old(Tables()), name, hash).Ok?
      ensures r.Ok? ==> r.value == old(nextUser) && Tables() == CreateFirstAdmin(old(Tables()), name, hash).value
      ensures r.Err? ==> Tables() == old(Tables()) && r.error == CreateFirstAdmin(old(Tables()), name, hash).error
    {
      if HasAdmin(users) {
        return Err(NotFirstAdmin);
      }
      if NameTaken(users, name) {
        return Err(Exists);
      }
      r := Ok(nextUser);
      users := users[nextUser := User(name, hash, "admin", 0, "", false, 0)];
      nextUser := nextUser + 1;
    }
  }
}
