/** Every action of the account system keeps the invariants. */
module AccountSteps {
  import opened Wrappers
  import opened AccountStore
  import opened Totp
  import opened AccountSystem
  import opened AccountInvariants

  // ---- steps that only move a process ----

  lemma GoKeeps(codes: Codes, s: System, pid: nat, p: Process)
    requires Inv(codes, s) && ProcInv(codes, s.db, p)
    requires if pid in s.procs then Holding(p) == Holding(s.procs[pid]) else !Holding(p) && s.lock != Some(pid)
    ensures Inv(codes, Go(s, pid, p))
  {
    Local(codes, s, Go(s, pid, p), pid);
  }

  lemma TakeKeeps(codes: Codes, s: System, pid: nat, p: Process)
    requires Inv(codes, s) && ProcInv(codes, s.db, p) && s.lock == None && Holding(p)
    ensures Inv(codes, Take(s, pid, p))
  {
    Local(codes, s, Take(s, pid, p), pid);
  }

  lemma FreshPid(codes: Codes, s: System, pid: nat)
    requires Inv(codes, s) && pid !in s.procs
    ensures s.lock != Some(pid)
  {
  }

  lemma CheckPasswordKeeps(codes: Codes, s: System, pid: nat, id: int)
    requires Inv(codes, s)
    ensures Inv(codes, DoCheckPassword(s, pid, id))
  {
    if pid !in s.procs && id in s.db.users {
      FreshPid(codes, s, pid);
      GoKeeps(codes, s, pid, PasswordOk(id, s.db.users[id].hash, s.db.users[id].version));
    }
  }

  lemma BeginPasskeyKeeps(codes: Codes, s: System, pid: nat, id: int)
    requires Inv(codes, s)
    ensures Inv(codes, DoBeginPasskey(s, pid, id))
  {
    if pid !in s.procs && s.lock == None && id in s.db.users {
      TakeKeeps(codes, s, pid, Loaded(id, s.db.users[id].version, Enrolled(s.db, id), s.db.users[id].role, ByPasskey));
    }
  }

  lemma LoadKeeps(codes: Codes, s: System, pid: nat)
    requires Inv(codes, s)
    ensures Inv(codes, DoLoad(s, pid))
  {
    EndKeeps(codes, s, pid);
    if pid in s.procs {
      assert ProcInv(codes, s.db, s.procs[pid]);
      match s.procs[pid]
      case PasswordOk(id, hash, version) =>
        if id in s.db.users && s.db.users[id].version == version {
          GoKeeps(codes, s, pid, Load(s.db, id, ByPassword(hash)));
        }
      case SetupCreated(id) =>
        if id in s.db.users {
          GoKeeps(codes, s, pid, Load(s.db, id, BySetup));
        }
      case _ =>
    }
  }

  lemma DecideKeeps(codes: Codes, s: System, pid: nat)
    requires Inv(codes, s)
    ensures Inv(codes, DoDecide(s, pid))
  {
    if pid in s.procs && s.procs[pid].Loaded? && !s.procs[pid].origin.ByPasskey? {
      var p := s.procs[pid];
      assert ProcInv(codes, s.db, p);
      var level := LevelFor(p.enrolled && p.origin.ByPassword?, Required(s.db, p.role));
      GoKeeps(codes, s, pid, Decided(p.user, p.version, level, Unproven(p.enrolled), p.origin));
    }
  }

  lemma UseTrustKeeps(codes: Codes, s: System, pid: nat, device: nat)
    requires Inv(codes, s)
    ensures Inv(codes, DoUseTrust(s, pid, device))
  {
    if DoUseTrust(s, pid, device) != s {
      assert ProcInv(codes, s.db, s.procs[pid]);
      GoKeeps(codes, s, pid, s.procs[pid].(level := Full, evidence := Trust(device)));
    }
  }

  lemma AssertPasskeyKeeps(codes: Codes, s: System, pid: nat, credential: string)
    requires Inv(codes, s)
    ensures Inv(codes, DoAssertPasskey(s, pid, credential))
  {
    if DoAssertPasskey(s, pid, credential) != s {
      var p := s.procs[pid];
      assert ProcInv(codes, s.db, p);
      GoKeeps(codes, s, pid, Decided(p.user, p.version, Full, Passkey(credential), ByPasskey));
    }
  }

  lemma BeginKeeps(codes: Codes, s: System, pid: nat, sid: nat, now: int)
    requires Inv(codes, s)
    ensures Inv(codes, DoBegin(s, pid, sid, now))
  {
    if DoBegin(s, pid, sid, now) != s {
      var r := s.db.sessions[sid];
      FreshPid(codes, s, pid);
      GoKeeps(codes, s, pid, Fetched(r.user, sid, r.level, s.db.users[r.user].role, Enrolled(s.db, r.user)));
    }
  }

  lemma AdmitKeeps(codes: Codes, s: System, pid: nat)
    requires Inv(codes, s)
    ensures Inv(codes, DoAdmit(s, pid))
  {
    if pid in s.procs && s.procs[pid].Fetched? {
      var p := s.procs[pid];
      assert ProcInv(codes, s.db, p);
      var level := if p.level == Full && Required(s.db, p.role) && !p.enrolled then Enroll else p.level;
      GoKeeps(codes, s, pid, Request(p.user, p.sid, level));
    }
  }

  lemma EnterKeeps(codes: Codes, s: System, pid: nat, p: Process)
    requires Inv(codes, s) && pid in s.procs && s.procs[pid].Request? && s.lock == None
    requires p.user == s.procs[pid].user
    requires p == Enrolling(p.user, s.procs[pid].sid, s.procs[pid].level) ||
             (p.Proven? && p.sid == s.procs[pid].sid && !p.evidence.Unproven?) ||
             (p.user in s.db.users &&
              p == Verifying(p.user, s.procs[pid].sid, s.db.users[p.user].secret, s.db.users[p.user].confirmed))
    ensures Inv(codes, Take(s, pid, p))
  {
    assert ProcInv(codes, s.db, s.procs[pid]);
    TakeKeeps(codes, s, pid, p);
  }

  lemma VerifyCodeKeeps(codes: Codes, s: System, pid: nat, code: string, now: nat)
    requires Inv(codes, s)
    ensures Inv(codes, DoVerifyCode(codes, s, pid, code, now))
  {
    EndKeeps(codes, s, pid);
    if pid in s.procs && s.procs[pid].Verifying? {
      var p := s.procs[pid];
      assert ProcInv(codes, s.db, p);
      var after := if p.user in s.db.users then s.db.users[p.user].lastUsed else 0;
      MatchedMeaning(codes, p.secret, code, after, now);
      var m := if p.user in s.db.users then Matched(codes, p.secret, code, after, now) else None;
      if p.confirmed && m.Some? {
        GoKeeps(codes, s, pid, VerifyMatched(p.user, p.sid, Acceptance(m.value, now, p.secret, code)));
      }
    }
  }

  lemma ReadPendingKeeps(codes: Codes, s: System, pid: nat)
    requires Inv(codes, s)
    ensures Inv(codes, DoReadPending(s, pid))
  {
    EndKeeps(codes, s, pid);
    if pid in s.procs && s.procs[pid].Enrolling? {
      var p := s.procs[pid];
      assert ProcInv(codes, s.db, p);
      if p.user in s.db.users && s.db.users[p.user].secret != "" && !s.db.users[p.user].confirmed {
        GoKeeps(codes, s, pid, Confirming(p.user, p.sid, p.level, s.db.users[p.user].secret));
      }
    }
  }

  lemma ConfirmCodeKeeps(codes: Codes, s: System, pid: nat, code: string, now: nat)
    requires Inv(codes, s)
    ensures Inv(codes, DoConfirmCode(codes, s, pid, code, now))
  {
    EndKeeps(codes, s, pid);
    if pid in s.procs && s.procs[pid].Confirming? {
      var p := s.procs[pid];
      assert ProcInv(codes, s.db, p);
      MatchedMeaning(codes, p.secret, code, 0, now);
      var m := Matched(codes, p.secret, code, 0, now);
      if m.Some? {
        GoKeeps(codes, s, pid, ConfirmMatched(p.user, p.sid, p.level, Acceptance(m.value, now, p.secret, code)));
      }
    }
  }

  lemma ReadHashKeeps(codes: Codes, s: System, pid: nat, p: Process)
    requires Inv(codes, s) && pid in s.procs && s.procs[pid].Request?
    requires p.user == s.procs[pid].user && p.user in s.db.users
    requires p == ChangingPassword(p.user, s.procs[pid].sid, s.db.users[p.user].hash) ||
             p == Reauthing(p.user, s.procs[pid].sid, s.db.users[p.user].hash, s.db.users[p.user].version)
    ensures Inv(codes, Go(s, pid, p))
  {
    assert ProcInv(codes, s.db, s.procs[pid]);
    GoKeeps(codes, s, pid, p);
  }

  // ---- putting the parts together ----

  /** What an acting process may do to the table of processes and the lock. */
  ghost predicate Acts(codes: Codes, s: System, s': System, pid: Option<nat>) {
    && (forall q :: q in s'.procs && Some(q) != pid ==> q in s.procs && s'.procs[q] == s.procs[q])
    && (pid.Some? && pid.value in s'.procs ==> ProcInv(codes, s'.db, s'.procs[pid.value]))
    && LockInv(s')
    && (TotpKept(s.db, s'.db) || s.lock == None || s.lock == pid)
  }

  lemma Assemble(codes: Codes, s: System, s': System, pid: Option<nat>)
    requires Inv(codes, s) && Acts(codes, s, s', pid)
    requires DbInv(s'.db) && Evolves(s.db, s'.db) && SessionsInv(s') && UsersInv(codes, s')
    ensures Inv(codes, s')
  {
    OthersKept(codes, s, s', pid);
  }

  function EndIf(s: System, pid: Option<nat>): System {
    if pid.Some? then End(s, pid.value) else s
  }

  lemma EndActs(codes: Codes, s: System, s1: System, pid: Option<nat>)
    requires LockInv(s) && s1.procs == s.procs && s1.lock == s.lock
    requires TotpKept(s.db, s1.db) || s.lock == None || s.lock == pid
    ensures Acts(codes, s, EndIf(s1, pid), pid)
  {
  }

  lemma SessionsDepend(s: System, s': System)
    requires SessionsInv(s)
    requires s'.db.users == s.db.users && s'.db.sessions == s.db.sessions
    requires s'.db.credentials == s.db.credentials && s'.db.nextSid >= s.db.nextSid
    requires s'.trails == s.trails
    requires forall k :: MarksOf(s', k).keeper == MarksOf(s, k).keeper
    ensures SessionsInv(s')
  {
    forall sid | sid in s'.db.sessions
      ensures SessionOk(s'.db, s'.db.sessions[sid], s'.trails[sid], MarksOf(s', s'.db.sessions[sid].user).keeper)
    {
      assert Enrolled(s'.db, s'.db.sessions[sid].user) == Enrolled(s.db, s.db.sessions[sid].user);
    }
  }

  /** The row of one user changes while version, hash and sessions stay, and
      no factor appears. */
  lemma RowSessions(s: System, s': System, id: int)
    requires SessionsInv(s) && id in s.db.users && s'.db.users.Keys == s.db.users.Keys
    requires forall k :: k in s.db.users && k != id ==> s'.db.users[k] == s.db.users[k]
    requires s'.db == s.db.(users := s'.db.users)
    requires s'.db.users[id].version == s.db.users[id].version
    requires Enrolled(s'.db, id) ==> Enrolled(s.db, id)
    requires s'.trails == s.trails
    requires forall k :: MarksOf(s', k).keeper == MarksOf(s, k).keeper
    ensures SessionsInv(s')
  {
    forall sid | sid in s'.db.sessions
      ensures SessionOk(s'.db, s'.db.sessions[sid], s'.trails[sid], MarksOf(s', s'.db.sessions[sid].user).keeper)
    {
      var r := s.db.sessions[sid];
      assert SessionOk(s.db, r, s.trails[sid], MarksOf(s, r.user).keeper);
      if r.user != id {
        assert Enrolled(s'.db, r.user) == Enrolled(s.db, r.user);
      }
    }
  }

  lemma RowEvolves(a: Db, b: Db, id: int)
    requires id in a.users && b.users.Keys == a.users.Keys && b == a.(users := b.users)
    requires forall k :: k in a.users && k != id ==> b.users[k] == a.users[k]
    requires b.users[id].version == a.users[id].version && b.users[id].hash == a.users[id].hash
    requires Enrolled(b, id) ==> Enrolled(a, id)
    ensures Evolves(a, b)
  {
    forall k
      ensures UserEvolves(a, b, k)
    {
      if k != id {
        assert Enrolled(b, k) == Enrolled(a, k);
      }
    }
  }

  // ---- new accounts ----

  lemma NewUserTables(db: Db, name: string, hash: string, role: string)
    requires DbInv(db)
    ensures DbInv(WithUser(db, name, hash, role)) && Evolves(db, WithUser(db, name, hash, role))
    ensures TotpKept(db, WithUser(db, name, hash, role))
    ensures forall id :: id != db.nextUser ==> Enrolled(WithUser(db, name, hash, role), id) == Enrolled(db, id)
  {
    var db' := WithUser(db, name, hash, role);
    forall id
      ensures UserEvolves(db, db', id)
      ensures id != db.nextUser ==> Enrolled(db', id) == Enrolled(db, id)
    {
    }
  }

  lemma NewUserKeeps(codes: Codes, s: System, name: string, hash: string, role: string)
    requires Inv(codes, s)
    ensures Inv(codes, s.(db := WithUser(s.db, name, hash, role), marks := s.marks[s.db.nextUser := Marks([], None)]))
  {
    var db := WithUser(s.db, name, hash, role);
    var s' := s.(db := db, marks := s.marks[s.db.nextUser := Marks([], None)]);
    NewUserTables(s.db, name, hash, role);
    assert SessionsInv(s') by {
      forall sid | sid in db.sessions
        ensures SessionOk(db, db.sessions[sid], s.trails[sid], MarksOf(s', db.sessions[sid].user).keeper)
      {
        assert SessionOk(s.db, db.sessions[sid], s.trails[sid], MarksOf(s, db.sessions[sid].user).keeper);
      }
    }
    Assemble(codes, s, s', None);
  }

  lemma CreateUserKeeps(codes: Codes, s: System, name: string, hash: string, role: string)
    requires Inv(codes, s)
    ensures Inv(codes, DoCreateUser(s, name, hash, role))
  {
    if CreateUser(s.db, name, hash, role).Ok? {
      NewUserKeeps(codes, s, name, hash, role);
    }
  }

  lemma SetupKeeps(codes: Codes, s: System, pid: nat, name: string, hash: string)
    requires Inv(codes, s)
    ensures Inv(codes, DoSetup(s, pid, name, hash))
  {
    if pid !in s.procs && CreateFirstAdmin(s.db, name, hash).Ok? {
      NewUserKeeps(codes, s, name, hash, "admin");
      var s1 := s.(db := WithUser(s.db, name, hash, "admin"), marks := s.marks[s.db.nextUser := Marks([], None)]);
      FreshPid(codes, s1, pid);
      GoKeeps(codes, s1, pid, SetupCreated(s.db.nextUser));
    }
  }

  // ---- revoking changes ----

  lemma AcceptedDepends(s: System, id: int, accepted: seq<Acceptance>)
    requires SessionsInv(s)
    ensures SessionsInv(SetAccepted(s, id, accepted))
  {
    SessionsDepend(s, SetAccepted(s, id, accepted));
  }

  lemma RevokedUsers(codes: Codes, s: System, b: Db, id: int, keep: Option<nat>, accepted: seq<Acceptance>)
    requires UsersInv(codes, s) && OnlyFor(s.db, b, id)
    requires id in b.users ==> UserOk(codes, b.users[id], accepted)
    ensures UsersInv(codes, SetAccepted(Revoked(s, FactorChange(b, id, keep), id, keep), id, accepted))
  {
  }

  /** A revoking change by administration or by a process that then ends. */
  lemma RevokingKeeps(codes: Codes, s: System, b: Db, id: int, keep: Option<nat>,
                      accepted: seq<Acceptance>, pid: Option<nat>)
    requires Inv(codes, s) && OnlyFor(s.db, b, id)
    requires keep.Some? ==> OwnSession(s.db, id, keep.value)
    requires id in b.users && b.users[id].confirmed ==> b.users[id].secret != ""
    requires Enrolled(b, id) ==> Enrolled(s.db, id)
    requires id in b.users ==> UserOk(codes, b.users[id], accepted)
    requires TotpKept(s.db, b) || s.lock == None || s.lock == pid
    ensures var s1 := SetAccepted(Revoked(s, FactorChange(b, id, keep), id, keep), id, accepted);
            Inv(codes, EndIf(s1, pid))
  {
    var c := FactorChange(b, id, keep);
    var s0 := Revoked(s, c, id, keep);
    var s1 := SetAccepted(s0, id, accepted);
    FactorChangeEvolves(s.db, b, id, keep);
    RevokedSessions(s, b, id, keep, None);
    AcceptedDepends(s0, id, accepted);
    RevokedUsers(codes, s, b, id, keep, accepted);
    assert TotpKept(s.db, b) ==> TotpKept(s.db, c);
    EndActs(codes, s, s1, pid);
    Finish(codes, s, s1, pid);
  }

  /** Tables and history are sound; the acting process ends. */
  lemma Finish(codes: Codes, s: System, s1: System, pid: Option<nat>)
    requires Inv(codes, s) && Acts(codes, s, EndIf(s1, pid), pid)
    requires DbInv(s1.db) && Evolves(s.db, s1.db) && SessionsInv(s1) && UsersInv(codes, s1)
    ensures Inv(codes, EndIf(s1, pid))
  {
    SessionsDepend(s1, EndIf(s1, pid));
    Assemble(codes, s, EndIf(s1, pid), pid);
  }

  /** The history of accepted codes is rewritten with itself. */
  lemma AcceptedSame(s: System, id: int)
    requires id in s.marks
    ensures SetAccepted(s, id, MarksOf(s, id).accepted) == s
  {
  }

  // ---- administration ----

  lemma ChangeAccountKeeps(codes: Codes, s: System, id: int, role: Option<string>, hash: Option<string>)
    requires Inv(codes, s)
    ensures Inv(codes, DoChangeAccount(s, id, role, hash))
  {
    if ChangeAccount(s.db, id, role, hash).Ok? && id in s.db.users {
      var u := s.db.users[id];
      var u1 := if role.Some? then u.(role := role.value) else u;
      if hash.Some? {
        var b := s.db.(users := s.db.users[id := u1.(hash := hash.value)]);
        assert s.db.users[id := u1][id := u1.(hash := hash.value)] == b.users;
        assert ChangeAccount(s.db, id, role, hash) == Ok(FactorChange(b, id, None)) by {
          if role.None? {
            assert s.db.users[id := u] == s.db.users;
          }
        }
        RevokingKeeps(codes, s, b, id, None, s.marks[id].accepted, None);
        AcceptedSame(Revoked(s, FactorChange(b, id, None), id, None), id);
      } else if role.Some? {
        RoleKeeps(codes, s, id, role.value);
      }
    }
  }

  lemma RoleTables(db: Db, id: int, role: string)
    requires DbInv(db) && id in db.users
    ensures var b := WithRole(db, id, role);
            DbInv(b) && Evolves(db, b) && TotpKept(db, b) && forall k :: Enrolled(b, k) == Enrolled(db, k)
  {
    RowEvolves(db, WithRole(db, id, role), id);
  }

  lemma RoleKeeps(codes: Codes, s: System, id: int, role: string)
    requires Inv(codes, s) && id in s.db.users
    ensures Inv(codes, s.(db := WithRole(s.db, id, role)))
  {
    var s' := s.(db := WithRole(s.db, id, role));
    RoleTables(s.db, id, role);
    RowSessions(s, s', id);
    Assemble(codes, s, s', None);
  }

  lemma ResetKeeps(codes: Codes, s: System, id: int)
    requires Inv(codes, s)
    ensures Inv(codes, DoResetMfa(s, id))
  {
    if s.lock == None {
      var users := if id in s.db.users then s.db.users[id := ClearTotp(s.db.users[id])] else s.db.users;
      var b := s.db.(users := users, credentials := KeysOfOthers(s.db.credentials, id));
      if id !in s.db.users {
        assert b.credentials == s.db.credentials;
      }
      RevokingKeeps(codes, s, b, id, None, [], None);
    }
  }

  /** Some sessions go; the users of the others are untouched. */
  lemma ShrunkSessions(s: System, db: Db)
    requires SessionsInv(s) && db.nextSid == s.db.nextSid
    requires forall sid :: sid in db.sessions ==> sid in s.db.sessions && db.sessions[sid] == s.db.sessions[sid]
    requires forall sid :: sid in db.sessions ==>
               var id := db.sessions[sid].user;
               (id in db.users ==> id in s.db.users && db.users[id].version == s.db.users[id].version) &&
               Enrolled(db, id) == Enrolled(s.db, id)
    ensures SessionsInv(WithDb(s, db))
  {
    var s' := WithDb(s, db);
    RestrictTrails(s, db);
    forall sid | sid in db.sessions
      ensures SessionOk(db, db.sessions[sid], s'.trails[sid], MarksOf(s', db.sessions[sid].user).keeper)
    {
      assert SessionOk(s.db, s.db.sessions[sid], s.trails[sid], MarksOf(s, s.db.sessions[sid].user).keeper);
    }
  }

  lemma DeletedTables(db: Db, id: int, db': Db)
    requires DbInv(db) && DeleteUser(db, id) == Ok(db')
    ensures DbInv(db') && Evolves(db, db') && TotpKept(db, db')
    ensures forall k :: k != id ==> Enrolled(db', k) == Enrolled(db, k)
  {
    forall k
      ensures UserEvolves(db, db', k)
      ensures k != id ==> Enrolled(db', k) == Enrolled(db, k)
    {
      if k != id && HasKey(db.credentials, k) {
        var c :| c in db.credentials && db.credentials[c] == k;
        assert c in db'.credentials;
      }
    }
  }

  lemma DeleteUserKeeps(codes: Codes, s: System, id: int)
    requires Inv(codes, s)
    ensures Inv(codes, DoDeleteUser(s, id))
  {
    var r := DeleteUser(s.db, id);
    if r.Ok? {
      DeletedTables(s.db, id, r.value);
      ShrunkSessions(s, r.value);
      Assemble(codes, s, WithDb(s, r.value), None);
    }
  }

  lemma PolicyTables(db: Db, roles: set<string>)
    requires DbInv(db)
    ensures var db' := SetPolicy(db, roles);
            DbInv(db') && Evolves(db, db') && TotpKept(db, db') &&
            forall k :: Enrolled(db', k) == Enrolled(db, k)
  {
    var db' := SetPolicy(db, roles);
    forall k
      ensures UserEvolves(db, db', k) && Enrolled(db', k) == Enrolled(db, k)
    {
    }
  }

  lemma PolicyKeeps(codes: Codes, s: System, roles: set<string>)
    requires Inv(codes, s)
    ensures Inv(codes, DoPolicy(s, roles))
  {
    var db := SetPolicy(s.db, roles);
    PolicyTables(s.db, roles);
    ShrunkSessions(s, db);
    Assemble(codes, s, WithDb(s, db), None);
  }

  lemma DropTables(db: Db, sid: nat)
    requires DbInv(db)
    ensures var db' := db.(sessions := db.sessions - {sid});
            DbInv(db') && Evolves(db, db') && TotpKept(db, db')
  {
    SessionsOnlyEvolve(db, db.(sessions := db.sessions - {sid}));
  }

  lemma DropKeeps(codes: Codes, s: System, sid: nat)
    requires Inv(codes, s)
    ensures Inv(codes, DoDrop(s, sid))
  {
    if sid in s.db.sessions {
      var db := s.db.(sessions := s.db.sessions - {sid});
      ShrunkSessions(s, db);
      DropTables(s.db, sid);
      Assemble(codes, s, WithDb(s, db), None);
    }
  }

  // ---- logins that commit ----

  lemma SessionsOnlyEvolve(a: Db, b: Db)
    requires b.users == a.users && b.credentials == a.credentials
    requires b.nextUser == a.nextUser && b.nextSid >= a.nextSid
    requires forall sid :: sid in b.sessions && sid < a.nextSid ==>
               sid in a.sessions && a.sessions[sid].user == b.sessions[sid].user
    ensures Evolves(a, b) && TotpKept(a, b)
    ensures forall k :: Enrolled(b, k) == Enrolled(a, k)
  {
    forall k
      ensures UserEvolves(a, b, k) && Enrolled(b, k) == Enrolled(a, k)
    {
    }
  }

  /** A new session of `id` that is sound joins the others. */
  lemma AddedSession(s: System, db: Db, r: Session, t: Trail)
    requires SessionsInv(s)
    requires s.db.nextSid !in s.db.sessions && s.db.nextSid !in s.trails
    requires db == s.db.(sessions := s.db.sessions[s.db.nextSid := r], nextSid := s.db.nextSid + 1)
    requires SessionOk(db, r, t, MarksOf(s, r.user).keeper)
    requires forall sid :: sid in s.trails ==> s.trails[sid].lineage != t.lineage
    ensures SessionsInv(s.(db := db, trails := s.trails[s.db.nextSid := t]))
  {
    var s' := s.(db := db, trails := s.trails[s.db.nextSid := t]);
    forall sid | sid in db.sessions
      ensures SessionOk(db, db.sessions[sid], s'.trails[sid], MarksOf(s', db.sessions[sid].user).keeper)
    {
      if sid != s.db.nextSid {
        assert SessionOk(s.db, s.db.sessions[sid], s.trails[sid], MarksOf(s, s.db.sessions[sid].user).keeper);
        assert Enrolled(db, db.sessions[sid].user) == Enrolled(s.db, db.sessions[sid].user);
      }
    }
  }

  lemma LineagesBelow(s: System)
    requires SessionsInv(s)
    ensures forall sid :: sid in s.trails ==> s.trails[sid].lineage < s.db.nextSid
  {
    forall sid | sid in s.trails
      ensures s.trails[sid].lineage < s.db.nextSid
    {
      assert sid in s.db.sessions.Keys;
      assert SessionOk(s.db, s.db.sessions[sid], s.trails[sid], MarksOf(s, s.db.sessions[sid].user).keeper);
    }
  }

  function InsertTrail(s: System, p: Process): Trail
    requires p.Decided? && p.user in s.db.users
  {
    Trail(p.evidence, if p.origin.ByPassword? then Some(p.origin.hash) else None, s.db.users[p.user].hash,
          s.db.nextSid, p.version, None)
  }

  /** The new session is sound: what the login checked is still so. */
  lemma InsertedOk(codes: Codes, s: System, p: Process, now: Clock)
    requires Inv(codes, s) && p.Decided? && ProcInv(codes, s.db, p)
    requires CreateSession(s.db, p.user, p.version, p.level, now).Some?
    ensures SessionOk(CreateSession(s.db, p.user, p.version, p.level, now).value, Session(p.user, p.level, now.time, now.until),
                      InsertTrail(s, p), MarksOf(s, p.user).keeper)
  {
    assert Enrolled(CreateSession(s.db, p.user, p.version, p.level, now).value, p.user) == Enrolled(s.db, p.user);
  }

  lemma InsertedSessions(codes: Codes, s: System, p: Process, now: Clock)
    requires Inv(codes, s) && p.Decided? && ProcInv(codes, s.db, p)
    requires CreateSession(s.db, p.user, p.version, p.level, now).Some?
    ensures var db := CreateSession(s.db, p.user, p.version, p.level, now).value;
            DbInv(db) && Evolves(s.db, db) &&
            SessionsInv(s.(db := db, trails := s.trails[s.db.nextSid := InsertTrail(s, p)]))
  {
    var db := CreateSession(s.db, p.user, p.version, p.level, now).value;
    InsertedOk(codes, s, p, now);
    SessionsOnlyEvolve(s.db, db);
    LineagesBelow(s);
    assert s.db.nextSid !in s.db.sessions.Keys;
    AddedSession(s, db, Session(p.user, p.level, now.time, now.until), InsertTrail(s, p));
  }

  lemma InsertKeeps(codes: Codes, s: System, pid: nat, now: Clock)
    requires Inv(codes, s)
    ensures Inv(codes, DoInsert(s, pid, now))
  {
    EndKeeps(codes, s, pid);
    if pid in s.procs && s.procs[pid].Decided? {
      var p := s.procs[pid];
      var made := CreateSession(s.db, p.user, p.version, p.level, now);
      if made.Some? {
        var s1 := s.(db := made.value, trails := s.trails[s.db.nextSid := InsertTrail(s, p)]);
        InsertedSessions(codes, s, p, now);
        EndActs(codes, s, s1, Some(pid));
        Finish(codes, s, s1, Some(pid));
      }
    }
  }

  // ---- the second factor ----

  lemma RowUsers(codes: Codes, s: System, db: Db, id: int, accepted: seq<Acceptance>)
    requires UsersInv(codes, s) && id in s.db.users && db.users.Keys == s.db.users.Keys
    requires forall k :: k in s.db.users && k != id ==> db.users[k] == s.db.users[k]
    requires UserOk(codes, db.users[id], accepted)
    ensures UsersInv(codes, SetAccepted(s.(db := db), id, accepted))
  {
  }

  lemma ConsumeKeeps(codes: Codes, s: System, pid: nat)
    requires Inv(codes, s)
    ensures Inv(codes, DoConsume(s, pid))
  {
    EndKeeps(codes, s, pid);
    if pid in s.procs && s.procs[pid].VerifyMatched? {
      var p := s.procs[pid];
      assert ProcInv(codes, s.db, p);
      var used := SetLastUsed(s.db, p.user, p.accepted.counter);
      if used.Some? {
        var db := used.value;
        var s1 := SetAccepted(s.(db := db), p.user, MarksOf(s, p.user).accepted + [p.accepted]);
        RowEvolves(s.db, db, p.user);
        RowSessions(s, s1, p.user);
        LongerIncreasing(codes, s.db.users[p.user], s.marks[p.user].accepted, p.accepted);
        RowUsers(codes, s, db, p.user, s.marks[p.user].accepted + [p.accepted]);
        Continue(codes, s, s1, pid, Proven(p.user, p.sid, Code(p.accepted.counter)));
      }
    }
  }

  /** A counter beyond the last one used extends the accepted codes. */
  lemma LongerIncreasing(codes: Codes, u: User, accepted: seq<Acceptance>, a: Acceptance)
    requires UserOk(codes, u, accepted) && u.confirmed && u.lastUsed < a.counter && AcceptedOk(codes, u.secret, a)
    ensures UserOk(codes, u.(lastUsed := a.counter), accepted + [a])
  {
  }

  lemma PendingParts(codes: Codes, s: System, id: int, secret: string)
    requires Inv(codes, s) && id in s.db.users && secret != ""
    ensures var db := SetPendingTotp(s.db, id, secret).value;
            var s1 := SetAccepted(s.(db := db), id, []);
            DbInv(db) && Evolves(s.db, db) && SessionsInv(s1) && UsersInv(codes, s1)
  {
    var db := SetPendingTotp(s.db, id, secret).value;
    RowEvolves(s.db, db, id);
    RowSessions(s, SetAccepted(s.(db := db), id, []), id);
    RowUsers(codes, s, db, id, []);
  }

  lemma BeginTotpKeeps(codes: Codes, s: System, pid: nat, secret: string)
    requires Inv(codes, s)
    ensures Inv(codes, DoBeginTotp(s, pid, secret))
  {
    EndKeeps(codes, s, pid);
    if pid in s.procs && s.procs[pid].Enrolling? && secret != "" {
      var id := s.procs[pid].user;
      if id in s.db.users {
        PendingParts(codes, s, id, secret);
        Conclude(codes, s, SetAccepted(s.(db := SetPendingTotp(s.db, id, secret).value), id, []), pid);
      }
    }
  }

  /** The tables and history after an enrolment of `id` by session `sid`. */
  function EnrolledSystem(s: System, b: Db, id: int, sid: nat, accepted: seq<Acceptance>): System {
    SetEvidence(SetAccepted(Revoked(s, FactorChange(b, id, Some(sid)), id, Some(sid)), id, accepted), sid, EnrolledFactor)
  }

  lemma EnrolledParts(s: System, b: Db, id: int, sid: nat, accepted: seq<Acceptance>)
    ensures var s1, s2 := AfterRevoking(s, b, id, Some(sid), Some(EnrolledFactor)), EnrolledSystem(s, b, id, sid, accepted);
            s2.db == s1.db == FactorChange(b, id, Some(sid)) && s2.trails == s1.trails &&
            s2.procs == s.procs && s2.lock == s.lock &&
            s2.marks == SetAccepted(Revoked(s, FactorChange(b, id, Some(sid)), id, Some(sid)), id, accepted).marks &&
            forall k :: MarksOf(s2, k).keeper == MarksOf(s1, k).keeper
  {
  }

  lemma EnrolTables(codes: Codes, s: System, b: Db, id: int, sid: nat, accepted: seq<Acceptance>)
    requires Inv(codes, s) && OnlyFor(s.db, b, id) && OwnSession(s.db, id, sid)
    requires id in b.users && b.users[id].confirmed ==> b.users[id].secret != ""
    requires id in b.users ==> UserOk(codes, b.users[id], accepted)
    ensures var s2 := EnrolledSystem(s, b, id, sid, accepted);
            DbInv(s2.db) && Evolves(s.db, s2.db) && SessionsInv(s2) && UsersInv(codes, s2)
  {
    EnrolledParts(s, b, id, sid, accepted);
    FactorChangeEvolves(s.db, b, id, Some(sid));
    RevokedSessions(s, b, id, Some(sid), Some(EnrolledFactor));
    SessionsDepend(AfterRevoking(s, b, id, Some(sid), Some(EnrolledFactor)), EnrolledSystem(s, b, id, sid, accepted));
    RevokedUsers(codes, s, b, id, Some(sid), accepted);
  }

  /** Tables and history are sound; the acting process moves on to `p`. */
  lemma Continue(codes: Codes, s: System, s1: System, pid: nat, p: Process)
    requires Inv(codes, s) && s1.procs == s.procs && s1.lock == s.lock
    requires pid in s.procs && Holding(s.procs[pid]) && Holding(p) && ProcInv(codes, s1.db, p)
    requires DbInv(s1.db) && Evolves(s.db, s1.db) && SessionsInv(s1) && UsersInv(codes, s1)
    ensures Inv(codes, Go(s1, pid, p))
  {
    SessionsDepend(s1, Go(s1, pid, p));
    Assemble(codes, s, Go(s1, pid, p), Some(pid));
  }

  /** Tables and history are sound; the acting process, which holds the lock, ends. */
  lemma Conclude(codes: Codes, s: System, s1: System, pid: nat)
    requires Inv(codes, s) && s1.procs == s.procs && s1.lock == s.lock
    requires pid in s.procs && Holding(s.procs[pid])
    requires DbInv(s1.db) && Evolves(s.db, s1.db) && SessionsInv(s1) && UsersInv(codes, s1)
    ensures Inv(codes, End(s1, pid))
  {
    EndActs(codes, s, s1, Some(pid));
    Finish(codes, s, s1, Some(pid));
  }

  /** Enrolling keeps the invariants: the enrolling session carries the new
      factor as its evidence, and every other session of the user is gone. */
  lemma EnrolKeeps(codes: Codes, s: System, pid: nat, b: Db, id: int, sid: nat, level: Level, accepted: seq<Acceptance>)
    requires Inv(codes, s) && OnlyFor(s.db, b, id)
    requires pid in s.procs && Holding(s.procs[pid]) && OwnSession(s.db, id, sid) && id < s.db.nextUser
    requires id in b.users && b.users[id].confirmed ==> b.users[id].secret != ""
    requires id in b.users ==> UserOk(codes, b.users[id], accepted)
    ensures var s1 := SetAccepted(Revoked(s, FactorChange(b, id, Some(sid)), id, Some(sid)), id, accepted);
            Inv(codes, AfterEnrol(s1, pid, id, sid, level))
  {
    var s2 := EnrolledSystem(s, b, id, sid, accepted);
    EnrolTables(codes, s, b, id, sid, accepted);
    EnrolledParts(s, b, id, sid, accepted);
    if level == Enroll {
      Continue(codes, s, s2, pid, Proven(id, sid, EnrolledFactor));
    } else {
      Conclude(codes, s, s2, pid);
    }
  }

  lemma ConfirmKeeps(codes: Codes, s: System, pid: nat)
    requires Inv(codes, s)
    ensures Inv(codes, DoConfirm(s, pid))
  {
    EndKeeps(codes, s, pid);
    if pid in s.procs && s.procs[pid].ConfirmMatched? {
      var p := s.procs[pid];
      assert ProcInv(codes, s.db, p);
      if ConfirmTotp(s.db, p.user, p.accepted.counter, Some(p.sid)).Some? {
        var u := s.db.users[p.user].(confirmed := true, lastUsed := p.accepted.counter);
        var b := s.db.(users := s.db.users[p.user := u]);
        EnrolKeeps(codes, s, pid, b, p.user, p.sid, p.level, [p.accepted]);
      }
    }
  }

  lemma RegisterKeeps(codes: Codes, s: System, pid: nat, credential: string)
    requires Inv(codes, s)
    ensures Inv(codes, DoRegister(s, pid, credential))
  {
    EndKeeps(codes, s, pid);
    if pid in s.procs && s.procs[pid].Enrolling? {
      var p := s.procs[pid];
      assert ProcInv(codes, s.db, p);
      if AddCredential(s.db, p.user, credential, Some(p.sid)).Some? {
        var b := s.db.(credentials := s.db.credentials[credential := p.user]);
        EnrolKeeps(codes, s, pid, b, p.user, p.sid, p.level, s.marks[p.user].accepted);
        AcceptedSame(Revoked(s, FactorChange(b, p.user, Some(p.sid)), p.user, Some(p.sid)), p.user);
      }
    }
  }

  /** Without one session the others stay sound. */
  lemma CutSession(s: System, sid: nat)
    requires DbInv(s.db) && SessionsInv(s) && sid in s.db.sessions
    ensures var s1 := WithDb(s, s.db.(sessions := s.db.sessions - {sid}));
            SessionsInv(s1) && s1.trails == s.trails - {sid} &&
            forall k :: k in s1.trails ==> s1.trails[k].lineage != s.trails[sid].lineage
  {
    var cut := s.db.(sessions := s.db.sessions - {sid});
    ShrunkSessions(s, cut);
    assert Restrict(s.trails, cut.sessions) == s.trails - {sid};
  }

  lemma UpgradedSessions(s: System, sid: nat, now: Clock, e: Evidence)
    requires DbInv(s.db) && SessionsInv(s) && UpgradeSession(s.db, sid, now).Some? && !e.Unproven?
    ensures var db := UpgradeSession(s.db, sid, now).value;
            SessionsInv(s.(db := db, trails := (s.trails - {sid})[s.db.nextSid := s.trails[sid].(evidence := e)]))
  {
    var cut := s.db.(sessions := s.db.sessions - {sid});
    CutSession(s, sid);
    var s1 := WithDb(s, cut);
    var r, t := Session(s.db.sessions[sid].user, Full, now.time, now.until), s.trails[sid].(evidence := e);
    var db := UpgradeSession(s.db, sid, now).value;
    assert SessionOk(s.db, s.db.sessions[sid], s.trails[sid], MarksOf(s, r.user).keeper);
    assert s.db.nextSid !in s.db.sessions.Keys;
    AddedSession(s1, db, r, t);
  }

  lemma UpgradedTables(db: Db, sid: nat, now: Clock)
    requires DbInv(db) && UpgradeSession(db, sid, now).Some?
    ensures var db' := UpgradeSession(db, sid, now).value;
            DbInv(db') && Evolves(db, db') && db'.users == db.users && db'.nextUser == db.nextUser
  {
    SessionsOnlyEvolve(db, UpgradeSession(db, sid, now).value);
  }

  /** The session is raised and carries its evidence over. */
  function Raised(s: System, sid: nat, now: Clock, e: Evidence): System
    requires UpgradeSession(s.db, sid, now).Some? && sid in s.trails
  {
    s.(db := UpgradeSession(s.db, sid, now).value,
       trails := (s.trails - {sid})[s.db.nextSid := s.trails[sid].(evidence := e)])
  }

  lemma RaisedParts(codes: Codes, s: System, sid: nat, now: Clock, e: Evidence)
    requires Inv(codes, s) && UpgradeSession(s.db, sid, now).Some? && sid in s.trails && !e.Unproven?
    ensures var s1 := Raised(s, sid, now, e);
            DbInv(s1.db) && Evolves(s.db, s1.db) && SessionsInv(s1) && UsersInv(codes, s1)
  {
    UpgradedSessions(s, sid, now, e);
    UpgradedTables(s.db, sid, now);
  }

  lemma RaisedKeeps(codes: Codes, s: System, pid: nat, p: Process, now: Clock)
    requires Inv(codes, s) && pid in s.procs && s.procs[pid] == p && p.Proven?
    requires UpgradeSession(s.db, p.sid, now).Some? && p.sid in s.trails
    ensures var s1 := Raised(s, p.sid, now, p.evidence);
            Inv(codes, End(s1, pid)) && forall version :: Inv(codes, Go(s1, pid, Remembering(p.user, version)))
  {
    assert ProcInv(codes, s.db, p);
    var s1 := Raised(s, p.sid, now, p.evidence);
    RaisedParts(codes, s, p.sid, now, p.evidence);
    Conclude(codes, s, s1, pid);
    forall version: nat
      ensures Inv(codes, Go(s1, pid, Remembering(p.user, version)))
    {
      Continue(codes, s, s1, pid, Remembering(p.user, version));
    }
  }

  lemma UpgradeKeeps(codes: Codes, s: System, pid: nat, now: Clock, remember: bool)
    requires Inv(codes, s)
    ensures Inv(codes, DoUpgrade(s, pid, now, remember))
  {
    EndKeeps(codes, s, pid);
    if pid in s.procs && s.procs[pid].Proven? && UpgradeSession(s.db, s.procs[pid].sid, now).Some? {
      assert s.procs[pid].sid in s.trails.Keys;
      RaisedKeeps(codes, s, pid, s.procs[pid], now);
    }
  }

  lemma RememberKeeps(codes: Codes, s: System, pid: nat)
    requires Inv(codes, s)
    ensures Inv(codes, DoRemember(s, pid))
  {
    EndKeeps(codes, s, pid);
    if pid in s.procs && s.procs[pid].Remembering? {
      var added := AddTrustedDevice(s.db, s.procs[pid].user);
      if added.Some? {
        var s1 := s.(db := added.value, grants := s.grants[s.db.nextSid := s.procs[pid].version]);
        SessionsOnlyEvolve(s.db, s1.db);
        SessionsDepend(s, s1);
        EndActs(codes, s, s1, Some(pid));
        Finish(codes, s, s1, Some(pid));
      }
    }
  }

  lemma FewerKeys(credentials: map<string, int>, credential: string, id: int)
    requires HasKey(credentials - {credential}, id)
    ensures HasKey(credentials, id)
  {
    var c :| c in credentials - {credential} && credentials[c] == id;
    assert c in credentials;
  }

  lemma RemoveFactorKeeps(codes: Codes, s: System, pid: nat, credential: string)
    requires Inv(codes, s)
    ensures Inv(codes, DoRemoveFactor(s, pid, credential))
  {
    EndKeeps(codes, s, pid);
    if Requesting(s, pid, Full) && s.lock == None {
      var p := s.procs[pid];
      assert ProcInv(codes, s.db, p);
      if RemoveFactor(s.db, p.user, credential, Some(p.sid)).Some? {
        if credential == "" {
          var b := s.db.(users := s.db.users[p.user := ClearTotp(s.db.users[p.user])]);
          RevokingKeeps(codes, s, b, p.user, Some(p.sid), [], Some(pid));
        } else {
          var b := s.db.(credentials := s.db.credentials - {credential});
          if HasKey(b.credentials, p.user) {
            FewerKeys(s.db.credentials, credential, p.user);
          }
          RevokingKeeps(codes, s, b, p.user, Some(p.sid), s.marks[p.user].accepted, Some(pid));
          AcceptedSame(Revoked(s, FactorChange(b, p.user, Some(p.sid)), p.user, Some(p.sid)), p.user);
        }
      }
    }
  }

  // ---- passwords ----

  lemma WritePasswordKeeps(codes: Codes, s: System, pid: nat, hash: string)
    requires Inv(codes, s)
    ensures Inv(codes, DoWritePassword(s, pid, hash))
  {
    EndKeeps(codes, s, pid);
    if pid in s.procs && s.procs[pid].ChangingPassword? {
      var p := s.procs[pid];
      assert ProcInv(codes, s.db, p);
      if ChangePassword(s.db, p.user, hash, Some(p.sid), Some(p.hash)).Some? {
        var b := s.db.(users := s.db.users[p.user := s.db.users[p.user].(hash := hash)]);
        RevokingKeeps(codes, s, b, p.user, Some(p.sid), s.marks[p.user].accepted, Some(pid));
        AcceptedSame(Revoked(s, FactorChange(b, p.user, Some(p.sid)), p.user, Some(p.sid)), p.user);
      }
    }
  }

  lemma MarkedSessions(s: System, db: Db, sid: nat, now: int, pair: (string, string))
    requires SessionsInv(s) && sid in s.db.sessions && sid in s.trails && pair.0 == pair.1
    requires db == s.db.(sessions := s.db.sessions[sid := s.db.sessions[sid].(verifiedAt := now)])
    ensures SessionsInv(s.(db := db, trails := s.trails[sid := s.trails[sid].(reauth := Some(pair))]))
  {
    var s' := s.(db := db, trails := s.trails[sid := s.trails[sid].(reauth := Some(pair))]);
    forall k | k in db.sessions
      ensures SessionOk(db, db.sessions[k], s'.trails[k], MarksOf(s', db.sessions[k].user).keeper)
    {
      assert SessionOk(s.db, s.db.sessions[k], s.trails[k], MarksOf(s, s.db.sessions[k].user).keeper);
      assert Enrolled(db, db.sessions[k].user) == Enrolled(s.db, s.db.sessions[k].user);
    }
  }

  lemma MarkedTables(a: Db, b: Db, sid: nat, now: int)
    requires DbInv(a) && sid in a.sessions
    requires b == a.(sessions := a.sessions[sid := a.sessions[sid].(verifiedAt := now)])
    ensures DbInv(b) && Evolves(a, b) && TotpKept(a, b) && b.users == a.users
  {
    SessionsOnlyEvolve(a, b);
  }

  lemma MarkKeeps(codes: Codes, s: System, pid: nat, now: int)
    requires Inv(codes, s)
    ensures Inv(codes, DoMark(s, pid, now))
  {
    EndKeeps(codes, s, pid);
    if pid in s.procs && s.procs[pid].Reauthing? {
      var p := s.procs[pid];
      assert ProcInv(codes, s.db, p);
      var marked := MarkReauthenticated(s.db, p.sid, p.user, p.version, now);
      if marked.Some? {
        assert p.sid in s.trails.Keys;
        var pair := (p.hash, s.db.users[p.user].hash);
        var s1 := s.(db := marked.value, trails := s.trails[p.sid := s.trails[p.sid].(reauth := Some(pair))]);
        MarkedParts(codes, s, p, now);
        EndActs(codes, s, s1, Some(pid));
        Finish(codes, s, s1, Some(pid));
      }
    }
  }

  lemma MarkedParts(codes: Codes, s: System, p: Process, now: int)
    requires Inv(codes, s) && p.Reauthing? && ProcInv(codes, s.db, p)
    requires MarkReauthenticated(s.db, p.sid, p.user, p.version, now).Some? && p.sid in s.trails
    ensures var db := MarkReauthenticated(s.db, p.sid, p.user, p.version, now).value;
            var pair := (p.hash, s.db.users[p.user].hash);
            DbInv(db) && Evolves(s.db, db) && TotpKept(s.db, db) &&
            SessionsInv(s.(db := db, trails := s.trails[p.sid := s.trails[p.sid].(reauth := Some(pair))]))
  {
    var db := MarkReauthenticated(s.db, p.sid, p.user, p.version, now).value;
    MarkedSessions(s, db, p.sid, now, (p.hash, s.db.users[p.user].hash));
    MarkedTables(s.db, db, p.sid, now);
  }

  // ---- every action, every run ----

  lemma EnterVerifyKeeps(codes: Codes, s: System, pid: nat)
    requires Inv(codes, s)
    ensures Inv(codes, DoEnterVerify(s, pid))
  {
    if Requesting(s, pid, Mfa) && s.lock == None && s.procs[pid].user in s.db.users {
      var p := s.procs[pid];
      EnterKeeps(codes, s, pid, Verifying(p.user, p.sid, s.db.users[p.user].secret, s.db.users[p.user].confirmed));
    }
  }

  lemma EnterAssertKeeps(codes: Codes, s: System, pid: nat, credential: string)
    requires Inv(codes, s)
    ensures Inv(codes, DoEnterAssert(s, pid, credential))
  {
    if DoEnterAssert(s, pid, credential) != s {
      var p := s.procs[pid];
      EnterKeeps(codes, s, pid, Proven(p.user, p.sid, Assertion(credential)));
    }
  }

  lemma EnterEnrolKeeps(codes: Codes, s: System, pid: nat)
    requires Inv(codes, s)
    ensures Inv(codes, DoEnterEnrol(s, pid))
  {
    if DoEnterEnrol(s, pid) != s {
      var p := s.procs[pid];
      EnterKeeps(codes, s, pid, Enrolling(p.user, p.sid, p.level));
    }
  }

  lemma ReadPasswordKeeps(codes: Codes, s: System, pid: nat)
    requires Inv(codes, s)
    ensures Inv(codes, DoReadPassword(s, pid))
  {
    if Requesting(s, pid, Full) && s.procs[pid].user in s.db.users {
      var p := s.procs[pid];
      ReadHashKeeps(codes, s, pid, ChangingPassword(p.user, p.sid, s.db.users[p.user].hash));
    }
  }

  lemma ReadReauthKeeps(codes: Codes, s: System, pid: nat)
    requires Inv(codes, s)
    ensures Inv(codes, DoReadReauth(s, pid))
  {
    if Requesting(s, pid, Full) && s.procs[pid].user in s.db.users {
      var p := s.procs[pid];
      ReadHashKeeps(codes, s, pid, Reauthing(p.user, p.sid, s.db.users[p.user].hash, s.db.users[p.user].version));
    }
  }

  lemma UserAdministrationKeeps(codes: Codes, s: System, a: Action)
    requires Inv(codes, s) && (a.NewUser? || a.ChangeUser? || a.RemoveUser?)
    ensures Inv(codes, AdministrationStep(codes, s, a))
  {
    match a
    case NewUser(name, hash, role) => CreateUserKeeps(codes, s, name, hash, role);
    case ChangeUser(id, role, hash) => ChangeAccountKeeps(codes, s, id, role, hash);
    case RemoveUser(id) => DeleteUserKeeps(codes, s, id);
  }

  lemma UpkeepKeeps(codes: Codes, s: System, a: Action)
    requires Inv(codes, s) && (a.Policy? || a.ResetMfa? || a.Drop?)
    ensures Inv(codes, AdministrationStep(codes, s, a))
  {
    match a
    case Policy(roles) => PolicyKeeps(codes, s, roles);
    case ResetMfa(id) => ResetKeeps(codes, s, id);
    case Drop(sid) => DropKeeps(codes, s, sid);
  }

  lemma AdministrationKeeps(codes: Codes, s: System, a: Action)
    requires Inv(codes, s)
    ensures Inv(codes, AdministrationStep(codes, s, a))
  {
    if a.NewUser? || a.ChangeUser? || a.RemoveUser? {
      UserAdministrationKeeps(codes, s, a);
    } else if a.Policy? || a.ResetMfa? || a.Drop? {
      UpkeepKeeps(codes, s, a);
    }
  }

  lemma LoginKeeps(codes: Codes, s: System, a: Action)
    requires Inv(codes, s)
    ensures Inv(codes, LoginStep(codes, s, a))
  {
    match a
    case Setup(pid, name, hash) => SetupKeeps(codes, s, pid, name, hash);
    case CheckPassword(pid, id) => CheckPasswordKeeps(codes, s, pid, id);
    case BeginPasskey(pid, id) => BeginPasskeyKeeps(codes, s, pid, id);
    case LoadUser(pid) => LoadKeeps(codes, s, pid);
    case Decide(pid) => DecideKeeps(codes, s, pid);
    case _ =>
  }

  lemma CommitKeeps(codes: Codes, s: System, a: Action)
    requires Inv(codes, s)
    ensures Inv(codes, CommitStep(codes, s, a))
  {
    match a
    case UseTrust(pid, device) => UseTrustKeeps(codes, s, pid, device);
    case AssertPasskey(pid, credential) => AssertPasskeyKeeps(codes, s, pid, credential);
    case Insert(pid, now) => InsertKeeps(codes, s, pid, now);
    case Begin(pid, sid, now) => BeginKeeps(codes, s, pid, sid, now);
    case Admit(pid) => AdmitKeeps(codes, s, pid);
    case _ =>
  }

  lemma CodeKeeps(codes: Codes, s: System, a: Action)
    requires Inv(codes, s) && (a.EnterVerify? || a.VerifyCode? || a.Consume?)
    ensures Inv(codes, VerificationStep(codes, s, a))
  {
    match a
    case EnterVerify(pid) => EnterVerifyKeeps(codes, s, pid);
    case VerifyCode(pid, code, at) => VerifyCodeKeeps(codes, s, pid, code, at);
    case Consume(pid) => ConsumeKeeps(codes, s, pid);
  }

  lemma RaiseKeeps(codes: Codes, s: System, a: Action)
    requires Inv(codes, s) && (a.EnterAssert? || a.Upgrade? || a.Remember?)
    ensures Inv(codes, VerificationStep(codes, s, a))
  {
    match a
    case EnterAssert(pid, credential) => EnterAssertKeeps(codes, s, pid, credential);
    case Upgrade(pid, now, remember) => UpgradeKeeps(codes, s, pid, now, remember);
    case Remember(pid) => RememberKeeps(codes, s, pid);
  }

  lemma VerificationKeeps(codes: Codes, s: System, a: Action)
    requires Inv(codes, s)
    ensures Inv(codes, VerificationStep(codes, s, a))
  {
    if a.EnterVerify? || a.VerifyCode? || a.Consume? {
      CodeKeeps(codes, s, a);
    } else if a.EnterAssert? || a.Upgrade? || a.Remember? {
      RaiseKeeps(codes, s, a);
    }
  }

  lemma PendingKeeps(codes: Codes, s: System, a: Action)
    requires Inv(codes, s) && (a.EnterEnrol? || a.BeginTotp? || a.ReadPending?)
    ensures Inv(codes, EnrolmentStep(codes, s, a))
  {
    match a
    case EnterEnrol(pid) => EnterEnrolKeeps(codes, s, pid);
    case BeginTotp(pid, secret) => BeginTotpKeeps(codes, s, pid, secret);
    case ReadPending(pid) => ReadPendingKeeps(codes, s, pid);
  }

  lemma NewFactorKeeps(codes: Codes, s: System, a: Action)
    requires Inv(codes, s) && (a.ConfirmCode? || a.Confirm? || a.Register?)
    ensures Inv(codes, EnrolmentStep(codes, s, a))
  {
    match a
    case ConfirmCode(pid, code, at) => ConfirmCodeKeeps(codes, s, pid, code, at);
    case Confirm(pid) => ConfirmKeeps(codes, s, pid);
    case Register(pid, credential) => RegisterKeeps(codes, s, pid, credential);
  }

  lemma EnrolmentKeeps(codes: Codes, s: System, a: Action)
    requires Inv(codes, s)
    ensures Inv(codes, EnrolmentStep(codes, s, a))
  {
    if a.EnterEnrol? || a.BeginTotp? || a.ReadPending? {
      PendingKeeps(codes, s, a);
    } else if a.ConfirmCode? || a.Confirm? || a.Register? {
      NewFactorKeeps(codes, s, a);
    }
  }

  lemma ProfileKeeps(codes: Codes, s: System, a: Action)
    requires Inv(codes, s) && (a.RemoveOwn? || a.ReadPassword? || a.WritePassword?)
    ensures Inv(codes, SessionStep(codes, s, a))
  {
    match a
    case RemoveOwn(pid, credential) => RemoveFactorKeeps(codes, s, pid, credential);
    case ReadPassword(pid) => ReadPasswordKeeps(codes, s, pid);
    case WritePassword(pid, hash) => WritePasswordKeeps(codes, s, pid, hash);
  }

  lemma ReauthKeeps(codes: Codes, s: System, a: Action)
    requires Inv(codes, s) && (a.ReadReauth? || a.Mark? || a.Abort?)
    ensures Inv(codes, SessionStep(codes, s, a))
  {
    match a
    case ReadReauth(pid) => ReadReauthKeeps(codes, s, pid);
    case Mark(pid, now) => MarkKeeps(codes, s, pid, now);
    case Abort(pid) => EndKeeps(codes, s, pid);
  }

  lemma SessionKeeps(codes: Codes, s: System, a: Action)
    requires Inv(codes, s)
    ensures Inv(codes, SessionStep(codes, s, a))
  {
    if a.RemoveOwn? || a.ReadPassword? || a.WritePassword? {
      ProfileKeeps(codes, s, a);
    } else if a.ReadReauth? || a.Mark? || a.Abort? {
      ReauthKeeps(codes, s, a);
    }
  }

  /** Every action keeps the invariants. */
  lemma StepKeeps(codes: Codes, s: System, a: Action)
    requires Inv(codes, s)
    ensures Inv(codes, Step(codes, s, a))
  {
    AdministrationKeeps(codes, s, a);
    LoginKeeps(codes, s, a);
    CommitKeeps(codes, s, a);
    VerificationKeeps(codes, s, a);
    EnrolmentKeeps(codes, s, a);
    SessionKeeps(codes, s, a);
  }

  lemma {:induction false} RunKeeps(codes: Codes, s: System, actions: seq<Action>)
    requires Inv(codes, s)
    ensures Inv(codes, Run(codes, s, actions))
    decreases |actions|
  {
    if actions != [] {
      StepKeeps(codes, s, actions[0]);
      RunKeeps(codes, Step(codes, s, actions[0]), actions[1..]);
    }
  }
}
