/** The invariants of the account system and the proof that every action keeps
    them. */
module AccountInvariants {
  import opened Wrappers
  import opened AccountStore
  import opened Totp
  import opened AccountSystem

  // ---- the tables ----

  ghost predicate DbInv(db: Db) {
    && (forall id :: id in db.users ==> id < db.nextUser)
    && (forall id :: id in db.users && db.users[id].confirmed ==> db.users[id].secret != "")
    && (forall sid :: sid in db.sessions ==> sid < db.nextSid && db.sessions[sid].user in db.users)
    && (forall c :: c in db.credentials ==> db.credentials[c] in db.users)
    && (forall t :: t in db.trusted ==> t < db.nextSid && db.trusted[t] in db.users)
  }

  /** How one user's row may change: versions never go back, and while the
      version stays the same the hash stays and no factor appears. */
  ghost predicate UserEvolves(a: Db, b: Db, id: int) {
    id in b.users ==>
      (id in a.users &&
       a.users[id].version <= b.users[id].version &&
       (a.users[id].version == b.users[id].version ==>
          a.users[id].hash == b.users[id].hash && (Enrolled(b, id) ==> Enrolled(a, id))))
      || id >= a.nextUser
  }

  ghost predicate Evolves(a: Db, b: Db) {
    && a.nextUser <= b.nextUser && a.nextSid <= b.nextSid
    && (forall id :: UserEvolves(a, b, id))
    && (forall sid :: sid in b.sessions && sid < a.nextSid ==>
          sid in a.sessions && a.sessions[sid].user == b.sessions[sid].user)
  }

  /** The TOTP enrolments that exist are left alone. */
  ghost predicate TotpKept(a: Db, b: Db) {
    forall id :: id in b.users && id in a.users ==>
      b.users[id].secret == a.users[id].secret && b.users[id].confirmed == a.users[id].confirmed
  }

  // ---- sessions ----

  predicate Backed(e: Evidence) {
    !e.Unproven? || e.sawFactor
  }

  ghost predicate SessionOk(db: Db, r: Session, t: Trail, keeper: Option<nat>) {
    && (r.level == Full && Enrolled(db, r.user) ==> Backed(t.evidence))
    && (r.level == Full && t.evidence == Unproven(true) ==> t.checked.None?)
    && (t.checked.Some? ==> t.checked.value == t.stored)
    && (t.reauth.Some? ==> t.reauth.value.0 == t.reauth.value.1)
    && t.lineage < db.nextSid
    && (r.user in db.users ==> t.born == db.users[r.user].version || keeper == Some(t.lineage))
  }

  ghost predicate SessionsInv(s: System) {
    && s.trails.Keys == s.db.sessions.Keys
    && (forall sid :: sid in s.db.sessions ==>
          SessionOk(s.db, s.db.sessions[sid], s.trails[sid], MarksOf(s, s.db.sessions[sid].user).keeper))
    && (forall i, j :: i in s.trails && j in s.trails && i != j ==> s.trails[i].lineage != s.trails[j].lineage)
  }

  // ---- accepted codes ----

  ghost predicate AcceptedOk(codes: Codes, secret: string, a: Acceptance) {
    && a.now / PERIOD - SKEW <= a.counter <= a.now / PERIOD + SKEW
    && a.secret == secret && codes.at(secret, a.counter) == a.code
  }

  ghost predicate Increasing(accepted: seq<Acceptance>) {
    forall i, j :: 0 <= i < j < |accepted| ==> accepted[i].counter < accepted[j].counter
  }

  ghost predicate UserOk(codes: Codes, u: User, accepted: seq<Acceptance>) {
    && Increasing(accepted)
    && (forall a :: a in accepted ==> AcceptedOk(codes, u.secret, a))
    && (u.confirmed <==> accepted != [])
    && (u.confirmed ==> accepted[|accepted| - 1].counter == u.lastUsed)
  }

  ghost predicate UsersInv(codes: Codes, s: System) {
    forall id :: id in s.db.users ==> id in s.marks && UserOk(codes, s.db.users[id], s.marks[id].accepted)
  }

  // ---- processes ----

  /** The hash that was checked is still the stored one while `version` is. */
  ghost predicate HashKnown(db: Db, id: int, hash: string, version: nat) {
    id in db.users ==> version <= db.users[id].version &&
                       (db.users[id].version == version ==> db.users[id].hash == hash)
  }

  /** Without a factor when loaded means without one while `version` is current. */
  ghost predicate FactorKnown(db: Db, id: int, enrolled: bool, version: nat) {
    id in db.users ==> version <= db.users[id].version &&
                       (db.users[id].version == version && !enrolled ==> !Enrolled(db, id))
  }

  ghost predicate OwnSession(db: Db, id: int, sid: nat) {
    sid < db.nextSid && (sid in db.sessions ==> db.sessions[sid].user == id)
  }

  ghost predicate ProcInv(codes: Codes, db: Db, p: Process) {
    && p.user < db.nextUser
    && match p
       case PasswordOk(id, hash, version) => HashKnown(db, id, hash, version)
       case SetupCreated(id) => true
       case Loaded(id, version, enrolled, role, origin) =>
         FactorKnown(db, id, enrolled, version) &&
         (origin.ByPassword? ==> HashKnown(db, id, origin.hash, version))
       case Decided(id, version, level, evidence, origin) =>
         (evidence.Unproven? ==> FactorKnown(db, id, evidence.sawFactor, version)) &&
         (level == Full && evidence == Unproven(true) ==> origin.BySetup?) &&
         (origin.BySetup? ==> evidence.Unproven?) &&
         (origin.ByPassword? ==> HashKnown(db, id, origin.hash, version))
       case Fetched(id, sid, level, role, enrolled) => OwnSession(db, id, sid)
       case Request(id, sid, level) => OwnSession(db, id, sid)
       case Verifying(id, sid, secret, confirmed) =>
         OwnSession(db, id, sid) &&
         (id in db.users ==> db.users[id].secret == secret && db.users[id].confirmed == confirmed)
       case VerifyMatched(id, sid, a) =>
         OwnSession(db, id, sid) && AcceptedOk(codes, a.secret, a) &&
         (id in db.users ==> db.users[id].secret == a.secret && db.users[id].confirmed)
       case Enrolling(id, sid, level) => OwnSession(db, id, sid)
       case Confirming(id, sid, level, secret) =>
         OwnSession(db, id, sid) &&
         (id in db.users ==> db.users[id].secret == secret && !db.users[id].confirmed)
       case ConfirmMatched(id, sid, level, a) =>
         OwnSession(db, id, sid) && AcceptedOk(codes, a.secret, a) &&
         (id in db.users ==> db.users[id].secret == a.secret && !db.users[id].confirmed)
       case Proven(id, sid, evidence) => OwnSession(db, id, sid) && !evidence.Unproven?
       case Remembering(id, version) => true
       case ChangingPassword(id, sid, hash) => OwnSession(db, id, sid)
       case Reauthing(id, sid, hash, version) => OwnSession(db, id, sid) && HashKnown(db, id, hash, version)
  }

  ghost predicate LockInv(s: System) {
    && (forall pid :: pid in s.procs ==> (Holding(s.procs[pid]) <==> s.lock == Some(pid)))
    && (s.lock.Some? ==> s.lock.value in s.procs)
  }

  ghost predicate ProcsInv(codes: Codes, s: System) {
    forall pid :: pid in s.procs ==> ProcInv(codes, s.db, s.procs[pid])
  }

  ghost predicate Inv(codes: Codes, s: System) {
    DbInv(s.db) && SessionsInv(s) && UsersInv(codes, s) && ProcsInv(codes, s) && LockInv(s)
  }

  // ---- processes survive what others do ----

  lemma ProcKept(codes: Codes, a: Db, b: Db, p: Process)
    requires ProcInv(codes, a, p) && Evolves(a, b)
    requires Holding(p) ==> TotpKept(a, b)
    ensures ProcInv(codes, b, p)
  {
    assert UserEvolves(a, b, p.user);
  }

  /** The acting process aside, every process keeps its invariant: either it
      does not hold the lock, or the TOTP enrolments are left alone. */
  lemma OthersKept(codes: Codes, s: System, s': System, pid: Option<nat>)
    requires Inv(codes, s) && Evolves(s.db, s'.db)
    requires forall q :: q in s'.procs && Some(q) != pid ==> q in s.procs && s'.procs[q] == s.procs[q]
    requires pid.Some? && pid.value in s'.procs ==> ProcInv(codes, s'.db, s'.procs[pid.value])
    requires TotpKept(s.db, s'.db) || s.lock == None || s.lock == pid
    ensures ProcsInv(codes, s')
  {
    forall q | q in s'.procs
      ensures ProcInv(codes, s'.db, s'.procs[q])
    {
      if Some(q) != pid {
        ProcKept(codes, s.db, s'.db, s.procs[q]);
      }
    }
  }

  lemma Same(db: Db)
    ensures Evolves(db, db) && TotpKept(db, db)
  {
  }

  /** A step that only moves one process. */
  lemma Local(codes: Codes, s: System, s': System, pid: nat)
    requires Inv(codes, s)
    requires s'.db == s.db && s'.trails == s.trails && s'.marks == s.marks
    requires forall q :: q in s'.procs && q != pid ==> q in s.procs && s'.procs[q] == s.procs[q]
    requires pid in s'.procs ==> ProcInv(codes, s.db, s'.procs[pid])
    requires LockInv(s')
    ensures Inv(codes, s')
  {
    Same(s.db);
    OthersKept(codes, s, s', Some(pid));
  }

  lemma EndKeeps(codes: Codes, s: System, pid: nat)
    requires Inv(codes, s)
    ensures Inv(codes, End(s, pid))
  {
    Local(codes, s, End(s, pid), pid);
  }

  // ---- revoking changes ----

  /** The row of `id`, or keys of `id`, change; nothing else does. */
  ghost predicate OnlyFor(a: Db, b: Db, id: int) {
    && b.sessions == a.sessions && b.trusted == a.trusted && b.required == a.required
    && b.nextUser == a.nextUser && b.nextSid == a.nextSid
    && b.users.Keys == a.users.Keys
    && (id in a.users ==> b.users[id].version == a.users[id].version)
    && (forall k :: k in a.users && k != id ==> b.users[k] == a.users[k])
    && (forall c :: c in a.credentials && a.credentials[c] != id ==> c in b.credentials && b.credentials[c] == a.credentials[c])
    && (forall c :: c in b.credentials && b.credentials[c] != id ==> c in a.credentials && b.credentials[c] == a.credentials[c])
    && (id !in a.users ==> b.credentials == a.credentials)
  }

  lemma OnlyForOthers(a: Db, b: Db, id: int, other: int)
    requires OnlyFor(a, b, id) && other != id
    ensures Enrolled(b, other) == Enrolled(a, other)
  {
    if HasKey(a.credentials, other) {
      var c :| c in a.credentials && a.credentials[c] == other;
      assert c in b.credentials;
    }
    if HasKey(b.credentials, other) {
      var c :| c in b.credentials && b.credentials[c] == other;
      assert c in a.credentials;
    }
  }

  lemma FactorChangeEvolves(a: Db, b: Db, id: int, keep: Option<nat>)
    requires DbInv(a) && OnlyFor(a, b, id)
    requires id in b.users && b.users[id].confirmed ==> b.users[id].secret != ""
    ensures DbInv(FactorChange(b, id, keep)) && Evolves(a, FactorChange(b, id, keep))
  {
    var c := FactorChange(b, id, keep);
    forall k
      ensures UserEvolves(a, c, k)
    {
      if k != id {
        OnlyForOthers(a, b, id, k);
      }
      assert Enrolled(c, k) == Enrolled(b, k);
    }
  }

  /** One session that survives a revoking change of `id`; `e` is the evidence
      the change itself gives to the session that made it. */
  lemma SurvivorOk(s: System, b: Db, id: int, keep: Option<nat>, e: Option<Evidence>, sid: nat)
    requires SessionsInv(s) && OnlyFor(s.db, b, id)
    requires e.Some? ==> !e.value.Unproven?
    requires e.None? ==> Enrolled(b, id) ==> Enrolled(s.db, id)
    requires sid in s.db.sessions && (s.db.sessions[sid].user != id || keep == Some(sid))
    ensures var r, t := s.db.sessions[sid], s.trails[sid];
            var t' := if e.Some? && keep == Some(sid) then t.(evidence := e.value) else t;
            var keeper := if r.user == id then Lineage(s.trails, keep) else MarksOf(s, r.user).keeper;
            SessionOk(FactorChange(b, id, keep), r, t', keeper)
  {
    var r := s.db.sessions[sid];
    var c := FactorChange(b, id, keep);
    assert SessionOk(s.db, r, s.trails[sid], MarksOf(s, r.user).keeper);
    assert Enrolled(c, r.user) == Enrolled(b, r.user);
    if r.user != id {
      OnlyForOthers(s.db, b, id, r.user);
    }
  }

  function AfterRevoking(s: System, b: Db, id: int, keep: Option<nat>, e: Option<Evidence>): System {
    var s1 := Revoked(s, FactorChange(b, id, keep), id, keep);
    if e.Some? && keep.Some? then SetEvidence(s1, keep.value, e.value) else s1
  }

  /** After a revoking change of `id` every remaining session is sound. */
  lemma RevokedSessions(s: System, b: Db, id: int, keep: Option<nat>, e: Option<Evidence>)
    requires SessionsInv(s) && OnlyFor(s.db, b, id)
    requires keep.Some? ==> OwnSession(s.db, id, keep.value)
    requires e.Some? ==> !e.value.Unproven?
    requires e.None? ==> Enrolled(b, id) ==> Enrolled(s.db, id)
    ensures SessionsInv(AfterRevoking(s, b, id, keep, e))
  {
    var s2 := AfterRevoking(s, b, id, keep, e);
    RevokedTrails(s, b, id, keep, e);
    forall sid | sid in s2.db.sessions
      ensures SessionOk(s2.db, s2.db.sessions[sid], s2.trails[sid], MarksOf(s2, s2.db.sessions[sid].user).keeper)
    {
      SurvivorOk(s, b, id, keep, e, sid);
    }
  }

  lemma RevokedTrails(s: System, b: Db, id: int, keep: Option<nat>, e: Option<Evidence>)
    requires SessionsInv(s) && OnlyFor(s.db, b, id)
    requires keep.Some? ==> OwnSession(s.db, id, keep.value)
    ensures var s2 := AfterRevoking(s, b, id, keep, e);
            s2.trails.Keys == s2.db.sessions.Keys && s2.db == FactorChange(b, id, keep) &&
            (forall sid :: sid in s2.db.sessions ==>
               sid in s.db.sessions && s2.db.sessions[sid] == s.db.sessions[sid] &&
               (s.db.sessions[sid].user != id || keep == Some(sid)) &&
               s2.trails[sid] == if e.Some? && keep == Some(sid) then s.trails[sid].(evidence := e.value) else s.trails[sid]) &&
            (forall k :: MarksOf(s2, k).keeper == if k == id then Lineage(s.trails, keep) else MarksOf(s, k).keeper) &&
            (forall i, j :: i in s2.trails && j in s2.trails && i != j ==> s2.trails[i].lineage != s2.trails[j].lineage)
  {
    RevokedPlain(s, b, id, keep);
    var s1 := Revoked(s, FactorChange(b, id, keep), id, keep);
    if e.Some? && keep.Some? {
      EvidenceTrails(s1, keep.value, e.value);
      EvidenceParts(s1, keep.value, e.value);
    }
  }

  lemma RevokedPlain(s: System, b: Db, id: int, keep: Option<nat>)
    requires SessionsInv(s) && OnlyFor(s.db, b, id)
    ensures var s1 := Revoked(s, FactorChange(b, id, keep), id, keep);
            s1.trails.Keys == s1.db.sessions.Keys && s1.db == FactorChange(b, id, keep) &&
            (forall sid :: sid in s1.db.sessions ==>
               sid in s.db.sessions && s1.db.sessions[sid] == s.db.sessions[sid] &&
               (s.db.sessions[sid].user != id || keep == Some(sid)) && s1.trails[sid] == s.trails[sid]) &&
            (forall k :: MarksOf(s1, k).keeper == if k == id then Lineage(s.trails, keep) else MarksOf(s, k).keeper) &&
            (forall i, j :: i in s1.trails && j in s1.trails && i != j ==> s1.trails[i].lineage != s1.trails[j].lineage)
  {
    var c := FactorChange(b, id, keep);
    WithoutMeaning(s.db.sessions, id, keep);
    assert c.sessions == Without(s.db.sessions, id, keep);
    RestrictTrails(s, c);
    RevokedParts(s, c, id, keep);
  }

  lemma WithoutMeaning(sessions: map<nat, Session>, id: int, keep: Option<nat>)
    ensures forall sid :: sid in Without(sessions, id, keep) <==>
              sid in sessions && (sessions[sid].user != id || keep == Some(sid))
    ensures forall sid :: sid in Without(sessions, id, keep) ==> Without(sessions, id, keep)[sid] == sessions[sid]
  {
  }

  lemma RevokedParts(s: System, c: Db, id: int, keep: Option<nat>)
    ensures var s1 := Revoked(s, c, id, keep);
            s1.db == c && s1.trails == Restrict(s.trails, c.sessions) &&
            (forall k :: MarksOf(s1, k).keeper == if k == id then Lineage(s.trails, keep) else MarksOf(s, k).keeper)
  {
  }

  lemma EvidenceParts(s: System, sid: nat, e: Evidence)
    ensures var s' := SetEvidence(s, sid, e);
            s'.db == s.db && s'.marks == s.marks && s'.procs == s.procs && s'.lock == s.lock
  {
  }

  /** Dropping sessions drops their history and nothing else. */
  lemma RestrictTrails(s: System, c: Db)
    requires SessionsInv(s)
    requires forall sid :: sid in c.sessions ==> sid in s.db.sessions
    ensures var trails := Restrict(s.trails, c.sessions);
            trails.Keys == c.sessions.Keys &&
            (forall sid :: sid in trails ==> trails[sid] == s.trails[sid]) &&
            (forall i, j :: i in trails && j in trails && i != j ==> trails[i].lineage != trails[j].lineage)
  {
    var trails := Restrict(s.trails, c.sessions);
    forall sid | sid in c.sessions
      ensures sid in trails
    {
      assert sid in s.db.sessions.Keys;
    }
  }

  lemma EvidenceTrails(s: System, sid: nat, e: Evidence)
    requires forall i, j :: i in s.trails && j in s.trails && i != j ==> s.trails[i].lineage != s.trails[j].lineage
    ensures var s' := SetEvidence(s, sid, e);
            s'.trails.Keys == s.trails.Keys &&
            (forall k :: k in s'.trails ==> s'.trails[k] == if k == sid then s.trails[k].(evidence := e) else s.trails[k]) &&
            (forall i, j :: i in s'.trails && j in s'.trails && i != j ==> s'.trails[i].lineage != s'.trails[j].lineage)
  {
    var s' := SetEvidence(s, sid, e);
    forall i, j | i in s'.trails && j in s'.trails && i != j
      ensures s'.trails[i].lineage != s'.trails[j].lineage
    {
      assert s'.trails[i].lineage == s.trails[i].lineage && s'.trails[j].lineage == s.trails[j].lineage;
    }
  }
}
