/** What the row-by-row and stage-by-stage description of the steps gives over
    whole runs: names, forced enrolments, and the evidence of sessions. */
module AccountGuarantees {
  import opened Wrappers
  import NoCase
  import opened AccountStore
  import opened Totp
  import opened AccountSystem
  import opened AccountInvariants
  import opened AccountTheorems
  import opened AccountEffects
  import opened AccountStages
  import AccountSteps

  // ---- names ----

  /** No two accounts have the same name, ignoring the case of ASCII letters. */
  ghost predicate NamesDiffer(users: map<int, User>) {
    forall i, j :: i in users && j in users && i != j ==> !NoCase.SameName(users[i].name, users[j].name)
  }

  /** A row that was there keeps its name, and a new one has a free name. */
  lemma NameAfter(s: System, a: Action, i: int)
    requires RowAfter(s, a, i).Some?
    ensures if i in s.db.users then RowAfter(s, a, i).value.name == s.db.users[i].name
            else i == s.db.nextUser && NameFree(s.db, RowAfter(s, a, i).value.name)
  {
  }

  lemma SameNameEitherWay(a: string, b: string)
    ensures NoCase.SameName(a, b) <==> NoCase.SameName(b, a)
  {
  }

  lemma StepKeepsNames(codes: Codes, s: System, a: Action)
    requires DbInv(s.db) && NamesDiffer(s.db.users)
    ensures NamesDiffer(Step(codes, s, a).db.users)
  {
    StepEffect(codes, s, a);
    RowsKeepNames(s, a, Step(codes, s, a).db);
  }

  lemma RowsKeepNames(s: System, a: Action, b: Db)
    requires NamesDiffer(s.db.users) && Rows(s, a, b)
    ensures NamesDiffer(b.users)
  {
    forall i, j | i in b.users && j in b.users && i != j
      ensures !NoCase.SameName(b.users[i].name, b.users[j].name)
    {
      assert At(b.users, i) == RowAfter(s, a, i) && At(b.users, j) == RowAfter(s, a, j);
      NameAfter(s, a, i);
      NameAfter(s, a, j);
      SameNameEitherWay(b.users[i].name, b.users[j].name);
    }
  }

  lemma {:induction false} RunKeepsNames(codes: Codes, s: System, actions: seq<Action>)
    requires Inv(codes, s) && NamesDiffer(s.db.users)
    ensures NamesDiffer(Run(codes, s, actions).db.users)
    decreases |actions|
  {
    if actions != [] {
      AccountSteps.StepKeeps(codes, s, actions[0]);
      StepKeepsNames(codes, s, actions[0]);
      RunKeepsNames(codes, Step(codes, s, actions[0]), actions[1..]);
    }
  }

  lemma AccountNamesDiffer(codes: Codes, actions: seq<Action>)
    ensures NamesDiffer(Reached(codes, actions).db.users)
  {
    ReachedInv(codes, []);
    RunKeepsNames(codes, INITIAL, actions);
  }

  // ---- forced enrolments ----

  /** A request that enrols a factor is fully authenticated, or forced to enrol
      and its user has no factor. */
  ghost predicate Authorised(db: Db, p: Process) {
    p.Enrolling? || p.Confirming? || p.ConfirmMatched? ==>
      p.level == Full || (p.level == Enroll && !Protected(db, p.user))
  }

  ghost predicate AllAuthorised(s: System) {
    forall k :: k in s.procs ==> Authorised(s.db, s.procs[k])
  }

  lemma TotpArises(s: System, a: Action, b: Db, id: int)
    requires DbInv(s.db) && Rows(s, a, b) && id < s.db.nextUser && HasTotp(b, id, false) && !HasTotp(s.db, id, false)
    ensures a.Confirm? && Revokes(s, a, id)
  {
    assert At(b.users, id) == RowAfter(s, a, id);
  }

  lemma KeyArises(s: System, a: Action, b: Db, id: int, c: string)
    requires Keys(s, a, b) && At(b.credentials, c) == Some(id) && At(s.db.credentials, c) != Some(id)
    ensures a.Register? && Revokes(s, a, id)
  {
    assert At(b.credentials, c) == KeyAfter(s, a, c);
  }

  /** Only a confirmation or a registration gives a user a first factor. */
  lemma ProtectionArises(s: System, a: Action, b: Db, id: int)
    requires DbInv(s.db) && Effect(s, a, b) && id < s.db.nextUser
    requires Protected(b, id) && !Protected(s.db, id)
    ensures (a.Confirm? || a.Register?) && Revokes(s, a, id)
  {
    if HasTotp(b, id, false) {
      TotpArises(s, a, b, id);
    } else {
      var c :| c in b.credentials && b.credentials[c] == id;
      KeyArises(s, a, b, id, c);
    }
  }

  lemma EnteredAuthorised(codes: Codes, s: System, a: Action, k: nat, q: Process)
    requires AllAuthorised(s) && Enters(codes, s, a, At(s.procs, k), q)
    ensures Authorised(s.db, q)
  {
  }

  lemma StepKeepsAuthorised(codes: Codes, s: System, a: Action, k: nat)
    requires Inv(codes, s) && AllAuthorised(s) && k in Step(codes, s, a).procs
    ensures Authorised(Step(codes, s, a).db, Step(codes, s, a).procs[k])
  {
    var s' := Step(codes, s, a);
    var q := s'.procs[k];
    StagesExactly(codes, s, a, k, q);
    StepEffect(codes, s, a);
    if q.Enrolling? || q.Confirming? || q.ConfirmMatched? {
      WasAuthorised(codes, s, a, k, q);
      if Protected(s'.db, q.user) && !Protected(s.db, q.user) {
        ProtectionArises(s, a, s'.db, q.user);
        EnrolledOut(codes, s, s', a, k, q);
      }
    }
  }

  lemma EnteredKnown(codes: Codes, s: System, a: Action, k: nat, q: Process)
    requires Inv(codes, s) && Enters(codes, s, a, At(s.procs, k), q)
    requires q.Enrolling? || q.Confirming? || q.ConfirmMatched?
    ensures q.user < s.db.nextUser
  {
    assert k in s.procs && s.procs[k].user == q.user;
    assert ProcInv(codes, s.db, s.procs[k]);
  }

  lemma WasAuthorised(codes: Codes, s: System, a: Action, k: nat, q: Process)
    requires Inv(codes, s) && AllAuthorised(s)
    requires At(s.procs, k) == Some(q) || Enters(codes, s, a, At(s.procs, k), q)
    requires q.Enrolling? || q.Confirming? || q.ConfirmMatched?
    ensures Authorised(s.db, q) && q.user < s.db.nextUser
  {
    if At(s.procs, k) == Some(q) {
      assert ProcInv(codes, s.db, q);
    } else {
      EnteredAuthorised(codes, s, a, k, q);
      EnteredKnown(codes, s, a, k, q);
    }
  }

  /** The request that gives a user a factor holds the lock alone. */
  lemma LockedAlone(codes: Codes, s: System, a: Action, k: nat)
    requires LockInv(s) && (a.Confirm? || a.Register?) && RevokedBy(s, a).Some?
    requires k != a.pid && k in s.procs
    ensures !Holding(s.procs[k])
  {
    assert Holding(s.procs[a.pid]) && s.lock == Some(a.pid);
  }

  /** So no request is inside an enrolment after it: the one that enrolled is over
      or goes on to raise its session. */
  lemma EnrolledOut(codes: Codes, s: System, s': System, a: Action, k: nat, q: Process)
    requires LockInv(s) && (a.Confirm? || a.Register?) && RevokedBy(s, a).Some?
    requires Moves(codes, s, s', a, k, q) && At(s'.procs, k) == Some(q)
    ensures !q.Enrolling? && !q.Confirming? && !q.ConfirmMatched?
  {
    if k != a.pid && k in s.procs {
      LockedAlone(codes, s, a, k);
    }
  }

  lemma {:induction false} RunKeepsAuthorised(codes: Codes, s: System, actions: seq<Action>)
    requires Inv(codes, s) && AllAuthorised(s)
    ensures AllAuthorised(Run(codes, s, actions))
    decreases |actions|
  {
    if actions != [] {
      var s' := Step(codes, s, actions[0]);
      AccountSteps.StepKeeps(codes, s, actions[0]);
      forall k | k in s'.procs
        ensures Authorised(s'.db, s'.procs[k])
      {
        StepKeepsAuthorised(codes, s, actions[0], k);
      }
      RunKeepsAuthorised(codes, s', actions[1..]);
    }
  }

  /** In every reachable state: a factor is only ever enrolled by a request that
      was admitted at level full, or by one that is forced to enrol for a user who
      has no factor; a login that still owes its second factor enrols nothing. */
  lemma EnrolmentIsAuthorised(codes: Codes, actions: seq<Action>, a: Action, id: int)
    ensures var s := Reached(codes, actions);
            (a.Confirm? || a.Register?) && Revokes(s, a, id) ==>
              s.procs[a.pid].level == Full || (s.procs[a.pid].level == Enroll && !Protected(s.db, id))
  {
    var s := Reached(codes, actions);
    ReachedInv(codes, []);
    RunKeepsAuthorised(codes, INITIAL, actions);
    if (a.Confirm? || a.Register?) && Revokes(s, a, id) {
      assert Authorised(s.db, s.procs[a.pid]);
    }
  }

  // ---- the evidence of sessions ----

  ghost function EvidenceOf(s: System, sid: nat): Option<Evidence> {
    if sid in s.trails then Some(s.trails[sid].evidence) else None
  }

  /** A new session carries what its login or its proof rests on; enrolling is
      evidence for the session that enrols; nothing else changes it. */
  ghost function EvidenceAfter(s: System, a: Action, sid: nat): Option<Evidence> {
    if SessionAfter(s, a, sid).None? then None
    else if sid !in s.db.sessions then Some(s.procs[a.pid].evidence)
    else if (a.Confirm? || a.Register?) && RevokedBy(s, a).Some? && s.procs[a.pid].sid == sid then Some(EnrolledFactor)
    else EvidenceOf(s, sid)
  }

  /** The sessions that are left keep their evidence. */
  ghost predicate EvidenceKept(s: System, s': System) {
    forall sid :: sid in s'.trails ==> sid in s.trails && s'.trails[sid].evidence == s.trails[sid].evidence
  }

  lemma AdministrationEvidence(codes: Codes, s: System, a: Action)
    requires IsAdministration(a)
    ensures EvidenceKept(s, AdministrationStep(codes, s, a))
  {
  }

  lemma LoginEvidence(codes: Codes, s: System, a: Action)
    requires IsLogin(a)
    ensures EvidenceKept(s, LoginStep(codes, s, a))
  {
  }

  lemma CommitEvidence(codes: Codes, s: System, a: Action)
    requires IsCommit(a) && !a.Insert?
    ensures EvidenceKept(s, CommitStep(codes, s, a))
  {
  }

  lemma VerificationEvidence(codes: Codes, s: System, a: Action)
    requires IsVerification(a) && !a.Upgrade?
    ensures EvidenceKept(s, VerificationStep(codes, s, a))
  {
  }

  lemma EnrolmentEvidence(codes: Codes, s: System, a: Action)
    requires IsEnrolment(a) && !a.Confirm? && !a.Register?
    ensures EvidenceKept(s, EnrolmentStep(codes, s, a))
  {
  }

  lemma OwnEvidence(codes: Codes, s: System, a: Action)
    requires IsOwn(a)
    ensures EvidenceKept(s, SessionStep(codes, s, a))
  {
  }

  lemma InsertEvidence(s: System, pid: nat, now: Clock, sid: nat)
    requires DbInv(s.db) && s.trails.Keys == s.db.sessions.Keys
    ensures EvidenceOf(DoInsert(s, pid, now), sid) == EvidenceAfter(s, Insert(pid, now), sid)
  {
    if !Commits(s, pid) {
      assert DoInsert(s, pid, now).trails == s.trails;
    }
  }

  lemma UpgradeTrails(s: System, pid: nat, now: Clock, remember: bool)
    requires Raises(s, pid, now.time) && s.trails.Keys == s.db.sessions.Keys
    ensures var sid := s.procs[pid].sid;
            sid in s.trails &&
            DoUpgrade(s, pid, now, remember).trails ==
            (s.trails - {sid})[s.db.nextSid := s.trails[sid].(evidence := s.procs[pid].evidence)]
  {
    assert s.procs[pid].sid in s.trails.Keys;
  }

  lemma UpgradeEvidence(s: System, pid: nat, now: Clock, remember: bool, sid: nat)
    requires DbInv(s.db) && s.trails.Keys == s.db.sessions.Keys
    ensures EvidenceOf(DoUpgrade(s, pid, now, remember), sid) == EvidenceAfter(s, Upgrade(pid, now, remember), sid)
  {
    if Raises(s, pid, now.time) {
      UpgradeTrails(s, pid, now, remember);
      assert s.procs[pid].sid < s.db.nextSid;
    } else {
      assert DoUpgrade(s, pid, now, remember).trails == s.trails;
    }
    assert sid in s.trails.Keys <==> sid in s.db.sessions.Keys;
  }

  /** After a revocation for an enrolment, the enrolling session carries it. */
  lemma EnrolledEvidence(s: System, db: Db, pid: nat, id: int, keep: nat, level: Level)
    requires s.trails.Keys == s.db.sessions.Keys
    requires forall sid :: sid in db.sessions ==> sid in s.db.sessions
    ensures var s' := AfterEnrol(Revoked(s, db, id, Some(keep)), pid, id, keep, level);
            forall sid :: EvidenceOf(s', sid) ==
              if sid !in db.sessions then None else if sid == keep then Some(EnrolledFactor) else EvidenceOf(s, sid)
  {
    var s' := AfterEnrol(Revoked(s, db, id, Some(keep)), pid, id, keep, level);
    assert forall sid :: sid in db.sessions ==> sid in s.trails.Keys;
    assert forall sid :: sid in s'.trails <==> sid in db.sessions;
  }

  lemma ConfirmedTrails(s: System, pid: nat)
    requires RevokedBy(s, Confirm(pid)).Some?
    ensures var p := s.procs[pid];
            DoConfirm(s, pid).trails ==
            AfterEnrol(Revoked(s, DoConfirm(s, pid).db, p.user, Some(p.sid)), pid, p.user, p.sid, p.level).trails
  {
    ConfirmDb(s, pid);
    var p := s.procs[pid];
    var s1 := Revoked(s, DoConfirm(s, pid).db, p.user, Some(p.sid));
    assert DoConfirm(s, pid) == AfterEnrol(SetAccepted(s1, p.user, [p.accepted]), pid, p.user, p.sid, p.level);
  }

  lemma UnconfirmedTrails(s: System, pid: nat)
    requires RevokedBy(s, Confirm(pid)).None?
    ensures DoConfirm(s, pid).trails == s.trails
  {
  }

  lemma RegisterTrails(s: System, pid: nat, credential: string)
    ensures var r := RevokedBy(s, Register(pid, credential));
            if r.Some? then
              var p := s.procs[pid];
              DoRegister(s, pid, credential).trails ==
                AfterEnrol(Revoked(s, DoRegister(s, pid, credential).db, p.user, Some(p.sid)), pid, p.user, p.sid, p.level).trails
            else DoRegister(s, pid, credential).trails == s.trails
  {
    RegisterDb(s, pid, credential);
  }

  /** The evidence that goes with a revoking enrolment. */
  lemma RevokedEvidence(s: System, a: Action, s': System)
    requires DbInv(s.db) && s.trails.Keys == s.db.sessions.Keys
    requires (a.Confirm? || a.Register?) && RevokedBy(s, a).Some? && Sessions(s, a, s'.db)
    requires var p := s.procs[a.pid];
             s'.trails == AfterEnrol(Revoked(s, s'.db, p.user, Some(p.sid)), a.pid, p.user, p.sid, p.level).trails
    ensures forall sid :: EvidenceOf(s', sid) == EvidenceAfter(s, a, sid)
  {
    var p := s.procs[a.pid];
    forall sid | sid in s'.db.sessions
      ensures sid in s.db.sessions
    {
      assert At(s'.db.sessions, sid) == SessionAfter(s, a, sid);
    }
    EnrolledEvidence(s, s'.db, a.pid, p.user, p.sid, p.level);
    forall sid
      ensures EvidenceOf(s', sid) == EvidenceAfter(s, a, sid)
    {
      assert At(s'.db.sessions, sid) == SessionAfter(s, a, sid);
    }
  }

  lemma ConfirmEvidence(s: System, pid: nat, sid: nat)
    requires DbInv(s.db) && s.trails.Keys == s.db.sessions.Keys
    ensures EvidenceOf(DoConfirm(s, pid), sid) == EvidenceAfter(s, Confirm(pid), sid)
  {
    if RevokedBy(s, Confirm(pid)).Some? {
      ConfirmedTrails(s, pid);
      ConfirmEffect(s, pid);
      RevokedEvidence(s, Confirm(pid), DoConfirm(s, pid));
    } else {
      UnconfirmedTrails(s, pid);
      Unrevoked(s, Confirm(pid), DoConfirm(s, pid), sid);
    }
  }

  lemma RegisterEvidence(s: System, pid: nat, credential: string, sid: nat)
    requires DbInv(s.db) && s.trails.Keys == s.db.sessions.Keys
    ensures EvidenceOf(DoRegister(s, pid, credential), sid) == EvidenceAfter(s, Register(pid, credential), sid)
  {
    var a, s' := Register(pid, credential), DoRegister(s, pid, credential);
    RegisterTrails(s, pid, credential);
    if RevokedBy(s, a).Some? {
      RegisterEffect(s, pid, credential);
      RevokedEvidence(s, a, s');
    } else {
      Unrevoked(s, a, s', sid);
    }
  }

  lemma Unrevoked(s: System, a: Action, s': System, sid: nat)
    requires s.trails.Keys == s.db.sessions.Keys && s'.trails == s.trails
    requires (a.Confirm? || a.Register?) && RevokedBy(s, a).None?
    ensures EvidenceOf(s', sid) == EvidenceAfter(s, a, sid)
  {
    assert sid in s.trails.Keys <==> sid in s.db.sessions.Keys;
  }

  lemma OthersKeepEvidence(codes: Codes, s: System, a: Action)
    requires !a.Insert? && !a.Upgrade? && !a.Confirm? && !a.Register?
    ensures EvidenceKept(s, Step(codes, s, a))
  {
    if IsAdministration(a) {
      AdministrationEvidence(codes, s, a);
    } else if IsLogin(a) {
      LoginEvidence(codes, s, a);
    } else if IsCommit(a) {
      CommitEvidence(codes, s, a);
    } else if IsVerification(a) {
      VerificationEvidence(codes, s, a);
    } else if IsEnrolment(a) {
      EnrolmentEvidence(codes, s, a);
    } else {
      OwnEvidence(codes, s, a);
    }
  }

  /** The steps that change evidence. */
  lemma EvidenceStepIs(codes: Codes, s: System, a: Action)
    requires a.Insert? || a.Upgrade? || a.Confirm? || a.Register?
    ensures Step(codes, s, a) ==
            match a
            case Insert(pid, now) => DoInsert(s, pid, now)
            case Upgrade(pid, now, remember) => DoUpgrade(s, pid, now, remember)
            case Confirm(pid) => DoConfirm(s, pid)
            case Register(pid, credential) => DoRegister(s, pid, credential)
            case _ => s
  {
  }

  lemma EvidenceStep(codes: Codes, s: System, a: Action, sid: nat)
    requires DbInv(s.db) && s.trails.Keys == s.db.sessions.Keys
    requires a.Insert? || a.Upgrade? || a.Confirm? || a.Register?
    ensures EvidenceOf(Step(codes, s, a), sid) == EvidenceAfter(s, a, sid)
  {
    EvidenceStepIs(codes, s, a);
    match a
    case Insert(pid, now) => InsertEvidence(s, pid, now, sid);
    case Upgrade(pid, now, remember) => UpgradeEvidence(s, pid, now, remember, sid);
    case Confirm(pid) => ConfirmEvidence(s, pid, sid);
    case Register(pid, credential) => RegisterEvidence(s, pid, credential, sid);
    case _ =>
  }

  lemma KeptEvidence(s: System, a: Action, s': System, sid: nat)
    requires s.trails.Keys == s.db.sessions.Keys && s'.trails.Keys == s'.db.sessions.Keys
    requires Sessions(s, a, s'.db) && EvidenceKept(s, s')
    requires !a.Insert? && !a.Upgrade? && !a.Confirm? && !a.Register?
    ensures EvidenceOf(s', sid) == EvidenceAfter(s, a, sid)
  {
    assert At(s'.db.sessions, sid) == SessionAfter(s, a, sid);
    assert sid in s'.trails.Keys <==> sid in s'.db.sessions.Keys;
    assert sid in s.trails.Keys <==> sid in s.db.sessions.Keys;
  }

  /** In every reachable state and for every step: a session that is stored carries
      the evidence its login was decided on or its proof consists in, and keeps it
      until it is itself the one that enrols a factor.  With the way into every
      stage, evidence is never made up: a code was consumed, a passkey or a trusted
      device was the user's. */
  lemma EvidenceChangesExactly(codes: Codes, actions: seq<Action>, a: Action, sid: nat)
    ensures var s := Reached(codes, actions);
            EvidenceOf(Step(codes, s, a), sid) == EvidenceAfter(s, a, sid)
  {
    var s := Reached(codes, actions);
    ReachedInv(codes, actions);
    if a.Insert? || a.Upgrade? || a.Confirm? || a.Register? {
      EvidenceStep(codes, s, a, sid);
    } else {
      AccountSteps.StepKeeps(codes, s, a);
      OthersKeepEvidence(codes, s, a);
      StepEffect(codes, s, a);
      KeptEvidence(s, a, Step(codes, s, a), sid);
    }
  }
}
