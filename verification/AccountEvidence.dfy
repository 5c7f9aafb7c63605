/** Exactly which steps make a full session of an enrolled user unproven, and
    exactly which steps drop a factor without revoking anything. */
module AccountEvidence {
  import opened Wrappers
  import opened AccountStore
  import opened Totp
  import opened AccountSystem
  import opened AccountInvariants
  import opened AccountTheorems
  import opened AccountEffects
  import opened AccountStages
  import opened AccountGuarantees

  // ---- unproven sessions ----

  /** First-run setup is about to insert a full session for an account that has
      a factor by now. */
  ghost predicate SetupMints(s: System, pid: nat) {
    && pid in s.procs && s.procs[pid].Decided? && s.procs[pid].origin.BySetup? && s.procs[pid].level == Full
    && s.procs[pid].user in s.db.users && s.db.users[s.procs[pid].user].version == s.procs[pid].version
    && Enrolled(s.db, s.procs[pid].user)
  }

  lemma InsertMints(codes: Codes, s: System, s': System, pid: nat, now: Clock, sid: nat)
    requires Inv(codes, s) && Effect(s, Insert(pid, now), s'.db)
    requires EvidenceOf(s', sid) == EvidenceAfter(s, Insert(pid, now), sid)
    ensures Violates(s', sid) && !Violates(s, sid) <==> sid == s.db.nextSid && SetupMints(s, pid)
  {
    var a := Insert(pid, now);
    assert At(s'.db.sessions, sid) == SessionAfter(s, a, sid);
    SameFactors(s, a, s'.db);
    assert sid in s.db.sessions.Keys <==> sid in s.trails.Keys;
    if pid in s.procs && s.procs[pid].Decided? {
      assert ProcInv(codes, s.db, s.procs[pid]);
    }
  }

  lemma SameKeys(a: map<string, int>, b: map<string, int>, id: int)
    requires forall c :: At(a, c) == Some(id) <==> At(b, c) == Some(id)
    ensures HasKey(a, id) <==> HasKey(b, id)
  {
    if HasKey(a, id) {
      var c :| c in a && a[c] == id;
      assert At(a, c) == Some(id);
    }
    if HasKey(b, id) {
      var c :| c in b && b[c] == id;
      assert At(b, c) == Some(id);
    }
  }

  /** Inserting or raising a session changes no factor. */
  lemma SameFactors(s: System, a: Action, b: Db)
    requires (a.Insert? || a.Upgrade?) && Effect(s, a, b) && DbInv(s.db)
    ensures forall id :: Enrolled(b, id) <==> Enrolled(s.db, id)
  {
    forall id
      ensures Enrolled(b, id) <==> Enrolled(s.db, id)
    {
      assert At(b.users, id) == RowAfter(s, a, id) == At(s.db.users, id);
      forall c
        ensures At(b.credentials, c) == At(s.db.credentials, c)
      {
        assert At(b.credentials, c) == KeyAfter(s, a, c);
      }
      SameKeys(b.credentials, s.db.credentials, id);
    }
  }

  /** Raising a session leaves it with the evidence of a proof. */
  lemma RaisedIsProven(codes: Codes, s: System, s': System, a: Action, sid: nat)
    requires Inv(codes, s) && a.Upgrade? && Effect(s, a, s'.db)
    requires EvidenceOf(s', sid) == EvidenceAfter(s, a, sid)
    ensures Violates(s', sid) ==> Violates(s, sid)
  {
    assert At(s'.db.sessions, sid) == SessionAfter(s, a, sid);
    SameFactors(s, a, s'.db);
    assert sid in s.db.sessions.Keys <==> sid in s.trails.Keys;
    if a.pid in s.procs && s.procs[a.pid].Proven? {
      assert ProcInv(codes, s.db, s.procs[a.pid]);
    }
  }

  /** A user who is given a factor keeps only the enrolling session, and that one
      carries the enrolment. */
  lemma EnrollingCarries(s: System, s': System, a: Action, sid: nat, id: int)
    requires (a.Confirm? || a.Register?) && Revokes(s, a, id)
    requires sid in s.db.sessions && s.db.sessions[sid].user == id && SessionAfter(s, a, sid).Some?
    ensures EvidenceAfter(s, a, sid) == Some(EnrolledFactor)
  {
  }

  /** A session that stays keeps its level and its user. */
  lemma Stays(s: System, a: Action, sid: nat)
    requires !a.Insert? && !a.Upgrade? && SessionAfter(s, a, sid).Some?
    ensures sid in s.db.sessions && SessionAfter(s, a, sid).value.user == s.db.sessions[sid].user
    ensures SessionAfter(s, a, sid).value.level == s.db.sessions[sid].level
    ensures EvidenceAfter(s, a, sid) == EvidenceOf(s, sid) || EvidenceAfter(s, a, sid) == Some(EnrolledFactor)
  {
  }

  lemma OthersMintNone(codes: Codes, s: System, s': System, a: Action, sid: nat)
    requires Inv(codes, s) && !a.Insert? && !a.Upgrade? && Effect(s, a, s'.db)
    requires EvidenceOf(s', sid) == EvidenceAfter(s, a, sid)
    ensures Violates(s', sid) ==> Violates(s, sid)
  {
    assert At(s'.db.sessions, sid) == SessionAfter(s, a, sid);
    if Violates(s', sid) {
      Stays(s, a, sid);
      assert sid in s.trails.Keys;
      var id := s.db.sessions[sid].user;
      ProtectedIs(s'.db, id);
      ProtectedIs(s.db, id);
      if !Protected(s.db, id) {
        ProtectionArises(s, a, s'.db, id);
        EnrollingCarries(s, s', a, sid, id);
      }
    }
  }

  /** In every reachable state and for every step: a session starts to be a full
      one of an enrolled user without evidence exactly when first-run setup
      inserts it and the account has a factor by then. */
  lemma UnprovenBeginsExactly(codes: Codes, actions: seq<Action>, a: Action, sid: nat)
    ensures var s := Reached(codes, actions);
            Violates(Step(codes, s, a), sid) && !Violates(s, sid) <==>
            a.Insert? && sid == s.db.nextSid && SetupMints(s, a.pid)
  {
    var s := Reached(codes, actions);
    var s' := Step(codes, s, a);
    ReachedInv(codes, actions);
    StepEffect(codes, s, a);
    EvidenceChangesExactly(codes, actions, a, sid);
    if a.Insert? {
      InsertMints(codes, s, s', a.pid, a.clock, sid);
    } else if a.Upgrade? {
      RaisedIsProven(codes, s, s', a, sid);
    } else {
      OthersMintNone(codes, s, s', a, sid);
    }
  }

  // ---- factors dropped without revocation ----

  /** A request inside the enrolment handlers starts a TOTP enrolment for `id`. */
  ghost predicate Restarts(s: System, a: Action, id: int) {
    a.BeginTotp? && a.pid in s.procs && s.procs[a.pid].Enrolling? && s.procs[a.pid].user == id && a.secret != ""
  }

  /** The user stops having a factor but stays on the same version. */
  ghost predicate Lapses(a: Db, b: Db, id: int) {
    && id in a.users && id in b.users && a.users[id].version == b.users[id].version
    && Enrolled(a, id) && !Enrolled(b, id)
  }

  /** On an unchanged version the keys of a user stay. */
  lemma KeysStay(s: System, a: Action, b: Db, id: int)
    requires DbInv(s.db) && Effect(s, a, b) && id in s.db.users && id in b.users
    requires b.users[id].version == s.db.users[id].version
    ensures HasKey(b.credentials, id) <==> HasKey(s.db.credentials, id)
  {
    assert At(b.users, id) == RowAfter(s, a, id);
    forall c
      ensures At(b.credentials, c) == Some(id) <==> At(s.db.credentials, c) == Some(id)
    {
      assert At(b.credentials, c) == KeyAfter(s, a, c);
    }
    SameKeys(b.credentials, s.db.credentials, id);
  }

  lemma LapseExactly(s: System, a: Action, b: Db, id: int)
    requires DbInv(s.db) && Effect(s, a, b)
    ensures Lapses(s.db, b, id) <==>
            id in s.db.users && Enrolled(s.db, id) && Restarts(s, a, id) && !HasKey(s.db.credentials, id)
  {
    assert At(b.users, id) == RowAfter(s, a, id);
    if id in s.db.users && id in b.users && b.users[id].version == s.db.users[id].version {
      KeysStay(s, a, b, id);
    }
  }

  lemma BeginTotpStep(codes: Codes, s: System, a: Action)
    requires a.BeginTotp?
    ensures var b := Step(codes, s, a).db; b.sessions == s.db.sessions && b.trusted == s.db.trusted
  {
  }

  /** In every reachable state and for every step: a user stops having a factor
      without a new version exactly when a TOTP enrolment is started again for a
      user without a passkey; no session and no trusted device ends then. */
  lemma FactorLapsesExactly(codes: Codes, actions: seq<Action>, a: Action, id: int)
    ensures var s := Reached(codes, actions);
            Lapses(s.db, Step(codes, s, a).db, id) <==>
            id in s.db.users && Enrolled(s.db, id) && Restarts(s, a, id) && !HasKey(s.db.credentials, id)
    ensures var s := Reached(codes, actions);
            Lapses(s.db, Step(codes, s, a).db, id) ==>
              Step(codes, s, a).db.sessions == s.db.sessions && Step(codes, s, a).db.trusted == s.db.trusted
  {
    ReachedInv(codes, actions);
    var s := Reached(codes, actions);
    StepEffect(codes, s, a);
    LapseExactly(s, a, Step(codes, s, a).db, id);
    if a.BeginTotp? {
      BeginTotpStep(codes, s, a);
    }
  }
}
