/** What a request may do with what it read when it began: the policy that is
    enforced on it, and the factors it changes after its session has ended. */
module AccountRequests {
  import opened Wrappers
  import opened AccountStore
  import opened Totp
  import opened AccountSystem
  import opened AccountInvariants
  import opened AccountTheorems
  import opened AccountEffects
  import opened AccountEvidence

  // ---- the policy at the door ----

  /** The user's role requires a factor and there is none. */
  ghost predicate MustEnrol(db: Db, id: int) {
    id in db.users && Required(db, db.users[id].role) && !Enrolled(db, id)
  }

  /** A request is admitted at level full for a user who must enrol, exactly when
      its session is a full one and what it read of the user a moment before did
      not owe a factor; so the role or the factors have changed since. */
  lemma AdmittedExactly(codes: Codes, actions: seq<Action>, pid: nat)
    ensures var s := Reached(codes, actions);
            pid in s.procs && s.procs[pid].Fetched? ==>
              var p := s.procs[pid];
              (Requesting(Step(codes, s, Admit(pid)), pid, Full) <==>
                 p.level == Full && (Required(s.db, p.role) ==> p.enrolled)) &&
              (Requesting(Step(codes, s, Admit(pid)), pid, Full) && MustEnrol(s.db, p.user) ==>
                 p.role != s.db.users[p.user].role || (p.enrolled && !Enrolled(s.db, p.user)))
  {
    AdmitIs(codes, Reached(codes, actions), pid);
  }

  lemma AdmitIs(codes: Codes, s: System, pid: nat)
    ensures Step(codes, s, Admit(pid)) == DoAdmit(s, pid)
  {
  }

  // ---- which steps change a user's factors ----

  function KeysOf(credentials: map<string, int>, id: int): set<string> {
    set c | c in credentials && credentials[c] == id
  }

  ghost predicate FactorsSame(a: Db, b: Db, id: int)
    requires id in a.users && id in b.users
  {
    && a.users[id].secret == b.users[id].secret && a.users[id].confirmed == b.users[id].confirmed
    && KeysOf(a.credentials, id) == KeysOf(b.credentials, id)
  }

  ghost predicate ChangesFactors(a: Db, b: Db, id: int) {
    id in a.users && id in b.users && !FactorsSame(a, b, id)
  }

  /** The step is one that changes the factors of `id`. */
  ghost predicate FactorStep(s: System, a: Action, id: int)
    requires id in s.db.users
  {
    var u := s.db.users[id];
    match a
    case ResetMfa(k) =>
      k == id && s.lock == None && (u.secret != "" || u.confirmed || KeysOf(s.db.credentials, id) != {})
    case BeginTotp(pid, secret) => Restarts(s, a, id) && (u.secret != secret || u.confirmed)
    case Confirm(pid) =>
      pid in s.procs && s.procs[pid].ConfirmMatched? && s.procs[pid].user == id && u.secret != "" && !u.confirmed
    case Register(pid, credential) =>
      pid in s.procs && s.procs[pid].Enrolling? && s.procs[pid].user == id && credential !in s.db.credentials
    case RemoveOwn(pid, credential) =>
      Requesting(s, pid, Full) && s.lock == None && s.procs[pid].user == id &&
      (if credential == "" then u.secret != "" || u.confirmed
       else credential in s.db.credentials && s.db.credentials[credential] == id)
    case _ => false
  }

  /** A key of the user that comes or goes. */
  ghost predicate KeyMoves(s: System, a: Action, id: int, c: string) {
    (At(s.db.credentials, c) == Some(id)) != (KeyAfter(s, a, c) == Some(id))
  }

  lemma KeysDiffer(s: System, a: Action, b: Db, id: int)
    requires Keys(s, a, b)
    ensures KeysOf(s.db.credentials, id) != KeysOf(b.credentials, id) <==> exists c :: KeyMoves(s, a, id, c)
  {
    forall c
      ensures KeyMoves(s, a, id, c) <==> ((c in KeysOf(s.db.credentials, id)) != (c in KeysOf(b.credentials, id)))
    {
      assert At(b.credentials, c) == KeyAfter(s, a, c);
    }
    if forall c :: !KeyMoves(s, a, id, c) {
      assert KeysOf(s.db.credentials, id) == KeysOf(b.credentials, id);
    }
  }

  /** Which keys of a user that stays move. */
  lemma KeyMovesExactly(s: System, a: Action, id: int, c: string)
    requires id in s.db.users && RowAfter(s, a, id).Some?
    ensures KeyMoves(s, a, id, c) <==>
              match a
              case ResetMfa(k) => k == id && s.lock == None && At(s.db.credentials, c) == Some(id)
              case Register(pid, credential) =>
                c == credential && pid in s.procs && s.procs[pid].Enrolling? && s.procs[pid].user == id &&
                credential !in s.db.credentials
              case RemoveOwn(pid, credential) =>
                c == credential && c != "" && Requesting(s, pid, Full) && s.lock == None && s.procs[pid].user == id &&
                At(s.db.credentials, c) == Some(id)
              case _ => false
  {
  }

  /** Which steps change the enrolment of a user that stays. */
  lemma TotpMovesExactly(s: System, a: Action, id: int)
    requires id in s.db.users
    ensures var u, totp := s.db.users[id], TotpAfter(s, a, id);
            totp.0 != u.secret || totp.1 != u.confirmed <==>
              match a
              case ResetMfa(k) => k == id && s.lock == None && (u.secret != "" || u.confirmed)
              case BeginTotp(_, secret) => Restarts(s, a, id) && (u.secret != secret || u.confirmed)
              case Confirm(pid) =>
                pid in s.procs && s.procs[pid].ConfirmMatched? && s.procs[pid].user == id && u.secret != "" && !u.confirmed
              case RemoveOwn(pid, credential) =>
                credential == "" && Requesting(s, pid, Full) && s.lock == None && s.procs[pid].user == id &&
                (u.secret != "" || u.confirmed)
              case _ => false
  {
  }

  /** Which steps move some key of a user that stays. */
  ghost predicate KeyStep(s: System, a: Action, id: int) {
    match a
    case ResetMfa(k) => k == id && s.lock == None && KeysOf(s.db.credentials, id) != {}
    case Register(pid, credential) =>
      pid in s.procs && s.procs[pid].Enrolling? && s.procs[pid].user == id && credential !in s.db.credentials
    case RemoveOwn(pid, credential) =>
      credential != "" && Requesting(s, pid, Full) && s.lock == None && s.procs[pid].user == id &&
      At(s.db.credentials, credential) == Some(id)
    case _ => false
  }

  lemma KeyStepIs(s: System, a: Action, id: int)
    requires id in s.db.users && RowAfter(s, a, id).Some?
    ensures KeyStep(s, a, id) <==> exists c :: KeyMoves(s, a, id, c)
  {
    forall c
      ensures KeyMoves(s, a, id, c) ==> KeyStep(s, a, id)
    {
      KeyMovesExactly(s, a, id, c);
      assert At(s.db.credentials, c) == Some(id) ==> c in KeysOf(s.db.credentials, id);
    }
    if KeyStep(s, a, id) {
      var c := if a.ResetMfa? then AKey(s.db.credentials, id) else a.credential;
      KeyMovesExactly(s, a, id, c);
    }
  }

  ghost function AKey(credentials: map<string, int>, id: int): (c: string)
    requires KeysOf(credentials, id) != {}
    ensures At(credentials, c) == Some(id)
  {
    var c :| c in KeysOf(credentials, id);
    c
  }

  lemma FactorStepIs(s: System, a: Action, id: int)
    requires id in s.db.users && RowAfter(s, a, id).Some?
    ensures var u, totp := s.db.users[id], TotpAfter(s, a, id);
            FactorStep(s, a, id) <==> totp.0 != u.secret || totp.1 != u.confirmed || KeyStep(s, a, id)
  {
    TotpMovesExactly(s, a, id);
  }

  /** The session on whose behalf the step acts is no longer stored. */
  ghost predicate ActsForEnded(s: System, a: Action) {
    match a
    case BeginTotp(pid, _) => pid in s.procs && s.procs[pid].Enrolling? && s.procs[pid].sid !in s.db.sessions
    case Confirm(pid) => pid in s.procs && s.procs[pid].ConfirmMatched? && s.procs[pid].sid !in s.db.sessions
    case Register(pid, _) => pid in s.procs && s.procs[pid].Enrolling? && s.procs[pid].sid !in s.db.sessions
    case RemoveOwn(pid, _) => pid in s.procs && s.procs[pid].Request? && s.procs[pid].sid !in s.db.sessions
    case _ => false
  }

  /** Whether a step changes factors does not depend on which sessions are
      stored: a request that was admitted before its session ended changes them
      just as if it had not. */
  lemma SessionsDoNotMatter(s: System, sessions: map<nat, Session>, a: Action, id: int)
    requires id in s.db.users
    ensures FactorStep(s.(db := s.db.(sessions := sessions)), a, id) <==> FactorStep(s, a, id)
  {
  }

  /** In every reachable state and for every step: the factors of a user change
      exactly by these five actions, under these conditions. */
  lemma FactorsChangeExactly(codes: Codes, actions: seq<Action>, a: Action, id: int)
    ensures var s := Reached(codes, actions);
            ChangesFactors(s.db, Step(codes, s, a).db, id) <==> id in s.db.users && FactorStep(s, a, id)
  {
    var s := Reached(codes, actions);
    ReachedInv(codes, actions);
    StepEffect(codes, s, a);
    if id in s.db.users {
      ChangedBy(s, a, Step(codes, s, a).db, id);
    }
  }

  lemma ChangedBy(s: System, a: Action, b: Db, id: int)
    requires DbInv(s.db) && Rows(s, a, b) && Keys(s, a, b) && id in s.db.users
    ensures ChangesFactors(s.db, b, id) <==> FactorStep(s, a, id)
  {
    assert At(b.users, id) == RowAfter(s, a, id);
    if RowAfter(s, a, id).Some? {
      FactorStepIs(s, a, id);
      KeyStepIs(s, a, id);
      KeysDiffer(s, a, b, id);
    }
  }

  /** A request inside enrolment registers its key, its session stored or not. */
  lemma EndedRegisters(s: System, pid: nat, credential: string)
    requires DbInv(s.db) && pid in s.procs && s.procs[pid].Enrolling?
    requires s.procs[pid].user in s.db.users && credential !in s.db.credentials
    ensures FactorStep(s, Register(pid, credential), s.procs[pid].user)
    ensures ChangesFactors(s.db, DoRegister(s, pid, credential).db, s.procs[pid].user)
    ensures s.procs[pid].sid !in s.db.sessions ==> ActsForEnded(s, Register(pid, credential))
  {
    RegisterEffect(s, pid, credential);
    ChangedBy(s, Register(pid, credential), DoRegister(s, pid, credential).db, s.procs[pid].user);
  }

  lemma ResetEnds(codes: Codes, s: System, id: int, hash: string)
    requires Inv(codes, s) && id in s.db.users
    ensures var s1 := DoChangeAccount(s, id, None, Some(hash));
            s1.procs == s.procs && s1.db.credentials == s.db.credentials && id in s1.db.users && DbInv(s1.db) &&
            forall sid :: sid in s1.db.sessions ==> sid in s.db.sessions && s.db.sessions[sid].user != id
  {
  }

  /** Whenever a password is reset while a request is inside the enrolment
      handlers, its session ends and it still registers its key. */
  lemma ResetThenRegister(codes: Codes, s: System, pid: nat, hash: string, credential: string)
    requires Inv(codes, s) && pid in s.procs && s.procs[pid].Enrolling?
    requires s.procs[pid].user in s.db.users && credential !in s.db.credentials
    ensures var id := s.procs[pid].user;
            var s1 := DoChangeAccount(s, id, None, Some(hash));
            id in s1.db.users && ActsForEnded(s1, Register(pid, credential)) &&
            FactorStep(s1, Register(pid, credential), id) &&
            ChangesFactors(s1.db, DoRegister(s1, pid, credential).db, id)
  {
    assert ProcInv(codes, s.db, s.procs[pid]);
    ResetEnds(codes, s, s.procs[pid].user, hash);
    EndedRegisters(DoChangeAccount(s, s.procs[pid].user, None, Some(hash)), pid, credential);
  }
}
