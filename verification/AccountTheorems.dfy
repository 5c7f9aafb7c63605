/** What holds in every reachable state of the account system. */
module AccountTheorems {
  import opened Wrappers
  import opened AccountStore
  import opened Totp
  import opened AccountSystem
  import opened AccountInvariants
  import opened AccountSteps

  function Reached(codes: Codes, actions: seq<Action>): System {
    Run(codes, INITIAL, actions)
  }

  lemma ReachedInv(codes: Codes, actions: seq<Action>)
    ensures Inv(codes, Reached(codes, actions))
  {
    RunKeeps(codes, INITIAL, actions);
  }

  // ---- second factors ----

  /** A stored full session of a user with a confirmed factor that carries no
      evidence: no code, assertion, passkey, trusted device or own enrolment. */
  ghost predicate Violates(s: System, sid: nat) {
    && sid in s.db.sessions && sid in s.trails
    && s.db.sessions[sid].level == Full && Enrolled(s.db, s.db.sessions[sid].user)
    && s.trails[sid].evidence.Unproven?
  }

  /** Every full session of a user with a factor carries evidence, but for the
      one minted by first-run setup for an account whose factor setup saw. */
  lemma FullSessionsAreProven(codes: Codes, actions: seq<Action>, sid: nat)
    ensures var s := Reached(codes, actions);
            s.trails.Keys == s.db.sessions.Keys &&
            (Violates(s, sid) ==> s.trails[sid].evidence == Unproven(true) && s.trails[sid].checked == None)
  {
    var s := Reached(codes, actions);
    ReachedInv(codes, actions);
    if sid in s.db.sessions {
      assert sid in s.trails.Keys;
      assert SessionOk(s.db, s.db.sessions[sid], s.trails[sid], MarksOf(s, s.db.sessions[sid].user).keeper);
    }
  }

  /** Setup commits an unproven full session of an enrolled user only when its
      own read of the account had already seen the factor. */
  lemma SetupSawTheFactor(codes: Codes, actions: seq<Action>, pid: nat, now: Clock)
    ensures var s := Reached(codes, actions);
            pid in s.procs && s.procs[pid].Decided? && s.procs[pid].origin.BySetup? &&
            s.procs[pid].level == Full && s.procs[pid].evidence.Unproven? &&
            CreateSession(s.db, s.procs[pid].user, s.procs[pid].version, Full, now).Some? ==>
              (Enrolled(s.db, s.procs[pid].user) ==> s.procs[pid].evidence.sawFactor)
  {
    var s := Reached(codes, actions);
    ReachedInv(codes, actions);
    if pid in s.procs {
      assert ProcInv(codes, s.db, s.procs[pid]);
    }
  }

  // ---- passwords ----

  /** The hash a password login checked is the one stored at the instant its
      session is inserted, and likewise for a re-authentication mark. */
  lemma PasswordStillStored(codes: Codes, actions: seq<Action>, pid: nat, now: Clock)
    ensures var s := Reached(codes, actions);
            pid in s.procs ==>
              var p := s.procs[pid];
              (p.Decided? && p.origin.ByPassword? && CreateSession(s.db, p.user, p.version, p.level, now).Some? ==>
                 s.db.users[p.user].hash == p.origin.hash) &&
              (p.Reauthing? && MarkReauthenticated(s.db, p.sid, p.user, p.version, now.time).Some? ==>
                 s.db.users[p.user].hash == p.hash)
  {
    var s := Reached(codes, actions);
    ReachedInv(codes, actions);
    if pid in s.procs {
      assert ProcInv(codes, s.db, s.procs[pid]);
    }
  }

  // ---- revocation ----

  /** At most one stored session of a user predates the user's current version,
      and it is the session that made the latest revoking change. */
  lemma RevocationIsComplete(codes: Codes, actions: seq<Action>, i: nat, j: nat)
    ensures var s := Reached(codes, actions);
            i in s.db.sessions && j in s.db.sessions && i in s.trails && j in s.trails &&
            s.db.sessions[i].user == s.db.sessions[j].user &&
            s.db.sessions[i].user in s.db.users &&
            s.trails[i].born != s.db.users[s.db.sessions[i].user].version &&
            s.trails[j].born != s.db.users[s.db.sessions[i].user].version ==>
              i == j && MarksOf(s, s.db.sessions[i].user).keeper == Some(s.trails[i].lineage)
  {
    var s := Reached(codes, actions);
    ReachedInv(codes, actions);
    if i in s.db.sessions && j in s.db.sessions {
      assert SessionOk(s.db, s.db.sessions[i], s.trails[i], MarksOf(s, s.db.sessions[i].user).keeper);
      assert SessionOk(s.db, s.db.sessions[j], s.trails[j], MarksOf(s, s.db.sessions[j].user).keeper);
    }
  }

  // ---- one-time codes ----

  /** Within one enrolment the accepted counters strictly increase, each is
      within one step of the clock, and each accepted code is the stored
      secret's code for its counter, so no code is accepted twice. */
  lemma CodesAreUsedOnce(codes: Codes, actions: seq<Action>, id: int)
    ensures var s := Reached(codes, actions);
            id in s.db.users ==>
              id in s.marks &&
              var accepted := s.marks[id].accepted;
              (forall i, j :: 0 <= i < j < |accepted| ==> accepted[i].counter < accepted[j].counter) &&
              (forall a :: a in accepted ==>
                 a.now / 30 - 1 <= a.counter <= a.now / 30 + 1 &&
                 codes.at(s.db.users[id].secret, a.counter) == a.code) &&
              (s.db.users[id].confirmed <==> accepted != []) &&
              (accepted != [] ==> s.db.users[id].lastUsed == accepted[|accepted| - 1].counter)
  {
    var s := Reached(codes, actions);
    ReachedInv(codes, actions);
    if id in s.db.users {
      assert UserOk(codes, s.db.users[id], s.marks[id].accepted);
    }
  }
}
