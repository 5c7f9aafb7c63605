/** Trusted devices: exactly when one is left that its user's latest revoking
    change should have taken away. */
module AccountTrust {
  import opened Wrappers
  import opened AccountStore
  import opened Totp
  import opened AccountSystem
  import opened AccountInvariants
  import opened AccountTheorems
  import opened AccountEffects
  import AccountSteps

  /** A stored device whose user has been revoked since the request that asked
      for it raised its session. */
  ghost predicate Stale(s: System, t: nat) {
    && t in s.db.trusted && t in s.grants && s.db.trusted[t] in s.db.users
    && s.db.users[s.db.trusted[t]].version != s.grants[t]
  }

  /** No device is added, and whoever keeps a device keeps the version. */
  ghost predicate TrustKept(a: Db, b: Db) {
    forall t :: t in b.trusted ==>
      && t in a.trusted && b.trusted[t] == a.trusted[t]
      && (a.trusted[t] in a.users && a.trusted[t] in b.users ==>
            b.users[a.trusted[t]].version == a.users[a.trusted[t]].version)
  }

  /** Whoever is revoked loses every device. */
  lemma OthersKeepTrust(codes: Codes, s: System, a: Action)
    requires DbInv(s.db) && !a.Remember?
    ensures TrustKept(s.db, Step(codes, s, a).db)
  {
    StepEffect(codes, s, a);
    var b := Step(codes, s, a).db;
    forall t | t in b.trusted
      ensures t in s.db.trusted && b.trusted[t] == s.db.trusted[t]
      ensures var owner := s.db.trusted[t];
              owner in s.db.users && owner in b.users ==> b.users[owner].version == s.db.users[owner].version
    {
      assert At(b.trusted, t) == DeviceAfter(s, a, t);
      assert At(b.users, b.trusted[t]) == RowAfter(s, a, b.trusted[t]);
    }
  }

  // ---- grants are given by remembering alone ----

  lemma AdministrationGrants(codes: Codes, s: System, a: Action)
    ensures AdministrationStep(codes, s, a).grants == s.grants
  {
  }

  lemma LoginGrants(codes: Codes, s: System, a: Action)
    ensures LoginStep(codes, s, a).grants == s.grants
  {
  }

  lemma CommitGrants(codes: Codes, s: System, a: Action)
    ensures CommitStep(codes, s, a).grants == s.grants
  {
  }

  lemma VerificationGrants(codes: Codes, s: System, a: Action)
    requires !a.Remember?
    ensures VerificationStep(codes, s, a).grants == s.grants
  {
  }

  lemma NewFactorGrants(s: System, pid: nat, credential: string)
    ensures DoConfirm(s, pid).grants == s.grants && DoRegister(s, pid, credential).grants == s.grants
  {
  }

  lemma EnrolmentGrants(codes: Codes, s: System, a: Action)
    ensures EnrolmentStep(codes, s, a).grants == s.grants
  {
    if a.Confirm? {
      NewFactorGrants(s, a.pid, "");
    } else if a.Register? {
      NewFactorGrants(s, a.pid, a.credential);
    } else {
      PendingGrants(codes, s, a);
    }
  }

  lemma PendingGrants(codes: Codes, s: System, a: Action)
    requires !a.Confirm? && !a.Register?
    ensures EnrolmentStep(codes, s, a).grants == s.grants
  {
  }

  lemma RemovalGrants(s: System, pid: nat, credential: string)
    ensures DoRemoveFactor(s, pid, credential).grants == s.grants
  {
  }

  lemma SessionGrants(codes: Codes, s: System, a: Action)
    ensures SessionStep(codes, s, a).grants == s.grants
  {
    if a.RemoveOwn? {
      RemovalGrants(s, a.pid, a.credential);
    } else {
      ReauthGrants(codes, s, a);
    }
  }

  lemma ReauthGrants(codes: Codes, s: System, a: Action)
    requires !a.RemoveOwn?
    ensures SessionStep(codes, s, a).grants == s.grants
  {
  }

  lemma OthersKeepGrants(codes: Codes, s: System, a: Action)
    requires !a.Remember?
    ensures Step(codes, s, a).grants == s.grants
  {
    if IsAdministration(a) {
      AdministrationGrants(codes, s, a);
    } else if IsLogin(a) {
      LoginGrants(codes, s, a);
    } else if IsCommit(a) {
      CommitGrants(codes, s, a);
    } else if IsVerification(a) {
      VerificationGrants(codes, s, a);
    } else if IsEnrolment(a) {
      EnrolmentGrants(codes, s, a);
    } else {
      SessionGrants(codes, s, a);
    }
  }

  lemma RememberIs(codes: Codes, s: System, pid: nat)
    ensures Step(codes, s, Remember(pid)) == DoRemember(s, pid)
  {
  }

  lemma StepGranted(codes: Codes, s: System, a: Action)
    requires DbInv(s.db) && s.db.trusted.Keys <= s.grants.Keys
    ensures Step(codes, s, a).db.trusted.Keys <= Step(codes, s, a).grants.Keys
  {
    if a.Remember? {
      RememberIs(codes, s, a.pid);
    } else {
      OthersKeepTrust(codes, s, a);
      OthersKeepGrants(codes, s, a);
    }
  }

  lemma {:induction false} RunGranted(codes: Codes, s: System, actions: seq<Action>)
    requires Inv(codes, s) && s.db.trusted.Keys <= s.grants.Keys
    ensures Run(codes, s, actions).db.trusted.Keys <= Run(codes, s, actions).grants.Keys
    decreases |actions|
  {
    if actions != [] {
      StepGranted(codes, s, actions[0]);
      AccountSteps.StepKeeps(codes, s, actions[0]);
      RunGranted(codes, Step(codes, s, actions[0]), actions[1..]);
    }
  }

  /** A request that was asked to remember its device and whose user has been
      revoked since it raised its session. */
  ghost predicate RemembersTooLate(s: System, pid: nat) {
    && pid in s.procs && s.procs[pid].Remembering? && s.procs[pid].user in s.db.users
    && s.db.users[s.procs[pid].user].version != s.procs[pid].version
  }

  lemma RememberStale(s: System, pid: nat, t: nat)
    requires DbInv(s.db)
    ensures Stale(DoRemember(s, pid), t) && !Stale(s, t) <==> t == s.db.nextSid && RemembersTooLate(s, pid)
  {
  }

  /** In every reachable state all trusted devices have a grant, and for every
      step: a device comes to be stored that its user's latest revoking change
      should have taken away exactly when a request remembers it too late. */
  lemma StaleDeviceExactly(codes: Codes, actions: seq<Action>, a: Action, t: nat)
    ensures var s := Reached(codes, actions);
            s.db.trusted.Keys <= s.grants.Keys &&
            (Stale(Step(codes, s, a), t) && !Stale(s, t) <==>
             a.Remember? && t == s.db.nextSid && RemembersTooLate(s, a.pid))
  {
    var s := Reached(codes, actions);
    ReachedInv(codes, actions);
    ReachedInv(codes, []);
    RunGranted(codes, INITIAL, actions);
    if a.Remember? {
      RememberIs(codes, s, a.pid);
      RememberStale(s, a.pid, t);
    } else {
      OthersKeepTrust(codes, s, a);
      OthersKeepGrants(codes, s, a);
    }
  }

  /** Such a step is there whenever a password is reset between the two. */
  lemma ResetThenRemember(codes: Codes, s: System, pid: nat, hash: string)
    requires Inv(codes, s) && pid in s.procs && s.procs[pid].Remembering?
    requires var p := s.procs[pid]; p.user in s.db.users && s.db.users[p.user].version == p.version
    ensures var s1 := DoChangeAccount(s, s.procs[pid].user, None, Some(hash));
            RemembersTooLate(s1, pid) && Stale(DoRemember(s1, pid), s1.db.nextSid)
  {
    var s1 := DoChangeAccount(s, s.procs[pid].user, None, Some(hash));
    assert s1.procs == s.procs && s1.db.nextSid == s.db.nextSid;
  }
}
