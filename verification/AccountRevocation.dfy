/** What a factor, password or policy change revokes, and that the logins it
    overtakes stay refused whatever follows. */
module AccountRevocation {
  import opened Wrappers
  import opened AccountStore
  import opened Totp
  import opened AccountSystem
  import opened AccountInvariants
  import opened AccountTheorems
  import opened AccountEffects
  import AccountSteps

  // ---- what one transaction revokes ----

  /** Of user `id`, only session `keep` is left, on a newer version; nobody else
      is affected. */
  ghost predicate RevokesAllBut(a: Db, b: Db, id: int, keep: Option<nat>) {
    && a.users.Keys == b.users.Keys
    && (id in a.users ==> b.users[id].version == a.users[id].version + 1)
    && (forall k :: k in a.users && k != id ==> b.users[k] == a.users[k])
    && (forall sid :: sid in b.sessions <==> sid in a.sessions && (a.sessions[sid].user != id || keep == Some(sid)))
    && (forall sid :: sid in b.sessions ==> b.sessions[sid] == a.sessions[sid])
    && (forall t :: t in b.trusted <==> t in a.trusted && a.trusted[t] != id)
    && KeysOfOthers(a.credentials, id) == KeysOfOthers(b.credentials, id)
  }

  /** Whether the user has a factor beside the one called `credential` ("" is
      the TOTP enrolment). */
  ghost predicate HasOther(db: Db, id: int, credential: string) {
    || (credential != "" && id in db.users && db.users[id].confirmed && db.users[id].secret != "")
    || (exists c :: c in db.credentials && (credential == "" || c != credential) && db.credentials[c] == id)
  }

  lemma EnrolmentsRevoke(db: Db, id: int, counter: int, credential: string, keep: Option<nat>)
    ensures var r := ConfirmTotp(db, id, counter, keep);
            r.Some? ==> RevokesAllBut(db, r.value, id, keep) && Enrolled(r.value, id)
    ensures var r := AddCredential(db, id, credential, keep);
            r.Some? ==> RevokesAllBut(db, r.value, id, keep) && Enrolled(r.value, id) &&
                        credential !in db.credentials && r.value.credentials[credential] == id
  {
    var r := AddCredential(db, id, credential, keep);
    if r.Some? {
      assert credential in r.value.credentials && r.value.credentials[credential] == id;
    }
  }

  lemma KeyRemovalRevokes(db: Db, id: int, credential: string, keep: Option<nat>)
    requires credential != "" && RemoveFactor(db, id, credential, keep).Some?
    ensures var after := RemoveFactor(db, id, credential, keep).value;
            RevokesAllBut(db, after, id, keep) && (Enrolled(after, id) <==> HasOther(db, id, credential))
  {
    var after := RemoveFactor(db, id, credential, keep).value;
    assert forall c :: c in after.credentials <==> c in db.credentials && c != credential;
    assert KeysOfOthers(db.credentials, id) == KeysOfOthers(after.credentials, id);
  }

  lemma TotpRemovalRevokes(db: Db, id: int, keep: Option<nat>)
    requires RemoveFactor(db, id, "", keep).Some?
    ensures var after := RemoveFactor(db, id, "", keep).value;
            RevokesAllBut(db, after, id, keep) && (Enrolled(after, id) <==> HasOther(db, id, ""))
  {
  }

  /** Removing a factor leaves exactly the others. */
  lemma RemovalRevokes(db: Db, id: int, credential: string, keep: Option<nat>)
    ensures var r := RemoveFactor(db, id, credential, keep);
            r.Some? ==> RevokesAllBut(db, r.value, id, keep) &&
                        (Enrolled(r.value, id) <==> HasOther(db, id, credential))
  {
    if RemoveFactor(db, id, credential, keep).Some? {
      if credential == "" {
        TotpRemovalRevokes(db, id, keep);
      } else {
        KeyRemovalRevokes(db, id, credential, keep);
      }
    }
  }

  lemma ResetRevokes(db: Db, id: int)
    ensures RevokesAllBut(db, ClearMfa(db, id), id, None) && !Enrolled(ClearMfa(db, id), id)
  {
  }

  /** Only with the expected hash, and then every other session ends. */
  lemma PasswordChangeRevokes(db: Db, id: int, hash: string, keep: Option<nat>, expected: Option<string>)
    ensures var r := ChangePassword(db, id, hash, keep, expected);
            (r.Some? <==> id in db.users && (expected.Some? ==> db.users[id].hash == expected.value)) &&
            (r.Some? ==> RevokesAllBut(db, r.value, id, keep) && r.value.users[id].hash == hash &&
                         (Enrolled(r.value, id) <==> Enrolled(db, id)))
  {
  }

  /** The users with a required role and no factor lose every session and every
      trusted device; everyone else keeps everything. */
  lemma PolicyRevokes(db: Db, roles: set<string>, id: int)
    requires DbInv(db)
    ensures var after := SetPolicy(db, roles);
            var owing := id in db.users && db.users[id].role in roles && !Enrolled(db, id);
            (forall sid :: sid in db.sessions && db.sessions[sid].user == id ==> (sid in after.sessions <==> !owing)) &&
            (forall t :: t in db.trusted && db.trusted[t] == id ==> (t in after.trusted <==> !owing)) &&
            (id in db.users ==>
               after.users[id].version == db.users[id].version + if owing then 1 else 0)
  {
  }

  // ---- versions over runs ----

  /** User ids are not reused and versions never go back. */
  ghost predicate Grows(a: Db, b: Db) {
    && a.nextUser <= b.nextUser
    && forall id :: id in b.users && id < a.nextUser ==> id in a.users && a.users[id].version <= b.users[id].version
  }

  lemma StepGrows(codes: Codes, s: System, a: Action)
    requires DbInv(s.db)
    ensures Grows(s.db, Step(codes, s, a).db)
  {
    StepEffect(codes, s, a);
    var b := Step(codes, s, a).db;
    forall id | id in b.users && id < s.db.nextUser
      ensures id in s.db.users && s.db.users[id].version <= b.users[id].version
    {
      assert At(b.users, id) == RowAfter(s, a, id);
    }
  }

  lemma {:induction false} RunKeepsGrowing(codes: Codes, s: System, actions: seq<Action>)
    requires Inv(codes, s)
    ensures Grows(s.db, Run(codes, s, actions).db)
    decreases |actions|
  {
    if actions != [] {
      StepGrows(codes, s, actions[0]);
      AccountSteps.StepKeeps(codes, s, actions[0]);
      RunKeepsGrowing(codes, Step(codes, s, actions[0]), actions[1..]);
      GrowsTrans(s.db, Step(codes, s, actions[0]).db, Run(codes, Step(codes, s, actions[0]), actions[1..]).db);
    }
  }

  /** From every reachable state and over every run. */
  lemma RunGrows(codes: Codes, before: seq<Action>, actions: seq<Action>)
    ensures Grows(Reached(codes, before).db, Run(codes, Reached(codes, before), actions).db)
  {
    ReachedInv(codes, before);
    RunKeepsGrowing(codes, Reached(codes, before), actions);
  }

  lemma GrowsTrans(a: Db, b: Db, c: Db)
    requires Grows(a, b) && Grows(b, c)
    ensures Grows(a, c)
  {
  }

  /** A login or a re-authentication in flight that read the user before a
      revoking step can never be committed after it, whatever happens next:
      once the insert would be refused, it is refused for ever. */
  lemma RevokedLoginNeverCommits(codes: Codes, before: seq<Action>, a: Action, more: seq<Action>,
                                 id: int, version: nat, level: Level, sid: nat, now: Clock)
    ensures var s := Reached(codes, before);
            var s1 := Step(codes, s, a);
            CreateSession(s.db, id, version, level, now).Some? &&
            CreateSession(s1.db, id, version, level, now).None? ==>
              CreateSession(Run(codes, s1, more).db, id, version, level, now).None? &&
              MarkReauthenticated(Run(codes, s1, more).db, sid, id, version, now.time).None?
  {
    var s := Reached(codes, before);
    ReachedInv(codes, before);
    StepGrows(codes, s, a);
    AccountSteps.StepKeeps(codes, s, a);
    RunKeepsGrowing(codes, Step(codes, s, a), more);
  }
}
