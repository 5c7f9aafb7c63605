/** The last admin: there is one for ever once there is one, and the first is
    created at most once. */
module AccountAdmins {
  import opened Wrappers
  import opened AccountStore
  import opened Totp
  import opened AccountSystem
  import opened AccountInvariants
  import opened AccountTheorems
  import opened AccountEffects
  import AccountSteps

  /** Setting a role by itself is the combined change without a password. */
  lemma SetRoleKeepsAdmin(db: Db, id: int, role: string)
    requires HasAdmin(db.users)
    ensures SetRole(db, id, role).Ok? == ChangeAccount(db, id, Some(role), None).Ok?
    ensures SetRole(db, id, role).Ok? ==>
              SetRole(db, id, role) == ChangeAccount(db, id, Some(role), None) && HasAdmin(SetRole(db, id, role).value.users)
    ensures SetRole(db, id, role).Err? ==>
              SetRole(db, id, role).error == if id in db.users then LastAdmin else NotFound
  {
    if MayChangeRole(db, id, role) {
      MayTakeExactly(db, id, role);
      var after := WithRole(db, id, role).users;
      var k :| k in db.users && db.users[k].role == "admin";
      if k == id && role != "admin" {
        k :| k in db.users && k != id && db.users[k].role == "admin";
      }
      assert k in after && after[k].role == "admin";
    }
  }

  /** An admin who stays one: another when this one is demoted or removed. */
  lemma AdminAfter(s: System, a: Action, k: int) returns (j: int)
    requires DbInv(s.db) && k in s.db.users && s.db.users[k].role == "admin"
    ensures RowAfter(s, a, j).Some? && RowAfter(s, a, j).value.role == "admin"
  {
    j := k;
    if (a == RemoveUser(k) && Removes(s.db, k)) || RoleAfter(s, a, k) != "admin" {
      j :| j in s.db.users && j != k && s.db.users[j].role == "admin";
    }
  }

  /** No step removes or demotes the last admin. */
  lemma StepKeepsAdmin(codes: Codes, s: System, a: Action)
    requires DbInv(s.db) && HasAdmin(s.db.users)
    ensures HasAdmin(Step(codes, s, a).db.users)
  {
    StepEffect(codes, s, a);
    var k :| k in s.db.users && s.db.users[k].role == "admin";
    var j := AdminAfter(s, a, k);
    assert At(Step(codes, s, a).db.users, j) == RowAfter(s, a, j);
  }

  /** How many times first-admin creation succeeds during a run. */
  function FirstAdmins(codes: Codes, s: System, actions: seq<Action>): nat
    decreases |actions|
  {
    if actions == [] then 0
    else
      var a := actions[0];
      var created := a.Setup? && a.pid !in s.procs && CreateFirstAdmin(s.db, a.name, a.hash).Ok?;
      (if created then 1 else 0) + FirstAdmins(codes, Step(codes, s, a), actions[1..])
  }

  lemma {:induction false} NoFirstAdminAgain(codes: Codes, s: System, actions: seq<Action>)
    requires Inv(codes, s) && HasAdmin(s.db.users)
    ensures FirstAdmins(codes, s, actions) == 0
    ensures HasAdmin(Run(codes, s, actions).db.users)
    decreases |actions|
  {
    if actions != [] {
      AccountSteps.StepKeeps(codes, s, actions[0]);
      StepKeepsAdmin(codes, s, actions[0]);
      NoFirstAdminAgain(codes, Step(codes, s, actions[0]), actions[1..]);
    }
  }

  lemma {:induction false} FirstAdminAtMostOnce(codes: Codes, s: System, actions: seq<Action>)
    requires Inv(codes, s)
    ensures FirstAdmins(codes, s, actions) <= 1
    decreases |actions|
  {
    if actions != [] {
      var a := actions[0];
      var s' := Step(codes, s, a);
      AccountSteps.StepKeeps(codes, s, a);
      if a.Setup? && a.pid !in s.procs && CreateFirstAdmin(s.db, a.name, a.hash).Ok? {
        assert s.db.nextUser in s'.db.users && s'.db.users[s.db.nextUser].role == "admin";
        NoFirstAdminAgain(codes, s', actions[1..]);
      } else {
        FirstAdminAtMostOnce(codes, s', actions[1..]);
      }
    }
  }

  /** Once there is an admin there always is one, whatever follows; so the
      first admin is created at most once in any run. */
  lemma LastAdminStays(codes: Codes, before: seq<Action>, after: seq<Action>)
    ensures var s := Reached(codes, before);
            (HasAdmin(s.db.users) ==>
               HasAdmin(Run(codes, s, after).db.users) && FirstAdmins(codes, s, after) == 0) &&
            FirstAdmins(codes, INITIAL, before) <= 1
  {
    var s := Reached(codes, before);
    ReachedInv(codes, before);
    ReachedInv(codes, []);
    FirstAdminAtMostOnce(codes, INITIAL, before);
    if HasAdmin(s.db.users) {
      NoFirstAdminAgain(codes, s, after);
    }
  }
}
