/** Two runs of the account system that reach the states in which the promises
    about second factors fail. */
module AccountRuns {
  import opened Wrappers
  import opened AccountStore
  import opened Totp
  import opened AccountSystem
  import opened AccountInvariants
  import opened AccountTheorems
  import opened AccountEvidence

  // ---- composing runs ----

  lemma {:induction false} RunAppend(codes: Codes, s: System, a: seq<Action>, b: seq<Action>)
    ensures Run(codes, s, a + b) == Run(codes, Run(codes, s, a), b)
    decreases |a|
  {
    if a == [] {
      assert a + b == b;
    } else {
      assert (a + b)[1..] == a[1..] + b;
      RunAppend(codes, Step(codes, s, a[0]), a[1..], b);
    }
  }

  lemma RunOne(codes: Codes, s: System, a: Action)
    ensures Run(codes, s, [a]) == Step(codes, s, a)
  {
    assert [a][1..] == [];
    assert Run(codes, Step(codes, s, a), []) == Step(codes, s, a);
  }

  lemma RunThree(codes: Codes, s: System, a: Action, b: Action, c: Action)
    ensures Run(codes, s, [a, b, c]) == Step(codes, Step(codes, Step(codes, s, a), b), c)
  {
    assert [a, b, c] == [a] + ([b] + [c]);
    RunAppend(codes, s, [a], [b] + [c]);
    RunOne(codes, s, a);
    RunAppend(codes, Step(codes, s, a), [b], [c]);
    RunOne(codes, Step(codes, s, a), b);
    RunOne(codes, Step(codes, Step(codes, s, a), b), c);
  }

  /** Clock readings: every session outlives the run. */
  const START := Clock(0, 1)

  // ---- phases ----

  /** A request of session 0 that enters the enrolment handlers. */
  function Opening(pid: nat): seq<Action> {
    [Begin(pid, 0, 0), Admit(pid), EnterEnrol(pid)]
  }

  lemma BeginStep(codes: Codes, s: System, pid: nat)
    ensures Step(codes, s, Begin(pid, 0, 0)) == DoBegin(s, pid, 0, 0)
  {
  }

  lemma AdmitStep(codes: Codes, s: System, pid: nat)
    ensures Step(codes, s, Admit(pid)) == DoAdmit(s, pid)
  {
  }

  lemma EnterStep(codes: Codes, s: System, pid: nat)
    ensures Step(codes, s, EnterEnrol(pid)) == DoEnterEnrol(s, pid)
  {
  }

  /** Nobody holds the lock, no policy is decided, and session 0 is a full one. */
  ghost predicate Open(s: System) {
    s.lock == None && s.db.required == None && 1 in s.db.users && 0 in s.db.sessions && s.db.sessions[0] == Session(1, Full, 0, 1)
  }

  lemma OpeningIs(s: System, pid: nat)
    requires Open(s) && pid !in s.procs
    ensures DoEnterEnrol(DoAdmit(DoBegin(s, pid, 0, 0), pid), pid) == Take(s, pid, Enrolling(1, 0, Full))
  {
    var s1 := DoBegin(s, pid, 0, 0);
    assert s1 == Go(s, pid, Fetched(1, 0, Full, s.db.users[1].role, Enrolled(s.db, 1)));
    var s2 := DoAdmit(s1, pid);
    assert s2 == Go(s, pid, Request(1, 0, Full));
  }

  lemma RunOpening(codes: Codes, s: System, pid: nat)
    requires Open(s) && pid !in s.procs
    ensures Run(codes, s, Opening(pid)) == Take(s, pid, Enrolling(1, 0, Full))
  {
    RunThree(codes, s, Begin(pid, 0, 0), Admit(pid), EnterEnrol(pid));
    BeginStep(codes, s, pid);
    AdmitStep(codes, DoBegin(s, pid, 0, 0), pid);
    EnterStep(codes, DoAdmit(DoBegin(s, pid, 0, 0), pid), pid);
    OpeningIs(s, pid);
  }

  function Signing(pid: nat): seq<Action> {
    [LoadUser(pid), Decide(pid), Insert(pid, START)]
  }

  lemma LoadStep(codes: Codes, s: System, pid: nat)
    ensures Step(codes, s, LoadUser(pid)) == DoLoad(s, pid)
    ensures Step(codes, s, Decide(pid)) == DoDecide(s, pid)
  {
  }

  lemma InsertStep(codes: Codes, s: System, pid: nat)
    ensures Step(codes, s, Insert(pid, START)) == DoInsert(s, pid, START)
  {
  }

  lemma RunSigning(codes: Codes, s: System, pid: nat)
    ensures Run(codes, s, Signing(pid)) == DoInsert(DoDecide(DoLoad(s, pid), pid), pid, START)
  {
    RunThree(codes, s, LoadUser(pid), Decide(pid), Insert(pid, START));
    LoadStep(codes, s, pid);
    LoadStep(codes, DoLoad(s, pid), pid);
    InsertStep(codes, DoDecide(DoLoad(s, pid), pid), pid);
  }

  // ---- the first admin signs in while setup is still running ----

  /** Setup inserts the admin, who signs in before setup reads the account back. */
  const LOGIN: seq<Action> := [Setup(0, "root", "h"), CheckPassword(1, 1)] + Signing(1)

  function AfterSetup(): System {
    System(Db(map[1 := User("root", "h", "admin", 0, "", false, 0)], map[], map[], map[], None, 2, 0),
           map[], map[1 := Marks([], None)], map[], map[0 := SetupCreated(1)], None)
  }

  function AfterLogin(): System {
    AfterSetup().(
      db := AfterSetup().db.(sessions := map[0 := Session(1, Full, 0, 1)], nextSid := 1),
      trails := map[0 := Trail(Unproven(false), Some("h"), "h", 0, 0, None)])
  }

  lemma SetupStep(codes: Codes)
    ensures Step(codes, INITIAL, Setup(0, "root", "h")) == AfterSetup()
  {
    assert !HasAdmin(INITIAL.db.users);
  }

  lemma CheckStep(codes: Codes)
    ensures Step(codes, AfterSetup(), CheckPassword(1, 1)) == Go(AfterSetup(), 1, PasswordOk(1, "h", 0))
  {
  }

  lemma SigningIs()
    ensures DoInsert(DoDecide(DoLoad(Go(AfterSetup(), 1, PasswordOk(1, "h", 0)), 1), 1), 1, START) == AfterLogin()
  {
    var s1 := Go(AfterSetup(), 1, PasswordOk(1, "h", 0));
    var s2 := DoLoad(s1, 1);
    assert !Enrolled(s1.db, 1);
    assert s2 == Go(s1, 1, Loaded(1, 0, false, "admin", ByPassword("h")));
    var s3 := DoDecide(s2, 1);
    assert s3 == Go(s2, 1, Decided(1, 0, Full, Unproven(false), ByPassword("h")));
    var s4 := DoInsert(s3, 1, START);
    assert s4.procs == AfterLogin().procs;
    assert s4.db.sessions == AfterLogin().db.sessions && s4.trails == AfterLogin().trails;
  }

  lemma RunLogin(codes: Codes)
    ensures Reached(codes, LOGIN) == AfterLogin()
  {
    RunAppend(codes, INITIAL, [Setup(0, "root", "h"), CheckPassword(1, 1)], Signing(1));
    assert [Setup(0, "root", "h"), CheckPassword(1, 1)] == [Setup(0, "root", "h")] + [CheckPassword(1, 1)];
    RunAppend(codes, INITIAL, [Setup(0, "root", "h")], [CheckPassword(1, 1)]);
    RunOne(codes, INITIAL, Setup(0, "root", "h"));
    SetupStep(codes);
    RunOne(codes, AfterSetup(), CheckPassword(1, 1));
    CheckStep(codes);
    RunSigning(codes, Go(AfterSetup(), 1, PasswordOk(1, "h", 0)), 1);
    SigningIs();
  }

  // ---- setup skips a new factor ----

  /** The new admin registers a key before setup mints its own session. */
  const SETUP_RACE: seq<Action> := LOGIN + (Opening(2) + ([Register(2, "key")] + Signing(0)))

  function AfterKey(): System {
    System(Db(map[1 := User("root", "h", "admin", 1, "", false, 0)], map[0 := Session(1, Full, 0, 1)],
              map["key" := 1], map[], None, 2, 1),
           map[0 := Trail(EnrolledFactor, Some("h"), "h", 0, 0, None)],
           map[1 := Marks([], Some(0))], map[], map[0 := SetupCreated(1)], None)
  }

  lemma KeyTables()
    ensures AddCredential(AfterLogin().db, 1, "key", Some(0)) == Some(AfterKey().db)
  {
    var db := AfterLogin().db;
    var after := FactorChange(db.(credentials := db.credentials["key" := 1]), 1, Some(0));
    assert after.users == AfterKey().db.users && after.sessions == AfterKey().db.sessions;
    assert after.credentials == AfterKey().db.credentials && after.trusted == AfterKey().db.trusted;
  }

  lemma RegisterStep(codes: Codes, s: System)
    ensures Step(codes, s, Register(2, "key")) == DoRegister(s, 2, "key")
  {
  }

  lemma RegisterIs()
    ensures DoRegister(Take(AfterLogin(), 2, Enrolling(1, 0, Full)), 2, "key") == AfterKey()
  {
    var s := Take(AfterLogin(), 2, Enrolling(1, 0, Full));
    KeyTables();
    var s1 := Revoked(s, AfterKey().db, 1, Some(0));
    assert s1.trails == AfterLogin().trails && s1.marks == AfterKey().marks;
    var s2 := AfterEnrol(s1, 2, 1, 0, Full);
    assert s2.trails == AfterKey().trails && s2.procs == AfterKey().procs && s2.lock == None;
  }

  lemma SetupInsert()
    ensures Violates(DoInsert(DoDecide(DoLoad(AfterKey(), 0), 0), 0, START), 1)
  {
    var s1 := DoLoad(AfterKey(), 0);
    assert AfterKey().db.credentials["key"] == 1;
    assert s1 == Go(AfterKey(), 0, Loaded(1, 1, true, "admin", BySetup));
    var s2 := DoDecide(s1, 0);
    assert s2 == Go(s1, 0, Decided(1, 1, Full, Unproven(true), BySetup));
    var s3 := DoInsert(s2, 0, START);
    assert s3.db.sessions[1] == Session(1, Full, 0, 1);
    assert HasKey(s3.db.credentials, 1);
  }

  lemma RunRace(codes: Codes)
    ensures Reached(codes, SETUP_RACE) == DoInsert(DoDecide(DoLoad(AfterKey(), 0), 0), 0, START)
  {
    RunAppend(codes, INITIAL, LOGIN, Opening(2) + ([Register(2, "key")] + Signing(0)));
    RunLogin(codes);
    RunAppend(codes, AfterLogin(), Opening(2), [Register(2, "key")] + Signing(0));
    RunOpening(codes, AfterLogin(), 2);
    var s := Take(AfterLogin(), 2, Enrolling(1, 0, Full));
    RunAppend(codes, s, [Register(2, "key")], Signing(0));
    RunOne(codes, s, Register(2, "key"));
    RegisterStep(codes, s);
    RegisterIs();
    RunSigning(codes, AfterKey(), 0);
  }

  /** A reachable full session of a user with a factor that proved no factor. */
  lemma SetupRaceIsReachable(codes: Codes)
    ensures Violates(Reached(codes, SETUP_RACE), 1)
  {
    RunRace(codes);
    SetupInsert();
  }

  // ---- a confirmed enrolment is dropped by starting again ----

  /** The admin enrols a TOTP secret and is about to start another enrolment. */
  function ReEnrolment(code: string, at: nat): seq<Action> {
    LOGIN + (Opening(2) + ([BeginTotp(2, "s")] +
    (Opening(3) + ([ReadPending(3), ConfirmCode(3, code, at), Confirm(3)] + Opening(4)))))
  }

  function AfterPending(): System {
    AfterLogin().(db := AfterLogin().db.(users := map[1 := User("root", "h", "admin", 0, "s", false, 0)]))
  }

  function AfterConfirm(a: Acceptance): System {
    System(Db(map[1 := User("root", "h", "admin", 1, "s", true, a.counter)], map[0 := Session(1, Full, 0, 1)],
              map[], map[], None, 2, 1),
           map[0 := Trail(EnrolledFactor, Some("h"), "h", 0, 0, None)],
           map[1 := Marks([a], Some(0))], map[], map[0 := SetupCreated(1)], None)
  }

  lemma PendingIs()
    ensures DoBeginTotp(Take(AfterLogin(), 2, Enrolling(1, 0, Full)), 2, "s") == AfterPending()
  {
    var s := DoBeginTotp(Take(AfterLogin(), 2, Enrolling(1, 0, Full)), 2, "s");
    assert s.db.users == AfterPending().db.users && s.marks == AfterPending().marks;
    assert s.procs == AfterPending().procs && s.lock == None;
  }

  lemma ConfirmTables(counter: int)
    ensures var a := Acceptance(counter, 0, "s", "");
            ConfirmTotp(AfterPending().db, 1, counter, Some(0)) == Some(AfterConfirm(a).db)
  {
    var db := AfterPending().db;
    var u := db.users[1].(confirmed := true, lastUsed := counter);
    var after := FactorChange(db.(users := db.users[1 := u]), 1, Some(0));
    var want := AfterConfirm(Acceptance(counter, 0, "s", "")).db;
    assert after.users == want.users && after.sessions == want.sessions;
    assert after.credentials == want.credentials && after.trusted == want.trusted;
  }

  lemma ConfirmIs(a: Acceptance)
    ensures DoConfirm(Take(AfterPending(), 3, ConfirmMatched(1, 0, Full, a)), 3) == AfterConfirm(a)
  {
    var s := Take(AfterPending(), 3, ConfirmMatched(1, 0, Full, a));
    ConfirmTables(a.counter);
    var s1 := SetAccepted(Revoked(s, AfterConfirm(a).db, 1, Some(0)), 1, [a]);
    assert s1.trails == AfterPending().trails && s1.marks == AfterConfirm(a).marks;
    var s2 := AfterEnrol(s1, 3, 1, 0, Full);
    assert s2.trails == AfterConfirm(a).trails && s2.procs == AfterConfirm(a).procs && s2.lock == None;
  }

  lemma ConfirmSteps(codes: Codes, s: System, code: string, at: nat)
    ensures Step(codes, s, ReadPending(3)) == DoReadPending(s, 3)
    ensures Step(codes, s, ConfirmCode(3, code, at)) == DoConfirmCode(codes, s, 3, code, at)
  {
  }

  lemma ConfirmStep(codes: Codes, s: System)
    ensures Step(codes, s, Confirm(3)) == DoConfirm(s, 3)
  {
  }

  lemma RunConfirm(codes: Codes, code: string, at: nat, c: int)
    requires Matched(codes, "s", code, 0, at) == Some(c)
    ensures Run(codes, Take(AfterPending(), 3, Enrolling(1, 0, Full)), [ReadPending(3), ConfirmCode(3, code, at), Confirm(3)])
            == AfterConfirm(Acceptance(c, at, "s", code))
  {
    var s := Take(AfterPending(), 3, Enrolling(1, 0, Full));
    RunThree(codes, s, ReadPending(3), ConfirmCode(3, code, at), Confirm(3));
    ConfirmSteps(codes, s, code, at);
    PendingRead();
    var s1 := Take(AfterPending(), 3, Confirming(1, 0, Full, "s"));
    ConfirmSteps(codes, s1, code, at);
    CodeRead(codes, code, at, c);
    var a := Acceptance(c, at, "s", code);
    ConfirmStep(codes, Take(AfterPending(), 3, ConfirmMatched(1, 0, Full, a)));
    ConfirmIs(a);
  }

  lemma PendingRead()
    ensures DoReadPending(Take(AfterPending(), 3, Enrolling(1, 0, Full)), 3) ==
            Take(AfterPending(), 3, Confirming(1, 0, Full, "s"))
  {
  }

  lemma CodeRead(codes: Codes, code: string, at: nat, c: int)
    requires Matched(codes, "s", code, 0, at) == Some(c)
    ensures DoConfirmCode(codes, Take(AfterPending(), 3, Confirming(1, 0, Full, "s")), 3, code, at) ==
            Take(AfterPending(), 3, ConfirmMatched(1, 0, Full, Acceptance(c, at, "s", code)))
  {
  }

  lemma RunReEnrolment(codes: Codes, code: string, at: nat, c: int)
    requires Matched(codes, "s", code, 0, at) == Some(c)
    ensures Reached(codes, ReEnrolment(code, at)) ==
            Take(AfterConfirm(Acceptance(c, at, "s", code)), 4, Enrolling(1, 0, Full))
  {
    var confirm := [ReadPending(3), ConfirmCode(3, code, at), Confirm(3)];
    RunAppend(codes, INITIAL, LOGIN, Opening(2) + ([BeginTotp(2, "s")] + (Opening(3) + (confirm + Opening(4)))));
    RunLogin(codes);
    RunPending(codes, Opening(3) + (confirm + Opening(4)));
    RunAppend(codes, AfterPending(), Opening(3), confirm + Opening(4));
    RunOpening(codes, AfterPending(), 3);
    RunAppend(codes, Take(AfterPending(), 3, Enrolling(1, 0, Full)), confirm, Opening(4));
    RunConfirm(codes, code, at, c);
    RunOpening(codes, AfterConfirm(Acceptance(c, at, "s", code)), 4);
  }

  lemma PendingStep(codes: Codes, s: System)
    ensures Step(codes, s, BeginTotp(2, "s")) == DoBeginTotp(s, 2, "s")
  {
  }

  lemma RunPending(codes: Codes, rest: seq<Action>)
    ensures Run(codes, AfterLogin(), Opening(2) + ([BeginTotp(2, "s")] + rest)) == Run(codes, AfterPending(), rest)
  {
    var s := Take(AfterLogin(), 2, Enrolling(1, 0, Full));
    RunAppend(codes, AfterLogin(), Opening(2), [BeginTotp(2, "s")] + rest);
    RunOpening(codes, AfterLogin(), 2);
    RunAppend(codes, s, [BeginTotp(2, "s")], rest);
    RunOne(codes, s, BeginTotp(2, "s"));
    PendingStep(codes, s);
    PendingIs();
  }

  /** For any generator under which some code of a secret can be confirmed: a
      reachable state in which the next step drops a confirmed factor, keeping
      version, sessions and trusted devices. */
  lemma LapseIsReachable(codes: Codes, code: string, at: nat, c: int)
    requires Acceptable(codes, "s", code, 0, at, c)
    ensures var s := Reached(codes, ReEnrolment(code, at));
            Lapses(s.db, Step(codes, s, BeginTotp(4, "t")).db, 1)
  {
    MatchedMeaning(codes, "s", code, 0, at);
    var matched := Matched(codes, "s", code, 0, at).value;
    RunReEnrolment(codes, code, at, matched);
    FactorLapsesExactly(codes, ReEnrolment(code, at), BeginTotp(4, "t"), 1);
    assert !HasKey(AfterConfirm(Acceptance(matched, at, "s", code)).db.credentials, 1);
  }
}
