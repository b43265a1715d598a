/**
 The controls.  Each removes one mechanism of the protocol, and each has a run that shows what the
 mechanism prevents: a protocol run up to a state, and one step more with the mechanism removed.
 */
module DispatchControls {
  import opened Wrappers
  import opened DispatchModel
  import opened DispatchInvariants
  import opened DispatchRuns
  import opened DispatchSafety
  import opened DispatchRetries
  import opened DispatchChain

  const M := Id("m")
  const A := Id("a")
  const B := Id("b")
  const X := Id("x")
  const Y := Id("y")
  const D0 := Digest("0")
  const DA := Digest("a")
  const DB := Digest("b")

  /** A protocol run from set-up, with disciplined retries, that ends in `s`. */
  ghost predicate Leads(noScope: bool, run: Run, s: System) {
    && ProtocolRun(run) && GrantedRun(run)
    && run.states[0] == Start(M, D0, noScope, 0) && run.states[|run.events|] == s
  }

  lemma LeadsNowhere(noScope: bool) returns (run: Run)
    ensures Leads(noScope, run, Start(M, D0, noScope, 0))
  {
    run := Run([Start(M, D0, noScope, 0)], []);
    assert Initial(run.states[0]);
  }

  /** One step more, given by its rows. */
  lemma Go(noScope: bool, run: Run, s: System, e: Event, s': System) returns (run': Run)
    requires Leads(noScope, run, s) && InProtocol(e) && Granted(s, e)
    requires StepDb(s, e) == s'.db && StepGrants(s, e) == s'.grants
    requires s'.pending == if e.BeginRead? then s.pending + [Read(e.id, Basis(s.db.timeline, e.id), s.db.now)] else s.pending
    ensures Leads(noScope, run', s')
  {
    run' := Extend(run, e, s');
    assert Step(s, e) == s';
    ExtendProtocol(run, e, s');
  }

  /* ---- a committed operation ---- */

  const PA := Plan(M, DA, D0, 1, 1, 100, 2, 10, 10)
  const FIRST := Attempt(1, X, 1, 10, None, 0, 0)

  function S0(scope: bool): Db { Setup(M, D0, !scope, 0) }

  function S1(scope: bool): Db {
    S0(scope).(plans := map[A := PA], timeline := [Entry(1, A, X, Planned)], nextRev := 2)
  }

  function S2(scope: bool): Db {
    S1(scope).(approvals := map[A := Approval(1, false)],
               timeline := [Entry(1, A, X, Planned), Entry(2, A, X, Approved)], nextRev := 3)
  }

  function S4(scope: bool): Db {
    S2(scope).(observations := [Observation(A, M, Evidence, Some(D0), 2, 0)],
               timeline := [Entry(1, A, X, Planned), Entry(2, A, X, Approved), Entry(3, A, X, Observed)], nextRev := 4)
  }

  function S5(scope: bool): Db {
    S4(scope).(ops := map[A := Operation(M, Committed, X, 1)],
               timeline := [Entry(1, A, X, Planned), Entry(2, A, X, Approved), Entry(3, A, X, Observed),
                            Entry(4, A, X, Became(Committed))], nextRev := 5)
  }

  lemma ToS1(scope: bool)
    ensures PlanTx(S0(scope), A, M, DA, 100, 2, 10, 10, X).0 == S1(scope)
  {
  }

  lemma ToS2(scope: bool)
    ensures ApproveTx(S1(scope), A, X).0 == S2(scope)
  {
  }

  lemma ToS4(scope: bool)
    ensures Basis(S2(scope).timeline, A) == 2
    ensures ObserveTx(S2(scope), A, M, Evidence, Some(D0), 2, 0, X).0 == S4(scope)
  {
  }

  lemma ToS5(scope: bool)
    ensures CommitTx(S4(scope), A, X, Protocol).0 == S5(scope)
  {
    var db := S4(scope);
    assert db.observations[0].op == A;
    assert CheckEvidence(db, A, PA, false) == Pass;
    assert !ScopeHeld(db, M);
  }

  lemma ReachedApproval(scope: bool) returns (run: Run)
    ensures Leads(!scope, run, System(S2(scope), [], {}))
  {
    run := LeadsNowhere(!scope);
    ToS1(scope);
    run := Go(!scope, run, Start(M, D0, !scope, 0), Propose(A, M, DA, 100, 2, 10, 10, X), System(S1(scope), [], {}));
    ToS2(scope);
    run := Go(!scope, run, System(S1(scope), [], {}), Approve(A, X), System(S2(scope), [], {}));
  }

  /** A read of operation `id` that begins and is recorded at once. */
  lemma GoObserve(noScope: bool, run: Run, s: System, id: Id, purpose: Purpose, digest: Digest, db': Db)
    returns (run': Run, pending: seq<Read>)
    requires Leads(noScope, run, s)
    requires ObserveTx(s.db, id, M, purpose, Some(digest), Basis(s.db.timeline, id), s.db.now, X).0 == db'
    ensures Leads(noScope, run', System(db', pending, s.grants))
  {
    pending := s.pending + [Read(id, Basis(s.db.timeline, id), s.db.now)];
    run' := GoBegin(noScope, run, s, id, pending);
    run' := GoRecord(noScope, run', System(s.db, pending, s.grants), |s.pending|, purpose, digest, db');
  }

  lemma GoBegin(noScope: bool, run: Run, s: System, id: Id, pending: seq<Read>) returns (run': Run)
    requires Leads(noScope, run, s) && pending == s.pending + [Read(id, Basis(s.db.timeline, id), s.db.now)]
    ensures Leads(noScope, run', System(s.db, pending, s.grants))
  {
    run' := Go(noScope, run, s, BeginRead(id), System(s.db, pending, s.grants));
  }

  lemma GoRecord(noScope: bool, run: Run, s: System, r: nat, purpose: Purpose, digest: Digest, db': Db)
    returns (run': Run)
    requires Leads(noScope, run, s) && r < |s.pending|
    requires ObserveTx(s.db, s.pending[r].op, M, purpose, Some(digest), s.pending[r].basis, s.pending[r].began, X).0 == db'
    ensures Leads(noScope, run', s.(db := db'))
  {
    run' := Go(noScope, run, s, EndRead(r, M, purpose, Some(digest), X), s.(db := db'));
  }

  lemma GoCommit(noScope: bool, run: Run, s: System, id: Id, db': Db) returns (run': Run)
    requires Leads(noScope, run, s) && CommitTx(s.db, id, X, Protocol).0 == db'
    ensures Leads(noScope, run', s.(db := db'))
  {
    run' := Go(noScope, run, s, Commit(id, X, Protocol), s.(db := db'));
  }

  lemma GoSend(noScope: bool, run: Run, s: System, id: Id, db': Db) returns (run': Run)
    requires Leads(noScope, run, s) && AttemptTx(s.db, id, X, 1, Protocol, 0).0 == db' && s.grants == {}
    ensures Leads(noScope, run', s.(db := db'))
  {
    run' := Go(noScope, run, s, Send(id, X, 1, Protocol, 0), s.(db := db'));
  }

  lemma GoMark(noScope: bool, run: Run, s: System, id: Id, db': Db) returns (run': Run)
    requires Leads(noScope, run, s) && MarkUnresolvedTx(s.db, id, X, 1).0 == db'
    ensures Leads(noScope, run', s.(db := db'))
  {
    run' := Go(noScope, run, s, MarkUnresolved(id, X, 1), s.(db := db'));
  }

  /** Plan, approval, evidence and commitment of operation A by executor X. */
  lemma ReachedCommit(scope: bool) returns (run: Run, pending: seq<Read>)
    ensures Leads(!scope, run, System(S5(scope), pending, {}))
  {
    run := ReachedApproval(scope);
    ToS4(scope);
    run, pending := GoObserve(!scope, run, System(S2(scope), [], {}), A, Evidence, D0, S4(scope));
    ToS5(scope);
    run := GoCommit(!scope, run, System(S4(scope), pending, {}), A, S5(scope));
  }

  lemma EvidenceFresh(db: Db)
    requires db.observations == S4(true).observations && db.now == 0
    ensures CheckEvidence(db, A, PA, false) == Pass && CheckEvidence(db, A, PA, true) == Pass
  {
    assert db.observations[0].op == A;
  }

  /* ---- naive: the approval is not compared again ---- */

  function Revoked6(): Db {
    Append(S5(true).(approvals := map[A := Approval(1, true)]), A, Y, Revoked)
  }

  lemma ToRevoked6()
    ensures RevokeTx(S5(true), A, Y).0 == Revoked6()
    ensures A in Revoked6().approvals && Revoked6().approvals[A].revoked && Attempts(Revoked6(), A) == []
    ensures AttemptTx(Revoked6(), A, X, 1, Naive, 0) == (Record(Revoked6(), A, X, 1), Ok(1))
    ensures AttemptTx(Revoked6(), A, X, 1, Protocol, 0) == (Revoked6(), Refused(1))
  {
    EvidenceFresh(Revoked6());
  }

  /** A run of protocol steps to a state in which the approval is revoked and nothing was sent.
      There the attempt transaction of naive mode records an attempt; protocol mode refuses. */
  lemma NaiveSendsAfterRevocation() returns (run: Run, s: System)
    ensures Leads(false, run, s)
    ensures A in s.db.approvals && s.db.approvals[A].revoked && Attempts(s.db, A) == []
    ensures |Attempts(AttemptTx(s.db, A, X, 1, Naive, 0).0, A)| == 1
    ensures AttemptTx(s.db, A, X, 1, Protocol, 0) == (s.db, Refused(1))
  {
    var pending;
    run, pending := ReachedCommit(true);
    ToRevoked6();
    s := System(Revoked6(), pending, {});
    run := Go(false, run, System(S5(true), pending, {}), Revoke(A, Y), s);
  }

  /* ---- nofence: owner, generation and state are not compared ---- */

  function Taken6(): Db {
    Append(S5(true).(ops := map[A := Operation(M, Unresolved, Y, 2)]), A, Y, Owned)
  }

  lemma ToTaken6()
    ensures TakeoverTx(S5(true), A, Y).0 == Taken6()
    ensures A in Taken6().ops && Taken6().ops[A].owner == Y && Taken6().ops[A].gen == 2
    ensures AttemptTx(Taken6(), A, X, 1, NoFence, 0) == (Record(Taken6(), A, X, 1), Ok(1))
    ensures AttemptTx(Taken6(), A, X, 1, Protocol, 0) == (Taken6(), Refused(OWNER))
  {
    EvidenceFresh(Taken6());
  }

  /** A run of protocol steps to a takeover at generation 2.  There the attempt transaction without
      the fence records an attempt of generation 1; protocol mode refuses. */
  lemma NoFenceSendsAfterTakeover() returns (run: Run, s: System)
    ensures Leads(false, run, s)
    ensures A in s.db.ops && s.db.ops[A].owner == Y && s.db.ops[A].gen == 2
    ensures var rows := Attempts(AttemptTx(s.db, A, X, 1, NoFence, 0).0, A);
            |rows| == 1 && rows[0].owner == X && rows[0].gen == 1
    ensures AttemptTx(s.db, A, X, 1, Protocol, 0) == (s.db, Refused(OWNER))
  {
    var pending;
    run, pending := ReachedCommit(true);
    ToTaken6();
    s := System(Taken6(), pending, {});
    run := Go(false, run, System(S5(true), pending, {}), Takeover(A, Y), s);
  }

  /* ---- a retry revision no classification returned ---- */

  function Sent6(): Db { Record(S5(true), A, X, 1) }

  function Stopped7(): Db { Move(Sent6(), A, X, Unresolved) }

  lemma ToStopped7()
    ensures AttemptTx(S5(true), A, X, 1, Protocol, 0).0 == Sent6()
    ensures MarkUnresolvedTx(Sent6(), A, X, 1).0 == Stopped7()
  {
    EvidenceFresh(S5(true));
  }

  lemma SecondOpen()
    ensures var rows := Attempts(AttemptTx(Stopped7(), A, X, 1, Protocol, 99).0, A);
            |rows| == 2 && !AccountedFor(rows[0]) && !AccountedFor(rows[1])
  {
    EvidenceFresh(Stopped7());
  }

  /** The retry rule counts facts after the revision it is given.  Given a revision that no
      classification returned, protocol mode records a second attempt while the first is open. */
  lemma UngrantedRetryLeavesTwoOpen() returns (run: Run, s: System)
    ensures Leads(false, run, s) && Grant(A, 99) !in s.grants
    ensures var rows := Attempts(AttemptTx(s.db, A, X, 1, Protocol, 99).0, A);
            |rows| == 2 && !AccountedFor(rows[0]) && !AccountedFor(rows[1])
  {
    var pending;
    run, pending := ReachedCommit(true);
    ToStopped7();
    run := GoSend(false, run, System(S5(true), pending, {}), A, Sent6());
    run := GoMark(false, run, System(Sent6(), pending, {}), A, Stopped7());
    s := System(Stopped7(), pending, {});
    SecondOpen();
  }

  /* ---- a retry revision used twice ---- */

  function H1(): Db { Move(S5(true), A, X, Unresolved) }

  function H3(): Db {
    Append(H1().(observations := [Observation(A, M, Evidence, Some(D0), 2, 0),
                                  Observation(A, M, Recovery, Some(D0), 5, 0)]), A, X, Observed)
  }

  function H4(): Db { Append(H3(), A, X, Classified) }

  function H5(): Db { Record(H4(), A, X, 1) }

  function H6(): Db { Move(H5(), A, X, Unresolved) }

  lemma ToH3()
    ensures MarkUnresolvedTx(S5(true), A, X, 1).0 == H1()
    ensures Basis(H1().timeline, A) == 5
    ensures ObserveTx(H1(), A, M, Recovery, Some(D0), 5, 0, X).0 == H3()
  {
    assert H1().timeline[4].op == A;
    assert H1().observations + [Observation(A, M, Recovery, Some(D0), 5, 0)] == H3().observations;
  }

  lemma ToH4()
    ensures ClassifyTx(H3(), A, X, 1) == (H4(), Ok(7))
  {
    assert H3().observations[1].op == A;
    assert LatestAfter(H3(), A, 0, true) == 1;
  }

  lemma EvidenceAgain(db: Db)
    requires db.observations == H3().observations && db.now == 0
    ensures CheckEvidence(db, A, PA, true) == Pass
  {
    assert db.observations[1].op == A;
  }

  lemma ToH6()
    ensures AttemptTx(H4(), A, X, 1, Protocol, 7) == (H5(), Ok(1))
    ensures MarkUnresolvedTx(H5(), A, X, 1).0 == H6()
  {
    EvidenceAgain(H4());
  }

  lemma SecondOpenAgain()
    ensures var rows := Attempts(AttemptTx(H6(), A, X, 1, Protocol, 7).0, A);
            |rows| == 2 && !AccountedFor(rows[0]) && !AccountedFor(rows[1])
  {
    EvidenceAgain(H6());
    OneOpenAtH6();
    NothingCountedAtH6();
    RecordsSecond(H6(), 7);
  }

  lemma OneOpenAtH6()
    ensures Attempts(H6(), A) == [FIRST] && A in H6().ops && H6().ops[A] == Operation(M, Unresolved, X, 1)
  {
  }

  lemma NothingCountedAtH6()
    ensures !FactAfter(H6().timeline, A, 7)
  {
    UsedOnce();
  }

  /** A retry that the rule lets through while the first attempt is open. */
  lemma RecordsSecond(db: Db, rev: nat)
    requires A in db.ops && db.ops[A] == Operation(M, Unresolved, X, 1) && Attempts(db, A) == [FIRST] && rev != 0
    requires db.plans == map[A := PA] && ApprovalHolds(db, A) && CheckMachine(db, PA) == Pass
    requires CheckEvidence(db, A, PA, true) == Pass && !FactAfter(db.timeline, A, rev)
    ensures var rows := Attempts(AttemptTx(db, A, X, 1, Protocol, rev).0, A);
            |rows| == 2 && !AccountedFor(rows[0]) && !AccountedFor(rows[1])
  {
  }

  lemma UsedOnce()
    ensures |H6().timeline| > 7
    ensures H6().timeline[6] == Entry(7, A, X, Classified) && H6().timeline[7] == Entry(8, A, X, Attempted)
  {
  }

  lemma ClassifyGrants(s: System)
    requires ClassifyTx(s.db, A, X, 1).1 == Ok(7) && s.grants == {}
    ensures StepGrants(s, Classify(A, X, 1)) == {Grant(A, 7)}
  {
  }

  lemma GoClassify(run: Run, s: System, db': Db) returns (run': Run)
    requires Leads(false, run, s) && ClassifyTx(s.db, A, X, 1) == (db', Ok(7)) && s.grants == {}
    ensures Leads(false, run', System(db', s.pending, {Grant(A, 7)}))
  {
    ClassifyGrants(s);
    run' := Go(false, run, s, Classify(A, X, 1), System(db', s.pending, {Grant(A, 7)}));
  }

  lemma GoRetry(run: Run, s: System, db': Db) returns (run': Run)
    requires Leads(false, run, s) && AttemptTx(s.db, A, X, 1, Protocol, 7) == (db', Ok(1)) && s.grants == {Grant(A, 7)}
    ensures Leads(false, run', System(db', s.pending, {}))
  {
    run' := Go(false, run, s, Send(A, X, 1, Protocol, 7), System(db', s.pending, {}));
  }

  /** The retry rule does not count attempts.  The classification at revision 7 was used for the
      first attempt; used again, it lets protocol mode record a second while the first is open. */
  lemma ReusedRetryLeavesTwoOpen() returns (run: Run, s: System)
    ensures Leads(false, run, s) && |s.db.timeline| > 7
    ensures s.db.timeline[6] == Entry(7, A, X, Classified) && s.db.timeline[7] == Entry(8, A, X, Attempted)
    ensures var rows := Attempts(AttemptTx(s.db, A, X, 1, Protocol, 7).0, A);
            |rows| == 2 && !AccountedFor(rows[0]) && !AccountedFor(rows[1])
  {
    var pending;
    run, pending := ReachedCommit(true);
    ToH3();
    run := GoMark(false, run, System(S5(true), pending, {}), A, H1());
    run, pending := GoObserve(false, run, System(H1(), pending, {}), A, Recovery, D0, H3());
    ToH4();
    run := GoClassify(run, System(H3(), pending, {}), H4());
    ToH6();
    run := GoRetry(run, System(H4(), pending, {Grant(A, 7)}), H5());
    run := GoMark(false, run, System(H5(), pending, {}), A, H6());
    s := System(H6(), pending, {});
    SecondOpenAgain();
    UsedOnce();
  }

  /* ---- without the scope index ---- */

  const PB := Plan(M, DB, D0, 1, 1, 100, 2, 10, 10)
  /** Operation A is sent ... */
  function T6(): Db {
    S5(false).(ops := map[A := Operation(M, Sending, X, 1)], attempts := map[A := [FIRST]],
               timeline := S5(false).timeline + [Entry(5, A, X, Attempted)], nextRev := 6)
  }

  /** ... and B is planned at the same baseline, approved, observed, committed and sent. */
  function T8(): Db {
    T6().(plans := map[A := PA, B := PB], approvals := map[A := Approval(1, false), B := Approval(1, false)],
          timeline := T6().timeline + [Entry(6, B, X, Planned)] + [Entry(7, B, X, Approved)], nextRev := 8)
  }

  function T10(): Db {
    T8().(observations := T8().observations + [Observation(B, M, Evidence, Some(D0), Basis(T8().timeline, B), 0)],
          timeline := T8().timeline + [Entry(8, B, X, Observed)], nextRev := 9)
  }

  function T11(): Db {
    T10().(ops := map[A := Operation(M, Sending, X, 1), B := Operation(M, Committed, X, 1)],
           timeline := T10().timeline + [Entry(9, B, X, Became(Committed))], nextRev := 10)
  }

  function T12(): Db {
    T11().(ops := map[A := Operation(M, Sending, X, 1), B := Operation(M, Sending, X, 1)],
           attempts := map[A := [FIRST], B := [FIRST]],
           timeline := T11().timeline + [Entry(10, B, X, Attempted)], nextRev := 11)
  }

  lemma ToT6()
    ensures AttemptTx(S5(false), A, X, 1, Protocol, 0).0 == T6()
  {
    EvidenceFresh(S5(false));
    var db' := AttemptTx(S5(false), A, X, 1, Protocol, 0).0;
    assert db'.attempts[A] == [FIRST];
    assert db'.ops == T6().ops && db'.attempts == T6().attempts;
  }

  lemma ToT8()
    ensures ApproveTx(PlanTx(T6(), B, M, DB, 100, 2, 10, 10, X).0, B, X).0 == T8()
  {
  }

  lemma ToT10()
    ensures ObserveTx(T8(), B, M, Evidence, Some(D0), Basis(T8().timeline, B), 0, X).0 == T10()
  {
  }

  lemma ToT11()
    ensures CommitTx(T10(), B, X, Protocol).0 == T11()
  {
    assert T10().observations[1].op == B;
    assert CheckEvidence(T10(), B, PB, false) == Pass;
  }

  lemma EvidenceB()
    ensures CheckEvidence(T11(), B, PB, false) == Pass
  {
    assert T11().observations[1].op == B;
  }

  lemma ToT12()
    ensures AttemptTx(T11(), B, X, 1, Protocol, 0).0 == T12()
  {
    EvidenceB();
    assert AttemptTx(T11(), B, X, 1, Protocol, 0).0 == Record(T11(), B, X, 1);
    RecordsB();
  }

  lemma RecordsB()
    ensures Record(T11(), B, X, 1) == T12()
  {
    var db' := Record(T11(), B, X, 1);
    assert db'.attempts[B] == [FIRST];
    assert db'.ops == T12().ops && db'.attempts == T12().attempts;
  }

  /** A is accepted, observed and completed ... */
  const ACCEPTED_11 := Attempt(1, X, 1, 10, Some(Accepted), 11, 0)

  function T13(): Db {
    T12().(ops := map[A := Operation(M, Verifying, X, 1), B := Operation(M, Sending, X, 1)],
           attempts := map[A := [ACCEPTED_11], B := [FIRST]],
           timeline := T12().timeline + [Entry(11, A, X, Responded)] + [Entry(12, A, X, Became(Verifying))],
           nextRev := 13)
  }

  function T15(): Db {
    T13().(observations := T13().observations + [Observation(A, M, Completion, Some(DA), Basis(T13().timeline, A), 0)],
           timeline := T13().timeline + [Entry(13, A, X, Observed)], nextRev := 14)
  }

  function T16(): Db {
    T15().(ops := map[A := Operation(M, Completed, X, 1), B := Operation(M, Sending, X, 1)],
           machines := map[M := Machine(1, 2, DA, false)],
           timeline := T15().timeline + [Entry(14, A, X, Became(Completed))], nextRev := 15)
  }

  /** ... and then B. */
  const ACCEPTED_15 := Attempt(1, X, 1, 10, Some(Accepted), 15, 0)

  function T17(): Db {
    T16().(ops := map[A := Operation(M, Completed, X, 1), B := Operation(M, Verifying, X, 1)],
           attempts := map[A := [ACCEPTED_11], B := [ACCEPTED_15]],
           timeline := T16().timeline + [Entry(15, B, X, Responded)] + [Entry(16, B, X, Became(Verifying))],
           nextRev := 17)
  }

  function T19(): Db {
    T17().(observations := T17().observations + [Observation(B, M, Completion, Some(DB), Basis(T17().timeline, B), 0)],
           timeline := T17().timeline + [Entry(17, B, X, Observed)], nextRev := 18)
  }

  /** The owner of a sending operation records that its one attempt was accepted. */
  lemma Accepts(db: Db, id: Id)
    requires id in db.ops && db.ops[id] == Operation(M, Sending, X, 1) && Attempts(db, id) == [FIRST]
    ensures RecordResponseTx(db, id, 1, X, 1, Accepted).0 == Move(Respond(db, id, 0, X, Accepted), id, X, Verifying)
  {
    assert Row([FIRST], 1) == 0;
  }

  /** The rows after the one attempt was accepted and its owner moved on. */
  lemma AcceptedRows(db: Db, id: Id)
    requires id in db.ops && db.ops[id] == Operation(M, Sending, X, 1) && Attempts(db, id) == [FIRST]
    ensures Move(Respond(db, id, 0, X, Accepted), id, X, Verifying)
         == db.(ops := db.ops[id := Operation(M, Verifying, X, 1)],
                attempts := db.attempts[id := [Attempt(1, X, 1, 10, Some(Accepted), db.nextRev, 0)]],
                timeline := db.timeline + [Entry(db.nextRev, id, X, Responded)] + [Entry(db.nextRev + 1, id, X, Became(Verifying))],
                nextRev := db.nextRev + 2)
  {
    var db1 := Respond(db, id, 0, X, Accepted);
    assert db1.attempts[id] == [Attempt(1, X, 1, 10, Some(Accepted), db.nextRev, 0)];
  }

  lemma AcceptsAll(db: Db, id: Id)
    requires id in db.ops && db.ops[id] == Operation(M, Sending, X, 1) && Attempts(db, id) == [FIRST]
    ensures RecordResponseTx(db, id, 1, X, 1, Accepted).0
         == db.(ops := db.ops[id := Operation(M, Verifying, X, 1)],
                attempts := db.attempts[id := [Attempt(1, X, 1, 10, Some(Accepted), db.nextRev, 0)]],
                timeline := db.timeline + [Entry(db.nextRev, id, X, Responded)] + [Entry(db.nextRev + 1, id, X, Became(Verifying))],
                nextRev := db.nextRev + 2)
  {
    Accepts(db, id);
    AcceptedRows(db, id);
  }

  lemma RowsAtT12()
    ensures T12().ops == map[A := Operation(M, Sending, X, 1), B := Operation(M, Sending, X, 1)]
    ensures T12().attempts == map[A := [FIRST], B := [FIRST]] && T12().nextRev == 11
  {
  }

  lemma ToT13()
    ensures RecordResponseTx(T12(), A, 1, X, 1, Accepted).0 == T13()
  {
    RowsAtT12();
    AcceptsAll(T12(), A);
    MapsAtT13();
  }

  lemma MapsAtT13()
    ensures T12().ops[A := Operation(M, Verifying, X, 1)] == T13().ops
    ensures T12().attempts[A := [ACCEPTED_11]] == T13().attempts
  {
    RowsAtT12();
  }

  lemma ToT15()
    ensures ObserveTx(T13(), A, M, Completion, Some(DA), Basis(T13().timeline, A), 0, X).0 == T15()
    ensures Basis(T13().timeline, A) >= 11
  {
    assert T13().timeline[10] == Entry(11, A, X, Responded);
  }

  /** A verifying operation whose one attempt was accepted and whose last read shows the artifact. */
  lemma Completable(db: Db, id: Id, row: Attempt, i: nat)
    requires id in db.plans && id in db.ops && db.ops[id] == Operation(M, Verifying, X, 1)
    requires Attempts(db, id) == [row] && row.response == Some(Accepted)
    requires LatestAfter(db, id, AccountedBasis([row]), false) == i && db.observations[i].digest == Some(db.plans[id].artifact)
    ensures CompleteTx(db, id, X, 1) == (Move(Apply(db, db.plans[id]), id, X, Completed), Ok(Completed))
  {
  }

  lemma ToT16()
    ensures CompleteTx(T15(), A, X, 1).0 == T16()
  {
    AObserved();
    Completable(T15(), A, ACCEPTED_11, 2);
    AppliesA();
  }

  lemma AppliesA()
    ensures Move(Apply(T15(), PA), A, X, Completed) == T16()
  {
    ApplyA();
    CompletedOps();
  }

  lemma CompletedOps()
    ensures T15().ops[A := Operation(M, Completed, X, 1)] == T16().ops && A in T15().ops && T15().ops[A] == Operation(M, Verifying, X, 1)
  {
  }

  lemma ApplyA()
    ensures Apply(T15(), PA) == T15().(machines := map[M := Machine(1, 2, DA, false)])
  {
  }

  lemma AObserved()
    ensures LatestAfter(T15(), A, AccountedBasis([ACCEPTED_11]), false) == 2
    ensures T15().observations[2].digest == Some(DA)
  {
    ToT15();
    assert T15().observations[2].op == A;
    assert AccountedBasis([ACCEPTED_11]) == 11;
  }

  lemma RowsAtT16()
    ensures T16().ops == map[A := Operation(M, Completed, X, 1), B := Operation(M, Sending, X, 1)]
    ensures T16().attempts == map[A := [ACCEPTED_11], B := [FIRST]] && T16().nextRev == 15
  {
  }

  lemma ToT17()
    ensures RecordResponseTx(T16(), B, 1, X, 1, Accepted).0 == T17()
  {
    RowsAtT16();
    AcceptsAll(T16(), B);
    MapsAtT17();
  }

  lemma MapsAtT17()
    ensures T16().ops[B := Operation(M, Verifying, X, 1)] == T17().ops
    ensures T16().attempts[B := [ACCEPTED_15]] == T17().attempts
  {
    RowsAtT16();
  }

  lemma ToT19()
    ensures ObserveTx(T17(), B, M, Completion, Some(DB), Basis(T17().timeline, B), 0, X).0 == T19()
    ensures Basis(T17().timeline, B) >= 15
  {
    assert T17().timeline[14] == Entry(15, B, X, Responded);
  }

  lemma BFinishes()
    ensures CompleteTx(T19(), B, X, 1).1 == Ok(Completed)
  {
    BObserved();
    Completable(T19(), B, ACCEPTED_15, 3);
  }

  lemma BObserved()
    ensures LatestAfter(T19(), B, AccountedBasis([ACCEPTED_15]), false) == 3
    ensures T19().observations[3].digest == Some(DB)
  {
    ToT19();
    assert T19().observations[3].op == B;
    assert AccountedBasis([ACCEPTED_15]) == 15;
  }

  lemma ReachedBothSent() returns (run: Run, pending: seq<Read>)
    ensures Leads(true, run, System(T12(), pending, {}))
  {
    run, pending := ReachedCommit(false);
    ToT6();
    run := GoSend(true, run, System(S5(false), pending, {}), A, T6());
    ToT8();
    run := GoPlan(run, System(T6(), pending, {}), T8());
    ToT10();
    run, pending := GoObserve(true, run, System(T8(), pending, {}), B, Evidence, D0, T10());
    ToT11();
    run := GoCommit(true, run, System(T10(), pending, {}), B, T11());
    ToT12();
    run := GoSend(true, run, System(T11(), pending, {}), B, T12());
  }

  lemma GoPlan(run: Run, s: System, db': Db) returns (run': Run)
    requires Leads(true, run, s) && ApproveTx(PlanTx(s.db, B, M, DB, 100, 2, 10, 10, X).0, B, X).0 == db'
    ensures Leads(true, run', s.(db := db'))
  {
    var planned := s.(db := PlanTx(s.db, B, M, DB, 100, 2, 10, 10, X).0);
    run' := Go(true, run, s, Propose(B, M, DB, 100, 2, 10, 10, X), planned);
    run' := Go(true, run', planned, Approve(B, X), s.(db := db'));
  }

  lemma GoReply(run: Run, s: System, id: Id, db': Db) returns (run': Run)
    requires Leads(true, run, s) && RecordResponseTx(s.db, id, 1, X, 1, Accepted).0 == db'
    ensures Leads(true, run', s.(db := db'))
  {
    run' := Go(true, run, s, Reply(id, 1, X, 1, Accepted), s.(db := db'));
  }

  lemma GoComplete(run: Run, s: System, id: Id, db': Db) returns (run': Run)
    requires Leads(true, run, s) && CompleteTx(s.db, id, X, 1).0 == db'
    ensures Leads(true, run', s.(db := db'))
  {
    run' := Go(true, run, s, Complete(id, X, 1), s.(db := db'));
  }

  lemma AtT19()
    ensures B in T19().plans && M in T19().machines && T19().plans[B] == PB
    ensures T19().machines[M].applied == DA && T19().machines[M].baselineRev == 2
  {
  }

  /** Without the scope index a protocol run completes A, and then B, whose plan is bound to the
      digest and the baseline before A: the completion moves Applied from a digest its plan is not
      bound to, at a baseline its plan is not bound to. */
  lemma NoScopeBreaksChain() returns (run: Run, s: System)
    ensures Leads(true, run, s) && Finishes(s.db, Complete(B, X, 1))
    ensures B in s.db.plans && M in s.db.machines && s.db.plans[B].machine == M
    ensures s.db.machines[M].applied != s.db.plans[B].pre
    ensures s.db.machines[M].baselineRev != s.db.plans[B].baselineRev
  {
    var pending;
    run, pending := ReachedBothSent();
    ToT13();
    run := GoReply(run, System(T12(), pending, {}), A, T13());
    ToT15();
    run, pending := GoObserve(true, run, System(T13(), pending, {}), A, Completion, DA, T15());
    ToT16();
    run := GoComplete(run, System(T15(), pending, {}), A, T16());
    ToT17();
    run := GoReply(run, System(T16(), pending, {}), B, T17());
    ToT19();
    run, pending := GoObserve(true, run, System(T17(), pending, {}), B, Completion, DB, T19());
    s := System(T19(), pending, {});
    BFinishes();
    AtT19();
  }
}
