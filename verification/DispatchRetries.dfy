/**
 Retries.

 The attempt transaction of a retry refuses when a response, an accounting, a takeover or another
 classification was recorded after the revision it is given.  It does not count attempts.  So a
 retry is safe exactly when its revision is a classification's and no attempt was recorded since;
 an executor that uses each classification for one attempt keeps to that.
 */
module DispatchRetries {
  import opened Wrappers
  import opened DispatchModel
  import opened DispatchInvariants
  import opened DispatchRuns
  import opened DispatchSafety

  /* ---- what steps record ---- */

  /** Neither an attempt nor a classification. */
  predicate Plain(k: Kind) {
    !k.Attempted? && !k.Classified?
  }

  ghost predicate LogsPlainly(timeline: seq<Entry>, timeline': seq<Entry>) {
    timeline <= timeline' && forall k :: |timeline| <= k < |timeline'| ==> Plain(timeline'[k].kind)
  }

  lemma MovePlain(db: Db, id: Id, actor: Id, state: OpState)
    requires id in db.ops
    ensures LogsPlainly(db.timeline, Move(db, id, actor, state).timeline)
  {
  }

  lemma PlainTwice(a: seq<Entry>, b: seq<Entry>, c: seq<Entry>)
    requires LogsPlainly(a, b) && LogsPlainly(b, c)
    ensures LogsPlainly(a, c)
  {
  }

  lemma StopPlain(db: Db, id: Id, owner: Id, gen: nat, comparison: int)
    ensures LogsPlainly(db.timeline, StopTx(db, id, owner, gen, comparison).0.timeline)
  {
    if id in db.ops && db.ops[id].owner == owner && db.ops[id].gen == gen {
      var db1 := if InFlight(db.ops[id].state) then Move(db, id, owner, Unresolved) else db;
      if InFlight(db.ops[id].state) {
        MovePlain(db, id, owner, Unresolved);
      }
      MovePlain(db1, id, owner, Cancelled);
      PlainTwice(db.timeline, db1.timeline, Move(db1, id, owner, Cancelled).timeline);
    }
  }

  lemma ReplyPlain(db: Db, id: Id, n: int, owner: Id, gen: nat, reply: Class)
    ensures LogsPlainly(db.timeline, RecordResponseTx(db, id, n, owner, gen, reply).0.timeline)
  {
    var r := RecordResponseTx(db, id, n, owner, gen, reply);
    if r.1.Ok? {
      var db1 := Respond(db, id, Row(Attempts(db, id), n), owner, reply);
      assert LogsPlainly(db.timeline, db1.timeline);
      MovePlain(db1, id, owner, AfterResponse(Attempts(db1, id), n, reply));
      PlainTwice(db.timeline, db1.timeline, r.0.timeline);
    }
  }

  lemma CompletePlain(db: Db, id: Id, owner: Id, gen: nat)
    ensures LogsPlainly(db.timeline, CompleteTx(db, id, owner, gen).0.timeline)
  {
    var r := CompleteTx(db, id, owner, gen);
    if r.1.Ok? {
      MovePlain(db, id, owner, Failed);
      MovePlain(Apply(db, db.plans[id]), id, owner, Completed);
    }
  }

  lemma SettlesPlain(s: System, e: Event)
    requires Settles(e)
    ensures LogsPlainly(s.db.timeline, StepDb(s, e).timeline)
  {
    match e
    case Stop(id, owner, gen, comparison) => StopPlain(s.db, id, owner, gen, comparison);
    case Reply(id, n, owner, gen, reply) => ReplyPlain(s.db, id, n, owner, gen, reply);
    case Complete(id, owner, gen) => CompletePlain(s.db, id, owner, gen);
    case MarkUnresolved(id, owner, gen) => if id in s.db.ops { MovePlain(s.db, id, owner, Unresolved); }
    case CancelUnattempted(id, owner, gen) => if id in s.db.ops { MovePlain(s.db, id, owner, Cancelled); }
  }

  lemma PlanPlain(db: Db, id: Id, machine: Id, artifact: Digest, expires: int, maxAttempts: int, verify: int, maxAge: int, actor: Id)
    ensures LogsPlainly(db.timeline, PlanTx(db, id, machine, artifact, expires, maxAttempts, verify, maxAge, actor).0.timeline)
  {
    if machine in db.machines && id !in db.plans {
      var m := db.machines[machine];
      InsertPlain(db, id, Plan(machine, artifact, m.applied, m.assignmentRev, m.baselineRev,
                               db.now + expires, maxAttempts, verify, maxAge), actor);
    }
  }

  lemma InsertPlain(db: Db, id: Id, p: Plan, actor: Id)
    ensures LogsPlainly(db.timeline, InsertPlan(db, id, p, actor).timeline)
  {
  }

  lemma CommitPlain(db: Db, id: Id, owner: Id, mode: Mode)
    ensures LogsPlainly(db.timeline, CommitTx(db, id, owner, mode).0.timeline)
  {
  }

  lemma AccountPlain(db: Db, id: Id, n: int, actor: Id)
    ensures LogsPlainly(db.timeline, AccountTx(db, id, n, actor).0.timeline)
  {
  }

  /** Only an attempt and a classification record what `Plain` leaves out. */
  lemma StepPlain(s: System, e: Event)
    requires !e.Send? && !e.Classify?
    ensures LogsPlainly(s.db.timeline, StepDb(s, e).timeline)
  {
    if Settles(e) {
      SettlesPlain(s, e);
    } else if e.Propose? {
      PlanPlain(s.db, e.id, e.machine, e.artifact, e.expires, e.maxAttempts, e.verify, e.maxAge, e.actor);
    } else if e.Commit? {
      CommitPlain(s.db, e.id, e.owner, e.mode);
    } else if e.Account? {
      AccountPlain(s.db, e.id, e.n, e.actor);
    }
  }

  lemma SendLogs(db: Db, id: Id, owner: Id, gen: nat, mode: Mode, retryRev: nat)
    ensures var r := AttemptTx(db, id, owner, gen, mode, retryRev);
            r.0.timeline == if r.1.Ok? then db.timeline + [Entry(db.nextRev, id, owner, Attempted)] else db.timeline
  {
  }

  /** A recorded attempt is a new row of its operation, open. */
  lemma SendRows(db: Db, id: Id, owner: Id, gen: nat, mode: Mode, retryRev: nat, op: Id)
    ensures var r := AttemptTx(db, id, owner, gen, mode, retryRev);
            if r.1.Ok? && id == op
            then id in db.plans && Attempts(r.0, op) == Attempts(db, op) + [NewAttempt(db, id, owner, gen)]
            else Attempts(r.0, op) == Attempts(db, op)
  {
  }

  lemma ClassifyLogs(db: Db, id: Id, owner: Id, gen: nat)
    ensures var r := ClassifyTx(db, id, owner, gen);
            r.0.timeline == if r.1.Ok? then db.timeline + [Entry(db.nextRev, id, owner, Classified)] else db.timeline
  {
  }

  /* ---- attempts and facts ---- */

  lemma AccountedStays(rows: seq<Attempt>, rows': seq<Attempt>, next: nat)
    requires RowsGrow(rows, rows', next)
    ensures forall k :: 0 <= k < |rows| && AccountedFor(rows[k]) ==> AccountedFor(rows'[k])
  {
    forall k | 0 <= k < |rows| && AccountedFor(rows[k])
      ensures AccountedFor(rows'[k])
    {
      assert RowGrows(rows[k], rows'[k], next);
    }
  }

  /** A fact stays recorded. */
  lemma FactStays(timeline: seq<Entry>, timeline': seq<Entry>, op: Id, rev: nat)
    requires timeline <= timeline' && FactAfter(timeline, op, rev)
    ensures FactAfter(timeline', op, rev)
  {
    var k :| 0 <= k < |timeline| && timeline[k].op == op && timeline[k].rev > rev && Definitive(timeline[k].kind);
    assert timeline'[k] == timeline[k];
  }

  lemma ReplyFact(db: Db, id: Id, n: int, owner: Id, gen: nat, reply: Class, rev: nat)
    requires rev < db.nextRev && RecordResponseTx(db, id, n, owner, gen, reply).1.Ok?
    ensures FactAfter(RecordResponseTx(db, id, n, owner, gen, reply).0.timeline, id, rev)
  {
    var db1 := Respond(db, id, Row(Attempts(db, id), n), owner, reply);
    assert db1.timeline[|db.timeline|] == Entry(db.nextRev, id, owner, Responded);
    FactStays(db1.timeline, RecordResponseTx(db, id, n, owner, gen, reply).0.timeline, id, rev);
  }

  lemma AccountFact(db: Db, id: Id, n: int, actor: Id, rev: nat)
    requires rev < db.nextRev && AccountTx(db, id, n, actor).1.Ok?
    ensures FactAfter(AccountTx(db, id, n, actor).0.timeline, id, rev)
  {
    assert AccountTx(db, id, n, actor).0.timeline[|db.timeline|] == Entry(db.nextRev, id, actor, Accounted);
  }

  lemma StopSameRows(db: Db, id: Id, owner: Id, gen: nat, comparison: int)
    ensures Attempts(StopTx(db, id, owner, gen, comparison).0, id) == Attempts(db, id)
  {
  }

  lemma SameAttempts(s: System, e: Event)
    requires !Elsewhere(e) && !e.Send? && !e.Reply? && !e.Account? && !e.Stop?
    ensures Attempts(StepDb(s, e), e.id) == Attempts(s.db, e.id)
  {
  }

  /** A step changes the attempts of an operation only by adding one, or with a counted fact. */
  lemma AttemptsChange(s: System, e: Event, op: Id, rev: nat)
    requires InProtocol(e) && rev < s.db.nextRev
    ensures || Attempts(StepDb(s, e), op) == Attempts(s.db, op)
            || FactAfter(StepDb(s, e).timeline, op, rev)
            || (e.Send? && e.id == op && AttemptTx(s.db, op, e.owner, e.gen, e.mode, e.retryRev).1.Ok?)
  {
    if Elsewhere(e) || e.id != op {
      OneOperation(s, e, op);
    } else if e.Reply? {
      if RecordResponseTx(s.db, op, e.n, e.owner, e.gen, e.reply).1.Ok? {
        ReplyFact(s.db, op, e.n, e.owner, e.gen, e.reply, rev);
      }
    } else if e.Account? {
      if AccountTx(s.db, op, e.n, e.actor).1.Ok? {
        AccountFact(s.db, op, e.n, e.actor, rev);
      }
    } else if e.Stop? {
      StopSameRows(s.db, op, e.owner, e.gen, e.comparison);
    } else if !e.Send? {
      SameAttempts(s, e);
    }
  }

  /* ---- the rule ---- */

  /** The revision is that of a classification of the operation. */
  predicate ClassifiedAt(timeline: seq<Entry>, op: Id, rev: nat) {
    exists k :: 0 <= k < |timeline| && timeline[k].op == op && timeline[k].rev == rev && timeline[k].kind.Classified?
  }

  /** An attempt of the operation was recorded after the revision. */
  predicate AttemptAfter(timeline: seq<Entry>, op: Id, rev: nat) {
    exists k :: 0 <= k < |timeline| && timeline[k].op == op && timeline[k].rev > rev && timeline[k].kind.Attempted?
  }

  /** No attempt is open and none was accepted. */
  predicate NoneOpen(rows: seq<Attempt>) {
    AllAccounted(rows) && !AnyAccepted(rows)
  }

  /** As long as the rule counts nothing after a classification: the attempts are those it compared,
      or the last one was recorded since and is open. */
  predicate RuleOk(timeline: seq<Entry>, rows: seq<Attempt>, op: Id, rev: nat) {
    FactAfter(timeline, op, rev)
    || (if AttemptAfter(timeline, op, rev) then rows != [] && !AccountedFor(rows[|rows| - 1]) else NoneOpen(rows))
  }

  ghost predicate RulesOk(db: Db) {
    forall k :: 0 <= k < |db.timeline| && db.timeline[k].kind.Classified? ==>
      RuleOk(db.timeline, Attempts(db, db.timeline[k].op), db.timeline[k].op, db.timeline[k].rev)
  }

  lemma AttemptStays(timeline: seq<Entry>, timeline': seq<Entry>, op: Id, rev: nat)
    requires timeline <= timeline' && AttemptAfter(timeline, op, rev)
    ensures AttemptAfter(timeline', op, rev)
  {
    var k :| 0 <= k < |timeline| && timeline[k].op == op && timeline[k].rev > rev && timeline[k].kind.Attempted?;
    assert timeline'[k] == timeline[k];
  }

  /** Entries that are no attempt of the operation leave the rule as it is. */
  lemma RuleStays(timeline: seq<Entry>, timeline': seq<Entry>, rows: seq<Attempt>, op: Id, rev: nat)
    requires RuleOk(timeline, rows, op, rev) && timeline <= timeline'
    requires forall k :: |timeline| <= k < |timeline'| ==> timeline'[k].op != op || !timeline'[k].kind.Attempted?
    ensures RuleOk(timeline', rows, op, rev)
  {
    if FactAfter(timeline, op, rev) {
      FactStays(timeline, timeline', op, rev);
    } else if AttemptAfter(timeline, op, rev) {
      AttemptStays(timeline, timeline', op, rev);
    } else {
      NoAttemptSince(timeline, timeline', op, rev);
    }
  }

  lemma NoAttemptSince(timeline: seq<Entry>, timeline': seq<Entry>, op: Id, rev: nat)
    requires timeline <= timeline' && !AttemptAfter(timeline, op, rev)
    requires forall k :: |timeline| <= k < |timeline'| ==> timeline'[k].op != op || !timeline'[k].kind.Attempted?
    ensures !AttemptAfter(timeline', op, rev)
  {
    forall k | 0 <= k < |timeline| ensures timeline'[k] == timeline[k] {
    }
  }

  lemma RuleAfterSend(db: Db, id: Id, owner: Id, gen: nat, retryRev: nat, op: Id, rev: nat)
    requires rev < db.nextRev && RuleOk(db.timeline, Attempts(db, op), op, rev)
    ensures var db' := AttemptTx(db, id, owner, gen, Protocol, retryRev).0;
            RuleOk(db'.timeline, Attempts(db', op), op, rev)
  {
    SendLogs(db, id, owner, gen, Protocol, retryRev);
    SendRows(db, id, owner, gen, Protocol, retryRev, op);
    var r := AttemptTx(db, id, owner, gen, Protocol, retryRev);
    if r.1.Ok? && id == op {
      assert r.0.timeline[|db.timeline|] == Entry(db.nextRev, op, owner, Attempted);
      assert AttemptAfter(r.0.timeline, op, rev);
    } else {
      RuleStays(db.timeline, r.0.timeline, Attempts(db, op), op, rev);
    }
  }

  lemma RuleAfterClassify(s: System, e: Event, op: Id, rev: nat)
    requires rev < s.db.nextRev && RuleOk(s.db.timeline, Attempts(s.db, op), op, rev)
    requires e.Classify?
    ensures RuleOk(StepDb(s, e).timeline, Attempts(StepDb(s, e), op), op, rev)
  {
    ElsewhereQuiet(s, e);
    ClassifyLogs(s.db, e.id, e.owner, e.gen);
    RuleStays(s.db.timeline, StepDb(s, e).timeline, Attempts(s.db, op), op, rev);
  }

  lemma RuleStep(s: System, e: Event, op: Id, rev: nat)
    requires Inv(s.db) && InProtocol(e) && rev < s.db.nextRev && RuleOk(s.db.timeline, Attempts(s.db, op), op, rev)
    ensures RuleOk(StepDb(s, e).timeline, Attempts(StepDb(s, e), op), op, rev)
  {
    if e.Send? {
      RuleAfterSend(s.db, e.id, e.owner, e.gen, e.retryRev, op, rev);
    } else if e.Classify? {
      RuleAfterClassify(s, e, op, rev);
    } else {
      StepPlain(s, e);
      AttemptsChange(s, e, op, rev);
      if Attempts(StepDb(s, e), op) == Attempts(s.db, op) {
        RuleStays(s.db.timeline, StepDb(s, e).timeline, Attempts(s.db, op), op, rev);
      }
    }
  }

  /** A classification compared the attempts there are. */
  lemma RuleBegins(s: System, e: Event)
    requires Inv(s.db) && e.Classify? && ClassifyTx(s.db, e.id, e.owner, e.gen).1.Ok?
    ensures RuleOk(StepDb(s, e).timeline, Attempts(StepDb(s, e), e.id), e.id, s.db.nextRev)
  {
    ElsewhereQuiet(s, e);
    ClassifyLogs(s.db, e.id, e.owner, e.gen);
    var timeline' := StepDb(s, e).timeline;
    forall k | 0 <= k < |timeline'| ensures timeline'[k].rev <= s.db.nextRev {
      assert k < |s.db.timeline| ==> timeline'[k] == s.db.timeline[k];
    }
  }

  lemma RulesStep(s: System, e: Event)
    requires Inv(s.db) && InProtocol(e) && RulesOk(s.db)
    ensures RulesOk(StepDb(s, e))
  {
    var timeline, timeline' := s.db.timeline, StepDb(s, e).timeline;
    NewClassification(s, e);
    forall k | 0 <= k < |timeline'| && timeline'[k].kind.Classified?
      ensures RuleOk(timeline', Attempts(StepDb(s, e), timeline'[k].op), timeline'[k].op, timeline'[k].rev)
    {
      if k < |timeline| {
        assert timeline'[k] == timeline[k];
        RuleStep(s, e, timeline[k].op, timeline[k].rev);
      } else {
        RuleBegins(s, e);
      }
    }
  }

  lemma NewClassification(s: System, e: Event)
    ensures var timeline, timeline' := s.db.timeline, StepDb(s, e).timeline;
            && timeline <= timeline'
            && forall k :: |timeline| <= k < |timeline'| && timeline'[k].kind.Classified? ==>
                 e.Classify? && ClassifyTx(s.db, e.id, e.owner, e.gen).1.Ok? && timeline'[k].op == e.id && timeline'[k].rev == s.db.nextRev
  {
    if e.Send? {
      SendLogs(s.db, e.id, e.owner, e.gen, e.mode, e.retryRev);
    } else if e.Classify? {
      ClassifyLogs(s.db, e.id, e.owner, e.gen);
    } else {
      StepPlain(s, e);
    }
  }

  lemma {:induction false} RulesRun(run: Run, i: nat)
    requires ProtocolRun(run) && i <= |run.events|
    ensures RulesOk(run.states[i].db)
  {
    if i == 0 {
      InitialOk(run.states[0]);
    } else {
      RulesRun(run, i - 1);
      RulesNext(run, i - 1);
    }
  }

  lemma RulesNext(run: Run, k: nat)
    requires ProtocolRun(run) && k < |run.events| && RulesOk(run.states[k].db)
    ensures RulesOk(run.states[k + 1].db)
  {
    RunInv(run, k);
    assert Next(run, k);
    RulesStep(run.states[k], run.events[k]);
  }

  /* ---- when a retry is safe ---- */

  /** The event records a retry. */
  predicate Retries(db: Db, e: Event) {
    e.Send? && e.retryRev != 0 && AttemptTx(db, e.id, e.owner, e.gen, e.mode, e.retryRev).1.Ok?
  }

  lemma RetrySafe(db: Db, e: Event)
    requires Inv(db) && RulesOk(db) && Retries(db, e) && ClassifiedAt(db.timeline, e.id, e.retryRev)
    ensures NoneOpen(Attempts(db, e.id)) <==> !AttemptAfter(db.timeline, e.id, e.retryRev)
    ensures AttemptAfter(db.timeline, e.id, e.retryRev) ==>
              Attempts(db, e.id) != [] && !AccountedFor(Attempts(db, e.id)[|Attempts(db, e.id)| - 1])
  {
    var k :| 0 <= k < |db.timeline| && db.timeline[k].op == e.id && db.timeline[k].rev == e.retryRev && db.timeline[k].kind.Classified?;
    assert RuleOk(db.timeline, Attempts(db, e.id), e.id, e.retryRev);
  }

  /**
   In every protocol run, for every retry it records under the revision of a classification: all
   earlier attempts are accounted for and none was accepted exactly when no attempt of the operation
   was recorded after that revision, which is what the rule does not count.
   */
  lemma RetrySafeIff(run: Run, i: nat)
    requires ProtocolRun(run) && i < |run.events|
    requires var db, e := run.states[i].db, run.events[i];
             Retries(db, e) && ClassifiedAt(db.timeline, e.id, e.retryRev)
    ensures var db, e := run.states[i].db, run.events[i];
            AllAccounted(Attempts(db, e.id)) && !AnyAccepted(Attempts(db, e.id))
            <==> !AttemptAfter(db.timeline, e.id, e.retryRev)
  {
    RulesRun(run, i);
    RunInv(run, i);
    RetrySafe(run.states[i].db, run.events[i]);
  }

  /* ---- at most one open attempt ---- */

  /** At most one attempt is not accounted for, and it is the last. */
  predicate OnlyLastOpen(rows: seq<Attempt>) {
    forall k :: 0 <= k < |rows| - 1 ==> AccountedFor(rows[k])
  }

  predicate LastOpen(db: Db) {
    forall o :: o in db.ops ==> OnlyLastOpen(Attempts(db, o))
  }

  /** A recorded retry names a classification. */
  predicate Named(db: Db, e: Event) {
    Retries(db, e) ==> ClassifiedAt(db.timeline, e.id, e.retryRev)
  }

  /** ... and no attempt was recorded since: what a caller can look up before it sends. */
  predicate Checked(db: Db, e: Event) {
    Retries(db, e) ==> ClassifiedAt(db.timeline, e.id, e.retryRev) && !AttemptAfter(db.timeline, e.id, e.retryRev)
  }

  /** An attempt that is recorded finds every earlier one closed. */
  lemma SendFindsClosed(s: System, e: Event)
    requires Inv(s.db) && RulesOk(s.db) && InProtocol(e) && Checked(s.db, e)
    requires e.Send? && AttemptTx(s.db, e.id, e.owner, e.gen, e.mode, e.retryRev).1.Ok?
    ensures NoneOpen(Attempts(s.db, e.id))
  {
    if e.retryRev == 0 {
      OpAt(s.db, e.id);
    } else {
      RetrySafe(s.db, e);
    }
  }

  lemma OpenStep(s: System, e: Event, op: Id)
    requires Inv(s.db) && RulesOk(s.db) && InProtocol(e) && Checked(s.db, e) && LastOpen(s.db)
    requires op in StepDb(s, e).ops
    ensures OnlyLastOpen(Attempts(StepDb(s, e), op))
  {
    StepKeeps(s, e);
    var rows, rows' := Attempts(s.db, op), Attempts(StepDb(s, e), op);
    AccountedStays(rows, rows', s.db.nextRev);
    if op !in s.db.ops {
      AttemptsOfNew(s, e, op);
    } else if Elsewhere(e) || e.id != op {
      OneOperation(s, e, op);
    } else {
      OpenOwn(s, e, rows, rows');
    }
  }

  /** A step of the operation itself. */
  lemma OpenOwn(s: System, e: Event, rows: seq<Attempt>, rows': seq<Attempt>)
    requires Inv(s.db) && RulesOk(s.db) && InProtocol(e) && Checked(s.db, e) && LastOpen(s.db)
    requires !Elsewhere(e) && e.id in s.db.ops && rows == Attempts(s.db, e.id) && rows' == Attempts(StepDb(s, e), e.id)
    requires |rows| <= |rows'| && forall k :: 0 <= k < |rows| && AccountedFor(rows[k]) ==> AccountedFor(rows'[k])
    ensures OnlyLastOpen(rows')
  {
    OneAttempt(s, e);
    if e.Send? && AttemptTx(s.db, e.id, e.owner, e.gen, e.mode, e.retryRev).1.Ok? {
      SendFindsClosed(s, e);
    }
  }

  lemma AttemptsOfNew(s: System, e: Event, op: Id)
    requires Inv(s.db) && op !in s.db.ops
    ensures Attempts(StepDb(s, e), op) == []
  {
    if Elsewhere(e) || e.id != op {
      OneOperation(s, e, op);
    }
  }

  lemma LastOpenStep(s: System, e: Event)
    requires Inv(s.db) && RulesOk(s.db) && InProtocol(e) && Checked(s.db, e) && LastOpen(s.db)
    ensures LastOpen(StepDb(s, e))
  {
    forall o | o in StepDb(s, e).ops ensures OnlyLastOpen(Attempts(StepDb(s, e), o)) {
      OpenStep(s, e, o);
    }
  }

  ghost predicate CheckedRun(run: Run)
    requires IsRun(run)
  {
    forall i :: 0 <= i < |run.events| ==> Checked(run.states[i].db, run.events[i])
  }

  ghost predicate NamedRun(run: Run)
    requires IsRun(run)
  {
    forall i :: 0 <= i < |run.events| ==> Named(run.states[i].db, run.events[i])
  }

  lemma {:induction false} LastOpenRun(run: Run, i: nat)
    requires ProtocolRun(run) && CheckedRun(run) && i <= |run.events|
    ensures LastOpen(run.states[i].db)
  {
    if i == 0 {
      InitialOk(run.states[0]);
    } else {
      LastOpenRun(run, i - 1);
      LastOpenNext(run, i - 1);
    }
  }

  lemma LastOpenNext(run: Run, k: nat)
    requires ProtocolRun(run) && k < |run.events| && LastOpen(run.states[k].db) && Checked(run.states[k].db, run.events[k])
    ensures LastOpen(run.states[k + 1].db)
  {
    RulesRun(run, k);
    RunInv(run, k);
    assert Next(run, k);
    LastOpenStep(run.states[k], run.events[k]);
  }

  /** A retry that names a classification an attempt came after adds a second open attempt. */
  lemma SecondOpen(s: System, e: Event)
    requires Inv(s.db) && RulesOk(s.db) && InProtocol(e) && Named(s.db, e) && !Checked(s.db, e)
    ensures !LastOpen(StepDb(s, e))
  {
    RetrySafe(s.db, e);
    SendRows(s.db, e.id, e.owner, e.gen, e.mode, e.retryRev, e.id);
    StaysThere(s.db, e.id, e.owner, e.gen, e.retryRev);
    var rows, rows' := Attempts(s.db, e.id), Attempts(StepDb(s, e), e.id);
    assert rows'[|rows| - 1] == rows[|rows| - 1];
    assert !OnlyLastOpen(rows');
  }

  lemma StaysThere(db: Db, id: Id, owner: Id, gen: nat, retryRev: nat)
    requires AttemptTx(db, id, owner, gen, Protocol, retryRev).1.Ok?
    ensures id in AttemptTx(db, id, owner, gen, Protocol, retryRev).0.ops
  {
  }

  lemma SecondOpenNext(run: Run, k: nat)
    requires ProtocolRun(run) && k < |run.events|
    requires Named(run.states[k].db, run.events[k]) && !Checked(run.states[k].db, run.events[k])
    ensures !LastOpen(run.states[k + 1].db)
  {
    RulesRun(run, k);
    RunInv(run, k);
    assert Next(run, k);
    SecondOpen(run.states[k], run.events[k]);
  }

  /**
   For every protocol run whose retries name classifications: at every point at most one attempt of
   an operation is open, and it is the last, exactly when no retry is recorded under a
   classification that an attempt came after.
   */
  lemma OneOpenAttemptIff(run: Run)
    requires ProtocolRun(run) && NamedRun(run)
    ensures (forall i :: 0 <= i <= |run.events| ==> LastOpen(run.states[i].db)) <==> CheckedRun(run)
  {
    if CheckedRun(run) {
      forall i | 0 <= i <= |run.events| ensures LastOpen(run.states[i].db) {
        LastOpenRun(run, i);
      }
    } else {
      var i :| 0 <= i < |run.events| && !Checked(run.states[i].db, run.events[i]);
      assert Named(run.states[i].db, run.events[i]);
      SecondOpenNext(run, i);
      assert !LastOpen(run.states[i + 1].db);
    }
  }

  /* ---- executors that use each classification once ---- */

  /** A grant names a classification of its operation that no attempt came after, as long as the
      rule counts nothing after it. */
  predicate GrantOk(db: Db, g: Grant) {
    && g.op in db.ops && !db.ops[g.op].state.Committed?
    && ClassifiedAt(db.timeline, g.op, g.rev) && g.rev < db.nextRev
    && (FactAfter(db.timeline, g.op, g.rev) || !AttemptAfter(db.timeline, g.op, g.rev))
  }

  predicate GrantsOk(s: System) {
    forall g :: g in s.grants ==> GrantOk(s.db, g)
  }

  /** A retry is sent under a revision ClassifySafeToRetry returned, and each one is used once. */
  predicate Granted(s: System, e: Event) {
    e.Send? && e.retryRev != 0 ==> Grant(e.id, e.retryRev) in s.grants
  }

  ghost predicate GrantedRun(run: Run)
    requires IsRun(run)
  {
    forall i :: 0 <= i < |run.events| ==> Granted(run.states[i], run.events[i])
  }

  /** A run with one event more. */
  function Extend(run: Run, e: Event, s': System): Run {
    Run(run.states + [s'], run.events + [e])
  }

  lemma ExtendProtocol(run: Run, e: Event, s': System)
    requires ProtocolRun(run) && GrantedRun(run) && InProtocol(e)
    requires Granted(run.states[|run.events|], e) && s' == Step(run.states[|run.events|], e)
    ensures ProtocolRun(Extend(run, e, s')) && GrantedRun(Extend(run, e, s'))
  {
    var longer := Extend(run, e, s');
    forall i | 0 <= i < |longer.events| ensures Next(longer, i) && Granted(longer.states[i], longer.events[i]) {
      if i < |run.events| {
        assert Next(run, i) && Granted(run.states[i], run.events[i]);
      }
    }
  }

  /** A granted retry that is recorded is one a caller could have checked. */
  lemma GrantedIsChecked(s: System, e: Event)
    requires GrantsOk(s) && Granted(s, e)
    ensures Checked(s.db, e)
  {
    if Retries(s.db, e) {
      assert GrantOk(s.db, Grant(e.id, e.retryRev));
    }
  }

  lemma ClassifiedStays(timeline: seq<Entry>, timeline': seq<Entry>, op: Id, rev: nat)
    requires timeline <= timeline' && ClassifiedAt(timeline, op, rev)
    ensures ClassifiedAt(timeline', op, rev)
  {
    var k :| 0 <= k < |timeline| && timeline[k].op == op && timeline[k].rev == rev && timeline[k].kind.Classified?;
    assert timeline'[k] == timeline[k];
  }

  /** A grant survives a step that records no attempt of its operation. */
  lemma GrantStays(db: Db, db': Db, g: Grant)
    requires GrantOk(db, g) && Grows(db, db')
    requires FactAfter(db.timeline, g.op, g.rev)
             || forall k :: |db.timeline| <= k < |db'.timeline| ==> db'.timeline[k].op != g.op || !db'.timeline[k].kind.Attempted?
    ensures GrantOk(db', g)
  {
    assert EntryGrows(db.ops[g.op], Attempts(db, g.op), db'.ops[g.op], Attempts(db', g.op));
    ClassifiedStays(db.timeline, db'.timeline, g.op, g.rev);
    if FactAfter(db.timeline, g.op, g.rev) {
      FactStays(db.timeline, db'.timeline, g.op, g.rev);
    } else {
      NoAttemptSince(db.timeline, db'.timeline, g.op, g.rev);
    }
  }

  /** Two grants of one operation: the classification of the later is a counted fact after the
      earlier, so sending under one leaves no use for the other. */
  lemma OtherGrantSpent(s: System, e: Event, g: Grant)
    requires Inv(s.db) && InProtocol(e) && Granted(s, e) && GrantsOk(s)
    requires e.Send? && AttemptTx(s.db, e.id, e.owner, e.gen, e.mode, e.retryRev).1.Ok?
    requires g in s.grants && g.op == e.id && g.rev != e.retryRev
    ensures FactAfter(s.db.timeline, g.op, g.rev)
  {
    assert GrantOk(s.db, g);
    if e.retryRev != 0 {
      assert GrantOk(s.db, Grant(e.id, e.retryRev));
    }
  }

  /** The events other than an attempt of its operation leave a grant as it is. */
  lemma GrantLeft(s: System, e: Event, g: Grant)
    requires Inv(s.db) && InProtocol(e) && GrantOk(s.db, g) && !(e.Send? && e.id == g.op)
    ensures GrantOk(StepDb(s, e), g)
  {
    StepKeeps(s, e);
    if e.Send? {
      SendLogs(s.db, e.id, e.owner, e.gen, e.mode, e.retryRev);
    } else if e.Classify? {
      ClassifyLogs(s.db, e.id, e.owner, e.gen);
    } else {
      StepPlain(s, e);
    }
    GrantStays(s.db, StepDb(s, e), g);
  }

  /** An attempt of its operation that is recorded used the grant up, or the grant was spent. */
  lemma GrantSent(s: System, e: Event, g: Grant)
    requires Inv(s.db) && InProtocol(e) && Granted(s, e) && GrantsOk(s)
    requires e.Send? && e.id == g.op && g in s.grants && g in StepGrants(s, e)
    ensures GrantOk(StepDb(s, e), g)
  {
    StepKeeps(s, e);
    assert GrantOk(s.db, g);
    SendLogs(s.db, e.id, e.owner, e.gen, e.mode, e.retryRev);
    if AttemptTx(s.db, g.op, e.owner, e.gen, e.mode, e.retryRev).1.Ok? {
      OtherGrantSpent(s, e, g);
    }
    GrantStays(s.db, StepDb(s, e), g);
  }

  lemma GrantStep(s: System, e: Event, g: Grant)
    requires Inv(s.db) && InProtocol(e) && Granted(s, e) && GrantsOk(s)
    requires g in s.grants && g in StepGrants(s, e)
    ensures GrantOk(StepDb(s, e), g)
  {
    if e.Send? && e.id == g.op {
      GrantSent(s, e, g);
    } else {
      GrantLeft(s, e, g);
    }
  }

  lemma NewGrant(s: System, e: Event, g: Grant)
    requires Inv(s.db) && g !in s.grants && g in StepGrants(s, e)
    ensures GrantOk(StepDb(s, e), g)
  {
    ClassifyLogs(s.db, e.id, e.owner, e.gen);
    var timeline' := StepDb(s, e).timeline;
    assert timeline'[|s.db.timeline|] == Entry(s.db.nextRev, g.op, e.owner, Classified);
    forall k | 0 <= k < |timeline'| ensures timeline'[k].rev <= s.db.nextRev {
      assert k < |s.db.timeline| ==> timeline'[k] == s.db.timeline[k];
    }
  }

  lemma GrantsStep(s: System, e: Event)
    requires Inv(s.db) && InProtocol(e) && Granted(s, e) && GrantsOk(s)
    ensures GrantsOk(Step(s, e))
  {
    forall g | g in StepGrants(s, e) ensures GrantOk(StepDb(s, e), g) {
      if g in s.grants {
        GrantStep(s, e, g);
      } else {
        NewGrant(s, e, g);
      }
    }
  }

  lemma {:induction false} GrantsRun(run: Run, i: nat)
    requires ProtocolRun(run) && GrantedRun(run) && i <= |run.events|
    ensures GrantsOk(run.states[i])
  {
    if i == 0 {
      InitialOk(run.states[0]);
    } else {
      GrantsRun(run, i - 1);
      GrantsNext(run, i - 1);
    }
  }

  lemma GrantsNext(run: Run, k: nat)
    requires ProtocolRun(run) && k < |run.events| && GrantsOk(run.states[k]) && Granted(run.states[k], run.events[k])
    ensures GrantsOk(run.states[k + 1])
  {
    RunInv(run, k);
    assert Next(run, k);
    GrantsStep(run.states[k], run.events[k]);
  }

  lemma GrantedRunIsChecked(run: Run)
    requires ProtocolRun(run) && GrantedRun(run)
    ensures CheckedRun(run)
  {
    forall i | 0 <= i < |run.events| ensures Checked(run.states[i].db, run.events[i]) {
      GrantsRun(run, i);
      GrantedIsChecked(run.states[i], run.events[i]);
    }
  }

  /**
   In every protocol run in which each retry uses up a revision ClassifySafeToRetry returned: at
   every point at most one attempt of an operation is not accounted for, and it is the last.
   */
  lemma OneOpenAttempt(run: Run, i: nat, op: Id)
    requires ProtocolRun(run) && GrantedRun(run) && i <= |run.events|
    ensures var rows := Attempts(run.states[i].db, op);
            forall k :: 0 <= k < |rows| - 1 ==> AccountedFor(rows[k])
  {
    GrantedRunIsChecked(run);
    LastOpenRun(run, i);
    RunInv(run, i);
    var db := run.states[i].db;
    if op in db.ops {
      assert OnlyLastOpen(Attempts(db, op));
    }
  }

  /** ... and when an attempt is recorded, every earlier one is accounted for and none accepted. */
  lemma EarlierAttemptsClosed(run: Run, i: nat)
    requires ProtocolRun(run) && GrantedRun(run) && i < |run.events|
    requires var s, e := run.states[i], run.events[i];
             e.Send? && AttemptTx(s.db, e.id, e.owner, e.gen, e.mode, e.retryRev).1.Ok?
    ensures var rows := Attempts(run.states[i].db, run.events[i].id);
            AllAccounted(rows) && !AnyAccepted(rows)
  {
    GrantedRunIsChecked(run);
    RulesRun(run, i);
    RunInv(run, i);
    SendFindsClosed(run.states[i], run.events[i]);
  }
}
