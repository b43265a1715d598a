/**
 Safety of whole protocol runs: fencing, revocation and expiry, evidence, and what a completion
 rests on.
 */
module DispatchSafety {
  import opened Wrappers
  import opened DispatchModel
  import opened DispatchInvariants
  import opened DispatchRuns

  /* ---- fencing ---- */

  /** `e` is a step of operation `op` made in the name of `owner` at generation `gen`. */
  predicate MadeBy(e: Event, op: Id, owner: Id, gen: nat) {
    && (e.Send? || e.Stop? || e.Reply? || e.Complete? || e.MarkUnresolved? || e.CancelUnattempted?)
    && e.id == op && e.owner == owner && e.gen == gen
  }

  /** The rows of `op` are the same in both states. */
  predicate Untouched(db: Db, db': Db, op: Id) {
    op in db.ops && op in db'.ops && db'.ops[op] == db.ops[op] && |Attempts(db', op)| == |Attempts(db, op)|
  }

  /** What one step may do to the rows of an operation that exists. */
  predicate FencedStep(db: Db, e: Event, db': Db, op: Id)
    requires op in db.ops
  {
    || Untouched(db, db', op)
    || (e.Takeover? && e.id == op)
    || MadeBy(e, op, db.ops[op].owner, db.ops[op].gen)
  }

  /** The steps that read or write no operation row and no attempt. */
  predicate Elsewhere(e: Event) {
    e.Propose? || e.Approve? || e.Revoke? || e.BeginRead? || e.EndRead? || e.Classify? || e.Tick? || e.Freeze?
    || e.Reassign? || e.NextEpoch? || e.SetRecovery? || e.Gap?
  }

  lemma PlanQuiet(db: Db, id: Id, machine: Id, artifact: Digest, expires: int, maxAttempts: int, verify: int, maxAge: int, actor: Id)
    ensures var db' := PlanTx(db, id, machine, artifact, expires, maxAttempts, verify, maxAge, actor).0;
            db'.ops == db.ops && db'.attempts == db.attempts
  {
    if machine in db.machines && id !in db.plans {
      var m := db.machines[machine];
      InsertQuiet(db, id, Plan(machine, artifact, m.applied, m.assignmentRev, m.baselineRev,
                               db.now + expires, maxAttempts, verify, maxAge), actor);
    }
  }

  lemma InsertQuiet(db: Db, id: Id, p: Plan, actor: Id)
    ensures InsertPlan(db, id, p, actor).ops == db.ops && InsertPlan(db, id, p, actor).attempts == db.attempts
  {
  }

  lemma ClassifyQuiet(db: Db, id: Id, owner: Id, gen: nat)
    ensures var db' := ClassifyTx(db, id, owner, gen).0; db'.ops == db.ops && db'.attempts == db.attempts
  {
  }

  lemma ElsewhereQuiet(s: System, e: Event)
    requires Elsewhere(e)
    ensures StepDb(s, e).ops == s.db.ops && StepDb(s, e).attempts == s.db.attempts
  {
    if e.Propose? {
      PlanQuiet(s.db, e.id, e.machine, e.artifact, e.expires, e.maxAttempts, e.verify, e.maxAge, e.actor);
    } else if e.Classify? {
      ClassifyQuiet(s.db, e.id, e.owner, e.gen);
    }
  }

  /** The steps an owner classifies with. */
  predicate Settles(e: Event) {
    e.Stop? || e.Reply? || e.Complete? || e.MarkUnresolved? || e.CancelUnattempted?
  }

  /** The rows of `op` are not written. */
  predicate Spared(db: Db, db': Db, op: Id) {
    && (op in db.ops <==> op in db'.ops)
    && (op in db.ops ==> db'.ops[op] == db.ops[op])
    && Attempts(db', op) == Attempts(db, op)
  }

  lemma MoveOne(db: Db, id: Id, actor: Id, state: OpState, op: Id)
    requires id in db.ops
    ensures op != id ==> Spared(db, Move(db, id, actor, state), op)
    ensures Attempts(Move(db, id, actor, state), op) == Attempts(db, op)
  {
  }

  lemma RespondOne(db: Db, id: Id, i: nat, actor: Id, reply: Class, op: Id)
    requires i < |Attempts(db, id)|
    ensures op != id ==> Spared(db, Respond(db, id, i, actor, reply), op)
    ensures Respond(db, id, i, actor, reply).ops == db.ops
    ensures |Attempts(Respond(db, id, i, actor, reply), op)| == |Attempts(db, op)|
  {
  }

  lemma ReplyOne(db: Db, id: Id, n: int, owner: Id, gen: nat, reply: Class, op: Id)
    ensures var db' := RecordResponseTx(db, id, n, owner, gen, reply).0;
            && (op != id ==> Spared(db, db', op))
            && (op in db.ops && !(db.ops[op].owner == owner && db.ops[op].gen == gen) ==> Untouched(db, db', op))
            && |Attempts(db', op)| == |Attempts(db, op)|
  {
    var r := RecordResponseTx(db, id, n, owner, gen, reply);
    if r.1.Ok? {
      var i := Row(Attempts(db, id), n);
      var db1 := Respond(db, id, i, owner, reply);
      RespondOne(db, id, i, owner, reply, op);
      MoveOne(db1, id, owner, AfterResponse(Attempts(db1, id), n, reply), op);
    }
  }

  lemma StopOne(db: Db, id: Id, owner: Id, gen: nat, comparison: int, op: Id)
    ensures var db' := StopTx(db, id, owner, gen, comparison).0;
            && (op != id ==> Spared(db, db', op))
            && (op in db.ops && !(db.ops[op].owner == owner && db.ops[op].gen == gen) ==> Untouched(db, db', op))
            && |Attempts(db', op)| == |Attempts(db, op)|
  {
    if id in db.ops && db.ops[id].owner == owner && db.ops[id].gen == gen {
      MoveOne(db, id, owner, Unresolved, op);
      var db1 := if InFlight(db.ops[id].state) then Move(db, id, owner, Unresolved) else db;
      MoveOne(db1, id, owner, Cancelled, op);
    }
  }

  lemma CompleteOne(db: Db, id: Id, owner: Id, gen: nat, op: Id)
    requires op != id
    ensures Spared(db, CompleteTx(db, id, owner, gen).0, op)
  {
    if id in db.plans && id in db.ops {
      MoveOne(db, id, owner, Failed, op);
      MoveOne(Apply(db, db.plans[id]), id, owner, Completed, op);
    }
  }

  lemma MarkOne(db: Db, id: Id, owner: Id, gen: nat, op: Id)
    requires op != id
    ensures Spared(db, MarkUnresolvedTx(db, id, owner, gen).0, op)
  {
    if id in db.ops {
      MoveOne(db, id, owner, Unresolved, op);
    }
  }

  lemma CancelOne(db: Db, id: Id, owner: Id, gen: nat, op: Id)
    requires op != id
    ensures Spared(db, CancelUnattemptedTx(db, id, owner, gen).0, op)
  {
    if id in db.ops {
      MoveOne(db, id, owner, Cancelled, op);
    }
  }

  lemma SettlesOne(s: System, e: Event, op: Id)
    requires Settles(e) && op != e.id
    ensures Spared(s.db, StepDb(s, e), op)
  {
    match e
    case Stop(id, owner, gen, comparison) => StopOne(s.db, id, owner, gen, comparison, op);
    case Reply(id, n, owner, gen, reply) => ReplyOne(s.db, id, n, owner, gen, reply, op);
    case Complete(id, owner, gen) => CompleteOne(s.db, id, owner, gen, op);
    case MarkUnresolved(id, owner, gen) => MarkOne(s.db, id, owner, gen, op);
    case CancelUnattempted(id, owner, gen) => CancelOne(s.db, id, owner, gen, op);
  }

  lemma SendOne(db: Db, id: Id, owner: Id, gen: nat, mode: Mode, retryRev: nat, op: Id)
    requires op != id
    ensures Spared(db, AttemptTx(db, id, owner, gen, mode, retryRev).0, op)
  {
  }

  lemma RecordsOne(s: System, e: Event, op: Id)
    requires !Settles(e) && !Elsewhere(e) && op != e.id
    ensures Spared(s.db, Step(s, e).db, op)
  {
    if e.Send? {
      SendOne(s.db, e.id, e.owner, e.gen, e.mode, e.retryRev, op);
    }
  }

  /** A step writes the rows of the operation it names and of no other. */
  lemma OneOperation(s: System, e: Event, op: Id)
    requires !Elsewhere(e) ==> op != e.id
    ensures Spared(s.db, Step(s, e).db, op)
  {
    if Elsewhere(e) {
      ElsewhereQuiet(s, e);
    } else if Settles(e) {
      SettlesOne(s, e, op);
    } else {
      RecordsOne(s, e, op);
    }
  }

  lemma SettlesFenced(s: System, e: Event)
    requires Settles(e) && e.id in s.db.ops
    ensures FencedStep(s.db, e, StepDb(s, e), e.id)
    ensures |Attempts(StepDb(s, e), e.id)| == |Attempts(s.db, e.id)|
  {
    match e
    case Stop(id, owner, gen, comparison) => StopOne(s.db, id, owner, gen, comparison, id);
    case Reply(id, n, owner, gen, reply) => ReplyOne(s.db, id, n, owner, gen, reply, id);
    case _ =>
  }

  lemma SendFenced(db: Db, id: Id, owner: Id, gen: nat, retryRev: nat)
    requires id in db.ops
    ensures var db' := AttemptTx(db, id, owner, gen, Protocol, retryRev).0;
            Untouched(db, db', id) || (db.ops[id].owner == owner && db.ops[id].gen == gen)
  {
  }

  lemma RecordsFenced(s: System, e: Event)
    requires InProtocol(e) && !Settles(e) && !Elsewhere(e) && e.id in s.db.ops
    ensures FencedStep(s.db, e, Step(s, e).db, e.id)
  {
    if e.Send? {
      SendFenced(s.db, e.id, e.owner, e.gen, e.retryRev);
    }
  }

  /** Only the attempt transaction adds an attempt. */
  lemma OneAttempt(s: System, e: Event)
    requires InProtocol(e) && !Elsewhere(e) && e.id in s.db.ops
    ensures var rows, rows' := Attempts(s.db, e.id), Attempts(Step(s, e).db, e.id);
            if e.Send? && AttemptTx(s.db, e.id, e.owner, e.gen, e.mode, e.retryRev).1.Ok? then
              && MayAttempt(s.db.ops[e.id], e.owner, e.gen, e.retryRev)
              && e.id in s.db.plans && rows' == rows + [NewAttempt(s.db, e.id, e.owner, e.gen)]
            else
              |rows'| == |rows|
  {
    if Settles(e) {
      SettlesFenced(s, e);
    }
  }

  /** Only a takeover, or the current owner at the current generation, changes the operation row
      or adds an attempt, and the attempt carries that owner and that generation. */
  lemma OnlyOwnerActs(s: System, e: Event, op: Id)
    requires InProtocol(e) && op in s.db.ops
    ensures FencedStep(s.db, e, Step(s, e).db, op)
    ensures var rows, rows' := Attempts(s.db, op), Attempts(Step(s, e).db, op);
            |rows'| != |rows| ==>
              && e.Send? && e.id == op && |rows'| == |rows| + 1 && rows'[..|rows|] == rows
              && rows'[|rows|].owner == s.db.ops[op].owner && rows'[|rows|].gen == s.db.ops[op].gen
  {
    if Elsewhere(e) || e.id != op {
      OneOperation(s, e, op);
    } else {
      OneAttempt(s, e);
      if Settles(e) {
        SettlesFenced(s, e);
      } else {
        RecordsFenced(s, e);
      }
    }
  }

  /**
   Nothing from an earlier generation changes an operation after a takeover.  If a step made at
   point `k` carries a generation below the one the operation had reached at an earlier point `i`,
   the operation row and the number of its attempts stay as they are.
   */
  lemma NothingFromEarlierGeneration(run: Run, i: nat, k: nat, op: Id)
    requires ProtocolRun(run) && i <= k < |run.events|
    requires op in run.states[i].db.ops
    requires !run.events[k].Takeover?
    requires forall owner: Id, gen: nat :: MadeBy(run.events[k], op, owner, gen) ==> gen < run.states[i].db.ops[op].gen
    ensures Untouched(run.states[k].db, run.states[k + 1].db, op)
    ensures run.states[i].db.ops[op].gen <= run.states[k].db.ops[op].gen
  {
    RunGrows(run, i, k);
    FencedNext(run, k, op);
  }

  lemma FencedNext(run: Run, k: nat, op: Id)
    requires ProtocolRun(run) && k < |run.events| && op in run.states[k].db.ops
    ensures FencedStep(run.states[k].db, run.events[k], run.states[k + 1].db, op)
  {
    assert Next(run, k);
    OnlyOwnerActs(run.states[k], run.events[k], op);
  }

  /* ---- revocation, expiry, epoch, baseline, assignment ---- */

  /** Comparison 1 or 2 fails for the plan, and for good. */
  predicate Blocked(db: Db, id: Id) {
    && id in db.plans && db.plans[id].machine in db.machines
    && var m := db.machines[db.plans[id].machine];
       || (id in db.approvals && (db.approvals[id].revoked || db.approvals[id].epoch < db.epoch))
       || db.plans[id].expires <= db.now
       || db.plans[id].baselineRev < m.baselineRev
       || db.plans[id].assignmentRev < m.assignmentRev
  }

  lemma BlockedStays(db: Db, db': Db, id: Id)
    requires Blocked(db, id) && Grows(db, db')
    ensures Blocked(db', id)
  {
    assert MachineGrows(db.machines[db.plans[id].machine], db'.machines[db.plans[id].machine]);
  }

  /** What a blocked plan may still get: no commitment and no attempt. */
  predicate NothingSent(db: Db, db': Db, id: Id) {
    && |Attempts(db', id)| == |Attempts(db, id)|
    && (id !in db.ops && id in db'.ops ==> db'.ops[id].state.Cancelled?)
  }

  lemma BlockedStep(s: System, e: Event, id: Id)
    requires Inv(s.db) && InProtocol(e) && Blocked(s.db, id)
    ensures NothingSent(s.db, StepDb(s, e), id)
  {
    if Elsewhere(e) || e.id != id {
      OneOperation(s, e, id);
    } else if id in s.db.ops {
      OneAttempt(s, e);
    } else {
      BlockedUncommitted(s, e);
    }
  }

  lemma BlockedUncommitted(s: System, e: Event)
    requires InProtocol(e) && !Elsewhere(e) && e.id !in s.db.ops && Blocked(s.db, e.id)
    ensures NothingSent(s.db, StepDb(s, e), e.id)
  {
  }

  /**
   Once a plan's approval was revoked, its time was up, the recovery epoch had moved on, or its
   machine was at a later baseline or assignment than the plan is bound to, no commitment and no
   attempt of it is ever recorded again.
   */
  lemma {:induction false} BlockedForEver(run: Run, i: nat, j: nat, id: Id)
    requires ProtocolRun(run) && i <= j <= |run.events|
    requires Blocked(run.states[i].db, id)
    ensures Blocked(run.states[j].db, id)
    ensures NothingSent(run.states[i].db, run.states[j].db, id)
    decreases j
  {
    if i < j {
      BlockedForEver(run, i, j - 1, id);
      BlockedNext(run, j - 1, run.states[i].db, id);
    }
  }

  lemma BlockedNext(run: Run, k: nat, db: Db, id: Id)
    requires ProtocolRun(run) && k < |run.events|
    requires Blocked(run.states[k].db, id) && NothingSent(db, run.states[k].db, id)
    ensures Blocked(run.states[k + 1].db, id) && NothingSent(db, run.states[k + 1].db, id)
  {
    RunInv(run, k);
    assert Next(run, k);
    BlockedOnce(db, run.states[k], run.events[k], id);
  }

  lemma BlockedOnce(db: Db, s: System, e: Event, id: Id)
    requires Inv(s.db) && InProtocol(e) && Blocked(s.db, id) && NothingSent(db, s.db, id)
    ensures Blocked(Step(s, e).db, id) && NothingSent(db, Step(s, e).db, id)
  {
    BlockedStep(s, e, id);
    StepKeeps(s, e);
    BlockedStays(s.db, StepDb(s, e), id);
    StillNothingSent(db, s.db, StepDb(s, e), id);
  }

  lemma StillNothingSent(db0: Db, db: Db, db': Db, id: Id)
    requires NothingSent(db0, db, id) && NothingSent(db, db', id) && Grows(db, db')
    ensures NothingSent(db0, db', id)
  {
    if id in db.ops {
      assert EntryGrows(db.ops[id], Attempts(db, id), db'.ops[id], Attempts(db', id));
    }
  }

  /** A frozen machine or recovery: comparison 6 fails now. */
  predicate Closed(db: Db, id: Id) {
    && id in db.plans && db.plans[id].machine in db.machines
    && (db.machines[db.plans[id].machine].frozen || db.recovery)
  }

  /** While the scope gate is closed no step commits or sends. */
  lemma NothingSentWhileClosed(s: System, e: Event, id: Id)
    requires Inv(s.db) && InProtocol(e) && Closed(s.db, id)
    ensures NothingSent(s.db, StepDb(s, e), id)
  {
    if Elsewhere(e) || e.id != id {
      OneOperation(s, e, id);
    } else if id in s.db.ops {
      OneAttempt(s, e);
    } else {
      ClosedUncommitted(s, e);
    }
  }

  lemma ClosedUncommitted(s: System, e: Event)
    requires InProtocol(e) && !Elsewhere(e) && e.id !in s.db.ops && Closed(s.db, e.id)
    ensures NothingSent(s.db, StepDb(s, e), e.id)
  {
  }

  /* ---- evidence ---- */

  /** An observation that counts as evidence: of the operation, successful, and a completion read
      only for a retry. */
  predicate Evident(o: Observation, id: Id, retry: bool) {
    o.op == id && o.digest.Some? && (o.purpose.Completion? ==> retry)
  }

  /** Observation `k` is the latest evidence, it is fresh, it shows a bound digest and no later
      observation of the machine contradicts it. */
  predicate Supports(db: Db, id: Id, p: Plan, retry: bool, k: nat) {
    && k < |db.observations|
    && var o := db.observations[k];
       && Evident(o, id, retry)
       && (forall j :: k < j < |db.observations| ==> !Evident(db.observations[j], id, retry))
       && o.began >= db.now - p.maxAge
       && (o.digest.value == p.pre || (retry && o.digest.value == p.artifact))
       && (forall j :: k < j < |db.observations| && db.observations[j].machine == p.machine ==>
             db.observations[j].digest.None? || db.observations[j].digest == o.digest)
  }

  /** Comparison 3 passes exactly when some observation supports the plan. */
  lemma EvidencePasses(db: Db, id: Id, p: Plan, retry: bool)
    ensures CheckEvidence(db, id, p, retry).Pass? <==> exists k: nat :: Supports(db, id, p, retry, k)
  {
    var keep := (o: Observation) => o.op == id && o.digest.Some? && (o.purpose.Completion? ==> retry);
    var i := Latest(db.observations, keep);
    forall o: Observation ensures keep(o) == Evident(o, id, retry) {
    }
    if CheckEvidence(db, id, p, retry).Pass? {
      assert Supports(db, id, p, retry, i);
    }
    if k: nat :| Supports(db, id, p, retry, k) {
      assert Evident(db.observations[k], id, retry);
      assert i == k;
    }
  }

  /* ---- what a completion rests on ---- */

  /** The read with this basis and time began with event `b`. */
  ghost predicate BeganAt(run: Run, b: nat, op: Id, basis: nat, began: int)
    requires IsRun(run) && b < |run.events|
  {
    && run.events[b] == BeginRead(op)
    && basis == Basis(run.states[b].db.timeline, op)
    && began == run.states[b].db.now
  }

  lemma PendingGrows(s: System, e: Event)
    ensures Step(s, e).pending == s.pending
            || (e.BeginRead? && Step(s, e).pending == s.pending + [Read(e.id, Basis(s.db.timeline, e.id), s.db.now)])
  {
  }

  /** Every pending read began with an earlier BeginRead ... */
  lemma {:induction false} PendingBegan(run: Run, i: nat, r: nat) returns (b: nat)
    requires FromSetUp(run) && i <= |run.events| && r < |run.states[i].pending|
    ensures var p := run.states[i].pending[r];
            b < i && BeganAt(run, b, p.op, p.basis, p.began)
  {
    InitialOk(run.states[0]);  // nothing is pending at the start, so i > 0
    PendingNext(run, i - 1);
    if r < |run.states[i - 1].pending| {
      b := PendingBegan(run, i - 1, r);
    } else {
      b := i - 1;
    }
  }

  lemma PendingNext(run: Run, k: nat)
    requires IsRun(run) && k < |run.events|
    ensures var s, e, pending' := run.states[k], run.events[k], run.states[k + 1].pending;
            pending' == s.pending
            || (e.BeginRead? && pending' == s.pending + [Read(e.id, Basis(s.db.timeline, e.id), s.db.now)])
  {
    assert Next(run, k);
    PendingGrows(run.states[k], run.events[k]);
  }

  lemma StopNoObservation(db: Db, id: Id, owner: Id, gen: nat, comparison: int)
    ensures StopTx(db, id, owner, gen, comparison).0.observations == db.observations
  {
    if id in db.ops {
      MoveNoObservation(db, id, owner, Unresolved);
      MoveNoObservation(Move(db, id, owner, Unresolved), id, owner, Cancelled);
      MoveNoObservation(db, id, owner, Cancelled);
    }
  }

  lemma MoveNoObservation(db: Db, id: Id, actor: Id, state: OpState)
    requires id in db.ops
    ensures Move(db, id, actor, state).observations == db.observations && id in Move(db, id, actor, state).ops
  {
  }

  lemma ReplyNoObservation(db: Db, id: Id, n: int, owner: Id, gen: nat, reply: Class)
    ensures RecordResponseTx(db, id, n, owner, gen, reply).0.observations == db.observations
  {
  }

  lemma CompleteNoObservation(db: Db, id: Id, owner: Id, gen: nat)
    ensures CompleteTx(db, id, owner, gen).0.observations == db.observations
  {
  }

  lemma SettlesNoObservation(s: System, e: Event)
    requires Settles(e)
    ensures StepDb(s, e).observations == s.db.observations
  {
    match e
    case Stop(id, owner, gen, comparison) => StopNoObservation(s.db, id, owner, gen, comparison);
    case Reply(id, n, owner, gen, reply) => ReplyNoObservation(s.db, id, n, owner, gen, reply);
    case Complete(id, owner, gen) => CompleteNoObservation(s.db, id, owner, gen);
    case MarkUnresolved(id, owner, gen) =>
    case CancelUnattempted(id, owner, gen) =>
  }

  lemma SendNoObservation(db: Db, id: Id, owner: Id, gen: nat, mode: Mode, retryRev: nat)
    ensures AttemptTx(db, id, owner, gen, mode, retryRev).0.observations == db.observations
  {
  }

  lemma CommitNoObservation(db: Db, id: Id, owner: Id, mode: Mode)
    ensures CommitTx(db, id, owner, mode).0.observations == db.observations
  {
  }

  lemma ClassifyNoObservation(db: Db, id: Id, owner: Id, gen: nat)
    ensures ClassifyTx(db, id, owner, gen).0.observations == db.observations
  {
  }

  lemma OthersNoObservation(s: System, e: Event)
    requires !Settles(e) && !e.EndRead?
    ensures StepDb(s, e).observations == s.db.observations
  {
    if e.Send? {
      SendNoObservation(s.db, e.id, e.owner, e.gen, e.mode, e.retryRev);
    } else if e.Commit? {
      CommitNoObservation(s.db, e.id, e.owner, e.mode);
    } else if e.Classify? {
      ClassifyNoObservation(s.db, e.id, e.owner, e.gen);
    }
  }

  lemma ObservationsGrow(s: System, e: Event)
    ensures var obs, obs' := s.db.observations, StepDb(s, e).observations;
            || obs' == obs
            || (&& e.EndRead? && e.read < |s.pending|
                && var p := s.pending[e.read];
                   obs' == obs + [Observation(p.op, e.machine, e.purpose, e.digest, p.basis, p.began)])
  {
    if Settles(e) {
      SettlesNoObservation(s, e);
    } else if !e.EndRead? {
      OthersNoObservation(s, e);
    }
  }

  /** ... and so did every recorded observation. */
  lemma {:induction false} ObservationBegan(run: Run, i: nat, k: nat) returns (b: nat)
    requires FromSetUp(run) && i <= |run.events| && k < |run.states[i].db.observations|
    ensures var o := run.states[i].db.observations[k];
            b < i && BeganAt(run, b, o.op, o.basis, o.began)
  {
    InitialOk(run.states[0]);  // nothing is observed at the start, so i > 0
    ObservationNext(run, i - 1);
    if k < |run.states[i - 1].db.observations| {
      b := ObservationBegan(run, i - 1, k);
    } else {
      b := PendingBegan(run, i - 1, run.events[i - 1].read);
    }
  }

  lemma ObservationNext(run: Run, k: nat)
    requires IsRun(run) && k < |run.events|
    ensures var s, e, obs' := run.states[k], run.events[k], run.states[k + 1].db.observations;
            || obs' == s.db.observations
            || (&& e.EndRead? && e.read < |s.pending|
                && var p := s.pending[e.read];
                   obs' == s.db.observations + [Observation(p.op, e.machine, e.purpose, e.digest, p.basis, p.began)])
  {
    assert Next(run, k);
    ObservationsGrow(run.states[k], run.events[k]);
  }

  /**
   Every attempt rests on a read that began in this run at most the plan's maximum age before it,
   whatever happened between that read and its record, that showed the pre-dispatch digest (or, for
   a retry, the artifact's), and that no later observation of the machine contradicts.
   */
  lemma AttemptRestsOnFreshRead(run: Run, i: nat) returns (k: nat, b: nat)
    requires FromSetUp(run) && i < |run.events|
    requires var db, e := run.states[i].db, run.events[i];
             e.Send? && AttemptTx(db, e.id, e.owner, e.gen, e.mode, e.retryRev).1.Ok?
    ensures var db, e := run.states[i].db, run.events[i];
            && e.id in db.plans && Supports(db, e.id, db.plans[e.id], e.retryRev != 0, k)
            && b < i && BeganAt(run, b, e.id, db.observations[k].basis, db.observations[k].began)
            && run.states[b].db.now >= db.now - db.plans[e.id].maxAge
  {
    var db, e := run.states[i].db, run.events[i];
    EvidencePasses(db, e.id, db.plans[e.id], e.retryRev != 0);
    k :| Supports(db, e.id, db.plans[e.id], e.retryRev != 0, k);
    b := ObservationBegan(run, i, k);
  }

  /** A row added since the sequence stood at `next`, with stamps below `next`, is still open. */
  lemma LaterRowOpen(rows: seq<Attempt>, rows': seq<Attempt>, next: nat, k: nat)
    requires RowsGrow(rows, rows', next) && AccountedBasis(rows') < next && |rows| <= k < |rows'|
    requires rows'[k].response.None? <==> rows'[k].responseRev == 0
    ensures !AccountedFor(rows'[k])
  {
  }

  /** Stamps below `next` were there when the sequence stood at `next`. */
  lemma SameAttemptsSince(rows: seq<Attempt>, rows': seq<Attempt>, next: nat)
    requires RowsGrow(rows, rows', next) && AllAccounted(rows') && AccountedBasis(rows') < next
    requires forall k :: 0 <= k < |rows| ==> (rows[k].response.None? <==> rows[k].responseRev == 0)
    requires forall k :: 0 <= k < |rows'| ==> (rows'[k].response.None? <==> rows'[k].responseRev == 0)
    ensures rows == rows'
  {
    if |rows| < |rows'| {
      LaterRowOpen(rows, rows', next, |rows|);
      assert false;
    }
    forall k | 0 <= k < |rows|
      ensures rows[k] == rows'[k]
    {
      assert RowGrows(rows[k], rows'[k], next);
    }
  }

  predicate Completes(db: Db, e: Event) {
    e.Complete? && CompleteTx(db, e.id, e.owner, e.gen).1.Ok?
  }

  lemma RowsStamped(db: Db, op: Id)
    requires Inv(db)
    ensures forall k :: 0 <= k < |Attempts(db, op)| ==>
              (Attempts(db, op)[k].response.None? <==> Attempts(db, op)[k].responseRev == 0)
  {
    if op in db.ops {
      OpAt(db, op);
      forall k | 0 <= k < |Attempts(db, op)|
        ensures Attempts(db, op)[k].response.None? <==> Attempts(db, op)[k].responseRev == 0
      {
        assert RowOk(Attempts(db, op)[k], k, db.ops[op], db.nextRev);
      }
    }
  }

  lemma BasisBelowNext(db: Db, op: Id)
    requires Inv(db)
    ensures Basis(db.timeline, op) < db.nextRev
  {
  }

  /**
   A completion, or a failure, rests on a read that began after every attempt's response or
   accounting was recorded.  For every interleaving of other steps between the read's beginning
   and its recording, the attempts of the operation at the point where the read began are exactly
   the attempts at the point of completion: none was added, answered or accounted for since.  The
   digest of that read decides which of the two it is.
   */
  lemma CompletionRestsOnLaterRead(run: Run, i: nat) returns (k: nat, b: nat)
    requires ProtocolRun(run) && i < |run.events| && Completes(run.states[i].db, run.events[i])
    ensures var db, e := run.states[i].db, run.events[i];
            && k < |db.observations| && b < i && e.id in db.plans
            && db.observations[k].op == e.id && db.observations[k].purpose.Completion? && db.observations[k].digest.Some?
            && BeganAt(run, b, e.id, db.observations[k].basis, db.observations[k].began)
            && Attempts(run.states[b].db, e.id) == Attempts(db, e.id)
            && CompleteTx(db, e.id, e.owner, e.gen).1
               == Ok(if db.observations[k].digest.value == db.plans[e.id].artifact then Completed else Failed)
  {
    var db, op := run.states[i].db, run.events[i].id;
    k := LatestAfter(db, op, AccountedBasis(Attempts(db, op)), false);
    b := ObservationBegan(run, i, k);
    NothingSince(run, b, i, op);
  }

  /** If every attempt is accounted for by the last revision the read could see, the attempts are
      those the read could see. */
  lemma NothingSince(run: Run, b: nat, i: nat, op: Id)
    requires ProtocolRun(run) && b <= i <= |run.events|
    requires AllAccounted(Attempts(run.states[i].db, op))
    requires AccountedBasis(Attempts(run.states[i].db, op)) <= Basis(run.states[b].db.timeline, op)
    ensures Attempts(run.states[b].db, op) == Attempts(run.states[i].db, op)
  {
    RunInv(run, i);
    RunInv(run, b);
    RunGrows(run, b, i);
    var db, db' := run.states[b].db, run.states[i].db;
    RowsStamped(db, op);
    RowsStamped(db', op);
    BasisBelowNext(db, op);
    SameAttemptsSince(RowsOf(db.attempts, op), RowsOf(db'.attempts, op), db.nextRev);
  }
}
