/**
 The dispatch store as an object: one field for each table and one method for each transaction.

 Every method is proved to leave the rows, and to give the answer, that the transaction function of
 `DispatchModel` says.  What every transaction keeps (`DispatchInvariants`) and what holds over runs
 (`DispatchRuns` and after) is proved of those functions.  A method that refuses returns before it
 writes.
 */
module DispatchStore {
  import opened Wrappers
  import opened DispatchModel
  import opened DispatchInvariants

  class Store {
    const scopeIndex: bool
    var epoch: nat
    var recovery: bool
    var now: int
    var machines: map<Id, Machine>
    var plans: map<Id, Plan>
    var approvals: map<Id, Approval>
    var ops: map<Id, Operation>
    var attempts: map<Id, seq<Attempt>>
    var observations: seq<Observation>
    var timeline: seq<Entry>
    var nextRev: nat

    /** The committed content of the database. */
    function Rows(): Db
      reads this
    {
      Db(scopeIndex, epoch, recovery, now, machines, plans, approvals, ops, attempts, observations, timeline, nextRev)
    }

    constructor (machine: Id, applied: Digest, noScope: bool, now: int)
      ensures Rows() == Setup(machine, applied, noScope, now) && Inv(Rows())
    {
      scopeIndex, epoch, recovery, this.now := !noScope, 1, false, now;
      machines := map[machine := Machine(1, 1, applied, false)];
      plans, approvals, ops, attempts := map[], map[], map[], map[];
      observations, timeline, nextRev := [], [], 1;
    }

    /** INSERT INTO timeline ... RETURNING rev. */
    method Log(op: Id, actor: Id, kind: Kind) returns (rev: nat)
      modifies this`timeline, this`nextRev
      ensures Rows() == Append(old(Rows()), op, actor, kind) && rev == old(nextRev)
    {
      rev := nextRev;
      timeline := timeline + [Entry(rev, op, actor, kind)];
      nextRev := nextRev + 1;
    }

    method SetState(op: Id, actor: Id, state: OpState)
      requires op in ops
      modifies this`ops, this`timeline, this`nextRev
      ensures Rows() == Move(old(Rows()), op, actor, state)
    {
      ops := ops[op := ops[op].(state := state)];
      var _ := Log(op, actor, Became(state));
    }

    function AttemptsOf(op: Id): seq<Attempt>
      reads this
    {
      if op in attempts then attempts[op] else []
    }

    method Plan(id: Id, machine: Id, artifact: Digest, expires: int, maxAttempts: int, verify: int, maxAge: int, actor: Id)
      returns (r: Outcome<()>)
      modifies this`plans, this`timeline, this`nextRev
      ensures (Rows(), r) == PlanTx(old(Rows()), id, machine, artifact, expires, maxAttempts, verify, maxAge, actor)
    {
      if machine in machines {
        if id in plans {
          return Error;
        }
        var m := machines[machine];
        plans := plans[id := DispatchModel.Plan.Plan(machine, artifact, m.applied, m.assignmentRev, m.baselineRev,
                                       now + expires, maxAttempts, verify, maxAge)];
      }
      var _ := Log(id, actor, Planned);
      return Ok(());
    }

    method Approve(plan: Id, actor: Id) returns (r: Outcome<()>)
      modifies this`approvals, this`timeline, this`nextRev
      ensures (Rows(), r) == ApproveTx(old(Rows()), plan, actor)
    {
      if plan in approvals || plan !in plans {
        return Error;
      }
      approvals := approvals[plan := Approval(epoch, false)];
      var _ := Log(plan, actor, Approved);
      return Ok(());
    }

    method Revoke(plan: Id, actor: Id) returns (r: Outcome<()>)
      modifies this`approvals, this`timeline, this`nextRev
      ensures (Rows(), r) == RevokeTx(old(Rows()), plan, actor)
    {
      if plan !in approvals || approvals[plan].revoked {
        return Error;
      }
      approvals := approvals[plan := approvals[plan].(revoked := true)];
      var _ := Log(plan, actor, Revoked);
      return Ok(());
    }

    method Commit(plan: Id, owner: Id, mode: Mode) returns (r: Outcome<nat>)
      modifies this`ops, this`timeline, this`nextRev
      ensures (Rows(), r) == CommitTx(old(Rows()), plan, owner, mode)
    {
      if plan !in plans {
        return Error;
      }
      var p := plans[plan];
      if mode != Naive && !ApprovalHolds(Rows(), plan) {
        return Refused(1);
      }
      var machine := CheckMachine(Rows(), p);
      if machine.Refuse? {
        return Refused(machine.comparison);
      }
      if machine.Fault? {
        return Error;
      }
      var evidence := CheckEvidence(Rows(), plan, p, false);
      if evidence.Refuse? {
        return Refused(evidence.comparison);
      }
      if plan in ops {
        return Refused(EXISTS);
      }
      if scopeIndex && ScopeHeld(Rows(), p.machine) {
        return Refused(4);
      }
      ops := ops[plan := Operation(p.machine, Committed, owner, 1)];
      var _ := Log(plan, owner, Became(Committed));
      return Ok(1);
    }

    method CancelUncommitted(plan: Id, actor: Id) returns (r: Outcome<()>)
      modifies this`ops, this`timeline, this`nextRev
      ensures (Rows(), r) == CancelUncommittedTx(old(Rows()), plan, actor)
    {
      if plan !in plans || plan in ops {
        return Error;
      }
      ops := ops[plan := Operation(plans[plan].machine, Cancelled, actor, 0)];
      var _ := Log(plan, actor, Became(Cancelled));
      return Ok(());
    }

    /** INSERT INTO attempts, the state and the timeline entry. */
    method InsertAttempt(op: Id, owner: Id, gen: nat) returns (n: nat)
      requires op in plans && op in ops
      modifies this`ops, this`attempts, this`timeline, this`nextRev
      ensures Rows() == Record(old(Rows()), op, owner, gen) && n == |old(AttemptsOf(op))| + 1
    {
      n := |AttemptsOf(op)| + 1;
      attempts := attempts[op := AttemptsOf(op) + [DispatchModel.Attempt.Attempt(n, owner, gen, now + plans[op].verify, None, 0, 0)]];
      ops := ops[op := ops[op].(state := Sending)];
      var _ := Log(op, owner, Attempted);
    }

    /** The attempt transaction alone. */
    method RecordAttempt(op: Id, owner: Id, gen: nat, mode: Mode, retryRev: nat) returns (r: Outcome<nat>)
      modifies this`ops, this`attempts, this`timeline, this`nextRev
      ensures (Rows(), r) == AttemptTx(old(Rows()), op, owner, gen, mode, retryRev)
    {
      if op !in plans {
        return Error;
      }
      var p := plans[op];
      if mode != Naive && !ApprovalHolds(Rows(), op) {
        return Refused(1);
      }
      var machine := CheckMachine(Rows(), p);
      if machine.Refuse? {
        return Refused(machine.comparison);
      }
      if machine.Fault? || op !in ops {
        return Error;
      }
      if mode != NoFence && !MayAttempt(ops[op], owner, gen, retryRev) {
        return Refused(OWNER);
      }
      if retryRev != 0 && FactAfter(timeline, op, retryRev) {
        return Refused(RETRY);
      }
      var evidence := CheckEvidence(Rows(), op, p, retryRev != 0);
      if evidence.Refuse? {
        return Refused(evidence.comparison);
      }
      var n := |AttemptsOf(op)|;
      if n >= p.maxAttempts {
        return Refused(ATTEMPTS);
      }
      n := InsertAttempt(op, owner, gen);
      return Ok(n);
    }

    method StopAfterRefusal(op: Id, owner: Id, gen: nat, comparison: int) returns (r: Outcome<()>)
      modifies this`ops, this`timeline, this`nextRev
      ensures (Rows(), r) == StopTx(old(Rows()), op, owner, gen, comparison)
    {
      if op !in ops {
        return Error;
      }
      if ops[op].owner != owner || ops[op].gen != gen {
        return Ok(());
      }
      if InFlight(ops[op].state) {
        SetState(op, owner, Unresolved);
      }
      if AttemptsOf(op) == [] && comparison == 1 {
        SetState(op, owner, Cancelled);
      }
      return Ok(());
    }

    /** The attempt transaction and, when comparison 1 or 6 refused it, the owner's stop. */
    method Attempt(op: Id, owner: Id, gen: nat, mode: Mode, retryRev: nat) returns (r: Outcome<nat>)
      modifies this`ops, this`attempts, this`timeline, this`nextRev
      ensures r == AttemptTx(old(Rows()), op, owner, gen, mode, retryRev).1
      ensures var after := AttemptTx(old(Rows()), op, owner, gen, mode, retryRev).0;
              Rows() == if r == Refused(1) || r == Refused(6) then StopTx(after, op, owner, gen, r.comparison).0 else after
    {
      r := RecordAttempt(op, owner, gen, mode, retryRev);
      if r == Refused(1) || r == Refused(6) {
        var _ := StopAfterRefusal(op, owner, gen, r.comparison);
      }
    }

    /** The response of the attempt at place `i`, and its timeline entry. */
    method Answer(op: Id, i: nat, actor: Id, reply: Class)
      requires i < |AttemptsOf(op)|
      modifies this`attempts, this`timeline, this`nextRev
      ensures Rows() == Respond(old(Rows()), op, i, actor, reply)
    {
      var rows := AttemptsOf(op);
      var rev := Log(op, actor, Responded);
      attempts := attempts[op := rows[i := rows[i].(response := Some(reply), responseRev := rev)]];
    }

    method RecordResponse(op: Id, n: int, owner: Id, gen: nat, reply: Class) returns (r: Outcome<OpState>)
      modifies this`ops, this`attempts, this`timeline, this`nextRev
      ensures (Rows(), r) == RecordResponseTx(old(Rows()), op, n, owner, gen, reply)
    {
      if op !in ops {
        return Error;
      }
      var o := ops[op];
      var i := Row(AttemptsOf(op), n);
      if i < 0 || AttemptsOf(op)[i].response.Some? {
        nextRev := nextRev + 1;
        return Error;
      }
      Answer(op, i, owner, reply);
      if !o.state.Sending? || o.owner != owner || o.gen != gen {
        return Ok(o.state);
      }
      var state := AfterResponse(AttemptsOf(op), n, reply);
      SetState(op, owner, state);
      return Ok(state);
    }

    method Account(op: Id, n: int, actor: Id) returns (r: Outcome<()>)
      modifies this`attempts, this`timeline, this`nextRev
      ensures (Rows(), r) == AccountTx(old(Rows()), op, n, actor)
    {
      if op !in ops {
        return Error;
      }
      var i := Row(AttemptsOf(op), n);
      if i < 0 || AttemptsOf(op)[i].accountedRev != 0 {
        nextRev := nextRev + 1;
        return Error;
      }
      var rows := AttemptsOf(op);
      var rev := Log(op, actor, Accounted);
      attempts := attempts[op := rows[i := rows[i].(accountedRev := rev)]];
      return Ok(());
    }

    method Takeover(op: Id, owner: Id) returns (r: Outcome<nat>)
      modifies this`ops, this`timeline, this`nextRev
      ensures (Rows(), r) == TakeoverTx(old(Rows()), op, owner)
    {
      if op !in ops || !Uncertain(ops[op].state) {
        return Refused(OWNER);
      }
      var gen := ops[op].gen + 1;
      ops := ops[op := ops[op].(owner := owner, gen := gen, state := Unresolved)];
      var _ := Log(op, owner, Owned);
      return Ok(gen);
    }

    /** The second half of an observation: the read, whose basis was taken when it began. */
    method RecordObservation(op: Id, machine: Id, purpose: Purpose, digest: Option<Digest>, basis: nat, began: int, actor: Id)
      returns (r: Outcome<nat>)
      modifies this`observations, this`timeline, this`nextRev
      ensures (Rows(), r) == ObserveTx(old(Rows()), op, machine, purpose, digest, basis, began, actor)
    {
      var id := |observations|;
      observations := observations + [Observation(op, machine, purpose, digest, basis, began)];
      var _ := Log(op, actor, Observed);
      return Ok(id);
    }

    method Complete(op: Id, owner: Id, gen: nat) returns (r: Outcome<OpState>)
      modifies this`machines, this`ops, this`timeline, this`nextRev
      ensures (Rows(), r) == CompleteTx(old(Rows()), op, owner, gen)
    {
      if op !in plans || op !in ops {
        return Error;
      }
      var p, o := plans[op], ops[op];
      if o.owner != owner || o.gen != gen || (!o.state.Verifying? && !o.state.Unresolved?) {
        return Refused(OWNER);
      }
      var rows := AttemptsOf(op);
      if !AllAccounted(rows) || rows == [] {
        return Refused(COMPLETE);
      }
      var i := LatestAfter(Rows(), op, AccountedBasis(rows), false);
      if i < 0 {
        return Refused(COMPLETE);
      }
      if observations[i].digest.value != p.artifact {
        SetState(op, owner, Failed);
        return Ok(Failed);
      }
      if p.machine in machines {
        var m := machines[p.machine];
        machines := machines[p.machine := m.(applied := p.artifact, baselineRev := m.baselineRev + 1)];
      }
      SetState(op, owner, Completed);
      return Ok(Completed);
    }

    method ClassifySafeToRetry(op: Id, owner: Id, gen: nat) returns (r: Outcome<nat>)
      modifies this`timeline, this`nextRev
      ensures (Rows(), r) == ClassifyTx(old(Rows()), op, owner, gen)
    {
      if op !in plans || op !in ops {
        return Error;
      }
      var p, o := plans[op], ops[op];
      if o.owner != owner || o.gen != gen || !o.state.Unresolved? {
        return Refused(OWNER);
      }
      var rows := AttemptsOf(op);
      if !AllAccounted(rows) {
        return Refused(COMPLETE);
      }
      if AnyAccepted(rows) {
        return Refused(RETRY);
      }
      var i := LatestAfter(Rows(), op, AccountedBasis(rows), true);
      if i < 0 {
        return Refused(COMPLETE);
      }
      if observations[i].digest.value != p.pre {
        return Refused(RETRY);
      }
      var rev := Log(op, owner, Classified);
      return Ok(rev);
    }

    method MarkUnresolved(op: Id, owner: Id, gen: nat) returns (r: Outcome<()>)
      modifies this`ops, this`timeline, this`nextRev
      ensures (Rows(), r) == MarkUnresolvedTx(old(Rows()), op, owner, gen)
    {
      if op !in ops {
        return Error;
      }
      if ops[op].owner != owner || ops[op].gen != gen || !InFlight(ops[op].state) {
        return Ok(());
      }
      SetState(op, owner, Unresolved);
      return Ok(());
    }

    method CancelUnattempted(op: Id, owner: Id, gen: nat) returns (r: Outcome<()>)
      modifies this`ops, this`timeline, this`nextRev
      ensures (Rows(), r) == CancelUnattemptedTx(old(Rows()), op, owner, gen)
    {
      if op !in ops {
        return Error;
      }
      var o := ops[op];
      if o.owner != owner || o.gen != gen || !o.state.Unresolved? {
        return Refused(OWNER);
      }
      if AttemptsOf(op) != [] {
        return Refused(ATTEMPTS);
      }
      if ApprovalHolds(Rows(), op) {
        return Refused(1);
      }
      SetState(op, owner, Cancelled);
      return Ok(());
    }

    /* ---- what happens around the store ---- */

    method Tick(elapsed: nat)
      modifies this`now
      ensures Rows() == old(Rows()).(now := old(now) + elapsed)
    {
      now := now + elapsed;
    }

    method Freeze(machine: Id, frozen: bool)
      modifies this`machines
      ensures Rows() == if machine in old(machines)
                        then old(Rows()).(machines := old(machines)[machine := old(machines)[machine].(frozen := frozen)])
                        else old(Rows())
    {
      if machine in machines {
        machines := machines[machine := machines[machine].(frozen := frozen)];
      }
    }

    method Reassign(machine: Id)
      modifies this`machines
      ensures Rows() == if machine in old(machines)
                        then old(Rows()).(machines := old(machines)[machine :=
                               old(machines)[machine].(assignmentRev := old(machines)[machine].assignmentRev + 1)])
                        else old(Rows())
    {
      if machine in machines {
        var m := machines[machine];
        machines := machines[machine := m.(assignmentRev := m.assignmentRev + 1)];
      }
    }

    method NextEpoch()
      modifies this`epoch
      ensures Rows() == old(Rows()).(epoch := old(epoch) + 1)
    {
      epoch := epoch + 1;
    }

    method SetRecovery(recovery: bool)
      modifies this`recovery
      ensures Rows() == old(Rows()).(recovery := recovery)
    {
      this.recovery := recovery;
    }

    /** A transaction elsewhere takes a revision and rolls back. */
    method SkipRevision()
      modifies this`nextRev
      ensures Rows() == Burn(old(Rows()))
    {
      nextRev := nextRev + 1;
    }
  }
}
