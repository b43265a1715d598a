/**
 Runs of the dispatch system: any number of executors, operators and clocks interleave the
 store's transactions in any order, with any arguments.
 */
module DispatchRuns {
  import opened Wrappers
  import opened DispatchModel
  import opened DispatchInvariants

  /** A read of the machine that has begun: the basis was taken, the digest is not recorded yet. */
  datatype Read = Read(op: Id, basis: nat, began: int)

  /** A revision that ClassifySafeToRetry returned and that no attempt has used. */
  datatype Grant = Grant(op: Id, rev: nat)

  datatype System = System(db: Db, pending: seq<Read>, grants: set<Grant>)

  /** One step: a transaction with its arguments, or a step of the environment. */
  datatype Event =
    | Propose(id: Id, machine: Id, artifact: Digest, expires: int, maxAttempts: int, verify: int, maxAge: int, actor: Id)
    | Approve(id: Id, actor: Id)
    | Revoke(id: Id, actor: Id)
    | Commit(id: Id, owner: Id, mode: Mode)
    | CancelUncommitted(id: Id, actor: Id)
    | Send(id: Id, owner: Id, gen: nat, mode: Mode, retryRev: nat)
    | Stop(id: Id, owner: Id, gen: nat, comparison: int)
    | Reply(id: Id, n: int, owner: Id, gen: nat, reply: Class)
    | Account(id: Id, n: int, actor: Id)
    | Takeover(id: Id, owner: Id)
    | BeginRead(id: Id)
    | EndRead(read: nat, machine: Id, purpose: Purpose, digest: Option<Digest>, actor: Id)
    | Complete(id: Id, owner: Id, gen: nat)
    | Classify(id: Id, owner: Id, gen: nat)
    | MarkUnresolved(id: Id, owner: Id, gen: nat)
    | CancelUnattempted(id: Id, owner: Id, gen: nat)
    | Tick(elapsed: nat)
    | Freeze(machine: Id, frozen: bool)
    | Reassign(machine: Id)
    | NextEpoch
    | SetRecovery(recovery: bool)
    | Gap

  function Start(machine: Id, applied: Digest, noScope: bool, now: int): System {
    System(Setup(machine, applied, noScope, now), [], {})
  }

  /** The rows after a step. */
  function StepDb(s: System, e: Event): Db {
    var db := s.db;
    match e
    case Propose(id, machine, artifact, expires, maxAttempts, verify, maxAge, actor) =>
      PlanTx(db, id, machine, artifact, expires, maxAttempts, verify, maxAge, actor).0
    case Approve(id, actor) => ApproveTx(db, id, actor).0
    case Revoke(id, actor) => RevokeTx(db, id, actor).0
    case Commit(id, owner, mode) => CommitTx(db, id, owner, mode).0
    case CancelUncommitted(id, actor) => CancelUncommittedTx(db, id, actor).0
    case Send(id, owner, gen, mode, retryRev) => AttemptTx(db, id, owner, gen, mode, retryRev).0
    case Stop(id, owner, gen, comparison) => StopTx(db, id, owner, gen, comparison).0
    case Reply(id, n, owner, gen, reply) => RecordResponseTx(db, id, n, owner, gen, reply).0
    case Account(id, n, actor) => AccountTx(db, id, n, actor).0
    case Takeover(id, owner) => TakeoverTx(db, id, owner).0
    case BeginRead(id) => db
    case EndRead(read, machine, purpose, digest, actor) =>
      if read < |s.pending| then
        var r := s.pending[read];
        ObserveTx(db, r.op, machine, purpose, digest, r.basis, r.began, actor).0
      else db
    case Complete(id, owner, gen) => CompleteTx(db, id, owner, gen).0
    case Classify(id, owner, gen) => ClassifyTx(db, id, owner, gen).0
    case MarkUnresolved(id, owner, gen) => MarkUnresolvedTx(db, id, owner, gen).0
    case CancelUnattempted(id, owner, gen) => CancelUnattemptedTx(db, id, owner, gen).0
    case Tick(elapsed) => db.(now := db.now + elapsed)
    case Freeze(machine, frozen) =>
      if machine in db.machines then
        db.(machines := db.machines[machine := db.machines[machine].(frozen := frozen)])
      else db
    case Reassign(machine) =>
      if machine in db.machines then
        var m := db.machines[machine];
        db.(machines := db.machines[machine := m.(assignmentRev := m.assignmentRev + 1)])
      else db
    case NextEpoch => db.(epoch := db.epoch + 1)
    case SetRecovery(recovery) => db.(recovery := recovery)
    case Gap => Burn(db)
  }

  function StepGrants(s: System, e: Event): set<Grant> {
    match e
    case Classify(id, owner, gen) =>
      var r := ClassifyTx(s.db, id, owner, gen).1;
      if r.Ok? then s.grants + {Grant(id, r.value)} else s.grants
    case Send(id, owner, gen, mode, retryRev) =>
      if AttemptTx(s.db, id, owner, gen, mode, retryRev).1.Ok? then s.grants - {Grant(id, retryRev)} else s.grants
    case _ => s.grants
  }

  function Step(s: System, e: Event): System {
    System(StepDb(s, e),
           if e.BeginRead? then s.pending + [Read(e.id, Basis(s.db.timeline, e.id), s.db.now)] else s.pending,
           StepGrants(s, e))
  }

  /** A run: the events and the states between them, the first before any event. */
  datatype Run = Run(states: seq<System>, events: seq<Event>)

  ghost predicate Next(run: Run, i: nat)
    requires |run.states| == |run.events| + 1 && i < |run.events|
  {
    run.states[i + 1] == Step(run.states[i], run.events[i])
  }

  ghost predicate IsRun(run: Run) {
    && |run.states| == |run.events| + 1
    && forall i {:trigger Next(run, i)} :: 0 <= i < |run.events| ==> Next(run, i)
  }

  /** A state that set-up gives. */
  ghost predicate Initial(s: System) {
    exists machine: Id, applied: Digest, noScope: bool, now: int :: s == Start(machine, applied, noScope, now)
  }

  ghost predicate FromSetUp(run: Run) {
    IsRun(run) && Initial(run.states[0])
  }

  /** Every executor runs the protocol, none of the controls. */
  predicate InProtocol(e: Event) {
    && (e.Commit? ==> e.mode.Protocol?)
    && (e.Send? ==> e.mode.Protocol?)
  }

  ghost predicate ProtocolRun(run: Run) {
    FromSetUp(run) && forall i :: 0 <= i < |run.events| ==> InProtocol(run.events[i])
  }

  lemma InitialOk(s: System)
    requires Initial(s)
    ensures Inv(s.db) && s.pending == [] && s.grants == {}
    ensures s.db.ops == map[] && s.db.timeline == [] && s.db.observations == []
  {
  }

  /** A step of the environment keeps the invariant and undoes nothing. */
  lemma EnvironmentKeeps(s: System, e: Event)
    requires Inv(s.db)
    requires Environment(e)
    ensures Keeps(s.db, StepDb(s, e))
  {
    var db := s.db;
    if e.Gap? {
      BurnKeeps(db);
    } else if (e.Freeze? || e.Reassign?) && e.machine in db.machines {
      MachineKeeps(db, e.machine, StepDb(s, e).machines[e.machine]);
    } else {
      Same(db);
    }
  }

  predicate Planning(e: Event) {
    e.Propose? || e.Approve? || e.Revoke? || e.Commit? || e.CancelUncommitted?
  }

  lemma PlanningKeeps(s: System, e: Event)
    requires Inv(s.db) && Planning(e)
    ensures Keeps(s.db, StepDb(s, e))
  {
    var db := s.db;
    match e
    case Propose(id, machine, artifact, expires, maxAttempts, verify, maxAge, actor) =>
      PlanKeeps(db, id, machine, artifact, expires, maxAttempts, verify, maxAge, actor);
    case Approve(id, actor) => ApproveKeeps(db, id, actor);
    case Revoke(id, actor) => RevokeKeeps(db, id, actor);
    case Commit(id, owner, mode) => CommitKeeps(db, id, owner, mode);
    case CancelUncommitted(id, actor) => CancelUncommittedKeeps(db, id, actor);
  }

  predicate Observing(e: Event) {
    e.BeginRead? || e.EndRead?
  }

  lemma ObservingKeeps(s: System, e: Event)
    requires Inv(s.db) && Observing(e)
    ensures Keeps(s.db, StepDb(s, e))
  {
    if e.EndRead? && e.read < |s.pending| {
      var r := s.pending[e.read];
      ObserveKeeps(s.db, r.op, e.machine, e.purpose, e.digest, r.basis, r.began, e.actor);
    } else {
      Same(s.db);
    }
  }

  predicate Environment(e: Event) {
    e.Tick? || e.Freeze? || e.Reassign? || e.NextEpoch? || e.SetRecovery? || e.Gap?
  }

  lemma OperatingKeeps(s: System, e: Event)
    requires Inv(s.db) && InProtocol(e) && !Planning(e) && !Observing(e) && !Environment(e)
    ensures Keeps(s.db, StepDb(s, e))
  {
    var db := s.db;
    match e
    case Send(id, owner, gen, mode, retryRev) => AttemptKeeps(db, id, owner, gen, mode, retryRev);
    case Stop(id, owner, gen, comparison) => StopKeeps(db, id, owner, gen, comparison);
    case Reply(id, n, owner, gen, reply) => ResponseKeeps(db, id, n, owner, gen, reply);
    case Account(id, n, actor) => AccountKeeps(db, id, n, actor);
    case Takeover(id, owner) => TakeoverKeeps(db, id, owner);
    case Complete(id, owner, gen) => CompleteKeeps(db, id, owner, gen);
    case Classify(id, owner, gen) => ClassifyKeeps(db, id, owner, gen);
    case MarkUnresolved(id, owner, gen) => MarkUnresolvedKeeps(db, id, owner, gen);
    case CancelUnattempted(id, owner, gen) => CancelUnattemptedKeeps(db, id, owner, gen);
  }

  /** Every step of the protocol keeps the invariant and undoes nothing that was recorded. */
  lemma StepKeeps(s: System, e: Event)
    requires Inv(s.db) && InProtocol(e)
    ensures Keeps(s.db, Step(s, e).db)
  {
    if Planning(e) {
      PlanningKeeps(s, e);
    } else if Observing(e) {
      ObservingKeeps(s, e);
    } else if Environment(e) {
      EnvironmentKeeps(s, e);
    } else {
      OperatingKeeps(s, e);
    }
  }

  /** The invariant holds at every point of every protocol run. */
  lemma {:induction false} RunInv(run: Run, i: nat)
    requires ProtocolRun(run) && i <= |run.events|
    ensures Inv(run.states[i].db)
  {
    if i == 0 {
      InitialOk(run.states[0]);
    } else {
      RunInv(run, i - 1);
      assert Next(run, i - 1);
      StepKeeps(run.states[i - 1], run.events[i - 1]);
    }
  }

  /** One event of a protocol run undoes nothing recorded. */
  lemma GrowsNext(run: Run, k: nat)
    requires ProtocolRun(run) && k < |run.events|
    ensures Inv(run.states[k].db) && Grows(run.states[k].db, run.states[k + 1].db)
  {
    RunInv(run, k);
    assert Next(run, k);
    StepKeeps(run.states[k], run.events[k]);
  }

  /** Between two points of a protocol run nothing recorded is undone. */
  lemma {:induction false} RunGrows(run: Run, i: nat, j: nat)
    requires ProtocolRun(run) && i <= j <= |run.events|
    ensures Grows(run.states[i].db, run.states[j].db)
    decreases j
  {
    if i == j {
      RunInv(run, i);
      Same(run.states[i].db);
    } else {
      RunGrows(run, i, j - 1);
      GrowsNext(run, j - 1);
      GrowsTransitive(run.states[i].db, run.states[j - 1].db, run.states[j].db);
    }
  }

  /**
   Terminal states absorb and keep their evidence.  At every later point of the run the operation
   row is the one it was, no attempt was added, and: completed and failed rest on at least one
   attempt with every attempt accounted for, rejected on every attempt having been rejected,
   cancelled on no attempt at all.
   */
  lemma TerminalForEver(run: Run, i: nat, j: nat, op: Id)
    requires ProtocolRun(run) && i <= j <= |run.events|
    requires op in run.states[i].db.ops && !Uncertain(run.states[i].db.ops[op].state)
    ensures op in run.states[j].db.ops
    ensures run.states[j].db.ops[op] == run.states[i].db.ops[op]
    ensures var state, rows := run.states[j].db.ops[op].state, Attempts(run.states[j].db, op);
            && |rows| == |Attempts(run.states[i].db, op)|
            && (state.Completed? || state.Failed? ==> rows != [] && AllAccounted(rows))
            && (state.Rejected? ==> rows != [] && AllRejected(rows))
            && (state.Cancelled? ==> rows == [])
  {
    RunGrows(run, i, j);
    RunInv(run, j);
    var db, db' := run.states[i].db, run.states[j].db;
    assert EntryGrows(db.ops[op], Attempts(db, op), db'.ops[op], Attempts(db', op));
    OpAt(db', op);
  }

  /**
   Attempts are numbered 1..n in the order they were recorded, n never passes the bound, and their
   generations never go down and never pass the owner's.
   */
  lemma AttemptsNumbered(run: Run, i: nat, op: Id)
    requires ProtocolRun(run) && i <= |run.events| && op in run.states[i].db.ops
    ensures op in run.states[i].db.plans
    ensures var db := run.states[i].db;
            var rows := Attempts(db, op);
            && (rows != [] ==> |rows| <= db.plans[op].maxAttempts)
            && (forall k :: 0 <= k < |rows| ==> rows[k].n == k + 1 && rows[k].gen <= db.ops[op].gen)
            && (forall j, k :: 0 <= j < k < |rows| ==> rows[j].gen <= rows[k].gen)
  {
    RunInv(run, i);
    OpAt(run.states[i].db, op);
    var db := run.states[i].db;
    var rows := Attempts(db, op);
    forall k | 0 <= k < |rows|
      ensures rows[k].n == k + 1 && rows[k].gen <= db.ops[op].gen
    {
      assert RowOk(rows[k], k, db.ops[op], db.nextRev);
    }
  }
}
