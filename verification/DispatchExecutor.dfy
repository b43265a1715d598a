/**
 The executors: the order in which one process calls the store, with any number of other processes
 at work between its calls.

 A `World` is the shared store with the run that led to its rows.  Before each call of the executor
 the others call the store, as the script says.  What talosctl answers, what is read from the machine
 and when a deadline passes are arguments.  Everything the executors do is shown to be a protocol
 run in which each retry uses up its own classification, so the results of `DispatchSafety` hold of
 them.
 */
module DispatchExecutor {
  import opened Wrappers
  import opened DispatchModel
  import opened DispatchInvariants
  import opened DispatchRuns
  import opened DispatchSafety
  import opened DispatchRetries
  import opened DispatchStore

  datatype Exit = ExitCompleted | ExitError | ExitRefused | ExitUnresolved | ExitTerminal

  function ExitFor(state: OpState): Exit {
    match state
    case Completed => ExitCompleted
    case Rejected => ExitTerminal
    case Failed => ExitTerminal
    case Cancelled => ExitTerminal
    case _ => ExitUnresolved
  }

  /** What an exit code says of the operation. */
  predicate Means(exit: Exit, db: Db, op: Id) {
    && (exit.ExitCompleted? ==> op in db.ops && db.ops[op].state.Completed?)
    && (exit.ExitTerminal? ==> op in db.ops && (db.ops[op].state.Rejected? || db.ops[op].state.Failed? || db.ops[op].state.Cancelled?))
  }

  /** At every point an executor can reach, the invariant holds and at most one attempt of an
      operation is open. */
  lemma ReachedIsSafe(run: Run)
    requires ProtocolRun(run) && GrantedRun(run)
    ensures var s := run.states[|run.events|]; Inv(s.db) && LastOpen(s.db) && GrantsOk(s)
  {
    RunInv(run, |run.events|);
    GrantsRun(run, |run.events|);
    GrantedRunIsChecked(run);
    LastOpenRun(run, |run.events|);
  }

  /** The state a recorded response answers is the operation's. */
  lemma ResponseMeans(db: Db, id: Id, n: int, owner: Id, gen: nat, reply: Class)
    ensures var r := RecordResponseTx(db, id, n, owner, gen, reply);
            r.1.Ok? ==> id in r.0.ops && r.0.ops[id].state == r.1.value
  {
  }

  class World {
    const store: Store
    /** Reads that have begun, and classifications that no attempt has used, of all processes. */
    var pending: seq<Read>
    var grants: set<Grant>
    /** The classifications this process holds: no other process knows their revisions. */
    var mine: set<Grant>
    /** What the others do before each call. */
    var script: seq<seq<Event>>
    /** The run that led here. */
    ghost var run: Run

    function Sys(): System
      reads this, store
    {
      System(store.Rows(), pending, grants)
    }

    /** The run is one of the protocol, with every retry sent under a grant, and ends in this state. */
    ghost predicate Valid()
      reads this, store
    {
      ProtocolRun(run) && GrantedRun(run) && run.states[|run.events|] == Sys() && mine <= grants
    }

    constructor (machine: Id, applied: Digest, noScope: bool, now: int, script: seq<seq<Event>>)
      ensures Valid() && Sys() == Start(machine, applied, noScope, now) && mine == {} && fresh(store)
    {
      store := new Store(machine, applied, noScope, now);
      pending, grants, mine := [], {}, {};
      this.script := script;
      run := Run([Start(machine, applied, noScope, now)], []);
      new;
      assert Initial(run.states[0]);
    }

    /* ---- one step ---- */

    /** After the store has done its part of a step from `before`: what the processes keep. */
    method Note(e: Event, before: System)
      requires ProtocolRun(run) && GrantedRun(run) && run.states[|run.events|] == before && mine <= grants
      requires InProtocol(e) && Granted(before, e)
      requires store.Rows() == StepDb(before, e) && pending == before.pending && grants == before.grants
      modifies this`run, this`pending, this`grants, this`mine
      ensures Valid() && Sys() == Step(before, e)
      ensures mine == if e.Send? then old(mine) - {Grant(e.id, e.retryRev)} else old(mine)
    {
      ExtendProtocol(run, e, Step(before, e));
      run := Extend(run, e, Step(before, e));
      grants := StepGrants(before, e);
      if e.BeginRead? {
        pending := pending + [Read(e.id, Basis(before.db.timeline, e.id), before.db.now)];
      }
      if e.Send? {
        mine := mine - {Grant(e.id, e.retryRev)};
      }
    }

    method CallPlanning(e: Event)
      requires Planning(e)
      modifies store
      ensures store.Rows() == StepDb(old(Sys()), e)
    {
      match e
      case Propose(id, machine, artifact, expires, maxAttempts, verify, maxAge, actor) =>
        var _ := store.Plan(id, machine, artifact, expires, maxAttempts, verify, maxAge, actor);
      case Approve(id, actor) => var _ := store.Approve(id, actor);
      case Revoke(id, actor) => var _ := store.Revoke(id, actor);
      case Commit(id, owner, mode) => var _ := store.Commit(id, owner, mode);
      case CancelUncommitted(id, actor) => var _ := store.CancelUncommitted(id, actor);
    }

    method CallObserving(e: Event)
      requires Observing(e)
      modifies store
      ensures store.Rows() == StepDb(old(Sys()), e)
    {
      if e.EndRead? && e.read < |pending| {
        var r := pending[e.read];
        var _ := store.RecordObservation(r.op, e.machine, e.purpose, e.digest, r.basis, r.began, e.actor);
      }
    }

    method CallEnvironment(e: Event)
      requires Environment(e)
      modifies store
      ensures store.Rows() == StepDb(old(Sys()), e)
    {
      if e.Freeze? || e.Reassign? {
        CallMachines(e);
      } else {
        match e
        case Tick(elapsed) => store.Tick(elapsed);
        case NextEpoch => store.NextEpoch();
        case SetRecovery(recovery) => store.SetRecovery(recovery);
        case Gap => store.SkipRevision();
      }
    }

    method CallMachines(e: Event)
      requires e.Freeze? || e.Reassign?
      modifies store
      ensures store.Rows() == StepDb(old(Sys()), e)
    {
      match e
      case Freeze(machine, frozen) => store.Freeze(machine, frozen);
      case Reassign(machine) => store.Reassign(machine);
    }

    method CallOperating(e: Event)
      requires !Planning(e) && !Observing(e) && !Environment(e)
      modifies store
      ensures store.Rows() == StepDb(old(Sys()), e)
    {
      match e
      case Send(id, owner, gen, mode, retryRev) => var _ := store.RecordAttempt(id, owner, gen, mode, retryRev);
      case Stop(id, owner, gen, comparison) => var _ := store.StopAfterRefusal(id, owner, gen, comparison);
      case Reply(id, n, owner, gen, reply) => var _ := store.RecordResponse(id, n, owner, gen, reply);
      case Account(id, n, actor) => var _ := store.Account(id, n, actor);
      case Takeover(id, owner) => var _ := store.Takeover(id, owner);
      case Complete(id, owner, gen) => var _ := store.Complete(id, owner, gen);
      case Classify(id, owner, gen) => var _ := store.ClassifySafeToRetry(id, owner, gen);
      case MarkUnresolved(id, owner, gen) => var _ := store.MarkUnresolved(id, owner, gen);
      case CancelUnattempted(id, owner, gen) => var _ := store.CancelUnattempted(id, owner, gen);
    }

    /** Any step, of anybody: the store's method for it is called. */
    method Perform(e: Event)
      requires Valid() && InProtocol(e) && Granted(Sys(), e)
      modifies this`run, this`pending, this`grants, this`mine, store
      ensures Valid() && Sys() == Step(old(Sys()), e)
      ensures mine == if e.Send? then old(mine) - {Grant(e.id, e.retryRev)} else old(mine)
    {
      var before := Sys();
      if Planning(e) {
        CallPlanning(e);
      } else if Observing(e) {
        CallObserving(e);
      } else if Environment(e) {
        CallEnvironment(e);
      } else {
        CallOperating(e);
      }
      Note(e, before);
    }

    /** The steps of the others: any protocol steps, none of which uses this process's grants. */
    method Others()
      requires Valid()
      modifies this`run, this`pending, this`grants, this`mine, this`script, store
      ensures Valid() && mine == old(mine)
    {
      if |script| > 0 {
        var batch := script[0];
        script := script[1..];
        for i := 0 to |batch|
          invariant Valid() && mine == old(mine)
        {
          var e := batch[i];
          if InProtocol(e) && Granted(Sys(), e) && !(e.Send? && Grant(e.id, e.retryRev) in mine) {
            Perform(e);
          }
        }
      }
    }

    /* ---- the calls of an executor ---- */

    /** The basis, then the read, during which the others go on, then the record. */
    method Observe(op: Id, machine: Id, purpose: Purpose, digest: Option<Digest>, actor: Id)
      requires Valid()
      modifies this`run, this`pending, this`grants, this`mine, this`script, store
      ensures Valid() && mine == old(mine)
    {
      Others();
      Perform(BeginRead(op));
      var read := |pending| - 1;
      Others();
      Perform(EndRead(read, machine, purpose, digest, actor));
    }

    method Complete(op: Id, owner: Id, gen: nat) returns (exit: Exit)
      requires Valid()
      modifies this`run, this`pending, this`grants, this`mine, this`script, store
      ensures Valid() && Means(exit, store.Rows(), op)
    {
      Others();
      var before := Sys();
      var r := store.Complete(op, owner, gen);
      Note(Event.Complete(op, owner, gen), before);
      match r
      case Refused(_) => return ExitRefused;
      case Error => return ExitError;
      case Ok(state) => return ExitFor(state);
    }

    /** Observes until a read shows the artifact or the deadline passes: the last of the reads is the
        one at or after the deadline. */
    method Verify(op: Id, p: Plan, owner: Id, gen: nat, observed: seq<Option<Digest>>) returns (exit: Exit)
      requires Valid() && observed != []
      modifies this`run, this`pending, this`grants, this`mine, this`script, store
      ensures Valid() && Means(exit, store.Rows(), op)
    {
      for i := 0 to |observed|
        invariant Valid()
      {
        var last := i == |observed| - 1;
        Observe(op, p.machine, Completion, observed[i], owner);
        if observed[i].Some? && (observed[i].value == p.artifact || last) {
          exit := Complete(op, owner, gen);
          return;
        }
        if last {
          Others();
          var before := Sys();
          var r := store.MarkUnresolved(op, owner, gen);
          Note(MarkUnresolved(op, owner, gen), before);
          return if r.Ok? then ExitUnresolved else ExitError;
        }
      }
      return ExitUnresolved;
    }

    /** The attempt transaction and, when comparison 1 or 6 refused it, the owner's stop. */
    method RecordAttempt(op: Id, owner: Id, gen: nat, retryRev: nat) returns (r: Outcome<nat>)
      requires Valid() && (retryRev != 0 ==> Grant(op, retryRev) in mine)
      modifies this`run, this`pending, this`grants, this`mine, this`script, store
      ensures Valid() && mine == old(mine) - {Grant(op, retryRev)}
    {
      Others();
      var before := Sys();
      r := store.RecordAttempt(op, owner, gen, Protocol, retryRev);
      Note(Send(op, owner, gen, Protocol, retryRev), before);
      if r == Refused(1) || r == Refused(6) {
        Others();
        Perform(Stop(op, owner, gen, r.comparison));
      }
    }

    /** Records the response; where one is there already, the state is read instead. */
    method Respond(op: Id, n: int, owner: Id, gen: nat, reply: Class) returns (state: Option<OpState>)
      requires Valid()
      modifies this`run, this`pending, this`grants, this`mine, this`script, store
      ensures Valid() && mine == old(mine)
      ensures state.Some? ==> op in store.ops && store.ops[op].state == state.value
    {
      Others();
      var before := Sys();
      var r := store.RecordResponse(op, n, owner, gen, reply);
      ResponseMeans(before.db, op, n, owner, gen, reply);
      Note(Reply(op, n, owner, gen, reply), before);
      if r.Ok? {
        return Some(r.value);
      }
      Others();
      return if op in store.ops then Some(store.ops[op].state) else None;
    }

    /** Records an attempt, sends it and drives the operation to a state.  `retryRev` is 0, or a
        classification this process holds, which the attempt uses up. */
    method AttemptAndVerify(op: Id, p: Plan, owner: Id, gen: nat, retryRev: nat, reply: Class, observed: seq<Option<Digest>>)
      returns (exit: Exit)
      requires Valid() && observed != [] && (retryRev != 0 ==> Grant(op, retryRev) in mine)
      modifies this`run, this`pending, this`grants, this`mine, this`script, store
      ensures Valid() && Means(exit, store.Rows(), op)
    {
      var r := RecordAttempt(op, owner, gen, retryRev);
      match r
      case Refused(_) => return ExitRefused;
      case Error => return ExitError;
      case Ok(n) =>
        var state := Respond(op, n, owner, gen, reply);
        if state.None? {
          return ExitError;
        }
        if !state.value.Verifying? {
          return ExitFor(state.value);
        }
        exit := Verify(op, p, owner, gen, observed);
    }

    /** One executor's run of an approved plan. */
    method Execute(op: Id, owner: Id, bound: bool, evidence: Option<Digest>, reply: Class, observed: seq<Option<Digest>>)
      returns (exit: Exit)
      requires Valid() && observed != []
      modifies this`run, this`pending, this`grants, this`mine, this`script, store
      ensures Valid() && Means(exit, store.Rows(), op) && LastOpen(store.Rows())
    {
      exit := ExecuteSteps(op, owner, bound, evidence, reply, observed);
      ReachedIsSafe(run);
    }

    method ExecuteSteps(op: Id, owner: Id, bound: bool, evidence: Option<Digest>, reply: Class, observed: seq<Option<Digest>>)
      returns (exit: Exit)
      requires Valid() && observed != []
      modifies this`run, this`pending, this`grants, this`mine, this`script, store
      ensures Valid() && Means(exit, store.Rows(), op)
    {
      if op !in store.plans {
        return ExitError;
      }
      var p := store.plans[op];
      if !bound {
        return ExitRefused;
      }
      Observe(op, p.machine, Evidence, evidence, owner);
      if evidence.None? {
        return ExitError;
      }
      Others();
      var before := Sys();
      var r := store.Commit(op, owner, Protocol);
      Note(Commit(op, owner, Protocol), before);
      if r == Refused(1) {
        Others();
        Perform(CancelUncommitted(op, owner));
      }
      match r
      case Refused(_) => return ExitRefused;
      case Error => return ExitError;
      case Ok(gen) => exit := AttemptAndVerify(op, p, owner, gen, 0, reply, observed);
    }

    /** Every attempt is accounted for, and whether one was accepted. */
    method Settled(rows: seq<Attempt>) returns (all: bool, accepted: bool)
      ensures all == AllAccounted(rows)
      ensures all ==> accepted == AnyAccepted(rows)
    {
      accepted := false;
      for k := 0 to |rows|
        invariant AllAccounted(rows[..k]) && (accepted <==> AnyAccepted(rows[..k]))
      {
        if !AccountedFor(rows[k]) {
          return false, accepted;
        }
        assert rows[..k + 1] == rows[..k] + [rows[k]];
        MoreAccepted(rows[..k], rows[k]);
        accepted := accepted || rows[k].response == Some(Accepted);
      }
      assert rows[..|rows|] == rows;
      all := true;
    }

    /** A new owner's resolution of an unresolved operation.  A retry is sent only under the
        classification it just made, once. */
    method Recover(op: Id, owner: Id, retry: bool, digest: Option<Digest>, reply: Class, observed: seq<Option<Digest>>)
      returns (exit: Exit)
      requires Valid() && observed != []
      modifies this`run, this`pending, this`grants, this`mine, this`script, store
      ensures Valid() && Means(exit, store.Rows(), op) && LastOpen(store.Rows())
    {
      exit := RecoverSteps(op, owner, retry, digest, reply, observed);
      ReachedIsSafe(run);
    }

    method RecoverSteps(op: Id, owner: Id, retry: bool, digest: Option<Digest>, reply: Class, observed: seq<Option<Digest>>)
      returns (exit: Exit)
      requires Valid() && observed != []
      modifies this`run, this`pending, this`grants, this`mine, this`script, store
      ensures Valid() && Means(exit, store.Rows(), op)
    {
      if op !in store.ops {
        return ExitError;
      }
      var o := store.ops[op];
      if o.owner != owner {
        return ExitRefused;
      }
      if !o.state.Unresolved? {
        return ExitFor(o.state);
      }
      Others();
      if op !in store.plans {
        return ExitError;
      }
      var p := store.plans[op];
      Others();
      var rows := store.AttemptsOf(op);
      if rows == [] {
        Others();
        if !ApprovalHolds(store.Rows(), op) {
          exit := Cancel(op, owner, o.gen);
          return;
        }
      }
      var all, accepted := Settled(rows);
      if !all {
        return ExitUnresolved;
      }
      Observe(op, p.machine, Completion, digest, owner);
      if digest.None? {
        return ExitUnresolved;
      }
      if retry && !accepted && digest.value == p.pre && |rows| < p.maxAttempts {
        exit := Retry(op, p, owner, o.gen, reply, observed);
      } else if rows == [] {
        exit := ExitUnresolved;
      } else {
        exit := Complete(op, owner, o.gen);
      }
    }

    method Cancel(op: Id, owner: Id, gen: nat) returns (exit: Exit)
      requires Valid()
      modifies this`run, this`pending, this`grants, this`mine, this`script, store
      ensures Valid() && Means(exit, store.Rows(), op)
    {
      Others();
      var before := Sys();
      var r := store.CancelUnattempted(op, owner, gen);
      Note(CancelUnattempted(op, owner, gen), before);
      match r
      case Refused(_) => return ExitRefused;
      case Error => return ExitError;
      case Ok(_) => return ExitTerminal;
    }

    method Retry(op: Id, p: Plan, owner: Id, gen: nat, reply: Class, observed: seq<Option<Digest>>) returns (exit: Exit)
      requires Valid() && observed != []
      modifies this`run, this`pending, this`grants, this`mine, this`script, store
      ensures Valid() && Means(exit, store.Rows(), op)
    {
      Others();
      var before := Sys();
      var r := store.ClassifySafeToRetry(op, owner, gen);
      Note(Classify(op, owner, gen), before);
      match r
      case Refused(_) => return ExitRefused;
      case Error => return ExitError;
      case Ok(rev) =>
        mine := mine + {Grant(op, rev)};
        exit := AttemptAndVerify(op, p, owner, gen, rev, reply, observed);
    }
  }

  lemma MoreAccepted(rows: seq<Attempt>, a: Attempt)
    ensures AnyAccepted(rows + [a]) <==> AnyAccepted(rows) || a.response == Some(Accepted)
  {
    var more := rows + [a];
    if AnyAccepted(rows) {
      var k :| 0 <= k < |rows| && rows[k].response == Some(Accepted);
      assert more[k].response == Some(Accepted);
    }
    if a.response == Some(Accepted) {
      assert more[|rows|].response == Some(Accepted);
    }
  }
}
