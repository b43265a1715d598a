/**
 The Applied history of a machine is a chain.

 Complete never looks at the machine's baseline again.  That the history is a chain all the same
 follows from the scope index and from comparison 2 at commitment: while an operation holds the
 scope no other operation completes, so the baseline it was committed at is still current.
 */
module DispatchChain {
  import opened DispatchModel
  import opened DispatchInvariants
  import opened DispatchRuns
  import opened DispatchSafety

  /* ---- the history ---- */

  /** The operations completed on machine `m`, in timeline order. */
  function Completions(timeline: seq<Entry>, plans: map<Id, Plan>, m: Id): seq<Id> {
    if timeline == [] then []
    else
      var e := timeline[|timeline| - 1];
      var before := Completions(timeline[..|timeline| - 1], plans, m);
      if e.kind == Became(Completed) && e.op in plans && plans[e.op].machine == m then before + [e.op] else before
  }

  /** Applied after the operations in `done`, from the adopted digest `first`. */
  function AppliedAfter(plans: map<Id, Plan>, done: seq<Id>, first: Digest): Digest {
    if done == [] || done[|done| - 1] !in plans then first else plans[done[|done| - 1]].artifact
  }

  /** Link `k`: the plan was bound to the digest and the baseline the links before it left. */
  predicate Link(plans: map<Id, Plan>, done: seq<Id>, first: Digest, k: nat)
    requires k < |done|
  {
    && done[k] in plans
    && plans[done[k]].baselineRev == k + 1
    && plans[done[k]].pre == AppliedAfter(plans, done[..k], first)
  }

  predicate History(db: Db, m: Id, first: Digest) {
    && m in db.machines
    && var done := Completions(db.timeline, db.plans, m);
       && db.machines[m].baselineRev == |done| + 1
       && db.machines[m].applied == AppliedAfter(db.plans, done, first)
       && (forall k :: 0 <= k < |done| ==> Link(db.plans, done, first, k))
  }

  /** The operations in the history are the completed ones. */
  predicate DoneOk(ops: map<Id, Operation>, done: seq<Id>, m: Id) {
    && (forall k :: 0 <= k < |done| ==> done[k] in ops && ops[done[k]].state.Completed? && ops[done[k]].machine == m)
    && (forall o :: o in ops && ops[o].state.Completed? && ops[o].machine == m ==> o in done)
  }

  /** No completion is recorded for a plan that does not exist. */
  predicate Grounded(timeline: seq<Entry>, plans: map<Id, Plan>) {
    forall k :: 0 <= k < |timeline| && timeline[k].kind == Became(Completed) ==> timeline[k].op in plans
  }

  /* ---- the scope ---- */

  predicate Holds(db: Db, o: Id) {
    o in db.ops && Uncertain(db.ops[o].state)
  }

  /** One uncertain operation per machine, and its plan is bound to the current baseline. */
  ghost predicate Scoped(db: Db) {
    && (forall a, b :: Holds(db, a) && Holds(db, b) && db.ops[a].machine == db.ops[b].machine ==> a == b)
    && (forall a :: Holds(db, a) ==>
          && a in db.plans && db.plans[a].machine in db.machines
          && db.plans[a].baselineRev == db.machines[db.plans[a].machine].baselineRev)
  }

  ghost predicate ChainInv(db: Db, m: Id, first: Digest) {
    && Scoped(db) && Grounded(db.timeline, db.plans) && History(db, m, first)
    && DoneOk(db.ops, Completions(db.timeline, db.plans, m), m)
  }

  /* ---- steps that complete nothing ---- */

  lemma {:induction false} CompletionsSame(timeline: seq<Entry>, timeline': seq<Entry>, plans: map<Id, Plan>,
                                           plans': map<Id, Plan>, m: Id)
    requires timeline <= timeline' && Grounded(timeline, plans) && PlansGrow(plans, plans')
    requires forall k :: |timeline| <= k < |timeline'| ==> timeline'[k].kind != Became(Completed)
    ensures Completions(timeline', plans', m) == Completions(timeline, plans, m)
  {
    if timeline' != [] {
      var n := |timeline'| - 1;
      if |timeline| <= n {
        CompletionsSame(timeline, timeline'[..n], plans, plans', m);
      } else {
        assert timeline' == timeline;
        CompletionsSame(timeline[..n], timeline[..n], plans, plans', m);
      }
    }
  }

  lemma CompletionsIn(timeline: seq<Entry>, plans: map<Id, Plan>, m: Id)
    ensures forall k :: 0 <= k < |Completions(timeline, plans, m)| ==>
              Completions(timeline, plans, m)[k] in plans && plans[Completions(timeline, plans, m)[k]].machine == m
  {
  }

  /** A machine row as far as the history reads it. */
  predicate SameApplied(machines: map<Id, Machine>, machines': map<Id, Machine>) {
    && machines.Keys == machines'.Keys
    && (forall m :: m in machines ==>
          machines'[m].baselineRev == machines[m].baselineRev && machines'[m].applied == machines[m].applied)
  }

  predicate NoCompletion(db: Db, db': Db) {
    && SameApplied(db.machines, db'.machines)
    && (forall k :: |db.timeline| <= k < |db'.timeline| ==> db'.timeline[k].kind != Became(Completed))
    && (forall o :: o in db'.ops && db'.ops[o].state.Completed? ==> o in db.ops && db.ops[o].state.Completed?)
  }

  /** A commitment finds the scope free and its plan at the current baseline. */
  predicate MayHold(db: Db, o: Id) {
    && o in db.plans && db.plans[o].machine in db.machines && !ScopeHeld(db, db.plans[o].machine)
    && db.plans[o].baselineRev == db.machines[db.plans[o].machine].baselineRev
  }

  ghost predicate ScopeStep(db: Db, e: Event, db': Db) {
    forall o :: Holds(db', o) ==> Holds(db, o) || (e.Commit? && o == e.id && MayHold(db, o))
  }

  lemma LinksStay(plans: map<Id, Plan>, plans': map<Id, Plan>, done: seq<Id>, first: Digest)
    requires PlansGrow(plans, plans') && (forall k :: 0 <= k < |done| ==> Link(plans, done, first, k))
    ensures forall k :: 0 <= k < |done| ==> Link(plans', done, first, k)
    ensures AppliedAfter(plans', done, first) == AppliedAfter(plans, done, first)
  {
    forall k | 0 <= k < |done|
      ensures Link(plans', done, first, k)
    {
      assert Link(plans, done, first, k);
      if k > 0 {
        assert Link(plans, done, first, k - 1);
      }
    }
    if done != [] {
      assert Link(plans, done, first, |done| - 1);
    }
  }

  lemma HistoryStays(db: Db, db': Db, m: Id, first: Digest)
    requires Inv(db) && Grows(db, db') && NoCompletion(db, db')
    requires Grounded(db.timeline, db.plans) && History(db, m, first)
    requires DoneOk(db.ops, Completions(db.timeline, db.plans, m), m)
    ensures History(db', m, first) && DoneOk(db'.ops, Completions(db'.timeline, db'.plans, m), m)
  {
    CompletionsSame(db.timeline, db'.timeline, db.plans, db'.plans, m);
    var done := Completions(db.timeline, db.plans, m);
    CompletionsIn(db.timeline, db.plans, m);
    LinksStay(db.plans, db'.plans, done, first);
    DoneStays(db, db', done, m);
  }

  lemma DoneStays(db: Db, db': Db, done: seq<Id>, m: Id)
    requires Grows(db, db') && NoCompletion(db, db') && DoneOk(db.ops, done, m)
    ensures DoneOk(db'.ops, done, m)
  {
    forall k | 0 <= k < |done|
      ensures done[k] in db'.ops && db'.ops[done[k]] == db.ops[done[k]]
    {
      assert EntryGrows(db.ops[done[k]], Attempts(db, done[k]), db'.ops[done[k]], Attempts(db', done[k]));
    }
    forall o | o in db'.ops && db'.ops[o].state.Completed? && db'.ops[o].machine == m
      ensures o in done
    {
      assert EntryGrows(db.ops[o], Attempts(db, o), db'.ops[o], Attempts(db', o));
    }
  }

  lemma GroundedStays(timeline: seq<Entry>, timeline': seq<Entry>, plans: map<Id, Plan>, plans': map<Id, Plan>)
    requires Grounded(timeline, plans) && timeline <= timeline' && PlansGrow(plans, plans')
    requires forall k :: |timeline| <= k < |timeline'| ==> timeline'[k].kind != Became(Completed)
    ensures Grounded(timeline', plans')
  {
  }

  lemma ScopeStays(db: Db, e: Event, db': Db)
    requires Inv(db) && Inv(db') && Grows(db, db') && Scoped(db)
    requires SameApplied(db.machines, db'.machines) && ScopeStep(db, e, db')
    ensures Scoped(db')
  {
    forall a | Holds(db', a)
      ensures a in db'.plans && db'.plans[a].machine in db'.machines
              && db'.plans[a].baselineRev == db'.machines[db'.plans[a].machine].baselineRev
    {
      assert Holds(db, a) || MayHold(db, a);
    }
    forall a, b | Holds(db', a) && Holds(db', b) && db'.ops[a].machine == db'.ops[b].machine
      ensures a == b
    {
      OpAt(db', a);
      OpAt(db', b);
      if a != b {
        assert Holds(db, a) || Holds(db, b);
        SameMachine(db, db', a);
        SameMachine(db, db', b);
      }
    }
  }

  lemma SameMachine(db: Db, db': Db, a: Id)
    requires Inv(db) && Grows(db, db') && a in db.ops
    ensures a in db'.ops && db'.ops[a].machine == db.ops[a].machine == db.plans[a].machine
  {
    OpAt(db, a);
    assert EntryGrows(db.ops[a], Attempts(db, a), db'.ops[a], Attempts(db', a));
  }

  /* ---- which steps complete nothing ---- */

  /** Nothing is completed and no scope is taken. */
  ghost predicate Calm(db: Db, db': Db) {
    db.timeline <= db'.timeline && NoCompletion(db, db') && (forall o :: Holds(db', o) ==> Holds(db, o))
  }

  lemma CalmTwice(db0: Db, db1: Db, db2: Db)
    requires Calm(db0, db1) && Calm(db1, db2)
    ensures Calm(db0, db2)
  {
  }

  lemma MoveCalm(db: Db, id: Id, actor: Id, state: OpState)
    requires id in db.ops && !state.Completed? && (Uncertain(state) ==> Uncertain(db.ops[id].state))
    ensures Calm(db, Move(db, id, actor, state))
  {
    var db' := Move(db, id, actor, state);
    assert forall o :: o in db'.ops && o != id ==> db'.ops[o] == db.ops[o];
  }

  lemma StopCalm(db: Db, id: Id, owner: Id, gen: nat, comparison: int)
    ensures Calm(db, StopTx(db, id, owner, gen, comparison).0)
  {
    if id in db.ops && db.ops[id].owner == owner && db.ops[id].gen == gen {
      var db1 := if InFlight(db.ops[id].state) then Move(db, id, owner, Unresolved) else db;
      if InFlight(db.ops[id].state) {
        MoveCalm(db, id, owner, Unresolved);
      }
      if Attempts(db, id) == [] && comparison == 1 {
        MoveCalm(db1, id, owner, Cancelled);
        CalmTwice(db, db1, Move(db1, id, owner, Cancelled));
      }
    }
  }

  lemma ReplyCalm(db: Db, id: Id, n: int, owner: Id, gen: nat, reply: Class)
    ensures Calm(db, RecordResponseTx(db, id, n, owner, gen, reply).0)
  {
    var r := RecordResponseTx(db, id, n, owner, gen, reply);
    if r.1.Ok? {
      var db1 := Respond(db, id, Row(Attempts(db, id), n), owner, reply);
      assert db1.ops == db.ops;
      if r.0 != db1 {
        MoveCalm(db1, id, owner, AfterResponse(Attempts(db1, id), n, reply));
        CalmTwice(db, db1, r.0);
      }
    }
  }

  lemma CompleteCalm(db: Db, id: Id, owner: Id, gen: nat)
    requires CompleteTx(db, id, owner, gen).1 != Ok(Completed)
    ensures Calm(db, CompleteTx(db, id, owner, gen).0)
  {
    if CompleteTx(db, id, owner, gen).1.Ok? {
      MoveCalm(db, id, owner, Failed);
    }
  }

  /** Rewriting one row without completing it or taking the scope with it. */
  lemma ReplaceCalm(db: Db, db': Db, id: Id)
    requires id in db'.ops && (db'.ops == db.ops || db'.ops == db.ops[id := db'.ops[id]])
    requires !db'.ops[id].state.Completed? && (Uncertain(db'.ops[id].state) ==> Holds(db, id))
    requires db'.machines == db.machines && |db'.timeline| == |db.timeline| + 1
    requires db.timeline <= db'.timeline && db'.timeline[|db.timeline|].kind != Became(Completed)
    ensures Calm(db, db')
  {
    assert forall o :: o in db'.ops && o != id ==> o in db.ops && db'.ops[o] == db.ops[o];
  }

  lemma SendCalm(db: Db, id: Id, owner: Id, gen: nat, retryRev: nat)
    ensures Calm(db, AttemptTx(db, id, owner, gen, Protocol, retryRev).0)
  {
    var r := AttemptTx(db, id, owner, gen, Protocol, retryRev);
    if r.1.Ok? {
      ReplaceCalm(db, r.0, id);
    }
  }

  lemma TakeoverCalm(db: Db, id: Id, owner: Id)
    ensures Calm(db, TakeoverTx(db, id, owner).0)
  {
    var r := TakeoverTx(db, id, owner);
    if r.1.Ok? {
      ReplaceCalm(db, r.0, id);
    }
  }

  lemma CancelUncommittedCalm(db: Db, id: Id, actor: Id)
    ensures Calm(db, CancelUncommittedTx(db, id, actor).0)
  {
    var r := CancelUncommittedTx(db, id, actor);
    if r.1.Ok? {
      ReplaceCalm(db, r.0, id);
    }
  }

  lemma AccountCalm(db: Db, id: Id, n: int, actor: Id)
    ensures Calm(db, AccountTx(db, id, n, actor).0)
  {
    var r := AccountTx(db, id, n, actor);
    if r.1.Ok? {
      assert r.0.timeline == db.timeline + [Entry(db.nextRev, id, actor, Accounted)];
    }
    AppendCalm(db, r.0);
  }

  lemma MarkCalm(db: Db, id: Id, owner: Id, gen: nat)
    ensures Calm(db, MarkUnresolvedTx(db, id, owner, gen).0)
  {
    if id in db.ops && Uncertain(db.ops[id].state) {
      MoveCalm(db, id, owner, Unresolved);
    }
  }

  lemma CancelCalm(db: Db, id: Id, owner: Id, gen: nat)
    ensures Calm(db, CancelUnattemptedTx(db, id, owner, gen).0)
  {
    if id in db.ops {
      MoveCalm(db, id, owner, Cancelled);
    }
  }

  lemma OperationCalm(s: System, e: Event)
    requires InProtocol(e) && !Elsewhere(e) && !e.Commit?
    requires e.Complete? ==> CompleteTx(s.db, e.id, e.owner, e.gen).1 != Ok(Completed)
    ensures Calm(s.db, StepDb(s, e))
  {
    match e
    case Stop(id, owner, gen, comparison) => StopCalm(s.db, id, owner, gen, comparison);
    case Reply(id, n, owner, gen, reply) => ReplyCalm(s.db, id, n, owner, gen, reply);
    case Complete(id, owner, gen) => CompleteCalm(s.db, id, owner, gen);
    case Send(id, owner, gen, mode, retryRev) => SendCalm(s.db, id, owner, gen, retryRev);
    case Takeover(id, owner) => TakeoverCalm(s.db, id, owner);
    case CancelUncommitted(id, actor) => CancelUncommittedCalm(s.db, id, actor);
    case Account(id, n, actor) => AccountCalm(s.db, id, n, actor);
    case MarkUnresolved(id, owner, gen) => MarkCalm(s.db, id, owner, gen);
    case CancelUnattempted(id, owner, gen) => CancelCalm(s.db, id, owner, gen);
  }

  lemma AppendCalm(db: Db, db': Db)
    requires db'.ops == db.ops && db'.machines == db.machines && |db'.timeline| <= |db.timeline| + 1
    requires db.timeline <= db'.timeline
    requires |db'.timeline| > |db.timeline| ==> db'.timeline[|db.timeline|].kind != Became(Completed)
    ensures Calm(db, db')
  {
  }

  predicate Logs(e: Event) {
    e.Propose? || e.Classify? || e.Approve? || e.Revoke? || e.EndRead?
  }

  lemma PlanCalm(db: Db, id: Id, machine: Id, artifact: Digest, expires: int, maxAttempts: int, verify: int, maxAge: int, actor: Id)
    ensures Calm(db, PlanTx(db, id, machine, artifact, expires, maxAttempts, verify, maxAge, actor).0)
  {
    var r := PlanTx(db, id, machine, artifact, expires, maxAttempts, verify, maxAge, actor);
    if r.1.Ok? {
      assert r.0.ops == db.ops && r.0.machines == db.machines;
      assert r.0.timeline == db.timeline + [Entry(db.nextRev, id, actor, Planned)];
      AppendCalm(db, r.0);
    }
  }

  lemma ApprovalCalm(db: Db, id: Id, actor: Id)
    ensures Calm(db, ApproveTx(db, id, actor).0) && Calm(db, RevokeTx(db, id, actor).0)
  {
    AppendCalm(db, ApproveTx(db, id, actor).0);
    AppendCalm(db, RevokeTx(db, id, actor).0);
  }

  lemma ClassifyCalm(db: Db, id: Id, owner: Id, gen: nat)
    ensures Calm(db, ClassifyTx(db, id, owner, gen).0)
  {
    var r := ClassifyTx(db, id, owner, gen);
    if r.1.Ok? {
      assert r.0 == Append(db, id, owner, Classified);
      AppendCalm(db, r.0);
    }
  }

  lemma LogsCalm(s: System, e: Event)
    requires Logs(e)
    ensures Calm(s.db, StepDb(s, e))
  {
    match e
    case Propose(id, machine, artifact, expires, maxAttempts, verify, maxAge, actor) =>
      PlanCalm(s.db, id, machine, artifact, expires, maxAttempts, verify, maxAge, actor);
    case Classify(id, owner, gen) => ClassifyCalm(s.db, id, owner, gen);
    case Approve(id, actor) => ApprovalCalm(s.db, id, actor);
    case Revoke(id, actor) => ApprovalCalm(s.db, id, actor);
    case EndRead(read, machine, purpose, digest, actor) => AppendCalm(s.db, StepDb(s, e));
  }

  lemma ElsewhereCalm(s: System, e: Event)
    requires Elsewhere(e)
    ensures Calm(s.db, StepDb(s, e))
  {
    if Logs(e) {
      LogsCalm(s, e);
    } else {
      ElsewhereQuiet(s, e);
    }
  }

  lemma CommitScope(db: Db, id: Id, owner: Id)
    requires Inv(db) && db.scopeIndex
    ensures var db' := CommitTx(db, id, owner, Protocol).0;
            NoCompletion(db, db') && ScopeStep(db, Commit(id, owner, Protocol), db')
  {
    var db' := CommitTx(db, id, owner, Protocol).0;
    if db' != db {
      assert MayHold(db, id);
      assert forall o :: o in db'.ops && o != id ==> o in db.ops && db'.ops[o] == db.ops[o];
    }
  }

  lemma CalmStep(s: System, e: Event)
    requires Inv(s.db) && s.db.scopeIndex && InProtocol(e)
    requires e.Complete? ==> CompleteTx(s.db, e.id, e.owner, e.gen).1 != Ok(Completed)
    ensures NoCompletion(s.db, StepDb(s, e)) && ScopeStep(s.db, e, StepDb(s, e))
  {
    if Elsewhere(e) {
      ElsewhereCalm(s, e);
    } else if e.Commit? {
      CommitScope(s.db, e.id, e.owner);
    } else {
      OperationCalm(s, e);
    }
  }

  /* ---- the completing step ---- */

  predicate Finishes(db: Db, e: Event) {
    e.Complete? && CompleteTx(db, e.id, e.owner, e.gen).1 == Ok(Completed)
  }

  /** What a completion reads and writes: the plan is bound to the digest and the baseline the
      machine has, and the machine moves on to the plan's artifact at the next baseline. */
  lemma CompletionFits(db: Db, id: Id, owner: Id, gen: nat)
    requires Inv(db) && Scoped(db) && CompleteTx(db, id, owner, gen).1 == Ok(Completed)
    ensures Holds(db, id) && id in db.plans && db.plans[id].machine in db.machines
    ensures db.ops[id].machine == db.plans[id].machine
    ensures var p, m := db.plans[id], db.machines[db.plans[id].machine];
            var db' := CompleteTx(db, id, owner, gen).0;
            && m.baselineRev == p.baselineRev && m.applied == p.pre
            && db'.machines == db.machines[p.machine := m.(applied := p.artifact, baselineRev := m.baselineRev + 1)]
            && db'.ops == db.ops[id := db.ops[id].(state := Completed)]
            && db'.plans == db.plans
            && db'.timeline == db.timeline + [Entry(db.nextRev, id, owner, Became(Completed))]
  {
    OpAt(db, id);
    assert Holds(db, id);
    assert PlanOk(db.plans[id], db.machines);
  }

  lemma ScopeAfterCompletion(db: Db, id: Id, owner: Id, gen: nat)
    requires Inv(db) && Scoped(db) && CompleteTx(db, id, owner, gen).1 == Ok(Completed)
    ensures Scoped(CompleteTx(db, id, owner, gen).0)
  {
    CompletionFits(db, id, owner, gen);
    var db' := CompleteTx(db, id, owner, gen).0;
    forall a | Holds(db', a)
      ensures Holds(db, a) && a != id && db'.ops[a] == db.ops[a] && db.plans[a].machine != db.plans[id].machine
    {
      OpAt(db, a);
    }
  }

  lemma HistoryExtends(plans: map<Id, Plan>, done: seq<Id>, first: Digest, id: Id)
    requires id in plans && plans[id].baselineRev == |done| + 1
    requires plans[id].pre == AppliedAfter(plans, done, first)
    requires forall k :: 0 <= k < |done| ==> Link(plans, done, first, k)
    ensures forall k :: 0 <= k < |done + [id]| ==> Link(plans, done + [id], first, k)
    ensures AppliedAfter(plans, done + [id], first) == plans[id].artifact
  {
    var done' := done + [id];
    forall k | 0 <= k < |done'|
      ensures Link(plans, done', first, k)
    {
      assert done'[..k] == done[..k];
      if k < |done| {
        assert Link(plans, done, first, k);
      } else {
        assert done[..k] == done;
      }
    }
  }

  lemma CompletionsExtend(timeline: seq<Entry>, e: Entry, plans: map<Id, Plan>, m: Id)
    requires e.kind == Became(Completed) && e.op in plans
    ensures Completions(timeline + [e], plans, m)
            == Completions(timeline, plans, m) + (if plans[e.op].machine == m then [e.op] else [])
  {
    assert (timeline + [e])[..|timeline|] == timeline;
  }

  lemma CompletionHistory(db: Db, id: Id, owner: Id, gen: nat, m: Id, first: Digest)
    requires Inv(db) && ChainInv(db, m, first) && CompleteTx(db, id, owner, gen).1 == Ok(Completed)
    ensures History(CompleteTx(db, id, owner, gen).0, m, first)
  {
    CompletionFits(db, id, owner, gen);
    CompletionsExtend(db.timeline, Entry(db.nextRev, id, owner, Became(Completed)), db.plans, m);
    if db.plans[id].machine == m {
      HistoryExtends(db.plans, Completions(db.timeline, db.plans, m), first, id);
    }
  }

  lemma CompletionChain(db: Db, id: Id, owner: Id, gen: nat, m: Id, first: Digest)
    requires Inv(db) && ChainInv(db, m, first) && CompleteTx(db, id, owner, gen).1 == Ok(Completed)
    ensures ChainInv(CompleteTx(db, id, owner, gen).0, m, first)
  {
    CompletionHistory(db, id, owner, gen, m, first);
    ScopeAfterCompletion(db, id, owner, gen);
    CompletionDone(db, id, owner, gen, m);
  }

  lemma {:induction false} CompletionDone(db: Db, id: Id, owner: Id, gen: nat, m: Id)
    requires Inv(db) && Scoped(db) && CompleteTx(db, id, owner, gen).1 == Ok(Completed)
    requires Grounded(db.timeline, db.plans) && DoneOk(db.ops, Completions(db.timeline, db.plans, m), m)
    ensures var db' := CompleteTx(db, id, owner, gen).0;
            Grounded(db'.timeline, db'.plans) && DoneOk(db'.ops, Completions(db'.timeline, db'.plans, m), m)
  {
    CompletionFits(db, id, owner, gen);
    CompletionsExtend(db.timeline, Entry(db.nextRev, id, owner, Became(Completed)), db.plans, m);
    DoneAfter(db.ops, Completions(db.timeline, db.plans, m), m, id);
  }

  lemma DoneAfter(ops: map<Id, Operation>, done: seq<Id>, m: Id, id: Id)
    requires DoneOk(ops, done, m) && id in ops && Uncertain(ops[id].state)
    ensures DoneOk(ops[id := ops[id].(state := Completed)], done + (if ops[id].machine == m then [id] else []), m)
  {
    var done' := done + (if ops[id].machine == m then [id] else []);
    forall o | o in ops && ops[o].state.Completed? && ops[o].machine == m
      ensures o in done'
    {
      assert o in done;
    }
    if ops[id].machine == m {
      assert done'[|done|] == id;
    }
  }

  lemma ChainStep(s: System, e: Event, m: Id, first: Digest)
    requires Inv(s.db) && s.db.scopeIndex && InProtocol(e) && ChainInv(s.db, m, first)
    ensures ChainInv(Step(s, e).db, m, first)
  {
    var db, db' := s.db, StepDb(s, e);
    if Finishes(db, e) {
      CompletionChain(db, e.id, e.owner, e.gen, m, first);
    } else {
      StepKeeps(s, e);
      CalmStep(s, e);
      HistoryStays(db, db', m, first);
      GroundedStays(db.timeline, db'.timeline, db.plans, db'.plans);
      ScopeStays(db, e, db');
    }
  }

  /** The run starts with one machine, whose Applied digest was `applied`, under the scope index. */
  ghost predicate Scopes(run: Run, machine: Id, applied: Digest)
    requires IsRun(run)
  {
    exists now: int :: run.states[0] == Start(machine, applied, false, now)
  }

  lemma {:induction false} ChainAt(run: Run, i: nat, machine: Id, applied: Digest)
    requires ProtocolRun(run) && Scopes(run, machine, applied) && i <= |run.events|
    ensures run.states[i].db.scopeIndex && ChainInv(run.states[i].db, machine, applied)
  {
    if i == 0 {
      var now :| run.states[0] == Start(machine, applied, false, now);
      ChainStart(machine, applied, now);
    } else {
      ChainAt(run, i - 1, machine, applied);
      ChainNext(run, i - 1, machine, applied);
    }
  }

  lemma ChainNext(run: Run, k: nat, machine: Id, applied: Digest)
    requires ProtocolRun(run) && k < |run.events|
    requires run.states[k].db.scopeIndex && ChainInv(run.states[k].db, machine, applied)
    ensures run.states[k + 1].db.scopeIndex && ChainInv(run.states[k + 1].db, machine, applied)
  {
    RunInv(run, k);
    assert Next(run, k);
    ChainOnce(run.states[k], run.events[k], machine, applied);
  }

  lemma ChainStart(machine: Id, applied: Digest, now: int)
    ensures var db := Start(machine, applied, false, now).db; db.scopeIndex && ChainInv(db, machine, applied)
  {
  }

  lemma ChainOnce(s: System, e: Event, m: Id, first: Digest)
    requires Inv(s.db) && s.db.scopeIndex && InProtocol(e) && ChainInv(s.db, m, first)
    ensures Step(s, e).db.scopeIndex && ChainInv(Step(s, e).db, m, first)
  {
    StepKeeps(s, e);
    ChainStep(s, e, m, first);
  }

  /* ---- the theorems ---- */

  /** The completed operations of a machine, as a set. */
  ghost function CompletedOn(db: Db, m: Id): set<Id> {
    set o | o in db.ops && db.ops[o].machine == m && db.ops[o].state.Completed?
  }

  lemma {:induction false} DistinctCount(done: seq<Id>)
    requires forall j, k :: 0 <= j < k < |done| ==> done[j] != done[k]
    ensures |set k | 0 <= k < |done| :: done[k]| == |done|
  {
    if done != [] {
      var n := |done| - 1;
      DistinctCount(done[..n]);
      assert (set k | 0 <= k < |done| :: done[k]) == (set k | 0 <= k < n :: done[..n][k]) + {done[n]};
    }
  }

  /**
   With the scope index, at every point of every protocol run the Applied history of the machine
   is a chain.  The baseline is one plus the number of completed operations; the k-th completed
   operation's plan was bound to baseline k and to the digest that the (k-1)-th left, or the
   adopted digest for the first; and Applied is what the last one left.
   */
  lemma AppliedHistoryIsChain(run: Run, i: nat, machine: Id, applied: Digest)
    requires ProtocolRun(run) && Scopes(run, machine, applied) && i <= |run.events|
    ensures var db := run.states[i].db;
            var done := Completions(db.timeline, db.plans, machine);
            && History(db, machine, applied)
            && db.machines[machine].baselineRev == 1 + |CompletedOn(db, machine)|
            && (set k | 0 <= k < |done| :: done[k]) == CompletedOn(db, machine)
  {
    ChainAt(run, i, machine, applied);
    var db := run.states[i].db;
    var done := Completions(db.timeline, db.plans, machine);
    forall j, k | 0 <= j < k < |done|
      ensures done[j] != done[k]
    {
      assert Link(db.plans, done, applied, j) && Link(db.plans, done, applied, k);
    }
    DistinctCount(done);
    assert (set k | 0 <= k < |done| :: done[k]) == CompletedOn(db, machine);
  }

  /** Each completion moves Applied from its plan's bound pre-dispatch digest to its artifact. */
  lemma CompletionMovesApplied(run: Run, i: nat, machine: Id, applied: Digest)
    requires ProtocolRun(run) && Scopes(run, machine, applied) && i < |run.events|
    requires Finishes(run.states[i].db, run.events[i])
    ensures var db, db', id := run.states[i].db, run.states[i + 1].db, run.events[i].id;
            && id in db.plans && db.plans[id].machine in db.machines && db.plans[id].machine in db'.machines
            && var p := db.plans[id];
               && db.machines[p.machine].applied == p.pre
               && db'.machines[p.machine].applied == p.artifact
               && db.machines[p.machine].baselineRev == p.baselineRev
               && db'.machines[p.machine].baselineRev == p.baselineRev + 1
  {
    ChainAt(run, i, machine, applied);
    RunInv(run, i);
    assert Next(run, i);
    FinishMoves(run.states[i], run.events[i]);
  }

  lemma FinishMoves(s: System, e: Event)
    requires Inv(s.db) && Scoped(s.db) && Finishes(s.db, e)
    ensures var db, db', id := s.db, Step(s, e).db, e.id;
            && id in db.plans && db.plans[id].machine in db.machines && db.plans[id].machine in db'.machines
            && var p := db.plans[id];
               && db.machines[p.machine].applied == p.pre
               && db'.machines[p.machine].applied == p.artifact
               && db.machines[p.machine].baselineRev == p.baselineRev
               && db'.machines[p.machine].baselineRev == p.baselineRev + 1
  {
    CompletionFits(s.db, e.id, e.owner, e.gen);
  }
}
