/**
 What every transaction of the dispatch store keeps, with or without the scope index, as long as
 the attempt transaction compares owner, generation and state.

 Each conjunct is a predicate of the tables it reads, so a transaction that leaves those tables
 alone keeps it without further proof.
 */
module DispatchInvariants {
  import opened Wrappers
  import opened DispatchModel

  predicate Stamped(timeline: seq<Entry>, next: nat) {
    && next > 0
    && (forall k :: 0 <= k < |timeline| ==> 0 < timeline[k].rev < next)
    && (forall j, k :: 0 <= j < k < |timeline| ==> timeline[j].rev < timeline[k].rev)
  }

  predicate PlanOk(p: Plan, machines: map<Id, Machine>) {
    && p.machine in machines
    && p.baselineRev <= machines[p.machine].baselineRev
    && (p.baselineRev == machines[p.machine].baselineRev ==> p.pre == machines[p.machine].applied)
  }

  predicate PlansOk(plans: map<Id, Plan>, machines: map<Id, Machine>) {
    forall p :: p in plans ==> PlanOk(plans[p], machines)
  }

  predicate ApprovalsOk(approvals: map<Id, Approval>, plans: map<Id, Plan>, epoch: nat) {
    forall p :: p in approvals ==> p in plans && approvals[p].epoch <= epoch
  }

  /** One attempt row: numbered by its place, fenced by its owner's generation, stamped. */
  predicate RowOk(a: Attempt, k: int, o: Operation, next: nat) {
    && a.n == k + 1
    && a.gen <= o.gen
    && (a.gen == o.gen ==> a.owner == o.owner)
    && (a.response.None? <==> a.responseRev == 0)
    && a.responseRev < next && a.accountedRev < next
  }

  predicate RowsOk(rows: seq<Attempt>, o: Operation, maxAttempts: int, next: nat) {
    && (rows == [] || |rows| <= maxAttempts)
    && (forall k :: 0 <= k < |rows| ==> RowOk(rows[k], k, o, next))
    && (forall j, k :: 0 <= j < k < |rows| ==> rows[j].gen <= rows[k].gen)
  }

  predicate AllRejected(rows: seq<Attempt>) {
    forall k :: 0 <= k < |rows| ==> rows[k].response == Some(Refusing)
  }

  /** What a state says about the attempts. */
  predicate StateOk(state: OpState, rows: seq<Attempt>) {
    match state
    case Committed => rows == []
    case Cancelled => rows == []
    case Sending => rows != []
    case Verifying => rows != []
    case Completed => rows != [] && AllAccounted(rows)
    case Failed => rows != [] && AllAccounted(rows)
    case Rejected => rows != [] && AllRejected(rows)
    case Unresolved => true
  }

  predicate OpOk(o: Operation, rows: seq<Attempt>, p: Plan, next: nat) {
    o.machine == p.machine && RowsOk(rows, o, p.maxAttempts, next) && StateOk(o.state, rows)
  }

  predicate OpsOk(ops: map<Id, Operation>, attempts: map<Id, seq<Attempt>>, plans: map<Id, Plan>, next: nat) {
    && (forall o :: o in ops ==> o in plans && OpOk(ops[o], RowsOf(attempts, o), plans[o], next))
    && (forall o :: o in attempts ==> o in ops)
  }

  predicate Inv(db: Db) {
    && Stamped(db.timeline, db.nextRev)
    && PlansOk(db.plans, db.machines)
    && ApprovalsOk(db.approvals, db.plans, db.epoch)
    && OpsOk(db.ops, db.attempts, db.plans, db.nextRev)
  }

  /* ---- what a step never undoes ---- */

  predicate TimelineGrows(timeline: seq<Entry>, timeline': seq<Entry>, next: nat) {
    && timeline <= timeline'
    && (forall k :: |timeline| <= k < |timeline'| ==> timeline'[k].rev >= next)
  }

  predicate PlansGrow(plans: map<Id, Plan>, plans': map<Id, Plan>) {
    forall p :: p in plans ==> p in plans' && plans'[p] == plans[p]
  }

  predicate ApprovalsGrow(approvals: map<Id, Approval>, approvals': map<Id, Approval>) {
    forall p :: p in approvals ==>
      p in approvals' && approvals'[p].epoch == approvals[p].epoch
      && (approvals[p].revoked ==> approvals'[p].revoked)
  }

  predicate MachineGrows(m: Machine, m': Machine) {
    && m.assignmentRev <= m'.assignmentRev
    && m.baselineRev <= m'.baselineRev
    && (m.baselineRev == m'.baselineRev ==> m.applied == m'.applied)
  }

  predicate MachinesGrow(machines: map<Id, Machine>, machines': map<Id, Machine>) {
    && machines.Keys == machines'.Keys
    && (forall m :: m in machines ==> MachineGrows(machines[m], machines'[m]))
  }

  /** Ownership only moves to later generations, and a state outside the uncertain ones absorbs. */
  predicate OpGrows(o: Operation, o': Operation) {
    && o'.machine == o.machine
    && o.gen <= o'.gen
    && (o.gen == o'.gen ==> o.owner == o'.owner)
    && (!Uncertain(o.state) ==> o' == o)
    && (!o.state.Committed? ==> !o'.state.Committed?)
  }

  /** A stamp is set once, and a stamp set later is at or after `next`. */
  predicate StampGrows(rev: nat, rev': nat, next: nat) {
    rev' == rev || (rev == 0 && rev' >= next)
  }

  predicate RowGrows(a: Attempt, a': Attempt, next: nat) {
    && a'.n == a.n && a'.owner == a.owner && a'.gen == a.gen && a'.deadline == a.deadline
    && (a.response.Some? ==> a'.response == a.response)
    && StampGrows(a.responseRev, a'.responseRev, next)
    && StampGrows(a.accountedRev, a'.accountedRev, next)
  }

  predicate RowsGrow(rows: seq<Attempt>, rows': seq<Attempt>, next: nat) {
    && |rows| <= |rows'|
    && (forall k :: 0 <= k < |rows| ==> RowGrows(rows[k], rows'[k], next))
    && (forall k :: |rows| <= k < |rows'| ==>
          StampGrows(0, rows'[k].responseRev, next) && StampGrows(0, rows'[k].accountedRev, next))
  }

  predicate EntryGrows(o: Operation, rows: seq<Attempt>, o': Operation, rows': seq<Attempt>) {
    OpGrows(o, o') && (!Uncertain(o.state) ==> |rows| == |rows'|)
  }

  ghost predicate OpsGrow(ops: map<Id, Operation>, attempts: map<Id, seq<Attempt>>,
                          ops': map<Id, Operation>, attempts': map<Id, seq<Attempt>>, next: nat)
  {
    && (forall o :: o in ops ==>
          o in ops' && EntryGrows(ops[o], RowsOf(attempts, o), ops'[o], RowsOf(attempts', o)))
    && (forall o :: RowsGrow(RowsOf(attempts, o), RowsOf(attempts', o), next))
  }

  ghost predicate Grows(db: Db, db': Db) {
    && db'.scopeIndex == db.scopeIndex
    && db.epoch <= db'.epoch && db.now <= db'.now && db.nextRev <= db'.nextRev
    && db.observations <= db'.observations
    && TimelineGrows(db.timeline, db'.timeline, db.nextRev)
    && PlansGrow(db.plans, db'.plans)
    && ApprovalsGrow(db.approvals, db'.approvals)
    && MachinesGrow(db.machines, db'.machines)
    && OpsGrow(db.ops, db.attempts, db'.ops, db'.attempts, db.nextRev)
  }

  lemma RowsGrowTransitive(r0: seq<Attempt>, r1: seq<Attempt>, r2: seq<Attempt>, next0: nat, next1: nat)
    requires RowsGrow(r0, r1, next0) && RowsGrow(r1, r2, next1) && next0 <= next1
    ensures RowsGrow(r0, r2, next0)
  {
    forall k | 0 <= k < |r0|
      ensures RowGrows(r0[k], r2[k], next0)
    {
      assert RowGrows(r0[k], r1[k], next0) && RowGrows(r1[k], r2[k], next1);
    }
    forall k | |r0| <= k < |r2|
      ensures StampGrows(0, r2[k].responseRev, next0) && StampGrows(0, r2[k].accountedRev, next0)
    {
      if k < |r1| {
        assert RowGrows(r1[k], r2[k], next1);
      }
    }
  }

  lemma OpsGrowTransitive(db0: Db, db1: Db, db2: Db)
    requires OpsGrow(db0.ops, db0.attempts, db1.ops, db1.attempts, db0.nextRev)
    requires OpsGrow(db1.ops, db1.attempts, db2.ops, db2.attempts, db1.nextRev)
    requires db0.nextRev <= db1.nextRev
    ensures OpsGrow(db0.ops, db0.attempts, db2.ops, db2.attempts, db0.nextRev)
  {
    forall o | o in db0.ops
      ensures o in db2.ops && EntryGrows(db0.ops[o], Attempts(db0, o), db2.ops[o], Attempts(db2, o))
    {
      assert EntryGrows(db0.ops[o], Attempts(db0, o), db1.ops[o], Attempts(db1, o));
      assert EntryGrows(db1.ops[o], Attempts(db1, o), db2.ops[o], Attempts(db2, o));
    }
    forall o: Id
      ensures RowsGrow(RowsOf(db0.attempts, o), RowsOf(db2.attempts, o), db0.nextRev)
    {
      RowsGrowTransitive(RowsOf(db0.attempts, o), RowsOf(db1.attempts, o), RowsOf(db2.attempts, o),
                         db0.nextRev, db1.nextRev);
    }
  }

  lemma GrowsTransitive(db0: Db, db1: Db, db2: Db)
    requires Grows(db0, db1) && Grows(db1, db2)
    ensures Grows(db0, db2)
  {
    OpsGrowTransitive(db0, db1, db2);
    MachinesGrowTransitive(db0.machines, db1.machines, db2.machines);
  }

  lemma MachinesGrowTransitive(m0: map<Id, Machine>, m1: map<Id, Machine>, m2: map<Id, Machine>)
    requires MachinesGrow(m0, m1) && MachinesGrow(m1, m2)
    ensures MachinesGrow(m0, m2)
  {
    forall m | m in m0
      ensures MachineGrows(m0[m], m2[m])
    {
      assert MachineGrows(m0[m], m1[m]) && MachineGrows(m1[m], m2[m]);
    }
  }

  lemma OpsGrowReflexive(ops: map<Id, Operation>, attempts: map<Id, seq<Attempt>>, next: nat)
    ensures OpsGrow(ops, attempts, ops, attempts, next)
  {
  }

  /* ---- the tables, one change at a time ---- */

  lemma StampedAppend(timeline: seq<Entry>, next: nat, e: Entry)
    requires Stamped(timeline, next) && e.rev == next
    ensures Stamped(timeline + [e], next + 1)
  {
  }

  lemma StampedLater(timeline: seq<Entry>, next: nat)
    requires Stamped(timeline, next)
    ensures Stamped(timeline, next + 1)
  {
  }

  lemma OpLater(o: Operation, rows: seq<Attempt>, p: Plan, next: nat, next': nat)
    requires OpOk(o, rows, p, next) && next <= next'
    ensures OpOk(o, rows, p, next')
  {
  }

  lemma OpsLater(ops: map<Id, Operation>, attempts: map<Id, seq<Attempt>>, plans: map<Id, Plan>, next: nat)
    requires OpsOk(ops, attempts, plans, next)
    ensures OpsOk(ops, attempts, plans, next + 1)
  {
    forall o | o in ops
      ensures OpOk(ops[o], RowsOf(attempts, o), plans[o], next + 1)
    {
      OpLater(ops[o], RowsOf(attempts, o), plans[o], next, next + 1);
    }
  }

  /** One operation row or its attempts replaced, or both, or a row inserted. */
  lemma OpsReplace(ops: map<Id, Operation>, attempts: map<Id, seq<Attempt>>, plans: map<Id, Plan>, next: nat,
                   id: Id, ops': map<Id, Operation>, attempts': map<Id, seq<Attempt>>)
    requires OpsOk(ops, attempts, plans, next)
    requires id in plans && id in ops' && OpOk(ops'[id], RowsOf(attempts', id), plans[id], next + 1)
    requires ops' == ops || ops' == ops[id := ops'[id]]
    requires attempts' == attempts || attempts' == attempts[id := RowsOf(attempts', id)]
    ensures OpsOk(ops', attempts', plans, next + 1)
  {
    forall q | q in ops'
      ensures q in plans && OpOk(ops'[q], RowsOf(attempts', q), plans[q], next + 1)
    {
      if q != id {
        OpLater(ops[q], RowsOf(attempts, q), plans[q], next, next + 1);
      }
    }
  }

  lemma OpsMorePlans(ops: map<Id, Operation>, attempts: map<Id, seq<Attempt>>, plans: map<Id, Plan>, next: nat,
                     id: Id, p: Plan)
    requires OpsOk(ops, attempts, plans, next) && id !in plans
    ensures OpsOk(ops, attempts, plans[id := p], next)
  {
  }

  lemma OpAt(db: Db, id: Id)
    requires Inv(db) && id in db.ops
    ensures id in db.plans && OpOk(db.ops[id], Attempts(db, id), db.plans[id], db.nextRev)
  {
  }

  /* ---- the shapes a transaction has ---- */

  /** What a transaction owes: the invariant again, and nothing undone. */
  ghost predicate Keeps(db: Db, db': Db) {
    Inv(db') && Grows(db, db')
  }

  predicate SameBindings(db: Db, db': Db) {
    && db'.plans == db.plans && db'.machines == db.machines && db'.approvals == db.approvals
    && db'.epoch == db.epoch && db'.now == db.now && db'.scopeIndex == db.scopeIndex
  }

  predicate Appends(db: Db, db': Db, e: Entry) {
    e.rev == db.nextRev && db'.timeline == db.timeline + [e] && db'.nextRev == db.nextRev + 1
  }

  /** A transaction that only appends to the timeline and to the observations. */
  lemma QuietKeeps(db: Db, db': Db, e: Entry)
    requires Inv(db) && Appends(db, db', e) && SameBindings(db, db')
    requires db'.ops == db.ops && db'.attempts == db.attempts && db.observations <= db'.observations
    ensures Keeps(db, db')
  {
    StampedAppend(db.timeline, db.nextRev, e);
    OpsLater(db.ops, db.attempts, db.plans, db.nextRev);
    OpsGrowReflexive(db.ops, db.attempts, db.nextRev);
  }

  /** A transaction that replaces one operation row or its attempts. */
  lemma ReplaceKeeps(db: Db, db': Db, id: Id, e: Entry)
    requires Inv(db) && Appends(db, db', e) && SameBindings(db, db') && db'.observations == db.observations
    requires id in db.plans && id in db'.ops && OpOk(db'.ops[id], Attempts(db', id), db.plans[id], db.nextRev + 1)
    requires db'.ops == db.ops || db'.ops == db.ops[id := db'.ops[id]]
    requires db'.attempts == db.attempts || db'.attempts == db.attempts[id := Attempts(db', id)]
    requires id in db.ops ==> EntryGrows(db.ops[id], Attempts(db, id), db'.ops[id], Attempts(db', id))
    requires RowsGrow(Attempts(db, id), Attempts(db', id), db.nextRev)
    ensures Keeps(db, db')
  {
    StampedAppend(db.timeline, db.nextRev, e);
    OpsReplace(db.ops, db.attempts, db.plans, db.nextRev, id, db'.ops, db'.attempts);
    OpsGrowReplace(db.ops, db.attempts, db.nextRev, id, db'.ops, db'.attempts);
  }

  lemma OpsGrowReplace(ops: map<Id, Operation>, attempts: map<Id, seq<Attempt>>, next: nat,
                       id: Id, ops': map<Id, Operation>, attempts': map<Id, seq<Attempt>>)
    requires id in ops' && (ops' == ops || ops' == ops[id := ops'[id]])
    requires attempts' == attempts || attempts' == attempts[id := RowsOf(attempts', id)]
    requires id in ops ==> EntryGrows(ops[id], RowsOf(attempts, id), ops'[id], RowsOf(attempts', id))
    requires RowsGrow(RowsOf(attempts, id), RowsOf(attempts', id), next)
    ensures OpsGrow(ops, attempts, ops', attempts', next)
  {
  }

  lemma Twice(db0: Db, db1: Db, db2: Db)
    requires Keeps(db0, db1) && Keeps(db1, db2)
    ensures Keeps(db0, db2)
  {
    GrowsTransitive(db0, db1, db2);
  }

  lemma Same(db: Db)
    requires Inv(db)
    ensures Keeps(db, db)
  {
    OpsGrowReflexive(db.ops, db.attempts, db.nextRev);
  }

  lemma MoveKeeps(db: Db, id: Id, actor: Id, state: OpState)
    requires Inv(db) && id in db.ops && StateOk(state, Attempts(db, id))
    requires Uncertain(db.ops[id].state) || state == db.ops[id].state
    requires !state.Committed?
    ensures Keeps(db, Move(db, id, actor, state))
  {
    OpAt(db, id);
    SameRows(db.ops[id], db.ops[id].(state := state), Attempts(db, id), db.plans[id], db.nextRev);
    ReplaceKeeps(db, Move(db, id, actor, state), id, Entry(db.nextRev, id, actor, Became(state)));
  }

  /** A change of state alone leaves the attempt rows in order. */
  lemma SameRows(o: Operation, o': Operation, rows: seq<Attempt>, p: Plan, next: nat)
    requires OpOk(o, rows, p, next) && o' == o.(state := o'.state) && StateOk(o'.state, rows)
    ensures OpOk(o', rows, p, next + 1)
  {
    forall k | 0 <= k < |rows|
      ensures RowOk(rows[k], k, o', next + 1)
    {
      assert RowOk(rows[k], k, o, next);
    }
  }

  /** Rewriting the attempts of an operation, its row unchanged. */
  lemma RewriteKeeps(db: Db, id: Id, rows: seq<Attempt>, actor: Id, kind: Kind)
    requires Inv(db) && id in db.ops && OpOk(db.ops[id], rows, db.plans[id], db.nextRev + 1)
    requires RowsGrow(Attempts(db, id), rows, db.nextRev) && |rows| == |Attempts(db, id)|
    ensures Keeps(db, Append(db.(attempts := db.attempts[id := rows]), id, actor, kind))
  {
    ReplaceKeeps(db, Append(db.(attempts := db.attempts[id := rows]), id, actor, kind), id,
                 Entry(db.nextRev, id, actor, kind));
  }

  lemma BurnKeeps(db: Db)
    requires Inv(db)
    ensures Keeps(db, Burn(db))
  {
    StampedLater(db.timeline, db.nextRev);
    OpsLater(db.ops, db.attempts, db.plans, db.nextRev);
    OpsGrowReflexive(db.ops, db.attempts, db.nextRev);
  }

  /* ---- the transactions ---- */

  lemma PlanKeeps(db: Db, id: Id, machine: Id, artifact: Digest, expires: int, maxAttempts: int,
                  verify: int, maxAge: int, actor: Id)
    requires Inv(db)
    ensures Keeps(db, PlanTx(db, id, machine, artifact, expires, maxAttempts, verify, maxAge, actor).0)
  {
    var db' := PlanTx(db, id, machine, artifact, expires, maxAttempts, verify, maxAge, actor).0;
    if machine !in db.machines {
      QuietKeeps(db, db', Entry(db.nextRev, id, actor, Planned));
    } else if id !in db.plans {
      InsertPlanKeeps(db, id, db'.plans[id], actor);
    } else {
      Same(db);
    }
  }

  lemma InsertPlanKeeps(db: Db, id: Id, p: Plan, actor: Id)
    requires Inv(db) && id !in db.plans && PlanOk(p, db.machines)
    ensures Keeps(db, InsertPlan(db, id, p, actor))
  {
    StampedAppend(db.timeline, db.nextRev, Entry(db.nextRev, id, actor, Planned));
    OpsMorePlans(db.ops, db.attempts, db.plans, db.nextRev, id, p);
    OpsLater(db.ops, db.attempts, db.plans[id := p], db.nextRev);
    BindingsMorePlans(db.plans, db.machines, db.approvals, db.epoch, id, p);
    OpsGrowReflexive(db.ops, db.attempts, db.nextRev);
  }

  lemma BindingsMorePlans(plans: map<Id, Plan>, machines: map<Id, Machine>, approvals: map<Id, Approval>,
                          epoch: nat, id: Id, p: Plan)
    requires PlansOk(plans, machines) && ApprovalsOk(approvals, plans, epoch)
    requires id !in plans && PlanOk(p, machines)
    ensures PlansOk(plans[id := p], machines) && ApprovalsOk(approvals, plans[id := p], epoch)
  {
  }

  lemma ApprovalsReplace(approvals: map<Id, Approval>, plans: map<Id, Plan>, epoch: nat, id: Id, a: Approval)
    requires ApprovalsOk(approvals, plans, epoch) && id in plans && a.epoch <= epoch
    requires id in approvals ==> a.epoch == approvals[id].epoch && (approvals[id].revoked ==> a.revoked)
    ensures ApprovalsOk(approvals[id := a], plans, epoch) && ApprovalsGrow(approvals, approvals[id := a])
  {
  }

  lemma ApprovalKeeps(db: Db, id: Id, a: Approval, actor: Id, kind: Kind)
    requires Inv(db) && id in db.plans && a.epoch <= db.epoch
    requires id in db.approvals ==>
      a.epoch == db.approvals[id].epoch && (db.approvals[id].revoked ==> a.revoked)
    ensures Keeps(db, Append(db.(approvals := db.approvals[id := a]), id, actor, kind))
  {
    ApprovalsReplace(db.approvals, db.plans, db.epoch, id, a);
    OpsLater(db.ops, db.attempts, db.plans, db.nextRev);
    StampedAppend(db.timeline, db.nextRev, Entry(db.nextRev, id, actor, kind));
    OpsGrowReflexive(db.ops, db.attempts, db.nextRev);
  }

  lemma ApproveKeeps(db: Db, id: Id, actor: Id)
    requires Inv(db)
    ensures Keeps(db, ApproveTx(db, id, actor).0)
  {
    if ApproveTx(db, id, actor).1.Ok? {
      ApprovalKeeps(db, id, Approval(db.epoch, false), actor, Approved);
    } else {
      Same(db);
    }
  }

  lemma RevokeKeeps(db: Db, id: Id, actor: Id)
    requires Inv(db)
    ensures Keeps(db, RevokeTx(db, id, actor).0)
  {
    if RevokeTx(db, id, actor).1.Ok? {
      ApprovalKeeps(db, id, db.approvals[id].(revoked := true), actor, Revoked);
    } else {
      Same(db);
    }
  }

  lemma CommitKeeps(db: Db, id: Id, owner: Id, mode: Mode)
    requires Inv(db)
    ensures Keeps(db, CommitTx(db, id, owner, mode).0)
  {
    if CommitTx(db, id, owner, mode).0 == db {
      Same(db);
    } else {
      InsertKeeps(db, id, Operation(db.plans[id].machine, Committed, owner, 1), owner);
    }
  }

  lemma CancelUncommittedKeeps(db: Db, id: Id, actor: Id)
    requires Inv(db)
    ensures Keeps(db, CancelUncommittedTx(db, id, actor).0)
  {
    if CancelUncommittedTx(db, id, actor).0 == db {
      Same(db);
    } else {
      InsertKeeps(db, id, Operation(db.plans[id].machine, Cancelled, actor, 0), actor);
    }
  }

  lemma InsertKeeps(db: Db, id: Id, o: Operation, actor: Id)
    requires Inv(db) && id in db.plans && id !in db.ops
    requires o.machine == db.plans[id].machine && (o.state.Committed? || o.state.Cancelled?)
    ensures Keeps(db, Append(db.(ops := db.ops[id := o]), id, actor, Became(o.state)))
  {
    ReplaceKeeps(db, Append(db.(ops := db.ops[id := o]), id, actor, Became(o.state)), id,
                 Entry(db.nextRev, id, actor, Became(o.state)));
  }

  lemma RecordKeeps(db: Db, id: Id, owner: Id, gen: nat)
    requires Inv(db) && id in db.ops && id in db.plans
    requires db.ops[id].owner == owner && db.ops[id].gen == gen && Uncertain(db.ops[id].state)
    requires |Attempts(db, id)| < db.plans[id].maxAttempts
    ensures Keeps(db, Record(db, id, owner, gen))
  {
    OpAt(db, id);
    OneMore(db.ops[id], Attempts(db, id), db.plans[id], db.nextRev, NewAttempt(db, id, owner, gen));
    ReplaceKeeps(db, Record(db, id, owner, gen), id, Entry(db.nextRev, id, owner, Attempted));
  }

  lemma OneMore(o: Operation, rows: seq<Attempt>, p: Plan, next: nat, a: Attempt)
    requires OpOk(o, rows, p, next) && next > 0 && |rows| < p.maxAttempts
    requires a.n == |rows| + 1 && a.owner == o.owner && a.gen == o.gen
    requires a.response.None? && a.responseRev == 0 && a.accountedRev == 0
    ensures OpOk(o.(state := Sending), rows + [a], p, next + 1)
    ensures RowsGrow(rows, rows + [a], next)
  {
    var rows' := rows + [a];
    forall k | 0 <= k < |rows'|
      ensures RowOk(rows'[k], k, o.(state := Sending), next + 1)
    {
      if k < |rows| {
        assert RowOk(rows[k], k, o, next);
      }
    }
    forall j, k | 0 <= j < k < |rows'|
      ensures rows'[j].gen <= rows'[k].gen
    {
      assert RowOk(rows[j], j, o, next);
    }
  }

  lemma AttemptKeeps(db: Db, id: Id, owner: Id, gen: nat, mode: Mode, retryRev: nat)
    requires Inv(db) && mode != NoFence
    ensures Keeps(db, AttemptTx(db, id, owner, gen, mode, retryRev).0)
  {
    if AttemptTx(db, id, owner, gen, mode, retryRev).0 == db {
      Same(db);
    } else {
      RecordKeeps(db, id, owner, gen);
    }
  }

  /** The stop can write `Cancelled` over any state.  It finds no attempt, so the state it writes
      over is uncertain or `Cancelled` already. */
  lemma StopKeeps(db: Db, id: Id, owner: Id, gen: nat, comparison: int)
    requires Inv(db)
    ensures Keeps(db, StopTx(db, id, owner, gen, comparison).0)
  {
    Same(db);
    if id in db.ops && db.ops[id].owner == owner && db.ops[id].gen == gen {
      OpAt(db, id);
      var db1 := if InFlight(db.ops[id].state) then Move(db, id, owner, Unresolved) else db;
      if InFlight(db.ops[id].state) {
        MoveKeeps(db, id, owner, Unresolved);
      }
      if Attempts(db, id) == [] && comparison == 1 {
        MoveKeeps(db1, id, owner, Cancelled);
        Twice(db, db1, Move(db1, id, owner, Cancelled));
      }
    }
  }

  /** Filling in one attempt's response or accounting keeps rows and state. */
  lemma FillKeeps(o: Operation, rows: seq<Attempt>, p: Plan, next: nat, i: nat, a: Attempt)
    requires OpOk(o, rows, p, next) && next > 0 && i < |rows|
    requires a == rows[i].(response := a.response, responseRev := a.responseRev, accountedRev := a.accountedRev)
    requires a.response == rows[i].response || (rows[i].response.None? && a.responseRev == next)
    requires a.response == rows[i].response ==> a.responseRev == rows[i].responseRev
    requires a.accountedRev == rows[i].accountedRev || (rows[i].accountedRev == 0 && a.accountedRev == next)
    ensures OpOk(o, rows[i := a], p, next + 1)
    ensures RowsGrow(rows, rows[i := a], next)
  {
    var rows' := rows[i := a];
    forall k | 0 <= k < |rows'|
      ensures RowOk(rows'[k], k, o, next + 1) && RowGrows(rows[k], rows'[k], next)
    {
      assert RowOk(rows[k], k, o, next);
    }
    assert AllRejected(rows) ==> AllRejected(rows');
    assert AllAccounted(rows) ==> AllAccounted(rows');
  }

  lemma ResponseKeeps(db: Db, id: Id, n: int, owner: Id, gen: nat, reply: Class)
    requires Inv(db)
    ensures Keeps(db, RecordResponseTx(db, id, n, owner, gen, reply).0)
  {
    var r := RecordResponseTx(db, id, n, owner, gen, reply);
    if id !in db.ops {
      Same(db);
    } else if r.0 == Burn(db) {
      BurnKeeps(db);
    } else {
      AnswerKeeps(db, id, Row(Attempts(db, id), n), owner, reply);
    }
  }

  /** The response, and the response with the state that follows from it. */
  lemma AnswerKeeps(db: Db, id: Id, i: nat, owner: Id, reply: Class)
    requires Inv(db) && id in db.ops && i < |Attempts(db, id)| && Attempts(db, id)[i].response.None?
    ensures var db1 := Respond(db, id, i, owner, reply);
            && Keeps(db, db1)
            && (db.ops[id].state.Sending? ==>
                  Keeps(db, Move(db1, id, owner, AfterResponse(Attempts(db1, id), Attempts(db, id)[i].n, reply))))
  {
    RespondKeeps(db, id, i, owner, reply);
    RespondState(db, id, i, owner, reply);
    var db1 := Respond(db, id, i, owner, reply);
    var state := AfterResponse(Attempts(db1, id), Attempts(db, id)[i].n, reply);
    if db.ops[id].state.Sending? {
      MoveKeeps(db1, id, owner, state);
      Twice(db, db1, Move(db1, id, owner, state));
    }
  }

  lemma RespondKeeps(db: Db, id: Id, i: nat, actor: Id, reply: Class)
    requires Inv(db) && id in db.ops && i < |Attempts(db, id)| && Attempts(db, id)[i].response.None?
    ensures Keeps(db, Respond(db, id, i, actor, reply))
  {
    OpAt(db, id);
    var rows, rows' := Attempts(db, id), Attempts(Respond(db, id, i, actor, reply), id);
    FillKeeps(db.ops[id], rows, db.plans[id], db.nextRev, i, rows'[i]);
    RewriteKeeps(db, id, rows', actor, Responded);
  }

  lemma RespondState(db: Db, id: Id, i: nat, actor: Id, reply: Class)
    requires Inv(db) && id in db.ops && i < |Attempts(db, id)|
    ensures var rows' := Attempts(Respond(db, id, i, actor, reply), id);
            StateOk(AfterResponse(rows', Attempts(db, id)[i].n, reply), rows')
  {
    OpAt(db, id);
    var rows, rows' := Attempts(db, id), Attempts(Respond(db, id, i, actor, reply), id);
    forall k | 0 <= k < |rows| ensures rows'[k].n == k + 1 {
      assert RowOk(rows[k], k, db.ops[id], db.nextRev);
    }
    RejectedByAll(rows', i, reply);
  }

  lemma RejectedByAll(rows: seq<Attempt>, i: nat, reply: Class)
    requires i < |rows| && rows[i].response == Some(reply)
    requires forall k :: 0 <= k < |rows| ==> rows[k].n == k + 1
    ensures StateOk(AfterResponse(rows, i + 1, reply), rows)
  {
  }

  lemma AccountKeeps(db: Db, id: Id, n: int, actor: Id)
    requires Inv(db)
    ensures Keeps(db, AccountTx(db, id, n, actor).0)
  {
    if id !in db.ops {
      Same(db);
    } else {
      OpAt(db, id);
      var rows := Attempts(db, id);
      var i := Row(rows, n);
      if i < 0 || rows[i].accountedRev != 0 {
        BurnKeeps(db);
      } else {
        var rows' := rows[i := rows[i].(accountedRev := db.nextRev)];
        FillKeeps(db.ops[id], rows, db.plans[id], db.nextRev, i, rows'[i]);
        RewriteKeeps(db, id, rows', actor, Accounted);
      }
    }
  }

  lemma TakeoverKeeps(db: Db, id: Id, owner: Id)
    requires Inv(db)
    ensures Keeps(db, TakeoverTx(db, id, owner).0)
  {
    if id in db.ops && Uncertain(db.ops[id].state) {
      OpAt(db, id);
      NextGeneration(db.ops[id], Attempts(db, id), db.plans[id], db.nextRev, owner);
      ReplaceKeeps(db, TakeoverTx(db, id, owner).0, id, Entry(db.nextRev, id, owner, Owned));
    } else {
      Same(db);
    }
  }

  lemma NextGeneration(o: Operation, rows: seq<Attempt>, p: Plan, next: nat, owner: Id)
    requires OpOk(o, rows, p, next)
    ensures OpOk(o.(owner := owner, gen := o.gen + 1, state := Unresolved), rows, p, next + 1)
  {
    forall k | 0 <= k < |rows|
      ensures RowOk(rows[k], k, o.(owner := owner, gen := o.gen + 1, state := Unresolved), next + 1)
    {
      assert RowOk(rows[k], k, o, next);
    }
  }

  lemma ObserveKeeps(db: Db, op: Id, machine: Id, purpose: Purpose, digest: Option<Digest>,
                     basis: nat, began: int, actor: Id)
    requires Inv(db)
    ensures Keeps(db, ObserveTx(db, op, machine, purpose, digest, basis, began, actor).0)
  {
    QuietKeeps(db, ObserveTx(db, op, machine, purpose, digest, basis, began, actor).0,
               Entry(db.nextRev, op, actor, Observed));
  }

  /** One machine row moved forward. */
  lemma MachinesReplace(plans: map<Id, Plan>, machines: map<Id, Machine>, id: Id, m: Machine)
    requires PlansOk(plans, machines) && id in machines && MachineGrows(machines[id], m)
    ensures PlansOk(plans, machines[id := m]) && MachinesGrow(machines, machines[id := m])
  {
    forall q | q in plans
      ensures PlanOk(plans[q], machines[id := m])
    {
      assert PlanOk(plans[q], machines);
    }
  }

  lemma MachineKeeps(db: Db, id: Id, m: Machine)
    requires Inv(db) && id in db.machines && MachineGrows(db.machines[id], m)
    ensures Keeps(db, db.(machines := db.machines[id := m]))
  {
    MachinesReplace(db.plans, db.machines, id, m);
    OpsGrowReflexive(db.ops, db.attempts, db.nextRev);
  }

  lemma ApplyKeeps(db: Db, p: Plan)
    requires Inv(db)
    ensures Keeps(db, Apply(db, p))
  {
    if p.machine in db.machines {
      MachineKeeps(db, p.machine, Apply(db, p).machines[p.machine]);
    } else {
      Same(db);
    }
  }

  lemma CompleteKeeps(db: Db, id: Id, owner: Id, gen: nat)
    requires Inv(db)
    ensures Keeps(db, CompleteTx(db, id, owner, gen).0)
  {
    var r := CompleteTx(db, id, owner, gen);
    if !r.1.Ok? {
      Same(db);
    } else if r.1.value.Failed? {
      MoveKeeps(db, id, owner, Failed);
    } else {
      ApplyKeeps(db, db.plans[id]);
      MoveKeeps(Apply(db, db.plans[id]), id, owner, Completed);
      Twice(db, Apply(db, db.plans[id]), r.0);
    }
  }

  lemma ClassifyKeeps(db: Db, id: Id, owner: Id, gen: nat)
    requires Inv(db)
    ensures Keeps(db, ClassifyTx(db, id, owner, gen).0)
  {
    var db' := ClassifyTx(db, id, owner, gen).0;
    if db' == db {
      Same(db);
    } else {
      QuietKeeps(db, db', Entry(db.nextRev, id, owner, Classified));
    }
  }

  lemma MarkUnresolvedKeeps(db: Db, id: Id, owner: Id, gen: nat)
    requires Inv(db)
    ensures Keeps(db, MarkUnresolvedTx(db, id, owner, gen).0)
  {
    if MarkUnresolvedTx(db, id, owner, gen).0 == db {
      Same(db);
    } else {
      MoveKeeps(db, id, owner, Unresolved);
    }
  }

  lemma CancelUnattemptedKeeps(db: Db, id: Id, owner: Id, gen: nat)
    requires Inv(db)
    ensures Keeps(db, CancelUnattemptedTx(db, id, owner, gen).0)
  {
    if CancelUnattemptedTx(db, id, owner, gen).0 == db {
      Same(db);
    } else {
      MoveKeeps(db, id, owner, Cancelled);
    }
  }
}
