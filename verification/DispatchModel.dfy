/**
 The rows and the transactions of the dispatch-safety store.

 One `Db` value is the committed content of the database, and one function here is one
 transaction: it gives the rows after COMMIT (or after ROLLBACK) and the outcome the caller sees.
 Locks make every transaction one atomic step, and a timeline revision is allocated and committed
 in the same step.  A transaction that fails after it took a revision rolls its rows back but not
 the sequence, so it leaves a gap in the revisions.
 */
module DispatchModel {
  import opened Wrappers

  /** Plans, operations, machines and actors are named by text; digests are hexadecimal text. */
  datatype Id = Id(text: string)
  datatype Digest = Digest(hex: string)

  datatype OpState =
    Committed | Sending | Verifying | Completed | Rejected | Failed | Cancelled | Unresolved

  /** The states that hold the machine scope. */
  predicate Uncertain(s: OpState) {
    s.Committed? || s.Sending? || s.Verifying? || s.Unresolved?
  }

  predicate InFlight(s: OpState) {
    s.Committed? || s.Sending? || s.Verifying?
  }

  datatype Purpose = Evidence | Recovery | Completion

  datatype Mode = Protocol | Naive | NoFence

  datatype Class = Accepted | Refusing | Unknown

  datatype Kind =
    | Planned | Approved | Revoked | Attempted | Responded | Accounted | Owned | Observed | Classified
    | Became(state: OpState)

  datatype Entry = Entry(rev: nat, op: Id, actor: Id, kind: Kind)

  datatype Machine = Machine(assignmentRev: nat, baselineRev: nat, applied: Digest, frozen: bool)

  datatype Plan = Plan(
    machine: Id, artifact: Digest, pre: Digest, assignmentRev: nat, baselineRev: nat,
    expires: int, maxAttempts: int, verify: int, maxAge: int)

  datatype Approval = Approval(epoch: nat, revoked: bool)

  datatype Operation = Operation(machine: Id, state: OpState, owner: Id, gen: nat)

  /** A revision of 0 stands for SQL's NULL: the sequence starts at 1. */
  datatype Attempt = Attempt(
    n: int, owner: Id, gen: nat, deadline: int,
    response: Option<Class>, responseRev: nat, accountedRev: nat)

  datatype Observation = Observation(
    op: Id, machine: Id, purpose: Purpose, digest: Option<Digest>, basis: nat, began: int)

  datatype Db = Db(
    scopeIndex: bool, epoch: nat, recovery: bool, now: int,
    machines: map<Id, Machine>, plans: map<Id, Plan>, approvals: map<Id, Approval>,
    ops: map<Id, Operation>, attempts: map<Id, seq<Attempt>>,
    observations: seq<Observation>, timeline: seq<Entry>, nextRev: nat)

  /** What a caller learns: the value, a refusal by a numbered comparison, or a database error. */
  datatype Outcome<+T> = Ok(value: T) | Refused(comparison: int) | Error

  datatype Check = Pass | Refuse(comparison: int) | Fault

  const EXISTS := 0
  const OWNER := 7
  const RETRY := 8
  const ATTEMPTS := 9
  const COMPLETE := 10

  /** The database after set-up: one machine whose Applied digest was observed by the caller. */
  function Setup(machine: Id, applied: Digest, noScope: bool, now: int): Db {
    Db(!noScope, 1, false, now, map[machine := Machine(1, 1, applied, false)],
       map[], map[], map[], map[], [], [], 1)
  }

  function RowsOf(attempts: map<Id, seq<Attempt>>, op: Id): seq<Attempt> {
    if op in attempts then attempts[op] else []
  }

  function Attempts(db: Db, op: Id): seq<Attempt> {
    RowsOf(db.attempts, op)
  }

  /** A timeline insert. */
  function Append(db: Db, op: Id, actor: Id, kind: Kind): Db {
    db.(timeline := db.timeline + [Entry(db.nextRev, op, actor, kind)], nextRev := db.nextRev + 1)
  }

  /** A rolled-back transaction that had taken one revision. */
  function Burn(db: Db): Db {
    db.(nextRev := db.nextRev + 1)
  }

  /** Sets the state of an operation and records it. */
  function Move(db: Db, op: Id, actor: Id, state: OpState): Db
    requires op in db.ops
  {
    Append(db.(ops := db.ops[op := db.ops[op].(state := state)]), op, actor, Became(state))
  }

  /* ---- plans and approvals ---- */

  /** Binds the machine's digest and revisions.  For an unknown machine the INSERT ... SELECT
      inserts no row and reports no error. */
  function PlanTx(db: Db, id: Id, machine: Id, artifact: Digest, expires: int, maxAttempts: int,
                  verify: int, maxAge: int, actor: Id): (Db, Outcome<()>)
  {
    if machine !in db.machines then
      (Append(db, id, actor, Planned), Ok(()))
    else if id in db.plans then
      (db, Error)
    else
      var m := db.machines[machine];
      var p := Plan(machine, artifact, m.applied, m.assignmentRev, m.baselineRev,
                    db.now + expires, maxAttempts, verify, maxAge);
      (InsertPlan(db, id, p, actor), Ok(()))
  }

  function InsertPlan(db: Db, id: Id, p: Plan, actor: Id): Db {
    Append(db.(plans := db.plans[id := p]), id, actor, Planned)
  }

  function ApproveTx(db: Db, id: Id, actor: Id): (Db, Outcome<()>) {
    if id in db.approvals || id !in db.plans then
      (db, Error)
    else
      (Append(db.(approvals := db.approvals[id := Approval(db.epoch, false)]), id, actor, Approved), Ok(()))
  }

  function RevokeTx(db: Db, id: Id, actor: Id): (Db, Outcome<()>) {
    if id !in db.approvals || db.approvals[id].revoked then
      (db, Error)
    else
      (Append(db.(approvals := db.approvals[id := db.approvals[id].(revoked := true)]), id, actor, Revoked),
       Ok(()))
  }

  /** Comparison 1. */
  predicate ApprovalHolds(db: Db, id: Id) {
    && id in db.approvals && id in db.plans
    && !db.approvals[id].revoked
    && db.now < db.plans[id].expires
    && db.approvals[id].epoch == db.epoch
  }

  /** Comparisons 2 and 6. */
  function CheckMachine(db: Db, p: Plan): Check {
    if p.machine !in db.machines then
      Fault
    else
      var m := db.machines[p.machine];
      if m.assignmentRev != p.assignmentRev || m.baselineRev != p.baselineRev then Refuse(2)
      else if m.frozen || db.recovery then Refuse(6)
      else Pass
  }

  /** The greatest index of an observation `keep` accepts, or -1. */
  function Latest(obs: seq<Observation>, keep: Observation -> bool): (i: int)
    ensures -1 <= i < |obs|
    ensures i >= 0 ==> keep(obs[i])
    ensures forall k :: i < k < |obs| ==> !keep(obs[k])
  {
    if obs == [] then -1
    else if keep(obs[|obs| - 1]) then |obs| - 1
    else Latest(obs[..|obs| - 1], keep)
  }

  predicate Contradicted(obs: seq<Observation>, from: int, machine: Id, digest: Digest) {
    exists k :: 0 <= k < |obs| && k > from && obs[k].machine == machine
      && obs[k].digest.Some? && obs[k].digest.value != digest
  }

  /** Comparison 3. */
  function CheckEvidence(db: Db, id: Id, p: Plan, retry: bool): Check {
    var i := Latest(db.observations, (o: Observation) =>
      o.op == id && o.digest.Some? && (o.purpose.Completion? ==> retry));
    if i < 0 then Refuse(3)
    else
      var o := db.observations[i];
      if o.began < db.now - p.maxAge then Refuse(3)
      else if o.digest.value != p.pre && !(retry && o.digest.value == p.artifact) then Refuse(3)
      else if Contradicted(db.observations, i, p.machine, o.digest.value) then Refuse(3)
      else Pass
  }

  predicate ScopeHeld(db: Db, machine: Id) {
    exists o :: o in db.ops && db.ops[o].machine == machine && Uncertain(db.ops[o].state)
  }

  /* ---- commitment ---- */

  function CommitTx(db: Db, id: Id, owner: Id, mode: Mode): (Db, Outcome<nat>) {
    if id !in db.plans then (db, Error)
    else
      var p := db.plans[id];
      var machine := CheckMachine(db, p);
      var evidence := CheckEvidence(db, id, p, false);
      if mode != Naive && !ApprovalHolds(db, id) then (db, Refused(1))
      else if machine.Refuse? then (db, Refused(machine.comparison))
      else if machine.Fault? then (db, Error)
      else if evidence.Refuse? then (db, Refused(evidence.comparison))
      else if id in db.ops then (db, Refused(EXISTS))
      else if db.scopeIndex && ScopeHeld(db, p.machine) then (db, Refused(4))
      else
        (Append(db.(ops := db.ops[id := Operation(p.machine, Committed, owner, 1)]), id, owner, Became(Committed)),
         Ok(1))
  }

  function CancelUncommittedTx(db: Db, id: Id, actor: Id): (Db, Outcome<()>) {
    if id !in db.plans || id in db.ops then (db, Error)
    else
      (Append(db.(ops := db.ops[id := Operation(db.plans[id].machine, Cancelled, actor, 0)]),
              id, actor, Became(Cancelled)),
       Ok(()))
  }

  /* ---- attempts ---- */

  predicate Definitive(k: Kind) {
    k.Responded? || k.Owned? || k.Classified? || k.Accounted?
  }

  /** Something the retry rule counts was recorded for `op` after revision `rev`. */
  predicate FactAfter(timeline: seq<Entry>, op: Id, rev: nat) {
    exists k :: 0 <= k < |timeline| && timeline[k].op == op && timeline[k].rev > rev && Definitive(timeline[k].kind)
  }

  /** The fence of the attempt transaction: owner, generation and state. */
  predicate MayAttempt(o: Operation, owner: Id, gen: nat, retryRev: nat) {
    && o.owner == owner && o.gen == gen
    && (retryRev == 0 ==> o.state.Committed?)
    && (retryRev != 0 ==> o.state.Unresolved?)
  }

  function NewAttempt(db: Db, id: Id, owner: Id, gen: nat): Attempt
    requires id in db.plans
  {
    Attempt(|Attempts(db, id)| + 1, owner, gen, db.now + db.plans[id].verify, None, 0, 0)
  }

  /** The rows after a recorded attempt. */
  function Record(db: Db, id: Id, owner: Id, gen: nat): Db
    requires id in db.plans && id in db.ops
  {
    Append(db.(attempts := db.attempts[id := Attempts(db, id) + [NewAttempt(db, id, owner, gen)]],
               ops := db.ops[id := db.ops[id].(state := Sending)]),
           id, owner, Attempted)
  }

  function AttemptTx(db: Db, id: Id, owner: Id, gen: nat, mode: Mode, retryRev: nat): (Db, Outcome<nat>) {
    if id !in db.plans then (db, Error)
    else
      var p := db.plans[id];
      var machine := CheckMachine(db, p);
      var evidence := CheckEvidence(db, id, p, retryRev != 0);
      if mode != Naive && !ApprovalHolds(db, id) then (db, Refused(1))
      else if machine.Refuse? then (db, Refused(machine.comparison))
      else if machine.Fault? then (db, Error)
      else if id !in db.ops then (db, Error)
      else if mode != NoFence && !MayAttempt(db.ops[id], owner, gen, retryRev) then (db, Refused(OWNER))
      else if retryRev != 0 && FactAfter(db.timeline, id, retryRev) then (db, Refused(RETRY))
      else if evidence.Refuse? then (db, Refused(evidence.comparison))
      else if |Attempts(db, id)| >= p.maxAttempts then (db, Refused(ATTEMPTS))
      else (Record(db, id, owner, gen), Ok(|Attempts(db, id)| + 1))
  }

  /** What the owner records after the attempt transaction was refused by comparison 1 or 6. */
  function StopTx(db: Db, id: Id, owner: Id, gen: nat, comparison: int): (Db, Outcome<()>) {
    if id !in db.ops then (db, Error)
    else if db.ops[id].owner != owner || db.ops[id].gen != gen then (db, Ok(()))
    else
      var db1 := if InFlight(db.ops[id].state) then Move(db, id, owner, Unresolved) else db;
      if Attempts(db, id) == [] && comparison == 1 then (Move(db1, id, owner, Cancelled), Ok(()))
      else (db1, Ok(()))
  }

  /** The position of the attempt numbered `n`, or -1. */
  function Row(rows: seq<Attempt>, n: int): (i: int)
    ensures -1 <= i < |rows|
    ensures i >= 0 ==> rows[i].n == n
    ensures i < 0 ==> forall k :: 0 <= k < |rows| ==> rows[k].n != n
  {
    if rows == [] then -1
    else if rows[|rows| - 1].n == n then |rows| - 1
    else Row(rows[..|rows| - 1], n)
  }

  predicate OthersRejected(rows: seq<Attempt>, n: int) {
    forall k :: 0 <= k < |rows| && rows[k].n != n ==> rows[k].response == Some(Refusing)
  }

  /** The state the owner moves to when its sending attempt `n` got a response. */
  function AfterResponse(rows: seq<Attempt>, n: int, reply: Class): OpState {
    match reply
    case Accepted => Verifying
    case Refusing => if OthersRejected(rows, n) then Rejected else Unresolved
    case Unknown => Unresolved
  }

  /** The rows after the response of the attempt at place `i` is recorded. */
  function Respond(db: Db, id: Id, i: nat, actor: Id, reply: Class): Db
    requires i < |Attempts(db, id)|
  {
    var rows := Attempts(db, id);
    var rows' := rows[i := rows[i].(response := Some(reply), responseRev := db.nextRev)];
    Append(db.(attempts := db.attempts[id := rows']), id, actor, Responded)
  }

  function RecordResponseTx(db: Db, id: Id, n: int, owner: Id, gen: nat, reply: Class): (Db, Outcome<OpState>) {
    if id !in db.ops then (db, Error)
    else
      var o := db.ops[id];
      var rows := Attempts(db, id);
      var i := Row(rows, n);
      if i < 0 || rows[i].response.Some? then (Burn(db), Error)
      else
        var db1 := Respond(db, id, i, owner, reply);
        if !o.state.Sending? || o.owner != owner || o.gen != gen then (db1, Ok(o.state))
        else
          var next := AfterResponse(Attempts(db1, id), n, reply);
          (Move(db1, id, owner, next), Ok(next))
  }

  function AccountTx(db: Db, id: Id, n: int, actor: Id): (Db, Outcome<()>) {
    if id !in db.ops then (db, Error)
    else
      var rows := Attempts(db, id);
      var i := Row(rows, n);
      if i < 0 || rows[i].accountedRev != 0 then (Burn(db), Error)
      else
        (Append(db.(attempts := db.attempts[id := rows[i := rows[i].(accountedRev := db.nextRev)]]),
                id, actor, Accounted),
         Ok(()))
  }

  function TakeoverTx(db: Db, id: Id, owner: Id): (Db, Outcome<nat>) {
    if id !in db.ops || !Uncertain(db.ops[id].state) then (db, Refused(OWNER))
    else
      var o := db.ops[id].(owner := owner, gen := db.ops[id].gen + 1, state := Unresolved);
      (Append(db.(ops := db.ops[id := o]), id, owner, Owned), Ok(o.gen))
  }

  /* ---- observations ---- */

  /** The last revision of the operation's timeline, or 0. */
  function Basis(timeline: seq<Entry>, op: Id): (b: nat)
    ensures forall k :: 0 <= k < |timeline| && timeline[k].op == op ==> timeline[k].rev <= b
    ensures b == 0 || exists k :: 0 <= k < |timeline| && timeline[k].op == op && timeline[k].rev == b
  {
    if timeline == [] then 0
    else
      var last := timeline[|timeline| - 1];
      var before := Basis(timeline[..|timeline| - 1], op);
      if last.op == op && last.rev > before then last.rev else before
  }

  function ObserveTx(db: Db, op: Id, machine: Id, purpose: Purpose, digest: Option<Digest>,
                     basis: nat, began: int, actor: Id): (Db, Outcome<nat>)
  {
    var o := Observation(op, machine, purpose, digest, basis, began);
    (Append(db.(observations := db.observations + [o]), op, actor, Observed), Ok(|db.observations|))
  }

  /* ---- classification ---- */

  predicate AccountedFor(a: Attempt) {
    (a.response.Some? && a.response.value != Unknown) || a.accountedRev != 0
  }

  predicate AllAccounted(rows: seq<Attempt>) {
    forall k :: 0 <= k < |rows| ==> AccountedFor(rows[k])
  }

  function Max(a: nat, b: nat): nat {
    if a > b then a else b
  }

  /** The revision by which every response and every accounting was recorded. */
  function AccountedBasis(rows: seq<Attempt>): (b: nat)
    ensures forall k :: 0 <= k < |rows| ==> rows[k].responseRev <= b && rows[k].accountedRev <= b
  {
    if rows == [] then 0
    else
      var last := rows[|rows| - 1];
      Max(AccountedBasis(rows[..|rows| - 1]), Max(last.responseRev, last.accountedRev))
  }

  /** It is the greatest of those revisions, or 0. */
  lemma {:induction false} BasisIsGreatest(rows: seq<Attempt>)
    ensures forall k :: 0 <= k < |rows| ==> rows[k].responseRev <= AccountedBasis(rows) && rows[k].accountedRev <= AccountedBasis(rows)
    ensures AccountedBasis(rows) == 0
            || exists k :: 0 <= k < |rows| && (rows[k].responseRev == AccountedBasis(rows) || rows[k].accountedRev == AccountedBasis(rows))
  {
    if rows != [] {
      var n := |rows| - 1;
      BasisIsGreatest(rows[..n]);
      if AccountedBasis(rows) == AccountedBasis(rows[..n]) && AccountedBasis(rows) != 0 {
        var k :| 0 <= k < n && (rows[..n][k].responseRev == AccountedBasis(rows) || rows[..n][k].accountedRev == AccountedBasis(rows));
        assert rows[k] == rows[..n][k];
      }
    }
  }

  /** A successful observation of the operation, for completion or, if asked, recovery, whose read
      began at or after `basis`. */
  predicate Qualifies(o: Observation, op: Id, basis: nat, recovery: bool) {
    o.op == op && o.basis >= basis && o.digest.Some? && (o.purpose.Completion? || (recovery && o.purpose.Recovery?))
  }

  function LatestAfter(db: Db, op: Id, basis: nat, recovery: bool): (i: int)
    ensures -1 <= i < |db.observations|
    ensures i >= 0 ==> Qualifies(db.observations[i], op, basis, recovery)
  {
    Latest(db.observations, (o: Observation) => Qualifies(o, op, basis, recovery))
  }

  /** The latest that qualifies, and -1 exactly when none does. */
  lemma LatestAfterIsLatest(db: Db, op: Id, basis: nat, recovery: bool, i: int)
    requires -1 <= i < |db.observations|
    ensures LatestAfter(db, op, basis, recovery) == i <==>
            && (i >= 0 ==> Qualifies(db.observations[i], op, basis, recovery))
            && (forall k :: i < k < |db.observations| ==> !Qualifies(db.observations[k], op, basis, recovery))
  {
    var keep := (o: Observation) => Qualifies(o, op, basis, recovery);
    var j := Latest(db.observations, keep);
    forall k | 0 <= k < |db.observations|
      ensures keep(db.observations[k]) == Qualifies(db.observations[k], op, basis, recovery)
    {
    }
  }

  function CompleteTx(db: Db, id: Id, owner: Id, gen: nat): (Db, Outcome<OpState>) {
    if id !in db.plans || id !in db.ops then (db, Error)
    else
      var p := db.plans[id];
      var o := db.ops[id];
      var rows := Attempts(db, id);
      var i := LatestAfter(db, id, AccountedBasis(rows), false);
      if o.owner != owner || o.gen != gen then (db, Refused(OWNER))
      else if !o.state.Verifying? && !o.state.Unresolved? then (db, Refused(OWNER))
      else if !AllAccounted(rows) then (db, Refused(COMPLETE))
      else if rows == [] then (db, Refused(COMPLETE))
      else if i < 0 then (db, Refused(COMPLETE))
      else if db.observations[i].digest.value != p.artifact then (Move(db, id, owner, Failed), Ok(Failed))
      else (Move(Apply(db, p), id, owner, Completed), Ok(Completed))
  }

  /** Applied becomes the plan's artifact at the next baseline. */
  function Apply(db: Db, p: Plan): Db {
    if p.machine !in db.machines then db
    else
      var m := db.machines[p.machine];
      db.(machines := db.machines[p.machine := m.(applied := p.artifact, baselineRev := m.baselineRev + 1)])
  }

  predicate AnyAccepted(rows: seq<Attempt>) {
    exists k :: 0 <= k < |rows| && rows[k].response == Some(Accepted)
  }

  function ClassifyTx(db: Db, id: Id, owner: Id, gen: nat): (Db, Outcome<nat>) {
    if id !in db.plans || id !in db.ops then (db, Error)
    else
      var p := db.plans[id];
      var o := db.ops[id];
      var rows := Attempts(db, id);
      var i := LatestAfter(db, id, AccountedBasis(rows), true);
      if o.owner != owner || o.gen != gen || !o.state.Unresolved? then (db, Refused(OWNER))
      else if !AllAccounted(rows) then (db, Refused(COMPLETE))
      else if AnyAccepted(rows) then (db, Refused(RETRY))
      else if i < 0 then (db, Refused(COMPLETE))
      else if db.observations[i].digest.value != p.pre then (db, Refused(RETRY))
      else (Append(db, id, owner, Classified), Ok(db.nextRev))
  }

  function MarkUnresolvedTx(db: Db, id: Id, owner: Id, gen: nat): (Db, Outcome<()>) {
    if id !in db.ops then (db, Error)
    else if db.ops[id].owner != owner || db.ops[id].gen != gen || !InFlight(db.ops[id].state) then (db, Ok(()))
    else (Move(db, id, owner, Unresolved), Ok(()))
  }

  function CancelUnattemptedTx(db: Db, id: Id, owner: Id, gen: nat): (Db, Outcome<()>) {
    if id !in db.ops then (db, Error)
    else
      var o := db.ops[id];
      if o.owner != owner || o.gen != gen || !o.state.Unresolved? then (db, Refused(OWNER))
      else if Attempts(db, id) != [] then (db, Refused(ATTEMPTS))
      else if ApprovalHolds(db, id) then (db, Refused(1))
      else (Move(db, id, owner, Cancelled), Ok(()))
  }
}
