/**
 Queue claims with leases and fences at the level of row locks.

 A claim is one UPDATE whose subquery picks the first eligible job from a snapshot and whose row
 update comes later: it waits for the row lock and, in the guarded form, repeats the eligibility
 test on the committed row.  The pick and the update are separate steps here, so that other
 claims and completions commit between them.
 */
module Queue {

  type Tx = nat

  datatype Worker = Worker(name: string)

  datatype State = Pending | Claimed | Done

  datatype Job = Job(state: State, claimedBy: Worker, fence: nat, leaseUntil: int, completedFence: nat)

  datatype Action = Claim | Complete

  datatype JobEvent = JobEvent(job: nat, worker: Worker, fence: nat, action: Action)

  datatype Mode = Guarded | SkipLocked | Naive

  /** `Picked` has chosen a job and holds nothing; `Claiming` and `Completing` hold the job's row. */
  datatype Phase =
    | Picked(mode: Mode, job: nat, worker: Worker, now: int, until: int)
    | Claiming(job: nat, worker: Worker, now: int, until: int)
    | Completing(job: nat, worker: Worker, fence: nat)
    | Ended(ok: bool)

  type Jobs = seq<Job>
  type Locks = map<nat, Tx>
  type Txs = map<Tx, Phase>

  datatype Store = Store(jobs: Jobs, log: seq<JobEvent>, locks: Locks, txs: Txs)

  datatype Event =
    | Pick(t: Tx, mode: Mode, worker: Worker, now: int, lease: int)
    | Update(t: Tx)
    | Finish(t: Tx, job: nat, worker: Worker, fence: nat)
    | Commit(t: Tx)
    | Abort(t: Tx)

  const NOBODY := Worker("")

  function Fresh(): Job {
    Job(Pending, NOBODY, 0, 0, 0)
  }

  function Seeded(n: nat): Store {
    Store(seq(n, _ => Fresh()), [], map[], map[])
  }

  predicate Eligible(job: Job, now: int) {
    job.state.Pending? || (job.state.Claimed? && job.leaseUntil < now)
  }

  /** The first eligible job, passing over the locked ones where `locks` names them; |jobs| if none. */
  function FirstEligible(jobs: Jobs, locks: Locks, now: int, from: nat): (i: nat)
    requires from <= |jobs|
    ensures from <= i <= |jobs|
    ensures i < |jobs| ==> Eligible(jobs[i], now) && i !in locks
    ensures forall k :: from <= k < i ==> !Eligible(jobs[k], now) || k in locks
    decreases |jobs| - from
  {
    if from == |jobs| then from
    else if Eligible(jobs[from], now) && from !in locks then from
    else FirstEligible(jobs, locks, now, from + 1)
  }

  function ClaimedJob(job: Job, worker: Worker, until: int): Job {
    job.(state := Claimed, claimedBy := worker, fence := job.fence + 1, leaseUntil := until)
  }

  function DoneJob(job: Job, fence: nat): Job {
    job.(state := Done, completedFence := fence)
  }

  function Put(s: Store, t: Tx, p: Phase): Store {
    s.(txs := s.txs[t := p])
  }

  function Hold(s: Store, t: Tx, job: nat, p: Phase): Store {
    Put(s.(locks := s.locks[job := t]), t, p)
  }

  /** FOR UPDATE SKIP LOCKED picks and locks at once; the other forms pick from the snapshot. */
  function PickOf(s: Store, t: Tx, mode: Mode, worker: Worker, now: int, lease: int): Store {
    var i := FirstEligible(s.jobs, if mode.SkipLocked? then s.locks else map[], now, 0);
    if i == |s.jobs| then Put(s, t, Ended(false))
    else if mode.SkipLocked? then Hold(s, t, i, Claiming(i, worker, now, now + lease))
    else Put(s, t, Picked(mode, i, worker, now, now + lease))
  }

  /** The row update of a claim, once the row is free. */
  function UpdateOf(s: Store, t: Tx, p: Phase): Store
    requires p.Picked?
  {
    if p.job in s.locks || p.job >= |s.jobs| then s
    else if p.mode.Guarded? && !Eligible(s.jobs[p.job], p.now) then Put(s, t, Ended(false))
    else Hold(s, t, p.job, Claiming(p.job, p.worker, p.now, p.until))
  }

  /** The row update of a completion. */
  function FinishOf(s: Store, t: Tx, job: nat, worker: Worker, fence: nat): Store {
    if job in s.locks then s
    else if job < |s.jobs| && s.jobs[job].fence == fence && s.jobs[job].state.Claimed? then
      Hold(s, t, job, Completing(job, worker, fence))
    else Put(s, t, Ended(false))
  }

  /** The new row and its event show together. */
  function CommitOf(s: Store, t: Tx, p: Phase): Store {
    match p
    case Claiming(job, worker, _, until) =>
      if job >= |s.jobs| then s
      else
        var row := ClaimedJob(s.jobs[job], worker, until);
        Put(s.(jobs := s.jobs[job := row], log := s.log + [JobEvent(job, worker, row.fence, Claim)], locks := s.locks - {job}),
            t, Ended(true))
    case Completing(job, worker, fence) =>
      if job >= |s.jobs| then s
      else
        Put(s.(jobs := s.jobs[job := DoneJob(s.jobs[job], fence)], log := s.log + [JobEvent(job, worker, fence, Complete)],
               locks := s.locks - {job}),
            t, Ended(true))
    case Picked(_, _, _, _, _) => s
    case Ended(_) => s
  }

  function AbortOf(s: Store, t: Tx, p: Phase): Store {
    match p
    case Claiming(job, _, _, _) => Put(s.(locks := s.locks - {job}), t, Ended(false))
    case Completing(job, _, _) => Put(s.(locks := s.locks - {job}), t, Ended(false))
    case Picked(_, _, _, _, _) => Put(s, t, Ended(false))
    case Ended(_) => s
  }

  /** A statement that has to wait leaves the state as it is. */
  function Step(s: Store, e: Event): Store {
    match e
    case Pick(t, mode, worker, now, lease) => if t in s.txs then s else PickOf(s, t, mode, worker, now, lease)
    case Update(t) => if t in s.txs && s.txs[t].Picked? then UpdateOf(s, t, s.txs[t]) else s
    case Finish(t, job, worker, fence) => if t in s.txs then s else FinishOf(s, t, job, worker, fence)
    case Commit(t) => if t in s.txs then CommitOf(s, t, s.txs[t]) else s
    case Abort(t) => if t in s.txs then AbortOf(s, t, s.txs[t]) else s
  }

  function Run(s: Store, events: seq<Event>): Store {
    if events == [] then s else Step(Run(s, events[..|events| - 1]), events[|events| - 1])
  }

  predicate NoNaive(events: seq<Event>) {
    forall k :: 0 <= k < |events| && events[k].Pick? ==> !events[k].mode.Naive?
  }

  /* ---- what every statement keeps ---- */

  function Count(log: seq<JobEvent>, job: nat, action: Action): nat {
    if log == [] then 0
    else
      var last := log[|log| - 1];
      Count(log[..|log| - 1], job, action) + (if last.job == job && last.action == action then 1 else 0)
  }

  /** The row of a job agrees with its events. */
  predicate JobOk(job: Job, log: seq<JobEvent>, j: nat) {
    && job.fence == Count(log, j, Claim)
    && Count(log, j, Complete) == (if job.state.Done? then 1 else 0)
    && (job.state.Pending? ==> job.fence == 0)
    && (job.state.Done? ==> job.completedFence == job.fence > 0)
    && (job.state.Claimed? ==> job.fence > 0)
  }

  /** An event fits the events before it: a claim has the next fence, a completion the current one,
      and nothing follows a completion. */
  predicate Fits(log: seq<JobEvent>, e: JobEvent) {
    && Count(log, e.job, Complete) == 0
    && match e.action
       case Claim => e.fence == Count(log, e.job, Claim) + 1
       case Complete => e.fence == Count(log, e.job, Claim) > 0
  }

  predicate HeldOk(jobs: Jobs, locks: Locks, t: Tx, p: Phase) {
    match p
    case Claiming(job, _, now, _) => job in locks && locks[job] == t && job < |jobs| && Eligible(jobs[job], now)
    case Completing(job, _, fence) =>
      job in locks && locks[job] == t && job < |jobs| && jobs[job].fence == fence && jobs[job].state.Claimed?
    case Picked(mode, _, _, _, _) => mode.Guarded?
    case Ended(_) => true
  }

  ghost predicate TxsOk(jobs: Jobs, locks: Locks, txs: Txs) {
    forall t :: t in txs ==> HeldOk(jobs, locks, t, txs[t])
  }

  ghost predicate JobsOk(jobs: Jobs, log: seq<JobEvent>) {
    && (forall j :: 0 <= j < |jobs| ==> JobOk(jobs[j], log, j))
    && (forall k :: 0 <= k < |log| ==> log[k].job < |jobs| && Fits(log[..k], log[k]))
  }

  ghost predicate Inv(s: Store) {
    TxsOk(s.jobs, s.locks, s.txs) && JobsOk(s.jobs, s.log)
  }

  lemma CountAppend(log: seq<JobEvent>, e: JobEvent, job: nat, action: Action)
    ensures Count(log + [e], job, action) == Count(log, job, action) + (if e.job == job && e.action == action then 1 else 0)
  {
    assert (log + [e])[..|log|] == log;
  }

  lemma LogAppend(jobs: Jobs, log: seq<JobEvent>, e: JobEvent, row: Job)
    requires JobsOk(jobs, log) && e.job < |jobs| && Fits(log, e)
    requires row.fence == Count(log, e.job, Claim) + (if e.action.Claim? then 1 else 0)
    requires row.state == if e.action.Claim? then Claimed else Done
    requires e.action.Complete? ==> row.completedFence == row.fence
    ensures JobsOk(jobs[e.job := row], log + [e])
  {
    var jobs', log' := jobs[e.job := row], log + [e];
    forall j | 0 <= j < |jobs'| ensures JobOk(jobs'[j], log', j) {
      CountAppend(log, e, j, Claim);
      CountAppend(log, e, j, Complete);
    }
    forall k | 0 <= k < |log'| ensures log'[k].job < |jobs'| && Fits(log'[..k], log'[k]) {
      assert log'[..k] == if k < |log| then log[..k] else log;
    }
  }

  /** Releasing a row and changing it does not touch what other transactions hold. */
  lemma ReleaseTxs(jobs: Jobs, locks: Locks, txs: Txs, t: Tx, job: nat, row: Job, ok: bool)
    requires TxsOk(jobs, locks, txs) && job in locks && locks[job] == t && job < |jobs|
    ensures TxsOk(jobs[job := row], locks - {job}, txs[t := Ended(ok)])
  {
    forall u | u in txs && u != t ensures HeldOk(jobs[job := row], locks - {job}, u, txs[u]) {
      assert HeldOk(jobs, locks, u, txs[u]);
    }
  }

  lemma HoldTxs(jobs: Jobs, locks: Locks, txs: Txs, t: Tx, job: nat, p: Phase)
    requires TxsOk(jobs, locks, txs) && job !in locks && HeldOk(jobs, locks[job := t], t, p)
    ensures TxsOk(jobs, locks[job := t], txs[t := p])
  {
    forall u | u in txs && u != t ensures HeldOk(jobs, locks[job := t], u, txs[u]) {
      assert HeldOk(jobs, locks, u, txs[u]);
    }
  }

  lemma CommitKeeps(s: Store, t: Tx)
    requires Inv(s) && t in s.txs
    ensures Inv(CommitOf(s, t, s.txs[t]))
  {
    var p := s.txs[t];
    assert HeldOk(s.jobs, s.locks, t, p);
    match p
    case Claiming(job, worker, _, until) =>
      assert JobOk(s.jobs[job], s.log, job);
      var row := ClaimedJob(s.jobs[job], worker, until);
      LogAppend(s.jobs, s.log, JobEvent(job, worker, row.fence, Claim), row);
      ReleaseTxs(s.jobs, s.locks, s.txs, t, job, row, true);
    case Completing(job, worker, fence) =>
      assert JobOk(s.jobs[job], s.log, job);
      LogAppend(s.jobs, s.log, JobEvent(job, worker, fence, Complete), DoneJob(s.jobs[job], fence));
      ReleaseTxs(s.jobs, s.locks, s.txs, t, job, DoneJob(s.jobs[job], fence), true);
    case Picked(_, _, _, _, _) =>
    case Ended(_) =>
  }

  lemma AbortKeeps(s: Store, t: Tx)
    requires Inv(s) && t in s.txs
    ensures Inv(AbortOf(s, t, s.txs[t]))
  {
    var p := s.txs[t];
    assert HeldOk(s.jobs, s.locks, t, p);
    if p.Claiming? || p.Completing? {
      assert s.jobs[p.job := s.jobs[p.job]] == s.jobs;
      ReleaseTxs(s.jobs, s.locks, s.txs, t, p.job, s.jobs[p.job], false);
    }
  }

  lemma PickKeeps(s: Store, t: Tx, mode: Mode, worker: Worker, now: int, lease: int)
    requires Inv(s) && t !in s.txs && !mode.Naive?
    ensures Inv(PickOf(s, t, mode, worker, now, lease))
  {
    var i := FirstEligible(s.jobs, if mode.SkipLocked? then s.locks else map[], now, 0);
    if i < |s.jobs| && mode.SkipLocked? {
      HoldTxs(s.jobs, s.locks, s.txs, t, i, Claiming(i, worker, now, now + lease));
    }
  }

  lemma UpdateKeeps(s: Store, t: Tx)
    requires Inv(s) && t in s.txs && s.txs[t].Picked?
    ensures Inv(UpdateOf(s, t, s.txs[t]))
  {
    var p := s.txs[t];
    assert HeldOk(s.jobs, s.locks, t, p);
    if p.mode.Guarded? && p.job !in s.locks && p.job < |s.jobs| && Eligible(s.jobs[p.job], p.now) {
      HoldTxs(s.jobs, s.locks, s.txs, t, p.job, Claiming(p.job, p.worker, p.now, p.until));
    }
  }

  lemma FinishKeeps(s: Store, t: Tx, job: nat, worker: Worker, fence: nat)
    requires Inv(s) && t !in s.txs
    ensures Inv(FinishOf(s, t, job, worker, fence))
  {
    if job !in s.locks && job < |s.jobs| && s.jobs[job].fence == fence && s.jobs[job].state.Claimed? {
      HoldTxs(s.jobs, s.locks, s.txs, t, job, Completing(job, worker, fence));
    }
  }

  lemma StepKeeps(s: Store, e: Event)
    requires Inv(s) && NoNaive([e])
    ensures Inv(Step(s, e))
  {
    assert [e][0] == e;
    if e.Pick? && e.t !in s.txs {
      PickKeeps(s, e.t, e.mode, e.worker, e.now, e.lease);
    } else if e.Update? && e.t in s.txs && s.txs[e.t].Picked? {
      UpdateKeeps(s, e.t);
    } else if e.Finish? && e.t !in s.txs {
      FinishKeeps(s, e.t, e.job, e.worker, e.fence);
    } else if e.Commit? && e.t in s.txs {
      CommitKeeps(s, e.t);
    } else if e.Abort? && e.t in s.txs {
      AbortKeeps(s, e.t);
    }
  }

  lemma {:induction false} RunKeeps(n: nat, events: seq<Event>)
    requires NoNaive(events)
    ensures Inv(Run(Seeded(n), events))
  {
    if events != [] {
      var m := |events| - 1;
      RunKeeps(n, events[..m]);
      StepKeeps(Run(Seeded(n), events[..m]), events[m]);
    }
  }

  /* ---- whole runs ---- */

  lemma {:induction false} CountsGrow(log: seq<JobEvent>, k: nat, job: nat, action: Action)
    requires k <= |log|
    ensures Count(log[..k], job, action) <= Count(log, job, action)
    ensures k < |log| && log[k].job == job && log[k].action == action ==>
              Count(log[..k], job, action) < Count(log, job, action)
    decreases |log|
  {
    if k < |log| {
      var init := log[..|log| - 1];
      CountsGrow(init, k, job, action);
      assert init[..k] == log[..k];
    } else {
      assert log[..k] == log;
    }
  }

  /** Of two events of one job, one of them a completion, the completion is the later. */
  lemma NothingAfterCompletion(jobs: Jobs, log: seq<JobEvent>, i: nat, k: nat)
    requires JobsOk(jobs, log) && i < k < |log| && log[i].job == log[k].job
    ensures log[i].action == Claim
  {
    assert Fits(log[..k], log[k]);
    CountsGrow(log[..k], i, log[i].job, Complete);
    assert log[..k][..i] == log[..i] && log[..k][i] == log[i];
  }

  /**
   Over every interleaving of guarded and skip-locked claims and of completions: the fences of a
   job's claims are 1, 2, 3, ...; it completes at most once, it is done exactly when it did, and
   the completion is its last event and carries the fence of its last claim.
   */
  lemma QueueHistory(n: nat, events: seq<Event>, k: nat)
    requires NoNaive(events) && k < |Run(Seeded(n), events).log|
    ensures var s := Run(Seeded(n), events);
            var e := s.log[k];
            && e.job < |s.jobs|
            && (e.action.Claim? ==> e.fence == Count(s.log[..k], e.job, Claim) + 1)
            && (e.action.Complete? ==>
                  && s.jobs[e.job].state.Done? && s.jobs[e.job].completedFence == e.fence
                  && e.fence == s.jobs[e.job].fence == Count(s.log[..k], e.job, Claim) == Count(s.log, e.job, Claim)
                  && forall i :: k < i < |s.log| ==> s.log[i].job != e.job)
            && Count(s.log, e.job, Complete) == (if s.jobs[e.job].state.Done? then 1 else 0)
            && s.jobs[e.job].fence == Count(s.log, e.job, Claim)
  {
    RunKeeps(n, events);
    var s := Run(Seeded(n), events);
    EventFits(s.jobs, s.log, k);
  }

  lemma EventFits(jobs: Jobs, log: seq<JobEvent>, k: nat)
    requires JobsOk(jobs, log) && k < |log|
    ensures var e := log[k];
            && e.job < |jobs|
            && (e.action.Claim? ==> e.fence == Count(log[..k], e.job, Claim) + 1)
            && (e.action.Complete? ==>
                  && jobs[e.job].state.Done? && jobs[e.job].completedFence == e.fence
                  && e.fence == jobs[e.job].fence == Count(log[..k], e.job, Claim) == Count(log, e.job, Claim)
                  && forall i :: k < i < |log| ==> log[i].job != e.job)
            && Count(log, e.job, Complete) == (if jobs[e.job].state.Done? then 1 else 0)
            && jobs[e.job].fence == Count(log, e.job, Claim)
  {
    var e := log[k];
    assert Fits(log[..k], e) && JobOk(jobs[e.job], log, e.job);
    if e.action.Complete? {
      CountsGrow(log, k, e.job, Complete);
      forall i | k < i < |log| ensures log[i].job != e.job {
        if log[i].job == e.job {
          NothingAfterCompletion(jobs, log, k, i);
        }
      }
      NoMore(log, k + 1, e.job, Claim);
      assert log[..k + 1] == log[..k] + [e];
      CountAppend(log[..k], e, e.job, Claim);
    }
  }

  lemma {:induction false} NoMore(log: seq<JobEvent>, k: nat, job: nat, action: Action)
    requires k <= |log| && forall i :: k <= i < |log| ==> log[i].job != job
    ensures Count(log, job, action) == Count(log[..k], job, action)
    decreases |log|
  {
    if k < |log| {
      var init := log[..|log| - 1];
      assert init[..k] == log[..k];
      forall i | k <= i < |init| ensures init[i].job != job {
        assert init[i] == log[i];
      }
      NoMore(init, k, job, action);
    } else {
      assert log[..k] == log;
    }
  }

  /** A claim that commits in any reachable state lands on a job that is pending or whose lease
      ended before the claimer's time, and raises its fence by one. */
  lemma {:induction false} ClaimLandsOnEligible(n: nat, events: seq<Event>, t: Tx)
    requires NoNaive(events)
    requires t in Run(Seeded(n), events).txs && Run(Seeded(n), events).txs[t].Claiming?
    ensures var s := Run(Seeded(n), events);
            var p := s.txs[t];
            var s' := Step(s, Commit(t));
            && p.job < |s.jobs| && Eligible(s.jobs[p.job], p.now)
            && s'.jobs == s.jobs[p.job := ClaimedJob(s.jobs[p.job], p.worker, p.until)]
            && s'.log == s.log + [JobEvent(p.job, p.worker, s.jobs[p.job].fence + 1, Claim)]
  {
    RunKeeps(n, events);
    var s := Run(Seeded(n), events);
    HeldClaim(s, t, s.txs[t]);
  }

  lemma {:induction false} HeldClaim(s: Store, t: Tx, p: Phase)
    requires TxsOk(s.jobs, s.locks, s.txs) && t in s.txs && p == s.txs[t] && p.Claiming?
    ensures var s' := Step(s, Commit(t));
            && p.job < |s.jobs| && Eligible(s.jobs[p.job], p.now)
            && s'.jobs == s.jobs[p.job := ClaimedJob(s.jobs[p.job], p.worker, p.until)]
            && s'.log == s.log + [JobEvent(p.job, p.worker, s.jobs[p.job].fence + 1, Claim)]
  {
    assert HeldOk(s.jobs, s.locks, t, p);
  }

  /* ---- the control ---- */

  lemma RunTo(s: Store, events: seq<Event>, s1: Store, e: Event)
    requires Run(s, events) == s1
    ensures Run(s, events + [e]) == Step(s1, e)
  {
    assert (events + [e])[..|events|] == events;
  }

  /** Two naive claimers pick the same pending job and the first commits: the run that both
      controls share. */
  lemma BothPick(a: Worker, b: Worker) returns (events: seq<Event>, s: Store)
    ensures s == Run(Seeded(1), events)
    ensures s.jobs == [Job(Claimed, a, 1, 10, 0)] && s.log == [JobEvent(0, a, 1, Claim)] && s.locks == map[]
    ensures s.txs == map[0 := Ended(true), 1 := Picked(Naive, 0, b, 0, 10)]
  {
    var s0 := Seeded(1);
    var e1, e2, e3, e4 := Pick(0, Naive, a, 0, 10), Pick(1, Naive, b, 0, 10), Update(0), Commit(0);
    var s1 := Put(s0, 0, Picked(Naive, 0, a, 0, 10));
    var s2 := Put(s1, 1, Picked(Naive, 0, b, 0, 10));
    var s3 := Hold(s2, 0, 0, Claiming(0, a, 0, 10));
    assert FirstEligible(s0.jobs, map[], 0, 0) == 0;
    RunTo(s0, [], s0, e1);
    RunTo(s0, [] + [e1], s1, e2);
    RunTo(s0, [] + [e1] + [e2], s2, e3);
    RunTo(s0, [] + [e1] + [e2] + [e3], s3, e4);
    events := [] + [e1] + [e2] + [e3] + [e4];
    s := Run(s0, events);
    assert s.locks == map[];
  }

  /** Without the repeated test the second claimer, whose time is 0, takes a job that is leased to
      the first until 10. */
  lemma NaiveTakesLiveClaim(a: Worker, b: Worker) returns (events: seq<Event>, before: Store)
    ensures before == Run(Seeded(1), events)
    ensures 1 in before.txs && before.txs[1] == Claiming(0, b, 0, 10)
    ensures before.jobs == [Job(Claimed, a, 1, 10, 0)] && !Eligible(before.jobs[0], 0)
    ensures Step(before, Commit(1)).jobs == [Job(Claimed, b, 2, 10, 0)]
  {
    var s;
    events, s := BothPick(a, b);
    RunTo(Seeded(1), events, s, Update(1));
    events := events + [Update(1)];
    before := Hold(s, 1, 0, Claiming(0, b, 0, 10));
  }

  /** It also reopens a job that was done in between, which then completes a second time. */
  lemma NaiveReopensDoneJob(a: Worker, b: Worker) returns (events: seq<Event>)
    ensures var s := Run(Seeded(1), events);
            s.log == [JobEvent(0, a, 1, Claim), JobEvent(0, a, 1, Complete), JobEvent(0, b, 2, Claim)]
            && s.jobs == [Job(Claimed, b, 2, 10, 1)]
  {
    var s;
    events, s := BothPick(a, b);
    var s0 := Seeded(1);
    var s1 := Hold(s, 2, 0, Completing(0, a, 1));
    var s2 := Step(s1, Commit(2));
    var s3 := Step(s2, Update(1));
    RunTo(s0, events, s, Finish(2, 0, a, 1));
    RunTo(s0, events + [Finish(2, 0, a, 1)], s1, Commit(2));
    RunTo(s0, events + [Finish(2, 0, a, 1)] + [Commit(2)], s2, Update(1));
    RunTo(s0, events + [Finish(2, 0, a, 1)] + [Commit(2)] + [Update(1)], s3, Commit(1));
    events := events + [Finish(2, 0, a, 1)] + [Commit(2)] + [Update(1)] + [Commit(1)];
  }

  /* ---- the worker ---- */

  datatype Claimant = Claimant(ok: bool, job: nat, fence: nat)

  /** A guarded claim that nothing interleaves with. */
  function ClaimNow(jobs: Jobs, log: seq<JobEvent>, worker: Worker, now: int, lease: int): (Jobs, seq<JobEvent>, Claimant) {
    var i := FirstEligible(jobs, map[], now, 0);
    if i == |jobs| then (jobs, log, Claimant(false, 0, 0))
    else
      var row := ClaimedJob(jobs[i], worker, now + lease);
      (jobs[i := row], log + [JobEvent(i, worker, row.fence, Claim)], Claimant(true, i, row.fence))
  }

  function CompleteNow(jobs: Jobs, log: seq<JobEvent>, job: nat, fence: nat, worker: Worker): (Jobs, seq<JobEvent>, bool) {
    if job < |jobs| && jobs[job].fence == fence && jobs[job].state.Claimed? then
      (jobs[job := DoneJob(jobs[job], fence)], log + [JobEvent(job, worker, fence, Complete)], true)
    else (jobs, log, false)
  }

  /** The three statements of a guarded claim, run with no lock in the way, are that claim. */
  lemma ClaimAlone(s: Store, t: Tx, worker: Worker, now: int, lease: int)
    requires t !in s.txs && s.locks == map[]
    ensures var s' := Step(Step(Step(s, Pick(t, Guarded, worker, now, lease)), Update(t)), Commit(t));
            var (jobs, log, c) := ClaimNow(s.jobs, s.log, worker, now, lease);
            s'.jobs == jobs && s'.log == log && s'.locks == map[] && s'.txs == s.txs[t := Ended(c.ok)]
  {
    var i := FirstEligible(s.jobs, map[], now, 0);
    var s1 := Step(s, Pick(t, Guarded, worker, now, lease));
    if i < |s.jobs| {
      assert s1 == Put(s, t, Picked(Guarded, i, worker, now, now + lease));
      var s2 := Step(s1, Update(t));
      assert s2 == Hold(s1, t, i, Claiming(i, worker, now, now + lease));
      assert s2.locks - {i} == map[];
    }
  }

  function Undone(jobs: Jobs): nat {
    if jobs == [] then 0 else Undone(jobs[..|jobs| - 1]) + (if jobs[|jobs| - 1].state.Done? then 0 else 1)
  }

  lemma {:induction false} UndoneUpdate(jobs: Jobs, j: nat, row: Job)
    requires j < |jobs|
    ensures Undone(jobs[j := row]) ==
            Undone(jobs) - (if jobs[j].state.Done? then 0 else 1) + (if row.state.Done? then 0 else 1)
    decreases |jobs|
  {
    var n := |jobs| - 1;
    if j < n {
      UndoneUpdate(jobs[..n], j, row);
      assert jobs[j := row][..n] == jobs[..n][j := row];
    } else {
      assert jobs[j := row][..n] == jobs[..n];
    }
  }

  predicate SomeEligible(jobs: Jobs, now: int) {
    exists j :: 0 <= j < |jobs| && Eligible(jobs[j], now)
  }

  datatype WorkStats = WorkStats(claims: nat, completed: nat, refused: nat, retries: nat)

  class JobTable {
    var jobs: Jobs
    var log: seq<JobEvent>

    constructor (n: nat)
      ensures jobs == Seeded(n).jobs && log == [] && JobsOk(jobs, log)
    {
      jobs, log := seq(n, _ => Fresh()), [];
    }

    method Claim(worker: Worker, now: int, lease: int) returns (c: Claimant)
      requires JobsOk(jobs, log)
      modifies this
      ensures (jobs, log, c) == ClaimNow(old(jobs), old(log), worker, now, lease)
      ensures JobsOk(jobs, log)
      ensures Undone(jobs) == Undone(old(jobs))
    {
      var i := 0;
      while i < |jobs| && !Eligible(jobs[i], now)
        invariant i <= |jobs| && FirstEligible(jobs, map[], now, 0) == FirstEligible(jobs, map[], now, i)
      {
        i := i + 1;
      }
      if i == |jobs| {
        return Claimant(false, 0, 0);
      }
      var row := jobs[i].(state := Claimed, claimedBy := worker, fence := jobs[i].fence + 1, leaseUntil := now + lease);
      assert JobOk(jobs[i], log, i);
      LogAppend(jobs, log, JobEvent(i, worker, row.fence, Action.Claim), row);
      UndoneUpdate(jobs, i, row);
      jobs := jobs[i := row];
      log := log + [JobEvent(i, worker, row.fence, Action.Claim)];
      c := Claimant(true, i, row.fence);
    }

    method Complete(job: nat, fence: nat, worker: Worker) returns (ok: bool)
      requires JobsOk(jobs, log)
      modifies this
      ensures (jobs, log, ok) == CompleteNow(old(jobs), old(log), job, fence, worker)
      ensures JobsOk(jobs, log)
      ensures Undone(jobs) == Undone(old(jobs)) - (if ok then 1 else 0)
    {
      if job >= |jobs| || jobs[job].fence != fence || !jobs[job].state.Claimed? {
        return false;
      }
      assert JobOk(jobs[job], log, job);
      LogAppend(jobs, log, JobEvent(job, worker, fence, Action.Complete), DoneJob(jobs[job], fence));
      UndoneUpdate(jobs, job, DoneJob(jobs[job], fence));
      jobs := jobs[job := DoneJob(jobs[job], fence)];
      log := log + [JobEvent(job, worker, fence, Action.Complete)];
      ok := true;
    }

    /**
     The worker's loop, alone on the queue.  `clock(k)` is the time its k-th look at the clock
     shows.  It ends: a job that is eligible when it looks is still eligible at its next claim.
     Every claim is completed, each completes one more job, and it stops only when no job is
     eligible.
     */
    method Work(worker: Worker, lease: int, clock: nat -> int) returns (st: WorkStats, ticks: nat)
      requires JobsOk(jobs, log)
      requires forall i: nat, k: nat :: i <= k ==> clock(i) <= clock(k)
      modifies this
      ensures JobsOk(jobs, log)
      ensures st.refused == 0 && st.claims == st.completed == Undone(old(jobs)) - Undone(jobs)
      ensures |log| == |old(log)| + st.claims + st.completed
      ensures !SomeEligible(jobs, clock(ticks))
    {
      st, ticks := WorkStats(0, 0, 0, 0), 0;
      var seen := false;
      while true
        invariant JobsOk(jobs, log)
        invariant st.refused == 0 && st.claims == st.completed == Undone(old(jobs)) - Undone(jobs)
        invariant |log| == |old(log)| + st.claims + st.completed
        invariant seen ==> SomeEligible(jobs, clock(ticks))
        decreases Undone(jobs), if seen then 0 else 1
      {
        var c := Claim(worker, clock(ticks), lease);
        ticks := ticks + 1;
        if !c.ok {
          if !SomeEligible(jobs, clock(ticks)) {
            return;
          }
          seen := true;
          st := st.(retries := st.retries + 1);
          continue;
        }
        st := st.(claims := st.claims + 1);
        var ok := Complete(c.job, c.fence, worker);
        st := if ok then st.(completed := st.completed + 1) else st.(refused := st.refused + 1);
        seen := false;
      }
    }
  }
}
