/**
 Ownership of one operation at the level of row locks: takeovers and attempts.

 Both are transactions of three statements: a conditional UPDATE of the operation row, which waits
 for the row lock, is decided on the committed row and holds it; the timeline INSERT, which takes
 an id from a sequence; and the COMMIT, which shows the row and the entry together.  The control
 reads the ownership instead and holds nothing.
 */
module Ownership {

  datatype Actor = Actor(name: string)

  type Tx = nat

  datatype Kind = Intent | Takeover | Attempt

  datatype Entry = Entry(id: nat, kind: Kind, actor: Actor, gen: nat)

  datatype Row = Row(owner: Actor, gen: nat, attempts: nat)

  datatype Lock = Free | By(t: Tx)

  /** `Held` is decided and holds the row, `Checked` has only read it; both remember the entry they
      are to insert, and its id (0 before the INSERT). */
  datatype Phase =
    | Held(kind: Kind, actor: Actor, gen: nat, id: nat)
    | Checked(actor: Actor, gen: nat, id: nat)
    | Ended(ok: bool)

  type Txs = map<Tx, Phase>

  datatype Store = Store(row: Row, lock: Lock, timeline: seq<Entry>, nextId: nat, txs: Txs)

  datatype Event =
    | TakeOver(t: Tx, newOwner: Actor, read: nat)
    | RecordAttempt(t: Tx, owner: Actor, gen: nat)
    | CheckThenInsert(t: Tx, owner: Actor, gen: nat)
    | Next(t: Tx)
    | Abort(t: Tx)

  /** The operation as its intent made it. */
  function Created(owner: Actor): Store {
    Store(Row(owner, 1, 0), Free, [Entry(1, Intent, owner, 1)], 2, map[])
  }

  function Put(s: Store, t: Tx, p: Phase): Store {
    s.(txs := s.txs[t := p])
  }

  /** The conditional UPDATE: it takes the row, or matches nothing. */
  function Conditional(s: Store, t: Tx, holds: bool, p: Phase): Store {
    if t in s.txs || s.lock.By? then s
    else if !holds then Put(s, t, Ended(false))
    else Put(s.(lock := By(t)), t, p)
  }

  function Insert(s: Store, t: Tx, p: Phase): Store
    requires !p.Ended?
  {
    Put(s.(nextId := s.nextId + 1), t, p.(id := s.nextId))
  }

  function Commit(s: Store, t: Tx, p: Phase): Store {
    match p
    case Held(kind, actor, gen, id) =>
      var row := if kind.Takeover? then Row(actor, s.row.gen + 1, s.row.attempts)
                 else s.row.(attempts := s.row.attempts + 1);
      Put(s.(row := row, lock := Free, timeline := s.timeline + [Entry(id, kind, actor, gen)]), t, Ended(true))
    case Checked(actor, gen, id) =>
      Put(s.(timeline := s.timeline + [Entry(id, Attempt, actor, gen)]), t, Ended(true))
    case Ended(_) => s
  }

  /** A statement that cannot run yet leaves the state as it is. */
  function Step(s: Store, e: Event): Store {
    match e
    case TakeOver(t, newOwner, read) =>
      Conditional(s, t, s.row.gen == read, Held(Takeover, newOwner, read + 1, 0))
    case RecordAttempt(t, owner, gen) =>
      Conditional(s, t, s.row.owner == owner && s.row.gen == gen, Held(Attempt, owner, gen, 0))
    case CheckThenInsert(t, owner, gen) =>
      if t in s.txs then s
      else if s.row.owner != owner || s.row.gen != gen then Put(s, t, Ended(false))
      else Put(s, t, Checked(owner, gen, 0))
    case Next(t) =>
      if t !in s.txs || s.txs[t].Ended? then s
      else if s.txs[t].id == 0 then Insert(s, t, s.txs[t])
      else Commit(s, t, s.txs[t])
    case Abort(t) =>
      if t !in s.txs || s.txs[t].Ended? then s
      else Put(s.(lock := if s.txs[t].Held? then Free else s.lock), t, Ended(false))
  }

  function Run(s: Store, events: seq<Event>): Store {
    if events == [] then s else Step(Run(s, events[..|events| - 1]), events[|events| - 1])
  }

  predicate Fenced(events: seq<Event>) {
    forall k :: 0 <= k < |events| ==> !events[k].CheckThenInsert?
  }

  /* ---- what the fenced form keeps ---- */

  function Count(timeline: seq<Entry>, kind: Kind): nat {
    if timeline == [] then 0
    else Count(timeline[..|timeline| - 1], kind) + (if timeline[|timeline| - 1].kind == kind then 1 else 0)
  }

  /** A takeover is one generation after the entry before it; an attempt is by the actor and in the
      generation of the entry before it. */
  predicate Follows(a: Entry, b: Entry) {
    && a.id < b.id
    && match b.kind
       case Intent => false
       case Takeover => b.gen == a.gen + 1
       case Attempt => b.gen == a.gen && b.actor == a.actor
  }

  predicate Linked(timeline: seq<Entry>) {
    && timeline != [] && timeline[0].kind == Intent && timeline[0].gen == 1
    && forall k {:trigger timeline[k]} :: 0 < k < |timeline| ==> Follows(timeline[k - 1], timeline[k])
  }

  predicate RowOk(row: Row, timeline: seq<Entry>) {
    && Linked(timeline)
    && row.owner == timeline[|timeline| - 1].actor && row.gen == timeline[|timeline| - 1].gen
    && row.attempts == Count(timeline, Attempt) && row.gen == 1 + Count(timeline, Takeover)
  }

  /** What the holder of the row will insert fits the committed row. */
  predicate HeldOk(s: Store, t: Tx, p: Phase)
    requires p.Held?
  {
    && s.lock == By(t)
    && (p.id == 0 || s.timeline == [] || s.timeline[|s.timeline| - 1].id < p.id < s.nextId)
    && match p.kind
       case Intent => false
       case Takeover => p.gen == s.row.gen + 1
       case Attempt => p.gen == s.row.gen && p.actor == s.row.owner
  }

  ghost predicate Inv(s: Store) {
    && RowOk(s.row, s.timeline)
    && s.timeline[|s.timeline| - 1].id < s.nextId
    && (forall t :: t in s.txs ==> !s.txs[t].Checked?)
    && (forall t :: t in s.txs && s.txs[t].Held? ==> HeldOk(s, t, s.txs[t]))
    && (s.lock.By? ==> s.lock.t in s.txs && s.txs[s.lock.t].Held?)
  }

  lemma AppendCount(timeline: seq<Entry>, e: Entry, kind: Kind)
    ensures Count(timeline + [e], kind) == Count(timeline, kind) + (if e.kind == kind then 1 else 0)
  {
    assert (timeline + [e])[..|timeline|] == timeline;
  }

  lemma AppendLinked(timeline: seq<Entry>, e: Entry)
    requires Linked(timeline) && Follows(timeline[|timeline| - 1], e)
    ensures Linked(timeline + [e])
  {
    var longer := timeline + [e];
    forall k {:trigger longer[k]} | 0 < k < |longer| ensures Follows(longer[k - 1], longer[k]) {
      if k < |timeline| {
        assert Follows(timeline[k - 1], timeline[k]);
      }
    }
  }

  lemma CommitKeeps(s: Store, t: Tx)
    requires Inv(s) && t in s.txs && s.txs[t].Held? && s.txs[t].id != 0
    ensures Inv(Commit(s, t, s.txs[t]))
  {
    var p := s.txs[t];
    var e := Entry(p.id, p.kind, p.actor, p.gen);
    AppendLinked(s.timeline, e);
    AppendCount(s.timeline, e, Attempt);
    AppendCount(s.timeline, e, Takeover);
  }

  lemma StepKeeps(s: Store, e: Event)
    requires Inv(s) && !e.CheckThenInsert?
    ensures Inv(Step(s, e))
  {
    if e.Next? && e.t in s.txs && s.txs[e.t].Held? && s.txs[e.t].id != 0 {
      CommitKeeps(s, e.t);
    }
  }

  lemma {:induction false} RunKeeps(owner: Actor, events: seq<Event>)
    requires Fenced(events)
    ensures Inv(Run(Created(owner), events))
  {
    if events == [] {
      var first := [Entry(1, Intent, owner, 1)];
      assert first[..0] == [];
    } else {
      var n := |events| - 1;
      RunKeeps(owner, events[..n]);
      StepKeeps(Run(Created(owner), events[..n]), events[n]);
    }
  }

  lemma {:induction false} LinkedRises(timeline: seq<Entry>, i: nat, j: nat)
    requires Linked(timeline) && i <= j < |timeline|
    ensures timeline[i].gen <= timeline[j].gen
    ensures timeline[i].gen == timeline[j].gen ==> timeline[i].actor == timeline[j].actor
    ensures i < j ==> timeline[i].id < timeline[j].id
    ensures i < j && timeline[j].kind == Takeover ==> timeline[i].gen < timeline[j].gen
    decreases j
  {
    if i < j {
      assert Follows(timeline[j - 1], timeline[j]);
      LinkedRises(timeline, i, j - 1);
    }
  }

  /**
   Every interleaving of takeovers and fenced attempts leaves a timeline whose generations never
   fall, in id order and in commit order alike; a generation belongs to one actor; nothing of an
   earlier generation follows a takeover; and the row agrees with the timeline.
   */
  lemma FencedTimeline(owner: Actor, events: seq<Event>)
    requires Fenced(events)
    ensures var s := Run(Created(owner), events);
            && (forall i, j :: 0 <= i < j < |s.timeline| ==>
                  && s.timeline[i].id < s.timeline[j].id
                  && s.timeline[i].gen <= s.timeline[j].gen
                  && (s.timeline[j].kind == Takeover ==> s.timeline[i].gen < s.timeline[j].gen)
                  && (s.timeline[i].gen == s.timeline[j].gen ==> s.timeline[i].actor == s.timeline[j].actor))
            && s.row.attempts == Count(s.timeline, Attempt)
            && s.row.gen == 1 + Count(s.timeline, Takeover)
            && s.timeline != [] && s.row.owner == s.timeline[|s.timeline| - 1].actor
  {
    RunKeeps(owner, events);
    var timeline := Run(Created(owner), events).timeline;
    forall i, j | 0 <= i < j < |timeline|
      ensures && timeline[i].id < timeline[j].id
              && timeline[i].gen <= timeline[j].gen
              && (timeline[j].kind == Takeover ==> timeline[i].gen < timeline[j].gen)
              && (timeline[i].gen == timeline[j].gen ==> timeline[i].actor == timeline[j].actor)
    {
      LinkedRises(timeline, i, j);
    }
  }

  /* ---- the control ---- */

  lemma RunTo(s: Store, events: seq<Event>, s1: Store, e: Event)
    requires Run(s, events) == s1
    ensures Run(s, events + [e]) == Step(s1, e)
  {
    assert (events + [e])[..|events|] == events;
  }

  /** The owner checks, another actor takes over, and the old owner's attempt is recorded after the
      takeover under its old generation. */
  lemma CheckThenInsertFallsBack(a: Actor, b: Actor) returns (events: seq<Event>)
    requires a != b
    ensures var s := Run(Created(a), events);
            |s.timeline| == 3 && s.timeline[1] == Entry(2, Takeover, b, 2) && s.timeline[2] == Entry(3, Attempt, a, 1)
  {
    var s0 := Created(a);
    var e1, e2, e3, e4, e5, e6 := CheckThenInsert(0, a, 1), TakeOver(1, b, 1), Next(1), Next(1), Next(0), Next(0);
    var s1 := Put(s0, 0, Checked(a, 1, 0));
    var s2 := Put(s1.(lock := By(1)), 1, Held(Takeover, b, 2, 0));
    var s3 := Put(s2.(nextId := 3), 1, Held(Takeover, b, 2, 2));
    var s4 := Put(s3.(row := Row(b, 2, 0), lock := Free, timeline := s3.timeline + [Entry(2, Takeover, b, 2)]), 1, Ended(true));
    var s5 := Put(s4.(nextId := 4), 0, Checked(a, 1, 3));
    RunTo(s0, [], s0, e1);
    RunTo(s0, [] + [e1], s1, e2);
    RunTo(s0, [] + [e1] + [e2], s2, e3);
    RunTo(s0, [] + [e1] + [e2] + [e3], s3, e4);
    RunTo(s0, [] + [e1] + [e2] + [e3] + [e4], s4, e5);
    RunTo(s0, [] + [e1] + [e2] + [e3] + [e4] + [e5], s5, e6);
    events := [] + [e1] + [e2] + [e3] + [e4] + [e5] + [e6];
  }
}
