/**
 Stale revision rejection at the level of row locks.

 A writer reads the committed revision and later runs an UPDATE over what it read.  The UPDATE
 waits for the row lock, compares, and holds the row until COMMIT, which publishes the new revision
 and its ledger entry together.
 */
module Revisions {

  type Writer = nat

  /** Where a writer is: it holds a revision it read, or the row lock with that revision still
      uncommitted, or the outcome of its last write. */
  datatype Phase = Idle | Holding(read: nat) | Writing(read: nat) | Won | Lost

  datatype Store = Store(revision: nat, ledger: seq<nat>, lock: Lock, phases: map<Writer, Phase>)

  datatype Lock = Free | By(writer: Writer)

  datatype Event =
    | Read(w: Writer)
    | Update(w: Writer, blind: bool)
    | Commit(w: Writer, blind: bool)
    | Abort(w: Writer)

  const SEEDED := Store(0, [], Free, map[])

  function PhaseOf(s: Store, w: Writer): Phase {
    if w in s.phases then s.phases[w] else Idle
  }

  function At(s: Store, w: Writer, p: Phase): Store {
    s.(phases := s.phases[w := p])
  }

  /** A step that is not enabled leaves the state as it is: the writer waits. */
  function Step(s: Store, e: Event): Store {
    var p := PhaseOf(s, e.w);
    match e
    case Read(w) => if p.Writing? then s else At(s, w, Holding(s.revision))
    case Update(w, blind) =>
      if !p.Holding? || !s.lock.Free? then s
      else if !blind && p.read != s.revision then At(s, w, Lost)
      else At(s.(lock := By(w)), w, Writing(p.read))
    case Commit(w, blind) =>
      if !p.Writing? then s
      else
        var next := if blind then p.read + 1 else s.revision + 1;
        At(s.(revision := next, ledger := s.ledger + [p.read + 1], lock := Free), w, Won)
    case Abort(w) => if !p.Writing? then s else At(s.(lock := Free), w, Idle)
  }

  function Run(s: Store, events: seq<Event>): Store {
    if events == [] then s else Step(Run(s, events[..|events| - 1]), events[|events| - 1])
  }

  predicate CompareAndSet(events: seq<Event>) {
    forall k :: 0 <= k < |events| ==> (events[k].Update? ==> !events[k].blind) && (events[k].Commit? ==> !events[k].blind)
  }

  /** The lock is held by the one writer that writes, over the committed revision; the ledger is
      1, 2, ..., revision. */
  predicate Inv(s: Store) {
    && (forall w :: w in s.phases && s.phases[w].Writing? ==> s.lock == By(w) && s.phases[w].read == s.revision)
    && (s.lock.By? ==> PhaseOf(s, s.lock.writer).Writing?)
    && |s.ledger| == s.revision
    && (forall k :: 0 <= k < |s.ledger| ==> s.ledger[k] == k + 1)
  }

  lemma StepKeeps(s: Store, e: Event)
    requires Inv(s) && CompareAndSet([e])
    ensures Inv(Step(s, e))
  {
    assert [e][0] == e;
  }

  /** Under compare-and-set the ledger of a fragment holds each of 1..revision exactly once, in
      order, in every reachable state. */
  lemma {:induction false} LedgerCounts(events: seq<Event>)
    requires CompareAndSet(events)
    ensures Inv(Run(SEEDED, events))
  {
    if events != [] {
      var n := |events| - 1;
      LedgerCounts(events[..n]);
      StepKeeps(Run(SEEDED, events[..n]), events[n]);
    }
  }

  /* ---- a round ---- */

  /** The steps of a round after everyone has read: the writers write, commit or abort. */
  predicate InRound(e: Event, writers: set<Writer>) {
    e.w in writers && !e.Read? && CompareAndSet([e])
  }

  ghost function Winners(s: Store, writers: set<Writer>): set<Writer> {
    set w | w in writers && PhaseOf(s, w).Won?
  }

  /** At any point of a round that began at `base`: before the win every writer still holds `base`
      or has given up; after it there is one winner and nobody else can win. */
  ghost predicate Round(s: Store, base: nat, writers: set<Writer>) {
    && (forall w :: w in writers ==>
          match PhaseOf(s, w)
          case Idle => true
          case Holding(read) => read == base
          case Writing(read) => read == base && s.revision == base
          case Won => s.revision == base + 1
          case Lost => s.revision == base + 1)
    && (s.revision == base || s.revision == base + 1)
    && (s.revision == base + 1 ==> exists w :: w in writers && Winners(s, writers) == {w})
    && (s.revision == base ==> Winners(s, writers) == {})
  }

  lemma RoundStep(s: Store, e: Event, base: nat, writers: set<Writer>)
    requires Inv(s) && Round(s, base, writers) && InRound(e, writers)
    ensures Round(Step(s, e), base, writers)
  {
    assert [e][0] == e;
    var s' := Step(s, e);
    if e.Commit? && PhaseOf(s, e.w).Writing? {
      assert Winners(s', writers) == {e.w};
    } else {
      assert Winners(s', writers) == Winners(s, writers);
    }
  }

  lemma {:induction false} RoundRun(s: Store, events: seq<Event>, base: nat, writers: set<Writer>)
    requires Inv(s) && Round(s, base, writers)
    requires forall k :: 0 <= k < |events| ==> InRound(events[k], writers)
    ensures Inv(Run(s, events)) && Round(Run(s, events), base, writers)
  {
    if events != [] {
      var n := |events| - 1;
      RoundRun(s, events[..n], base, writers);
      StepKeeps(Run(s, events[..n]), events[n]);
      RoundStep(Run(s, events[..n]), events[n], base, writers);
    }
  }

  /**
   Any number of writers that all read the same revision, in any interleaving of their updates,
   commits and aborts.  When all of them have an outcome, exactly one of them has won, the others
   have lost, and the revision rose by one.
   */
  lemma ExactlyOneWins(s: Store, events: seq<Event>, writers: set<Writer>)
    requires Inv(s) && writers != {}
    requires forall w :: w in writers ==> PhaseOf(s, w) == Holding(s.revision)
    requires forall k :: 0 <= k < |events| ==> InRound(events[k], writers)
    requires forall w :: w in writers ==> PhaseOf(Run(s, events), w).Won? || PhaseOf(Run(s, events), w).Lost?
    ensures Run(s, events).revision == s.revision + 1
    ensures exists w :: w in writers && Winners(Run(s, events), writers) == {w}
  {
    assert Winners(s, writers) == {};
    RoundRun(s, events, s.revision, writers);
    var w :| w in writers;
    assert Run(s, events).revision == s.revision + 1;
  }

  /** Two blind writers over the same read: revision 1 is in the ledger twice. */
  lemma BlindWritesDuplicate() returns (events: seq<Event>)
    ensures var s := Run(SEEDED, events);
            s.revision == 1 && s.ledger == [1, 1]
  {
    var e0, e1, e2, e3, e4, e5 :=
      Read(0), Read(1), Update(0, true), Commit(0, true), Update(1, true), Commit(1, true);
    var s1 := At(SEEDED, 0, Holding(0));
    var s2 := At(s1, 1, Holding(0));
    var s3 := At(s2.(lock := By(0)), 0, Writing(0));
    var s4 := At(s3.(lock := Free, revision := 1, ledger := [1]), 0, Won);
    var s5 := At(s4.(lock := By(1)), 1, Writing(0));
    RunTo([], SEEDED, e0, s1);
    RunTo([] + [e0], s1, e1, s2);
    RunTo([] + [e0] + [e1], s2, e2, s3);
    RunTo([] + [e0] + [e1] + [e2], s3, e3, s4);
    RunTo([] + [e0] + [e1] + [e2] + [e3], s4, e4, s5);
    events := [] + [e0] + [e1] + [e2] + [e3] + [e4] + [e5];
    RunTo([] + [e0] + [e1] + [e2] + [e3] + [e4], s5, e5, Step(s5, e5));
  }

  lemma RunTo(events: seq<Event>, s: Store, e: Event, s': Store)
    requires Run(SEEDED, events) == s && Step(s, e) == s'
    ensures Run(SEEDED, events + [e]) == s'
  {
    assert (events + [e])[..|events|] == events;
  }

  /* ---- the race harness ---- */

  datatype Stats = Stats(wins: nat, conflicts: nat, busy: nat)

  /** One fragment row and its ledger, as the transactions of one writer at a time see them. */
  class Fragment {
    var revision: nat
    var ledger: seq<nat>

    constructor ()
      ensures revision == 0 && ledger == []
    {
      revision, ledger := 0, [];
    }

    /** One update transaction, its row lock granted. */
    method UpdateFragment(read: nat, blind: bool) returns (won: bool)
      modifies this
      ensures won <==> blind || old(revision) == read
      ensures won ==> revision == read + 1 && ledger == old(ledger) + [read + 1]
      ensures !won ==> revision == old(revision) && ledger == old(ledger)
    {
      if !blind && revision != read {
        return false;
      }
      revision := read + 1;
      ledger := ledger + [read + 1];
      won := true;
    }
  }

  /** How many of the first `n` writers in the round give up on a busy database. */
  function GaveUp(busy: seq<nat>, n: nat, retryBusy: bool): nat
    requires n <= |busy|
  {
    if n == 0 then 0 else GaveUp(busy, n - 1, retryBusy) + (if busy[n - 1] > 0 && !retryBusy then 1 else 0)
  }

  /** One round: all writers hold `read`, and write in the order of their commits.  `busy[w]` is how
      often the database was busy before the write of writer `w` was decided. */
  method RaceRound(f: Fragment, busy: seq<nat>, retryBusy: bool, blind: bool) returns (st: Stats)
    modifies f
    ensures st.wins + st.conflicts + GaveUp(busy, |busy|, retryBusy) == |busy|
    ensures !blind ==> st.wins == f.revision - old(f.revision)
    ensures !blind ==> st.wins == if GaveUp(busy, |busy|, retryBusy) == |busy| then 0 else 1
    ensures !blind ==> f.ledger == old(f.ledger) + (if st.wins == 1 then [old(f.revision) + 1] else [])
  {
    var read := f.revision;
    st := Stats(0, 0, 0);
    for w := 0 to |busy|
      invariant st.wins + st.conflicts + GaveUp(busy, w, retryBusy) == w
      invariant !blind ==> f.revision == read + st.wins
      invariant !blind ==> st.wins == if GaveUp(busy, w, retryBusy) == w then 0 else 1
      invariant !blind ==> f.ledger == old(f.ledger) + (if st.wins == 1 then [read + 1] else [])
    {
      if busy[w] > 0 && !retryBusy {
        st := st.(busy := st.busy + 1);
      } else {
        st := st.(busy := st.busy + busy[w]);
        var won := f.UpdateFragment(read, blind);
        st := if won then st.(wins := st.wins + 1) else st.(conflicts := st.conflicts + 1);
      }
    }
  }

  /** Every round in which some writer gets through has one winner, so the wins are the rise in the
      revision. */
  method RaceRevisions(f: Fragment, rounds: seq<seq<nat>>, retryBusy: bool, blind: bool) returns (st: Stats)
    requires f.ledger == seq(f.revision, k => k + 1)
    modifies f
    ensures !blind ==> st.wins == f.revision - old(f.revision)
    ensures !blind ==> f.ledger == seq(f.revision, k => k + 1)
    ensures !blind && retryBusy && (forall r :: 0 <= r < |rounds| ==> rounds[r] != []) ==> st.wins == |rounds|
  {
    st := Stats(0, 0, 0);
    for r := 0 to |rounds|
      invariant !blind ==> st.wins == f.revision - old(f.revision)
      invariant !blind ==> f.ledger == seq(f.revision, k => k + 1)
      invariant !blind && retryBusy && (forall i :: 0 <= i < r ==> rounds[i] != []) ==> st.wins == r
    {
      var round := RaceRound(f, rounds[r], retryBusy, blind);
      NobodyGivesUp(rounds[r], |rounds[r]|);
      st := Stats(st.wins + round.wins, st.conflicts + round.conflicts, st.busy + round.busy);
    }
  }

  lemma {:induction false} NobodyGivesUp(busy: seq<nat>, n: nat)
    requires n <= |busy|
    ensures GaveUp(busy, n, true) == 0
  {
    if n > 0 {
      NobodyGivesUp(busy, n - 1);
    }
  }
}
