/**
 All-or-nothing publication at the level of row locks.

 A publication is a transaction of many statements: it looks its name up, compares its sources one
 by one under share locks, inserts the release, its sources and its artifacts, and commits.  The
 events say which transaction runs its next statement, so that statements of publications and of
 revision writers interleave in every order.  A statement that has to wait for a lock leaves the
 state as it is.
 */
module Publication {

  datatype Name = Name(text: string)

  type Tx = nat

  datatype Pin = Pin(fragment: Name, revision: int)

  /** The pins stand in the order of their sorted names. */
  datatype Request = Request(release: Name, pins: seq<Pin>, artifacts: nat, failAt: nat, noSourceLock: bool)

  /** The content identity of a release: what is hashed, which the hash is taken to keep apart. */
  datatype Digest = Digest(release: Name, artifacts: nat, pins: seq<Pin>)

  datatype Release = Release(id: nat, digest: Digest, count: nat, sources: seq<Pin>, artifacts: seq<nat>)

  datatype Answer = Created(id: nat) | Existing(id: nat) | Conflict(id: nat) | Stale | Failed

  /** Where a transaction is.  `Filling` carries the rows it inserted and has not committed;
      `Writing` is a revision writer that holds its fragment's row. */
  datatype Phase =
    | Begun(req: Request)
    | Checking(req: Request, k: nat)
    | Filling(req: Request, row: Release)
    | Lookup(req: Request)
    | Done(req: Request, answer: Answer)
    | Writing(fragment: Name, revision: int)
    | Wrote

  type Fragments = map<Name, int>
  type Releases = map<Name, Release>
  type Txs = map<Tx, Phase>

  datatype Store = Store(
    fragments: Fragments, releases: Releases, ledger: seq<(Name, nat)>, nextId: nat, txs: Txs)

  datatype Event =
    | Begin(t: Tx, req: Request)
    | Write(t: Tx, fragment: Name, revision: int)
    | Next(t: Tx)
    | Abort(t: Tx)

  function DigestOf(req: Request): Digest {
    Digest(req.release, req.artifacts, req.pins)
  }

  function Seeded(fragments: Fragments): Store {
    Store(fragments, map[], [], 1, map[])
  }

  /* ---- locks ---- */

  /** The transaction keeps a share lock on the fragment. */
  predicate Shares(p: Phase, fragment: Name) {
    match p
    case Checking(req, k) => !req.noSourceLock && exists i :: 0 <= i < k && i < |req.pins| && req.pins[i].fragment == fragment
    case Filling(req, _) => !req.noSourceLock && exists i :: 0 <= i < |req.pins| && req.pins[i].fragment == fragment
    case _ => false
  }

  predicate SharedBy(txs: Txs, fragment: Name) {
    exists t :: t in txs && Shares(txs[t], fragment)
  }

  predicate WrittenBy(txs: Txs, fragment: Name) {
    exists t :: t in txs && txs[t].Writing? && txs[t].fragment == fragment
  }

  /** Another transaction inserted a release of this name and has not ended. */
  predicate NameTaken(txs: Txs, name: Name) {
    exists t :: t in txs && txs[t].Filling? && txs[t].req.release == name
  }

  /* ---- statements ---- */

  function Put(s: Store, t: Tx, p: Phase): Store {
    s.(txs := s.txs[t := p])
  }

  /** SELECT revision ... FOR SHARE, and the comparison with the pin. */
  function Compare(s: Store, t: Tx, req: Request, k: nat): Store
    requires k < |req.pins|
  {
    var pin := req.pins[k];
    if !req.noSourceLock && WrittenBy(s.txs, pin.fragment) then s
    else if pin.fragment !in s.fragments then Put(s, t, Done(req, Failed))
    else if s.fragments[pin.fragment] != pin.revision then Put(s, t, Done(req, Stale))
    else Put(s, t, Checking(req, k + 1))
  }

  /** INSERT INTO release: waits for a transaction that inserted the name, fails once the name is
      committed, and takes an id either way. */
  function InsertRelease(s: Store, t: Tx, req: Request): Store {
    if NameTaken(s.txs, req.release) then s
    else if req.release in s.releases then Put(s.(nextId := s.nextId + 1), t, Lookup(req))
    else Put(s.(nextId := s.nextId + 1), t, Filling(req, Release(s.nextId, DigestOf(req), req.artifacts, [], [])))
  }

  function InsertPart(s: Store, t: Tx, req: Request, row: Release): Store {
    if |row.sources| < |req.pins| then
      Put(s, t, Filling(req, row.(sources := row.sources + [req.pins[|row.sources|]])))
    else if |row.artifacts| < req.artifacts then
      if |row.artifacts| + 1 == req.failAt then Put(s, t, Done(req, Failed))
      else Put(s, t, Filling(req, row.(artifacts := row.artifacts + [|row.artifacts| + 1])))
    else
      Put(s.(releases := s.releases[req.release := row], ledger := s.ledger + [(req.release, row.id)]),
          t, Done(req, Created(row.id)))
  }

  /** The release a retry finds by its name. */
  function ExistingRelease(releases: Releases, req: Request): Answer {
    if req.release !in releases then Failed
    else if releases[req.release].digest != DigestOf(req) then Conflict(releases[req.release].id)
    else Existing(releases[req.release].id)
  }

  function NextOf(s: Store, t: Tx, p: Phase): Store {
    match p
    case Begun(req) => Put(s, t, if req.release in s.releases then Lookup(req) else Checking(req, 0))
    case Checking(req, k) => if k < |req.pins| then Compare(s, t, req, k) else InsertRelease(s, t, req)
    case Filling(req, row) => InsertPart(s, t, req, row)
    case Lookup(req) => Put(s, t, Done(req, ExistingRelease(s.releases, req)))
    case Writing(fragment, revision) => Put(s.(fragments := s.fragments[fragment := revision]), t, Wrote)
    case Done(_, _) => s
    case Wrote => s
  }

  function AbortOf(s: Store, t: Tx, p: Phase): Store {
    match p
    case Done(_, _) => s
    case Wrote => s
    case Writing(_, _) => Put(s, t, Wrote)
    case Begun(req) => Put(s, t, Done(req, Failed))
    case Checking(req, _) => Put(s, t, Done(req, Failed))
    case Filling(req, _) => Put(s, t, Done(req, Failed))
    case Lookup(req) => Put(s, t, Done(req, Failed))
  }

  function Step(s: Store, e: Event): Store {
    match e
    case Begin(t, req) => if t in s.txs then s else Put(s, t, Begun(req))
    case Write(t, fragment, revision) =>
      if t in s.txs || fragment !in s.fragments || SharedBy(s.txs, fragment) || WrittenBy(s.txs, fragment) then s
      else Put(s, t, Writing(fragment, revision))
    case Next(t) => if t in s.txs then NextOf(s, t, s.txs[t]) else s
    case Abort(t) => if t in s.txs then AbortOf(s, t, s.txs[t]) else s
  }

  function Run(s: Store, events: seq<Event>): Store {
    if events == [] then s else Step(Run(s, events[..|events| - 1]), events[|events| - 1])
  }

  /* ---- what every statement keeps ---- */

  predicate Current(fragments: Fragments, pins: seq<Pin>) {
    forall i :: 0 <= i < |pins| ==> pins[i].fragment in fragments && fragments[pins[i].fragment] == pins[i].revision
  }

  /** The rows inserted so far are the request's, in order. */
  predicate Partial(row: Release, req: Request) {
    && row.digest == DigestOf(req) && row.count == req.artifacts
    && |row.sources| <= |req.pins| && row.sources == req.pins[..|row.sources|]
    && |row.artifacts| <= req.artifacts
    && (forall i :: 0 <= i < |row.artifacts| ==> row.artifacts[i] == i + 1)
    && (row.artifacts != [] ==> row.sources == req.pins)
    && (Injected(req) ==> |row.artifacts| < req.failAt)
  }

  /** The publication fails before one of its artifacts. */
  predicate Injected(req: Request) {
    0 < req.failAt <= req.artifacts
  }

  predicate Complete(name: Name, row: Release) {
    && row.digest == Digest(name, row.count, row.sources)
    && |row.artifacts| == row.count
    && (forall i :: 0 <= i < |row.artifacts| ==> row.artifacts[i] == i + 1)
  }

  /** What a share lock gives: the pins compared so far are still current. */
  predicate PinsHeld(fragments: Fragments, p: Phase) {
    match p
    case Checking(req, k) => k <= |req.pins| && (!req.noSourceLock ==> Current(fragments, req.pins[..k]))
    case Filling(req, row) => Partial(row, req) && (!req.noSourceLock ==> Current(fragments, req.pins))
    case _ => true
  }

  predicate Answered(releases: Releases, p: Phase) {
    p.Done? ==>
      match p.answer
      case Created(id) => p.req.release in releases && releases[p.req.release].id == id
                          && releases[p.req.release].digest == DigestOf(p.req)
      case Existing(id) => p.req.release in releases && releases[p.req.release].id == id
                           && releases[p.req.release].digest == DigestOf(p.req)
      case Conflict(id) => p.req.release in releases && releases[p.req.release].id == id
                           && releases[p.req.release].digest != DigestOf(p.req)
      case Stale => true
      case Failed => true
  }

  ghost predicate PinsOk(fragments: Fragments, txs: Txs) {
    forall t :: t in txs ==> PinsHeld(fragments, txs[t])
  }

  /** A row written by one transaction is neither shared nor written by another. */
  ghost predicate LocksOk(txs: Txs) {
    forall t, u :: t in txs && u in txs && txs[t].Writing? ==>
      !Shares(txs[u], txs[t].fragment)
      && (txs[u].Writing? && txs[u].fragment == txs[t].fragment ==> t == u)
  }

  predicate SameName(p: Phase, q: Phase) {
    p.Filling? && q.Filling? && p.req.release == q.req.release
  }

  predicate SameId(p: Phase, q: Phase) {
    p.Filling? && q.Filling? && p.row.id == q.row.id
  }

  predicate Creates(p: Phase, name: Name) {
    p.Done? && p.answer.Created? && p.req.release == name
  }

  /** A name is inserted by at most one live transaction, and only while it is not committed; a
      looked-up name is committed. */
  ghost predicate NamesOk(releases: Releases, txs: Txs) {
    && (forall t, u :: t in txs && u in txs && SameName(txs[t], txs[u]) ==> t == u)
    && (forall t :: t in txs && txs[t].Filling? ==> txs[t].req.release !in releases)
    && (forall t :: t in txs && txs[t].Lookup? ==> txs[t].req.release in releases)
  }

  ghost predicate AnswersOk(releases: Releases, txs: Txs) {
    && (forall t :: t in txs ==> Answered(releases, txs[t]))
    && (forall t, u, name :: t in txs && u in txs && Creates(txs[t], name) && Creates(txs[u], name) ==> t == u)
  }

  /** Ids are taken from a sequence and used once. */
  ghost predicate IdsOk(releases: Releases, nextId: nat, txs: Txs) {
    && (forall n :: n in releases ==> releases[n].id < nextId)
    && (forall n, m :: n in releases && m in releases && releases[n].id == releases[m].id ==> n == m)
    && (forall t :: t in txs && txs[t].Filling? ==> txs[t].row.id < nextId)
    && (forall t, u :: t in txs && u in txs && SameId(txs[t], txs[u]) ==> t == u)
    && (forall t, n :: t in txs && txs[t].Filling? && n in releases ==> txs[t].row.id != releases[n].id)
  }

  /** Every release is complete, and the ledger names each once. */
  ghost predicate ReleasesOk(releases: Releases, ledger: seq<(Name, nat)>) {
    && (forall n :: n in releases ==> Complete(n, releases[n]))
    && (forall k :: 0 <= k < |ledger| ==> ledger[k].0 in releases && releases[ledger[k].0].id == ledger[k].1)
    && (forall j, k :: 0 <= j < k < |ledger| ==> ledger[j].0 != ledger[k].0)
    && (forall n :: n in releases ==> exists k :: 0 <= k < |ledger| && ledger[k].0 == n)
  }

  ghost predicate Inv(s: Store) {
    && PinsOk(s.fragments, s.txs) && LocksOk(s.txs)
    && NamesOk(s.releases, s.txs) && AnswersOk(s.releases, s.txs)
    && IdsOk(s.releases, s.nextId, s.txs) && ReleasesOk(s.releases, s.ledger)
  }

  /* ---- one step ---- */

  /** The event is the COMMIT of a publication that has inserted everything. */
  predicate Commits(s: Store, e: Event) {
    && e.Next? && e.t in s.txs && s.txs[e.t].Filling?
    && |s.txs[e.t].row.sources| >= |s.txs[e.t].req.pins|
    && |s.txs[e.t].row.artifacts| >= s.txs[e.t].req.artifacts
  }

  /** A transaction inserts a release under a new id and a free name, or goes on with its own. */
  predicate Fills(s: Store, t: Tx, p: Phase, nextId': nat)
    requires p.Filling?
  {
    || (t in s.txs && s.txs[t].Filling? && p.req.release == s.txs[t].req.release && p.row.id == s.txs[t].row.id)
    || (p.row.id == s.nextId < nextId' && !NameTaken(s.txs, p.req.release) && p.req.release !in s.releases)
  }

  /** What a transaction's new phase may be when no release is committed. */
  predicate Moves(s: Store, t: Tx, p: Phase, nextId': nat) {
    && (p.Filling? ==> Fills(s, t, p, nextId'))
    && (p.Lookup? ==> p.req.release in s.releases)
    && (p.Done? ==> p.answer.Stale? || p.answer.Failed?
                    || (!p.answer.Created? && p.answer == ExistingRelease(s.releases, p.req)))
  }

  /** A statement that does not commit a release moves one transaction and leaves the releases. */
  lemma Shape(s: Store, e: Event)
    requires !Commits(s, e)
    ensures MovesOne(s, e.t, Step(s, e))
  {
    if e.Next? && e.t in s.txs {
      NextShape(s, e.t);
    }
  }

  /** The releases stay, and one transaction moves or none. */
  predicate MovesOne(s: Store, t: Tx, s': Store) {
    && s'.releases == s.releases && s'.ledger == s.ledger && s'.nextId >= s.nextId
    && (s'.txs == s.txs
        || (t in s'.txs && s'.txs == s.txs[t := s'.txs[t]] && Moves(s, t, s'.txs[t], s'.nextId)))
  }

  lemma NextShape(s: Store, t: Tx)
    requires t in s.txs && !Commits(s, Next(t))
    ensures MovesOne(s, t, NextOf(s, t, s.txs[t]))
  {
    var p := s.txs[t];
    if p.Checking? {
      if p.k < |p.req.pins| {
        CompareShape(s, t, p.req, p.k);
      } else {
        InsertShape(s, t, p.req);
      }
    } else if p.Filling? {
      PartShape(s, t, p.req, p.row);
    }
  }

  lemma CompareShape(s: Store, t: Tx, req: Request, k: nat)
    requires k < |req.pins|
    ensures MovesOne(s, t, Compare(s, t, req, k))
  {
  }

  lemma InsertShape(s: Store, t: Tx, req: Request)
    ensures MovesOne(s, t, InsertRelease(s, t, req))
  {
  }

  lemma PartShape(s: Store, t: Tx, req: Request, row: Release)
    requires t in s.txs && s.txs[t] == Filling(req, row) && !Commits(s, Next(t))
    ensures MovesOne(s, t, InsertPart(s, t, req, row))
  {
  }

  lemma CommitShape(s: Store, e: Event)
    requires Commits(s, e)
    ensures var s', p := Step(s, e), s.txs[e.t];
            && s'.fragments == s.fragments && s'.nextId == s.nextId
            && s'.releases == s.releases[p.req.release := p.row]
            && s'.ledger == s.ledger + [(p.req.release, p.row.id)]
            && s'.txs == s.txs[e.t := Done(p.req, Created(p.row.id))]
  {
  }

  lemma KeepsPins(s: Store, e: Event)
    requires PinsOk(s.fragments, s.txs) && LocksOk(s.txs)
    ensures var s' := Step(s, e); PinsOk(s'.fragments, s'.txs)
  {
    if e.Next? && e.t in s.txs {
      var p := s.txs[e.t];
      assert PinsHeld(s.fragments, p);
      match p
      case Writing(f, r) => WriteKeepsPins(s.fragments, s.txs, e.t);
      case Checking(req, k) =>
        if k < |req.pins| {
          CompareKeepsPins(s, e.t, req, k);
        } else {
          assert req.pins[..k] == req.pins;
        }
      case Filling(req, row) => PartKeepsPins(s, e.t, req, row);
      case Begun(req) =>
        assert req.pins[..0] == [];
      case Lookup(_) =>
      case Done(_, _) =>
      case Wrote =>
    }
  }

  lemma CompareKeepsPins(s: Store, t: Tx, req: Request, k: nat)
    requires PinsOk(s.fragments, s.txs) && k < |req.pins| && PinsHeld(s.fragments, Checking(req, k))
    ensures Compare(s, t, req, k).fragments == s.fragments && PinsOk(s.fragments, Compare(s, t, req, k).txs)
  {
    assert req.pins[..k + 1] == req.pins[..k] + [req.pins[k]];
  }

  lemma PartKeepsPins(s: Store, t: Tx, req: Request, row: Release)
    requires PinsOk(s.fragments, s.txs) && PinsHeld(s.fragments, Filling(req, row))
    ensures InsertPart(s, t, req, row).fragments == s.fragments && PinsOk(s.fragments, InsertPart(s, t, req, row).txs)
  {
    if |row.sources| < |req.pins| {
      assert req.pins[..|row.sources| + 1] == row.sources + [req.pins[|row.sources|]];
    } else {
      assert req.pins[..|row.sources|] == req.pins;
    }
  }

  lemma WriteKeepsPins(fragments: Fragments, txs: Txs, t: Tx)
    requires PinsOk(fragments, txs) && LocksOk(txs) && t in txs && txs[t].Writing?
    ensures PinsOk(fragments[txs[t].fragment := txs[t].revision], txs[t := Wrote])
  {
    forall u | u in txs && u != t
      ensures PinsHeld(fragments[txs[t].fragment := txs[t].revision], txs[u])
    {
      assert PinsHeld(fragments, txs[u]) && !Shares(txs[u], txs[t].fragment);
      UnsharedWrite(fragments, txs[u], txs[t].fragment, txs[t].revision);
    }
  }

  lemma UnsharedWrite(fragments: Fragments, p: Phase, f: Name, revision: int)
    requires PinsHeld(fragments, p) && !Shares(p, f)
    ensures PinsHeld(fragments[f := revision], p)
  {
    if p.Checking? && !p.req.noSourceLock {
      forall i | 0 <= i < p.k ensures p.req.pins[..p.k][i].fragment != f {
        assert p.req.pins[..p.k][i] == p.req.pins[i];
      }
    }
  }

  lemma KeepsLocks(s: Store, e: Event)
    requires LocksOk(s.txs) && PinsOk(s.fragments, s.txs)
    ensures LocksOk(Step(s, e).txs)
  {
    if e.Next? && e.t in s.txs {
      var p := s.txs[e.t];
      assert PinsHeld(s.fragments, p);
      NextLocks(s, e.t);
    } else if e.Write? {
      var txs' := Step(s, e).txs;
      if txs' != s.txs {
        forall u | u in s.txs ensures !Shares(s.txs[u], e.fragment) {
        }
      }
    }
  }

  /** A statement adds a share only to a row nobody writes. */
  lemma NextLocks(s: Store, t: Tx)
    requires LocksOk(s.txs) && t in s.txs && PinsHeld(s.fragments, s.txs[t])
    ensures LocksOk(Step(s, Next(t)).txs)
  {
    var p := s.txs[t];
    if p.Checking? && p.k < |p.req.pins| {
      CompareLocks(s, t, p.req, p.k);
    } else if p.Checking? {
      forall f ensures Shares(p, f) <==> Shares(Checking(p.req, |p.req.pins|), f) {
      }
      var txs' := InsertRelease(s, t, p.req).txs;
      forall f | Shares(txs'[t], f) ensures Shares(p, f) {
        var i :| 0 <= i < |p.req.pins| && p.req.pins[i].fragment == f;
      }
      PutLocks(s.txs, t, txs'[t]);
    } else {
      PutLocks(s.txs, t, Step(s, Next(t)).txs[t]);
    }
  }

  /** A transaction that shares no more and writes no more than it did. */
  lemma PutLocks(txs: Txs, t: Tx, p: Phase)
    requires LocksOk(txs) && t in txs && (p.Writing? ==> p == txs[t])
    requires forall f :: Shares(p, f) ==> Shares(txs[t], f)
    ensures LocksOk(txs[t := p])
  {
  }

  lemma CompareLocks(s: Store, t: Tx, req: Request, k: nat)
    requires LocksOk(s.txs) && t in s.txs && s.txs[t] == Checking(req, k) && k < |req.pins|
    ensures LocksOk(Compare(s, t, req, k).txs)
  {
    var txs' := Compare(s, t, req, k).txs;
    forall u | u in s.txs && s.txs[u].Writing?
      ensures !Shares(txs'[t], s.txs[u].fragment)
    {
      assert !Shares(s.txs[t], s.txs[u].fragment);
      assert WrittenBy(s.txs, s.txs[u].fragment);
    }
  }

  lemma KeepsNames(s: Store, e: Event)
    requires NamesOk(s.releases, s.txs)
    ensures var s' := Step(s, e); NamesOk(s'.releases, s'.txs)
  {
    if Commits(s, e) {
      CommitShape(s, e);
    } else {
      Shape(s, e);
      var txs' := Step(s, e).txs;
      if txs' != s.txs {
        PutNames(s, e.t, txs'[e.t], Step(s, e).nextId);
      }
    }
  }

  lemma PutNames(s: Store, t: Tx, p: Phase, nextId': nat)
    requires NamesOk(s.releases, s.txs)
    requires Moves(s, t, p, nextId')
    ensures NamesOk(s.releases, s.txs[t := p])
  {
  }

  lemma KeepsAnswers(s: Store, e: Event)
    requires AnswersOk(s.releases, s.txs) && NamesOk(s.releases, s.txs) && PinsOk(s.fragments, s.txs)
    ensures var s' := Step(s, e); AnswersOk(s'.releases, s'.txs)
  {
    if Commits(s, e) {
      CommitShape(s, e);
      CommitAnswers(s.releases, s.txs, e.t, s.fragments);
    } else {
      Shape(s, e);
      var txs' := Step(s, e).txs;
      if txs' != s.txs {
        assert Answered(s.releases, txs'[e.t]);
      }
    }
  }

  lemma CommitAnswers(releases: Releases, txs: Txs, t: Tx, fragments: Fragments)
    requires AnswersOk(releases, txs) && NamesOk(releases, txs) && PinsOk(fragments, txs)
    requires t in txs && txs[t].Filling?
    ensures var row := txs[t].row;
            AnswersOk(releases[txs[t].req.release := row], txs[t := Done(txs[t].req, Created(row.id))])
  {
    var name := txs[t].req.release;
    assert PinsHeld(fragments, txs[t]);
    forall u | u in txs ensures !Creates(txs[u], name) {
      assert Answered(releases, txs[u]);
    }
  }

  lemma KeepsIds(s: Store, e: Event)
    requires IdsOk(s.releases, s.nextId, s.txs) && NamesOk(s.releases, s.txs)
    ensures var s' := Step(s, e); IdsOk(s'.releases, s'.nextId, s'.txs)
  {
    if Commits(s, e) {
      CommitShape(s, e);
      CommitIds(s.releases, s.nextId, s.txs, e.t);
    } else {
      Shape(s, e);
      var txs' := Step(s, e).txs;
      if txs' != s.txs {
        PutIds(s, e.t, txs'[e.t], Step(s, e).nextId);
      }
    }
  }

  lemma PutIds(s: Store, t: Tx, p: Phase, nextId': nat)
    requires IdsOk(s.releases, s.nextId, s.txs) && nextId' >= s.nextId
    requires Moves(s, t, p, nextId')
    ensures IdsOk(s.releases, nextId', s.txs[t := p])
  {
  }

  lemma CommitIds(releases: Releases, nextId: nat, txs: Txs, t: Tx)
    requires IdsOk(releases, nextId, txs) && t in txs && txs[t].Filling?
    ensures IdsOk(releases[txs[t].req.release := txs[t].row], nextId,
                  txs[t := Done(txs[t].req, Created(txs[t].row.id))])
  {
  }

  lemma KeepsReleases(s: Store, e: Event)
    requires ReleasesOk(s.releases, s.ledger) && NamesOk(s.releases, s.txs) && PinsOk(s.fragments, s.txs)
    ensures var s' := Step(s, e); ReleasesOk(s'.releases, s'.ledger)
  {
    if Commits(s, e) {
      CommitShape(s, e);
      assert PinsHeld(s.fragments, s.txs[e.t]);
      CommitReleases(s.releases, s.ledger, s.txs[e.t].req, s.txs[e.t].row);
    } else {
      Shape(s, e);
    }
  }

  lemma CommitReleases(releases: Releases, ledger: seq<(Name, nat)>, req: Request, row: Release)
    requires ReleasesOk(releases, ledger) && req.release !in releases
    requires Partial(row, req) && |row.sources| == |req.pins| && |row.artifacts| == req.artifacts
    ensures ReleasesOk(releases[req.release := row], ledger + [(req.release, row.id)])
  {
    var ledger' := ledger + [(req.release, row.id)];
    assert ledger'[|ledger|].0 == req.release;
    forall n | n in releases ensures exists k :: 0 <= k < |ledger'| && ledger'[k].0 == n {
      var k :| 0 <= k < |ledger| && ledger[k].0 == n;
      assert ledger'[k].0 == n;
    }
  }

  lemma StepKeeps(s: Store, e: Event)
    requires Inv(s)
    ensures Inv(Step(s, e))
  {
    KeepsPins(s, e);
    KeepsLocks(s, e);
    KeepsNames(s, e);
    KeepsAnswers(s, e);
    KeepsIds(s, e);
    KeepsReleases(s, e);
  }

  lemma {:induction false} RunKeeps(s: Store, events: seq<Event>)
    requires Inv(s)
    ensures Inv(Run(s, events))
  {
    if events != [] {
      var n := |events| - 1;
      RunKeeps(s, events[..n]);
      StepKeeps(Run(s, events[..n]), events[n]);
    }
  }

  /* ---- whole runs ---- */

  function At(fragments: Fragments, events: seq<Event>, k: nat): Store
    requires k <= |events|
  {
    Run(Seeded(fragments), events[..k])
  }

  lemma AtNext(fragments: Fragments, events: seq<Event>, k: nat)
    requires k < |events|
    ensures At(fragments, events, k + 1) == Step(At(fragments, events, k), events[k])
  {
    assert events[..k + 1][..k] == events[..k];
  }

  lemma AtInv(fragments: Fragments, events: seq<Event>, k: nat)
    requires k <= |events|
    ensures Inv(At(fragments, events, k))
  {
    RunKeeps(Seeded(fragments), events[..k]);
  }

  lemma StepKeepsRelease(s: Store, e: Event, name: Name)
    requires NamesOk(s.releases, s.txs) && name in s.releases
    ensures name in Step(s, e).releases && Step(s, e).releases[name] == s.releases[name]
  {
    if Commits(s, e) {
      CommitShape(s, e);
    } else {
      Shape(s, e);
    }
  }

  /** A name keeps its release, with its id and its digest, for ever. */
  lemma {:induction false} NameKeepsRelease(fragments: Fragments, events: seq<Event>, i: nat, j: nat, name: Name)
    requires i <= j <= |events|
    requires name in At(fragments, events, i).releases
    ensures name in At(fragments, events, j).releases
    ensures At(fragments, events, j).releases[name] == At(fragments, events, i).releases[name]
    decreases j - i
  {
    if i < j {
      NameKeepsRelease(fragments, events, i, j - 1, name);
      NameKeptOnce(fragments, events, j - 1, name);
    }
  }

  lemma NameKeptOnce(fragments: Fragments, events: seq<Event>, k: nat, name: Name)
    requires k < |events| && name in At(fragments, events, k).releases
    ensures name in At(fragments, events, k + 1).releases
    ensures At(fragments, events, k + 1).releases[name] == At(fragments, events, k).releases[name]
  {
    AtNext(fragments, events, k);
    AtInv(fragments, events, k);
    InvNames(At(fragments, events, k));
    StepKeepsRelease(At(fragments, events, k), events[k], name);
  }

  lemma InvNames(s: Store)
    requires Inv(s)
    ensures NamesOk(s.releases, s.txs)
  {
  }

  /** Some event of the run commits the release: before it the name is free, after it the row is
      there for good. */
  lemma {:induction false} CommittedAt(fragments: Fragments, events: seq<Event>, n: nat, name: Name) returns (k: nat)
    requires n <= |events|
    requires name in At(fragments, events, n).releases
    ensures k < n && name !in At(fragments, events, k).releases
    ensures name in At(fragments, events, k + 1).releases
    ensures At(fragments, events, k + 1).releases[name] == At(fragments, events, n).releases[name]
  {
    assert events[..0] == [];
    assert n > 0;
    AtNext(fragments, events, n - 1);
    if name in At(fragments, events, n - 1).releases {
      k := CommittedAt(fragments, events, n - 1, name);
      NameKeepsRelease(fragments, events, n - 1, n, name);
    } else {
      k := n - 1;
    }
  }

  /** The commit of a release is the last statement of the one transaction that filled it, and under
      the source locks every pin is current when it runs. */
  lemma CommitStep(s: Store, e: Event, name: Name)
    requires Inv(s) && name !in s.releases && name in Step(s, e).releases
    ensures e.Next? && e.t in s.txs && s.txs[e.t].Filling? && s.txs[e.t].req.release == name
    ensures var req, row := s.txs[e.t].req, Step(s, e).releases[name];
            row.sources == req.pins && row.digest == DigestOf(req) && Complete(name, row) && !Injected(req)
            && (!req.noSourceLock ==> Current(s.fragments, row.sources))
    ensures Step(s, e).fragments == s.fragments
  {
    if !Commits(s, e) {
      Shape(s, e);
    }
    CommitShape(s, e);
    assert PinsHeld(s.fragments, s.txs[e.t]);
    KeepsReleases(s, e);
  }

  /**
   Over every interleaving of publications and revision writers: a release that exists was
   committed at one event of the run; it has its sources and all its artifacts, and no failure was to
   come before one of them; and unless its
   publication asked not to lock its sources, each of them was at the pinned revision at that event.
   */
  lemma CommittedFromCurrentSources(fragments: Fragments, events: seq<Event>, name: Name) returns (k: nat, t: Tx)
    requires name in Run(Seeded(fragments), events).releases
    ensures k < |events| && events[k] == Next(t)
    ensures t in At(fragments, events, k).txs && At(fragments, events, k).txs[t].Filling?
    ensures name !in At(fragments, events, k).releases && name in At(fragments, events, k + 1).releases
    ensures var row := Run(Seeded(fragments), events).releases[name];
            var req := At(fragments, events, k).txs[t].req;
            && Complete(name, row) && row.sources == req.pins && row.count == req.artifacts && !Injected(req)
            && At(fragments, events, k + 1).releases[name] == row
            && (!req.noSourceLock ==>
                  Current(At(fragments, events, k).fragments, row.sources)
                  && Current(At(fragments, events, k + 1).fragments, row.sources))
  {
    assert events[..|events|] == events;
    k := CommittedAt(fragments, events, |events|, name);
    AtInv(fragments, events, k);
    AtNext(fragments, events, k);
    CommitStep(At(fragments, events, k), events[k], name);
    t := events[k].t;
  }

  /** The id a caller was given. */
  predicate Gives(p: Phase, name: Name, id: nat) {
    && p.Done? && p.req.release == name
    && (p.answer == Created(id) || p.answer == Existing(id) || p.answer == Conflict(id))
  }

  /**
   However publications of one name interleave and retry, all that get an id get the same id; two
   that are not told of a conflict asked for the same content, one that is asked for other content;
   and at most one is told that it created the release.
   */
  lemma RetriesAgree(fragments: Fragments, events: seq<Event>, t: Tx, u: Tx, name: Name, id: nat, id': nat)
    requires var s := Run(Seeded(fragments), events);
             t in s.txs && u in s.txs && Gives(s.txs[t], name, id) && Gives(s.txs[u], name, id')
    ensures id == id'
    ensures var s := Run(Seeded(fragments), events);
            && name in s.releases && s.releases[name].id == id
            && (!s.txs[t].answer.Conflict? <==> DigestOf(s.txs[t].req) == s.releases[name].digest)
            && (!s.txs[t].answer.Conflict? && !s.txs[u].answer.Conflict? ==>
                  s.txs[t].req.pins == s.txs[u].req.pins && s.txs[t].req.artifacts == s.txs[u].req.artifacts)
            && (s.txs[t].answer.Created? && s.txs[u].answer.Created? ==> t == u)
  {
    var s := Run(Seeded(fragments), events);
    RunKeeps(Seeded(fragments), events);
    assert Answered(s.releases, s.txs[t]) && Answered(s.releases, s.txs[u]);
    if s.txs[t].answer.Created? && s.txs[u].answer.Created? {
      assert Creates(s.txs[t], name) && Creates(s.txs[u], name);
    }
  }

  /* ---- the control ---- */

  lemma RunTo(fragments: Fragments, events: seq<Event>, s: Store, e: Event)
    requires Run(Seeded(fragments), events) == s
    ensures Run(Seeded(fragments), events + [e]) == Step(s, e)
  {
    assert (events + [e])[..|events|] == events;
  }

  /** One publication of release "r" that pins revision 0 of the only fragment, without locking it. */
  const SOURCE := Name("f")
  const UNLOCKED := Request(Name("r"), [Pin(SOURCE, 0)], 0, 0, true)

  /** Without the source lock a writer commits between the comparison and the commit: the release
      pins revision 0 of a fragment that is at revision 1 when the release is committed. */
  lemma NoSourceLockCommitsStalePin() returns (fragments: Fragments, events: seq<Event>)
    ensures events != []
    ensures var before := Run(Seeded(fragments), events[..|events| - 1]);
            var after := Run(Seeded(fragments), events);
            && UNLOCKED.release !in before.releases && UNLOCKED.release in after.releases
            && !Current(before.fragments, after.releases[UNLOCKED.release].sources)
            && !Current(after.fragments, after.releases[UNLOCKED.release].sources)
  {
    fragments := map[SOURCE := 0];
    var s0 := Seeded(fragments);
    var s3 := Store(fragments, map[], [], 1, map[0 := Checking(UNLOCKED, 1)]);
    var head := StaleHead();
    var row, s7 := StaleTail(fragments, head, s3);
    var init := head + [Write(1, SOURCE, 1)] + [Next(1)] + [Next(0)] + [Next(0)];
    events := init + [Next(0)];
    assert events[..|events| - 1] == init;
    RunTo(fragments, init, s7, Next(0));
    assert row.sources[0] == Pin(SOURCE, 0);
  }

  lemma StaleHead() returns (head: seq<Event>)
    ensures Run(Seeded(map[SOURCE := 0]), head) == Store(map[SOURCE := 0], map[], [], 1, map[0 := Checking(UNLOCKED, 1)])
  {
    var fragments := map[SOURCE := 0];
    var s0 := Seeded(fragments);
    var s1 := s0.(txs := map[0 := Begun(UNLOCKED)]);
    var s2 := s0.(txs := map[0 := Checking(UNLOCKED, 0)]);
    RunTo(fragments, [], s0, Begin(0, UNLOCKED));
    RunTo(fragments, [] + [Begin(0, UNLOCKED)], s1, Next(0));
    head := [] + [Begin(0, UNLOCKED)] + [Next(0)] + [Next(0)];
    RunTo(fragments, [] + [Begin(0, UNLOCKED)] + [Next(0)], s2, Next(0));
  }

  lemma StaleTail(fragments: Fragments, head: seq<Event>, s3: Store) returns (row: Release, s7: Store)
    requires fragments == map[SOURCE := 0]
    requires s3 == Store(fragments, map[], [], 1, map[0 := Checking(UNLOCKED, 1)])
    requires Run(Seeded(fragments), head) == s3
    ensures s7 == Run(Seeded(fragments), head + [Write(1, SOURCE, 1)] + [Next(1)] + [Next(0)] + [Next(0)])
    ensures row.sources == [Pin(SOURCE, 0)] && row.artifacts == []
    ensures s7.releases == map[] && s7.fragments == map[SOURCE := 1]
    ensures s7.txs == map[0 := Filling(UNLOCKED, row), 1 := Wrote]
  {
    var s5 := WriterGoesAhead(s3);
    RunTo(fragments, head, s3, Write(1, SOURCE, 1));
    RunTo(fragments, head + [Write(1, SOURCE, 1)], Step(s3, Write(1, SOURCE, 1)), Next(1));
    var s6;
    row, s6, s7 := PublisherGoesOn(s5);
    RunTo(fragments, head + [Write(1, SOURCE, 1)] + [Next(1)], s5, Next(0));
    RunTo(fragments, head + [Write(1, SOURCE, 1)] + [Next(1)] + [Next(0)], s6, Next(0));
  }

  lemma WriterGoesAhead(s3: Store) returns (s5: Store)
    requires s3 == Store(map[SOURCE := 0], map[], [], 1, map[0 := Checking(UNLOCKED, 1)])
    ensures s5 == Step(Step(s3, Write(1, SOURCE, 1)), Next(1))
    ensures s5 == Store(map[SOURCE := 1], map[], [], 1, map[0 := Checking(UNLOCKED, 1), 1 := Wrote])
  {
    assert !SharedBy(s3.txs, SOURCE) && !WrittenBy(s3.txs, SOURCE);
    var s4 := Put(s3, 1, Writing(SOURCE, 1));
    s5 := Put(s4.(fragments := s4.fragments[SOURCE := 1]), 1, Wrote);
    assert Step(s3, Write(1, SOURCE, 1)) == s4;
  }

  lemma PublisherGoesOn(s5: Store) returns (row: Release, s6: Store, s7: Store)
    requires s5 == Store(map[SOURCE := 1], map[], [], 1, map[0 := Checking(UNLOCKED, 1), 1 := Wrote])
    ensures s6 == Step(s5, Next(0)) && s7 == Step(s6, Next(0))
    ensures row.sources == [Pin(SOURCE, 0)] && row.artifacts == []
    ensures s7.releases == map[] && s7.fragments == map[SOURCE := 1]
    ensures s7.txs == map[0 := Filling(UNLOCKED, row), 1 := Wrote]
  {
    assert !NameTaken(s5.txs, UNLOCKED.release);
    var empty := Release(1, DigestOf(UNLOCKED), 0, [], []);
    s6 := Put(s5.(nextId := 2), 0, Filling(UNLOCKED, empty));
    assert Step(s5, Next(0)) == s6;
    row := empty.(sources := [Pin(SOURCE, 0)]);
    assert empty.sources + [UNLOCKED.pins[0]] == row.sources;
    s7 := Put(s6, 0, Filling(UNLOCKED, row));
  }
}
