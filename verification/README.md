# Bronzeward: verified models

Dafny models of the parts of Bronzeward whose correctness rests on interleavings, on state carried
between calls, or on a relation between two passes over the same data, with proofs of what each part
is for. `dafny verify dfyconfig.toml` checks the whole project.

## What is modelled

**Dispatch safety** (`Dispatch*.dfy`). The store of `experiments/e4-dispatch-safety` is a protocol
over shared rows: plans, approvals, operations, attempts, observations and a timeline with
revisions.
- `DispatchModel` has the rows and one function for each transaction, with every refusal and error.
  `DispatchStore` is the same store as an object with one method for each transaction, each proved
  to leave the rows and to give the answer that the function says.
- `DispatchInvariants` proves what every transaction keeps and that none undoes what was recorded.
- `DispatchRuns` interleaves the transactions of any number of executors and operators with steps of
  the environment (the clock, a freeze, a new assignment, a new recovery epoch), in any order and
  with any arguments. An observation is two steps, the basis and the record.
- `DispatchSafety`, `DispatchRetries` and `DispatchChain` hold the results over whole runs,
  `DispatchControls` a bad run for each mechanism taken away. `DispatchExecutor` has the executors of
  `main.go`: they call the methods of one store, other processes call them in between, and every
  execution is shown to be a protocol run.

**Database semantics** (`Revisions`, `Publication`, `Ownership`, `Queue`). The scenarios of
`experiments/e4-database-semantics` at the level of row locks: a transaction is several statements,
a statement that must wait for a lock does not run, and statements of different transactions
interleave. Controls are the same transactions without the lock, the fence or the repeated test.

**Provenance and redaction** (`Attribution`, `Spans`, `Runes`, `Redaction`, `TracerValues`). What the
redaction of `experiments/e2-sensitivity-provenance` shows is a function of the tracer run and not
of the values, with the exact condition on the bytes of a message.

**Reference syntax** (`PathSyntax`, `References`, `ReferencesTag`, `ReferencesMeaning`,
`ReferencesLens`, `ReferencesBinding`, `ReferencesReach`, `ReferencesDocuments`). The forms that
`experiments/e2-structural-references` derives from one canonical tree resolve to the literal form,
through mappings, sequences and embedded documents, and the binding form exactly when its bindings
lead to where the references were; paths are printed and parsed back.

**Two text algorithms of the client** (`Marks`, `Pager`): the mark reader that carries one fact
across reads, and the pager's wrapping, resize and paging.

`Wrappers`, `Text` and `Decimal` are what several of these share.

## Assumptions

- A store transaction of the dispatch experiment is one atomic step, because it locks every row it
  compares, and allocating a timeline revision and committing it is one step. A transaction that
  fails after it took a revision leaves a gap; gaps may also appear by themselves.
- `System` holds, beside the rows, what executors keep to themselves: reads that have begun, and
  revisions that `ClassifySafeToRetry` returned and that no attempt has used. The step that
  `stopAfterRefusal` takes may happen at any time and with any arguments.
- In `DispatchExecutor` no other process uses a classification this process made: its revision is a
  local variable. Answers of talosctl, digests read and the passing of a deadline are arguments.
- SHA-256 keeps different publications apart: the digest is what is hashed. Row locks are held until
  the transaction ends.
- Characters stand for bytes where the code works on bytes. Base64 decoding and the width of a
  character are parameters. `Runes` decodes UTF-8 as Go does; a regular expression reads a byte that
  is not UTF-8 as U+FFFD, and a pattern that holds such a byte does not compile.
- Embedded documents are parsed and written by two functions of the case; both can fail. What is
  asked of them is asked only of the documents that are written, and nothing of a case without
  embedded documents. In the tag form, a document with references, if it can be written, reads back as
  the tree it was written from (it is YAML, or JSON written as YAML flow text), and one without
  references gives the same text when it is read and written again, which sorted JSON keys do too. In
  the binding form, a document with references, stripped, filled in, and after each binding, can be
  written and reads back up to the order of keys.
- Spans are sorted by insertion where the code calls `sort.Slice`, which may order ties otherwise:
  `TiesOnlyChangeIds` says what that can change.
- An integer tracer's text is not empty; with an empty one the search loop of `tracerSpans` would
  not end.

## Findings

- The retry rule does not count attempts. A revision used twice, or one that no classification
  returned, lets protocol mode record a second attempt while the first is open
  (`ReusedRetryLeavesTwoOpen`, `UngrantedRetryLeavesTwoOpen`). `RetrySafeIff` is the exact condition
  for one retry under a classification: no attempt was recorded after it. `OneOpenAttemptIff` is the
  same over whole runs. An executor that uses each classification once keeps to it, which
  `DispatchExecutor` proves of `recover`.
- `attributeFlip` compares values and not tags: `FlipHidesUnlessTagOnly` is the exact condition.
- Tracer ids tell occurrences apart exactly below 1000: `DistinguishedIff`.
- A path with a selector whose field is empty does not survive printing: `RoundTrip` is exact.
- Bindings find their places exactly when every document keeps its name (`kind` is no reference, and
  `name` is none unless there is no kind), every embedded document with references is identified, and
  every sequence element with references is the first of its name and is not named by a reference:
  `BindingFormResolvesIff`. `NamingFieldIsLost` is the part of it about documents.
- A trace message whose literals hold U+FFFD lets bytes of the real message through where they are
  not UTF-8: `HidesAllIff` is exact.
- Two quotes with nothing between them are not explained when one character of the real message
  stands across both: `ExplainsAllIff` is exact.
- Text around a tracer can hold another tracer's head (`TextCanHoldAHead`); text that begins no head
  cannot (`LeafCarriesItsOwnTracer`).

## Model

| member | source | states |
|---|---|---|
| `DispatchStore.Store.constructor` | experiments/e4-dispatch-safety/store.go:124-137 | set-up gives one machine at assignment and baseline 1, and the invariant holds |
| `DispatchStore.Store.Plan` | experiments/e4-dispatch-safety/store.go:177-190 | the plan binds the machine's Applied digest, assignment and baseline; an unknown machine inserts no plan and reports none; a taken id is an error |
| `DispatchStore.Store.Approve` | experiments/e4-dispatch-safety/store.go:206-214 | one approval per plan, in the current recovery epoch |
| `DispatchStore.Store.Revoke` | experiments/e4-dispatch-safety/store.go:227-240 | revokes an unrevoked approval, an error otherwise |
| `DispatchStore.Store.Commit` | experiments/e4-dispatch-safety/store.go:325-365 | comparisons 1, 2, 6, 3, existence and scope in this order; the first that fails is the answer and leaves the rows |
| `DispatchStore.Store.CancelUncommitted` | experiments/e4-dispatch-safety/store.go:369-386 | a cancelled operation only where none exists |
| `DispatchStore.Store.RecordAttempt` | experiments/e4-dispatch-safety/store.go:411-475 | the attempt transaction: comparisons, fence, retry rule, evidence and bound, then the numbered attempt and the state sending |
| `DispatchStore.Store.StopAfterRefusal` | experiments/e4-dispatch-safety/store.go:487-507 | an operation in flight becomes unresolved, and cancelled when nothing was sent and comparison 1 refused; nothing for another owner |
| `DispatchStore.Store.Attempt` | experiments/e4-dispatch-safety/store.go:411-485 | the attempt transaction followed by the stop exactly when comparison 1 or 6 refused it |
| `DispatchStore.Store.RecordResponse` | experiments/e4-dispatch-safety/store.go:542-585 | a response is recorded once for an attempt whoever owns the operation; only the owner of a sending operation moves its state |
| `DispatchStore.Store.Account` | experiments/e4-dispatch-safety/store.go:589-608 | an attempt is accounted for once, at the revision of its timeline entry |
| `DispatchStore.Store.Takeover` | experiments/e4-dispatch-safety/store.go:612-629 | a non-terminal operation gets the next generation and becomes unresolved |
| `DispatchStore.Store.RecordObservation` | experiments/e4-dispatch-safety/store.go:641-668 | the read is recorded with the basis and the time taken when it began |
| `DispatchStore.Store.Complete` | experiments/e4-dispatch-safety/store.go:708-749 | completed with Applied moved to the artifact, failed on another digest, refused without accounting or a later read |
| `DispatchStore.Store.ClassifySafeToRetry` | experiments/e4-dispatch-safety/store.go:754-791 | a revision only when all attempts are accounted for, none accepted, and a later read shows the pre-dispatch digest |
| `DispatchStore.Store.MarkUnresolved` | experiments/e4-dispatch-safety/store.go:794-805 | the owner's operation in flight becomes unresolved, anything else stays |
| `DispatchStore.Store.CancelUnattempted` | experiments/e4-dispatch-safety/store.go:809-832 | unresolved becomes cancelled only without attempts and without a holding approval |
| `DispatchModel.Latest` | experiments/e4-dispatch-safety/store.go:288-319 | the greatest observation that qualifies, and none after it does |
| `DispatchModel.Basis` | experiments/e4-dispatch-safety/store.go:641-646 | the last revision of the operation's timeline, or 0 |
| `DispatchModel.BasisIsGreatest` | experiments/e4-dispatch-safety/store.go:678-691 | the accounted basis is the greatest revision of a response or an accounting, or 0 without one |
| `DispatchModel.LatestAfterIsLatest` | experiments/e4-dispatch-safety/store.go:695-704 | a successful observation of the operation and purpose whose read began at or after the basis, the last that is; none only when there is none |
| `DispatchInvariants.AttemptKeeps` | experiments/e4-dispatch-safety/store.go:411-475 | the attempt transaction keeps the invariant and undoes nothing recorded |
| `DispatchInvariants.StopKeeps` | experiments/e4-dispatch-safety/store.go:487-507 | so does the stop, although it writes cancelled without testing for a terminal state |
| `DispatchInvariants.ResponseKeeps` | experiments/e4-dispatch-safety/store.go:542-585 | so does a response; a rejected operation has only rejected attempts |
| `DispatchInvariants.CompleteKeeps` | experiments/e4-dispatch-safety/store.go:708-749 | so does completion; completed and failed have attempts, all accounted for |
| `DispatchRuns.StepKeeps` | experiments/e4-dispatch-safety/store.go:242-249 | every step of the protocol and of the environment keeps the invariant and only grows what is recorded |
| `DispatchRuns.RunInv` | experiments/e4-dispatch-safety/store.go:139-149 | the invariant holds at every point of every protocol run |
| `DispatchRuns.RunGrows` | experiments/e4-dispatch-safety/store.go:155-160 | between two points of a run nothing recorded is undone: timeline, plans, revocations, generations, responses, terminal states |
| `DispatchRuns.TerminalForEver` | experiments/e4-dispatch-safety/store.go:369-386 | terminal states absorb and keep their evidence for ever |
| `DispatchRuns.AttemptsNumbered` | experiments/e4-dispatch-safety/store.go:451-463 | attempts are 1..n with n at most the bound, their generations never fall |
| `DispatchSafety.OnlyOwnerActs` | experiments/e4-dispatch-safety/store.go:430-437 | only a takeover, or the owner at the current generation, changes an operation or adds an attempt |
| `DispatchSafety.NothingFromEarlierGeneration` | experiments/e4-dispatch-safety/store.go:612-629 | after a takeover no step of an earlier generation changes the operation |
| `DispatchSafety.BlockedForEver` | experiments/e4-dispatch-safety/store.go:242-282 | after a revocation, expiry, new epoch, later baseline or later assignment no commitment and no attempt of the plan is ever recorded |
| `DispatchSafety.NothingSentWhileClosed` | experiments/e4-dispatch-safety/store.go:266-282 | while the machine is frozen or recovery is on, no step commits or sends |
| `DispatchSafety.EvidencePasses` | experiments/e4-dispatch-safety/store.go:284-319 | comparison 3 passes iff some observation is the latest evidence, fresh, of a bound digest and not contradicted |
| `DispatchSafety.AttemptRestsOnFreshRead` | experiments/e4-dispatch-safety/store.go:288-319 | every attempt of a run rests on a read that began in it at most the maximum age before, showing a bound digest |
| `DispatchRetries.RetrySafeIff` | experiments/e4-dispatch-safety/store.go:438-447 | in any protocol run, for a retry recorded under a classification: all earlier attempts are accounted for and none was accepted iff no attempt was recorded after the classification |
| `DispatchRetries.OneOpenAttemptIff` | experiments/e4-dispatch-safety/store.go:438-447 | in a run whose retries name classifications, only the last attempt of an operation is ever open iff no retry is recorded under a classification that an attempt came after |
| `DispatchRetries.GrantedRunIsChecked` | experiments/e4-dispatch-safety/main.go:391-397 | using each returned revision for one attempt meets that condition |
| `DispatchRetries.OneOpenAttempt` | experiments/e4-dispatch-safety/store.go:754-791 | so with granted retries at most one attempt is not accounted for, and it is the last |
| `DispatchRetries.EarlierAttemptsClosed` | experiments/e4-dispatch-safety/store.go:438-447 | when an attempt is recorded every earlier one is accounted for and none was accepted |
| `DispatchSafety.CompletionRestsOnLaterRead` | experiments/e4-dispatch-safety/store.go:641-749 | a completion or failure rests on a read that began after every response and accounting, and its digest decides which |
| `DispatchChain.AppliedHistoryIsChain` | experiments/e4-dispatch-safety/store.go:118-120 | with the scope index Applied is a chain of plans, each bound to what the one before left; the baseline is one plus the completed operations |
| `DispatchChain.CompletionMovesApplied` | experiments/e4-dispatch-safety/store.go:708-749 | each completion moves Applied from its plan's pre-dispatch digest to its artifact, at the plan's baseline |
| `DispatchControls.NaiveSendsAfterRevocation` | experiments/e4-dispatch-safety/store.go:417-422 | naive mode records an attempt after a revocation where protocol mode refuses |
| `DispatchControls.NoFenceSendsAfterTakeover` | experiments/e4-dispatch-safety/store.go:430-437 | without the fence an attempt of generation 1 is recorded after a takeover |
| `DispatchControls.UngrantedRetryLeavesTwoOpen` | experiments/e4-dispatch-safety/store.go:438-447 | a retry revision no classification returned leaves two attempts open |
| `DispatchControls.ReusedRetryLeavesTwoOpen` | experiments/e4-dispatch-safety/store.go:438-447 | so does a classification used twice |
| `DispatchControls.NoScopeBreaksChain` | experiments/e4-dispatch-safety/store.go:118-137 | without the scope index a completion moves Applied from a digest its plan is not bound to |
| `DispatchExecutor.World.Perform` | experiments/e4-dispatch-safety/store.go:139-149 | what another process or the environment does through the store's methods is one step of the protocol |
| `DispatchExecutor.ReachedIsSafe` | experiments/e4-dispatch-safety/main.go:391-397 | whatever the executors reach has the invariant, and at most one open attempt of an operation |
| `DispatchExecutor.World.Execute` | experiments/e4-dispatch-safety/main.go:197-240 | a protocol-mode execution among any other steps makes a protocol run; exit 0 means completed, exit 5 another terminal state |
| `DispatchExecutor.World.AttemptAndVerify` | experiments/e4-dispatch-safety/main.go:244-290 | the same, with a retry revision that the attempt uses up |
| `DispatchExecutor.World.Verify` | experiments/e4-dispatch-safety/main.go:294-341 | the same, for reads up to the deadline |
| `DispatchExecutor.World.Recover` | experiments/e4-dispatch-safety/main.go:346-409 | the same, and each retry is sent under a classification just made, once |
| `DispatchExecutor.World.Settled` | experiments/e4-dispatch-safety/main.go:374-381 | whether all attempts are accounted for and whether one was accepted |
| `Revisions.LedgerCounts` | experiments/e4-database-semantics/scenarios.go:45-69 | under compare-and-set the ledger is 1..revision, each once, in every reachable state |
| `Revisions.ExactlyOneWins` | experiments/e4-database-semantics/scenarios.go:92-155 | of any writers that read one revision exactly one wins, in any interleaving, and the revision rises by one |
| `Revisions.BlindWritesDuplicate` | experiments/e4-database-semantics/scenarios.go:53-55 | blind writes have a run with revision 1 twice in the ledger |
| `Revisions.Fragment.UpdateFragment` | experiments/e4-database-semantics/scenarios.go:45-69 | wins iff blind or the revision is the one read, and then sets and records read + 1 |
| `Revisions.RaceRound` | experiments/e4-database-semantics/scenarios.go:95-150 | wins, conflicts and writers that gave up add up; one win unless all gave up |
| `Revisions.RaceRevisions` | experiments/e4-database-semantics/scenarios.go:95-155 | the wins are the rise in revision; with retries, one for each round |
| `Publication.StepKeeps` | experiments/e4-database-semantics/scenarios.go:225-295 | every statement keeps: locked pins current, one live insert of a name, ids used once, releases complete and in the ledger once |
| `Publication.NameKeepsRelease` | experiments/e4-database-semantics/scenarios.go:196-209 | a release name keeps its row, with id and digest, for ever |
| `Publication.CommittedFromCurrentSources` | experiments/e4-database-semantics/scenarios.go:241-295 | a release was committed at one event, with all sources and artifacts, and with its pins current then unless it did not lock them |
| `Publication.RetriesAgree` | experiments/e4-database-semantics/scenarios.go:202-223 | all publications of a name that get an id get the same; conflict exactly when the content differs; one created it |
| `Publication.NoSourceLockCommitsStalePin` | experiments/e4-database-semantics/scenarios.go:247-262 | without the source lock a run commits a stale pin |
| `Ownership.FencedTimeline` | experiments/e4-database-semantics/scenarios.go:353-427 | generations never fall in id order and in commit order, one actor for each, the columns agree with the timeline |
| `Ownership.CheckThenInsertFallsBack` | experiments/e4-database-semantics/scenarios.go:394-406 | check-then-insert has a run whose generations are 1, 2, 1 |
| `Queue.FirstEligible` | experiments/e4-database-semantics/scenarios.go:463-474 | the first job that is eligible and not locked, none before it is |
| `Queue.QueueHistory` | experiments/e4-database-semantics/scenarios.go:468-529 | fences of a job's claims are 1, 2, 3, ...; it completes at most once, last, at the fence of its last claim |
| `Queue.ClaimLandsOnEligible` | experiments/e4-database-semantics/scenarios.go:463-507 | a guarded claim lands only on a pending job or one whose lease ended before the claimer's time |
| `Queue.NaiveTakesLiveClaim` | experiments/e4-database-semantics/scenarios.go:480-481 | the naive form takes a live claim |
| `Queue.NaiveReopensDoneJob` | experiments/e4-database-semantics/scenarios.go:480-481 | and reopens a done job |
| `Queue.ClaimAlone` | experiments/e4-database-semantics/scenarios.go:468-507 | the statements of a claim that nothing interleaves with are the claim of the worker's table |
| `Queue.JobTable.Claim` | experiments/e4-database-semantics/scenarios.go:468-507 | claims the first eligible job at the next fence and records it, or nothing |
| `Queue.JobTable.Complete` | experiments/e4-database-semantics/scenarios.go:510-529 | completes exactly a claimed job at its current fence |
| `Queue.JobTable.Work` | experiments/e4-database-semantics/scenarios.go:545-579 | a worker alone ends, completes every claim, and leaves no eligible job |
| `Attribution.Carried` | experiments/e2-sensitivity-provenance/attribute.go:48-56 | the ids of the tracers a value carries, in order; empty iff it carries none |
| `Attribution.CheckShape` | experiments/e2-sensitivity-provenance/attribute.go:60-70 | no failure iff the same positions in the same order |
| `Attribution.Attribute` | experiments/e2-sensitivity-provenance/attribute.go:76-96 | no failure iff each leaf differs exactly when it carries a tracer; then the attributed leaves are the carriers |
| `Attribution.RedactionHidesValues` | experiments/e2-sensitivity-provenance/tree.go:231-244 | without failure the attributed positions are where the compositions differ and where tracers are, and redacting them shows the same leaves from both |
| `Attribution.RedactionIndependentOfValues` | experiments/e2-sensitivity-provenance/attribute.go:72-96 | two compositions of any values that one trace attributes look the same once redacted |
| `Attribution.EveryAttributionIsNeeded` | experiments/e2-sensitivity-provenance/attribute.go:72-96 | redaction hides the difference iff it covers every attributed position |
| `Attribution.AttributeFlip` | experiments/e2-sensitivity-provenance/attribute.go:100-112 | the leaves whose values differ under the flip |
| `Attribution.FlipHidesUnlessTagOnly` | experiments/e2-sensitivity-provenance/attribute.go:100-112 | replacing them hides the boolean iff no other leaf changes its tag alone |
| `Attribution.TagOnlyFlipShows` | experiments/e2-sensitivity-provenance/attribute.go:100-112 | a flip that changes a tag alone shows |
| `Spans.Exact` | experiments/e2-sensitivity-provenance/message.go:63-74 | the whole occurrences, found left to right |
| `Spans.Quotes` | experiments/e2-sensitivity-provenance/message.go:78-103 | the quotes of a tracer; the loop ends because every quote is as long as the head |
| `Spans.QuotesFound` | experiments/e2-sensitivity-provenance/message.go:76-103 | every place that holds a tracer's first five characters is in a quote, which is all the message repeats of it or of one of its lines |
| `Spans.ExactFound` | experiments/e2-sensitivity-provenance/message.go:63-74 | every whole occurrence begins inside one that was found |
| `Spans.IntFound` | experiments/e2-sensitivity-provenance/message.go:24-35 | a number with no digit beside it is found exactly as it stands |
| `Spans.CommonPrefix` | experiments/e2-sensitivity-provenance/message.go:105-111 | the length of the longest common prefix |
| `Spans.CommonIsLongest` | experiments/e2-sensitivity-provenance/message.go:105-111 | equal up to it and not beyond |
| `Spans.IntQuotes` | experiments/e2-sensitivity-provenance/message.go:24-35 | the occurrences with no digit beside them |
| `Spans.TracerSpans` | experiments/e2-sensitivity-provenance/message.go:20-59 | the spans are sorted, disjoint, non-empty and inside the message |
| `Spans.SpansOrdered` | experiments/e2-sensitivity-provenance/message.go:20-59 | and each was found, and each found quote begins inside one |
| `Spans.TiesOnlyChangeIds` | experiments/e2-sensitivity-provenance/message.go:44-58 | any sort by start and longer first keeps the same places; a tie can only change which tracer's id stands at one |
| `Runes.DecodedThenEncoded` | experiments/e2-sensitivity-provenance/message.go:150-154 | reading bytes as characters loses nothing |
| `Runes.DecodedSum` | experiments/e2-sensitivity-provenance/message.go:136-145 | two texts are read one after the other unless a character begins in the first and ends in the second |
| `Redaction.ReplacedByItself` | experiments/e2-sensitivity-provenance/message.go:137-145 | literals and spans are the whole trace message in order |
| `Redaction.FindIffFits` | experiments/e2-sensitivity-provenance/message.go:146-154 | a match exists iff the characters of the real message are the literals, as the engine reads them, with some between each two |
| `Redaction.WriteRedacted` | experiments/e2-sensitivity-provenance/message.go:155-164 | for any match the output is what was read as the literals, with the tokens between |
| `Redaction.RedactMessage` | experiments/e2-sensitivity-provenance/message.go:122-165 | the outcome as a condition on both messages, and what is shown: for a redaction what was read as the literals with the tokens, otherwise the trace message or the notice |
| `Redaction.CleanMessageIsHidden` | experiments/e2-sensitivity-provenance/message.go:113-121 | for a message of valid UTF-8, or without U+FFFD in a literal, what is shown is the trace message with the tokens |
| `Redaction.HidesAllIff` | experiments/e2-sensitivity-provenance/message.go:155-164 | every message that fits is shown so iff no literal holds U+FFFD |
| `Redaction.ExplainsAllIff` | experiments/e2-sensitivity-provenance/message.go:137-154 | whatever non-empty values stand at the quotes, the message fits, iff no two quotes have nothing between them |
| `Redaction.ExplainedValuesAreHidden` | experiments/e2-sensitivity-provenance/message.go:113-121 | values that no character stands across give a redaction, and the text is the trace message with the tokens there |
| `TracerValues.ShapeLine` | experiments/e2-sensitivity-provenance/tracer.go:16-32 | one line is masked and headed in place |
| `TracerValues.ShapeTracer` | experiments/e2-sensitivity-provenance/tracer.go:13-34 | every line is, and the lines are joined again |
| `TracerValues.ShapeKept` | experiments/e2-sensitivity-provenance/tracer.go:8-34 | length, lines and every byte that is no letter or digit outside the heads are kept, every letter and digit is replaced |
| `TracerValues.NamesOneId` | experiments/e2-sensitivity-provenance/tracer.go:8-34 | below 1000 a tracer with a line of five bytes is contained only in a tracer of its own id |
| `TracerValues.DistinguishedIff` | experiments/e2-sensitivity-provenance/tracer.go:14-14 | ids below n are told apart iff n is at most 1000 |
| `TracerValues.ThousandContainsHundred` | experiments/e2-sensitivity-provenance/tracer.go:14-14 | a tracer of id 1000 contains one of id 100 |
| `TracerValues.NamesOneIdAround` | experiments/e2-sensitivity-provenance/attribute.go:32-35 | the same with text around the first that begins no head |
| `TracerValues.LeafCarriesItsOwnTracer` | experiments/e2-sensitivity-provenance/attribute.go:32-46 | a leaf that holds a string tracer, in text that begins no head, matches it and no string tracer of another id |
| `TracerValues.TextCanHoldAHead` | experiments/e2-sensitivity-provenance/attribute.go:32-46 | text that holds a head gives a leaf that another tracer matches |
| `TracerValues.IntTracerNamesOneId` | experiments/e2-sensitivity-provenance/tracer.go:36-39 | an integer tracer matches exactly its own leaf |
| `PathSyntax.Print` | experiments/e2-structural-references/path.go:31-51 | the text of the steps in order |
| `PathSyntax.ParsePath` | experiments/e2-structural-references/path.go:60-105 | the steps of a text, or an error for an unclosed or unreadable selector, an unknown format or no step |
| `PathSyntax.RoundTrip` | experiments/e2-structural-references/path.go:22-105 | parsing what was printed gives the path back iff it is well formed |
| `PathSyntax.TextInjective` | experiments/e2-structural-references/path.go:31-51 | well-formed paths have different texts |
| `PathSyntax.AtoiFormat` | experiments/e2-structural-references/path.go:38-40 | a 64-bit position is read back |
| `References.EmbedLeft` | experiments/e2-structural-references/tree.go:149-161 | the walk ends: an embedded document is deeper than its declaration |
| `ReferencesTag.TagFormResolves` | experiments/e2-structural-references/resolve.go:34-67 | the tag form resolves exactly to the literal form, one resolution for each reference in order, or both fail |
| `ReferencesTag.ResolveNode` | experiments/e2-structural-references/spec.go:140-207 | the same for any node at any path |
| `ReferencesTag.StepKept` | experiments/e2-structural-references/path.go:108-119 | the tag form names sequence elements as the canonical form does |
| `ReferencesTag.DocIDKept` | experiments/e2-structural-references/path.go:123-146 | and documents |
| `ReferencesTag.UnidentifiedStaysOpaque` | experiments/e2-structural-references/resolve.go:20-25 | an unidentified embedded document keeps its text and nothing in it is resolved |
| `ReferencesLens.PlainPathReads` | experiments/e2-structural-references/resolve.go:104-132 | setting at a path without embedded steps, or in a case without embedded documents, asks nothing of the encoder |
| `ReferencesLens.SetThenGet` | experiments/e2-structural-references/resolve.go:101-171 | what setAt puts at a path of keys, positions, selectors and embedded documents is found at it: exactly without embedded steps, up to key order through documents that read back |
| `ReferencesBinding.SetIsPut` | experiments/e2-structural-references/resolve.go:104-171 | setting at a path of keys, elements and embedded documents replaces or creates exactly there, up to key order |
| `ReferencesBinding.StepUnchanged` | experiments/e2-structural-references/path.go:108-119 | setting below an element leaves its name, unless it sets a field that is asked before or is the one that names it |
| `ReferencesBinding.BindNode` | experiments/e2-structural-references/spec.go:186-242 | a node whose bindings find their places, stripped of its references and of what this empties, then bound again, is its literal form |
| `ReferencesBinding.FoundAreBinds` | experiments/e2-structural-references/tree.go:120-164 | the walk finds the references with the paths the bindings need, in order |
| `ReferencesReach.StripDiffers` | experiments/e2-structural-references/spec.go:186-242 | a tree with references is not its stripped form, up to key order |
| `ReferencesReach.CoherentStep` | experiments/e2-structural-references/resolve.go:104-171 | whatever a binding sets, in whatever state, names stay and elements that no binding leads to stay as stripped |
| `ReferencesReach.CoherentEnd` | experiments/e2-structural-references/resolve.go:101-171 | a run that ends in the literal form has reached every reference |
| `ReferencesDocuments.BoundName` | experiments/e2-structural-references/path.go:123-146 | deletion and pruning keep a document's name iff kind is no reference, and name is none unless there is no kind |
| `ReferencesDocuments.PlainBindsRead` | experiments/e2-structural-references/resolve.go:104-132 | a case without embedded documents asks nothing of the encoder |
| `ReferencesDocuments.BindingFormResolvesIff` | experiments/e2-structural-references/resolve.go:68-171 | the binding form resolves to the literal form up to key order iff every document keeps its name and every reference is reached |
| `ReferencesDocuments.NamingFieldIsLost` | experiments/e2-structural-references/resolve.go:92-99 | any document with a reference in kind, or in name beside a kind: resolution fails |
| `ReferencesDocuments.OtherDocumentsResolve` | experiments/e2-structural-references/resolve.go:68-99 | a document with a reference for a name and no kind is restored, as any other whose references are reached |
| `Marks.First` | cmd/bronzewardctl/fragments.go:373-407 | a line and its end are a non-empty prefix of the bytes |
| `Marks.TypedMarksReadBack` | cmd/bronzewardctl/fragments.go:297-371 | marks typed with any mixture of LF, CR and CRLF are read back |
| `Marks.FirstToken` | cmd/bronzewardctl/fragments.go:392-406 | where the first token of the data ends, and whether a CR at the end of the data ends it |
| `Marks.Scanner.Split` | cmd/bronzewardctl/fragments.go:382-420 | one call: the dropped line feed, the token and the fact kept for the next call |
| `Marks.SplitAhead` | cmd/bronzewardctl/fragments.go:373-407 | seen from all bytes ahead, a call changes nothing or takes exactly the first line |
| `Marks.Scanner.Scan` | cmd/bronzewardctl/fragments.go:302-334 | the next line whichever reads it takes; every byte is in a token, dropped or ahead |
| `Marks.TokenLine` | cmd/bronzewardctl/fragments.go:341-352 | mark and count do not depend on whether a CRLF was cut by a read |
| `Marks.ScanMarks` | cmd/bronzewardctl/fragments.go:302-371 | the result is that of the one-pass split of the bytes, unless a size limit was met; a smaller input does not meet it |
| `Pager.WrapLine` | cmd/bronzewardctl/pager.go:209-262 | lines of at most the columns that concatenate to the shown text, none after the first begins with a bare mark |
| `Pager.WrapSrc` | cmd/bronzewardctl/pager.go:199-207 | the same for each source line, and the sources never fall and name every source line |
| `Pager.Page.constructor` | cmd/bronzewardctl/pager.go:86-93 | the page starts at the top of the wrapped text |
| `Pager.Page.Resized` | cmd/bronzewardctl/pager.go:171-186 | the same source line stays at the top, at its first screen line when the columns change |
| `Pager.Page.Forward` | cmd/bronzewardctl/pager.go:154-158 | moves to the end of the page unless the text ends there: from page k to page k + 1 |
| `Pager.Page.Back` | cmd/bronzewardctl/pager.go:159-160 | moves back one page, to the start at most: from page k to page k - 1 |
| `Pager.Page.PageOn` | cmd/bronzewardctl/pager.go:86-165 | the page is always a wrapping of the whole text at its columns; without paging keys the source line at the top stays; while the size stays the top is that of the keys up to the one that ends the loop |
| `Pager.ForwardReachesAll` | cmd/bronzewardctl/pager.go:154-160 | page keys bring any screen line on the page, and as many back keys return page by page to the start |

## Left out

- talosctl, PostgreSQL, SQLite, OpenBao and OIDC themselves: a response class, a read digest, a lock grant or the order of statements is an input.
- SQLite's immediate transactions: they are the interleavings in which one transaction runs at a time.
- Database outages in `retryDB`, gates, logs and artifact files: a file that is not the bound artifact is a flag of `Execute`.
- `DispatchExecutor.World.Execute`: protocol mode only; naive mode's own approval check before the evidence is not modelled, its attempt transaction is.
- `DispatchStore.Store.Attempt`: the two transactions one after the other; other steps between them are in `DispatchRuns` and `DispatchExecutor`.
- `Redaction.RedactMessage`: the notice of a withheld message is a constant without its words.
- `Revisions.RaceRound`: writers in the order of their commits; their interleavings are in `ExactlyOneWins`.
- `Queue.JobTable.Work`: one worker alone; several at once are in `QueueHistory`, where a worker's loop need not end.
- CreateIntent and FinishOperation of the database scenarios: they would add one more unique index.
- `ReferencesLens.SetThenGet`: asks that an element set below still has the name that led to it, and on paths into embedded documents that elements with a name are not led to by position.
- `ReferencesDocuments.BindingFormResolvesIff`: asks of documents with references that the mappings above a reference have unique keys, that no name comes from an embedded document, and that names are apart: of documents, and of an element that a reference names from the others of its sequence. Otherwise a binding can land on another document or element of that name by accident, which is modelled, with no theorem.
- The marked-string candidate and the sentinels: the first is the tag form with another match, the second only recognises values.
- Trees are values: updating nodes in place and sharing through YAML anchors and aliases are not modelled.
- Encoding a whole configuration after redaction: redaction is modelled on the list of leaves.
- Read errors other than the end of input, empty reads and the growth of the scanner's buffer below its limit.
- `Pager.WrapLine`: widths, escapes and which characters are marks are given with each character, so the Unicode tables are not modelled.
- `Pager.Page.PageOn`: the bytes written to the terminal; only the page's position and lines are modelled.
- The client's other commands, the server routes, the leak oracle and the value matcher: their parts are elsewhere or promise no such law.
