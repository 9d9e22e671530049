# Verified models of the workflow runtime's protocols

Dafny models of the event-driven protocols at the core of the repository, with the properties
they are there to keep. `dafny verify dfyconfig.toml` checks everything.

## What is modelled

- **Runs of a workflow.** `WorkflowGraph` is the compiled graph, `RunReducer` the fold of ledger
  events into a run state (what `appendRunEvent` accepts, and what it then returns), `Scheduler`
  the choice of the next transition, `RecoveredHistory` the check a resume makes of a ledger,
  `LiveRun` the driver: concurrent batches, retries, approvals, effects, crashes and resumes.
  On these rest `RunSafety`, `SchedulerProgress`, `LoopUnrolling`, `OptimizationChain`,
  `LiveHistory`, `DriverAcceptance`, `WrittenLedgers`, `RealizedLedgers`, `Steering`, `CompilerRules`,
  `RegionGraph`, `UnconditionalNodes`, `UnrolledExample`, `NestedRegions`, `NestedExample`,
  `BraidedJoins`, `BraidedCompiles`, `MixedBatch`, `ChildBudget`, `Publication`. What a replayed state
  holds is read off the ledger alone in `RunAccounting` and `LedgerReading`; `LedgerDecisions` and
  `LedgerSafety` say what must stand in a ledger before each kind of record.
- **The supervisor's admission ledger**: `Admission`, `AdmissionSafety`, `AdmissionEffects`,
  `AdmissionCompaction`.
- **Strict JSON and its canonical printer**: the grammar of sections 2 to 7 of RFC 8259 as
  derivation trees (`JsonLexical`, `JsonGrammar`), the parser as functions (`StrictJson`) and as the
  class that walks the text (`StrictJsonParser`), soundness, completeness, the tables and the value of
  numbers (`JsonTables`, `JsonNumbers`), the errors (`JsonRefusal`, `JsonMalformed`), and the printer
  (`CanonicalJson`, `CanonicalRoundTrip`, `CanonicalOrder`, `CanonicalForm`). Surrogates, numbers and duplicate names
  follow sections 2.1 to 2.3 of RFC 7493.
- **First activation** (`FirstActivation`, `ActivationProgress`), **the evaluation runner**
  (`EvaluationRunner`, `EvaluationProgress`), **the driver relay** (`DriverRelay`, `RelayOrder`),
  **surface rebases** (`SurfaceRebase`), **supervisor frames** (`SupervisorFrames`, `FrameOutcomes`,
  `Utf8`).

Representation. A node is named by its position in declaration order; the source's unique
identifiers start with a letter, so object entries enumerate in that order too. Evidence is one
value and a truncation flag. What makes a failed attempt retryable in its recorded error (retryable,
no side effect, complete accounting) is one flag. A digest is an injective function. Clocks,
outcomes of executions, decisions of people, failures of stores and the process's death are free
choices of a step or parameters. Numbers are the lexemes of the JSON grammar; a lexeme is finite
when the double it denotes is. Texts are sequences of UTF-16 code units. Limits are safe integers.

## Findings

Each is a property one would expect, an input or state in which the code does not have it, and the
exact condition under which it does.

1. *The "no ready node" error is reachable* (`src/application/run-workflow.ts:496-501`). The compiler
   accepts a workflow in which one condition's join lies across the cases of another; when the outer
   condition is omitted while all branches of its join succeed, the join is never ready
   (`BraidedCompiles.CompiledYetStuck`). A quiet unfinished run has no transition exactly when every
   node that is due is such an orphan (`SchedulerProgress.NoReadyNodeExactly`). No workflow whose
   regions nest, which can be checked before a run, ever has one (`NestedRegions.NestedRunGoesOn`).
2. *A join the scheduler chooses may be refused by the reducer* (`src/domain/run/events.ts:5734-5803`),
   in such a workflow (`BraidedCompiles.CompiledYetRefused`). It is accepted exactly when the selected
   branch succeeded and the others were omitted (`BraidedJoins.ChosenJoinAcceptedExactly`), which
   nesting guarantees (`NestedRegions.NestedJoinAccepted`).
3. *The recovery check accepts ledgers that no run leaves* (`src/application/run-workflow.ts:2593-2743`
   against `src/application/run-workflow.ts:519-524`): a child started beside another node
   (`MixedBatch.AcceptedButNeverLeft`). Exactly which ledgers runs leave behind is
   `RealizedLedgers.LedgersLeftExactly`.
4. *Compaction can fail* (`src/supervisor/admission.ts:194` against `src/supervisor/admission.ts:10`
   and `src/supervisor/admission.ts:74`): the text of an uncertain failure may be longer than a
   snapshot may hold (`AdmissionCompaction.LongFailureBlocksCompaction`). A snapshot parses exactly
   when no uncertain job has so long a text (`AdmissionCompaction.SnapshotParsesExactly`).
5. *A sequence number read before its turn closes the publication queue*
   (`src/application/run-workflow.ts:790-794`), unless nothing was waiting when it was read
   (`Publication.EarlyStampNeedsEmptyQueue`).

One throw that looks reachable is not: an optimization controller would have no completion to record
if its first candidate were left out (`src/application/run-workflow.ts:3442-3444`), and in every compiled
workflow, whether or not its regions nest, it never is (`UnconditionalNodes.OptimizationAlwaysCompletes`).

## Model

| member | source | states |
|---|---|---|
| Scheduler.SelectNextTransition | src/application/run-workflow.ts:3127-3244 | the scheduler's loop returns the first ready node's transition, and none exactly when no node is ready |
| Scheduler.ControlEventMatches | src/application/run-workflow.ts:3246-3318 | the event recorded for a control transition is one that the history check matches to that transition |
| Scheduler.ChoicesAscend | src/application/run-workflow.ts:493-524 | starting the chosen node leaves every other node's readiness alone, so the next choice lies strictly later in declaration order |
| RecoveredHistory.ValidateRecoveredHistory | src/application/run-workflow.ts:2593-2743 | the validator's loop accepts exactly the ledgers every record of which passes the graph check and the reducer, with the resume marker after an interruption, and returns the state they lead to |
| RecoveredHistory.RejectionIsFinal | src/application/run-workflow.ts:2593-2743 | a ledger with a rejected prefix is rejected |
| RunSafety.SettledIsAbsorbing | src/domain/run/events.ts:3958-6911 | no accepted event changes a node that has succeeded or was omitted |
| RunSafety.ChosenIsJustified | src/application/run-workflow.ts:3136-3241 | a node is chosen to run or to be decided only when all its dependencies succeeded and its condition, loop and optimization guards chose it |
| RunSafety.SoundStep | src/domain/run/events.ts:3958-6911 | every admitted and accepted event keeps: begun work is justified, omissions have a reason, decisions belong to succeeded conditions and checks, a completed join took one branch |
| RunSafety.AcceptedHistoryIsSound | src/application/run-workflow.ts:2593-2743 | every ledger the recovery check accepts leads to such a state |
| RunSafety.SettledForever | src/domain/run/events.ts:3958-6911 | a node settled at one point of an accepted ledger has the same record at every later point |
| RunSafety.StartsStayJustified | src/application/run-workflow.ts:3136-3241 | wherever an accepted ledger starts a node, all its dependencies had succeeded and its guards had chosen it, and that is still so at every later point |
| WorkflowGraph.SelectedCaseExactly | src/application/run-workflow.ts:3610-3612 | a condition selects a case exactly when it is that of the first test equal to the value, or the default where no test is |
| RunAccounting.AccountIsExact | src/domain/run/events.ts:8809-8838 | in every replayed ledger and every resource, what the state says is spent is the sum of what the recorded successes and failures report, and of one start for each start |
| RunAccounting.NothingStartsPastALimit | src/domain/run/events.ts:4986-5132 | in an accepted ledger nothing is started, retried or asked for once the records before it add up to a declared limit |
| RunAccounting.EndingsFollowTheAccount | src/domain/run/events.ts:6734-6911 | a run ends as exhausted only when the records have used some limit up, and otherwise only while they have used up none but that on starts |
| LedgerReading.StandingIsRead | src/domain/run/events.ts:3958-6911 | in every accepted ledger a node stands where the last record that moves it led, and is pending before any does |
| LedgerReading.CourseIsRead | src/domain/run/events.ts:3958-6911 | ... and the run is active, waiting or ended as its last deciding record says |
| LedgerReading.AttemptsAreNumbered | src/domain/run/events.ts:4986-5297 | every record that carries an attempt number carries the count of the attempts before it, plus one where it begins the next |
| LedgerReading.ApprovalIsRead | src/domain/run/events.ts:4470-4633 | a command's approval is what the last record about it, or the start that used it, made of it |
| LedgerReading.EffectsAreRead | src/domain/run/events.ts:6277-6555 | a node's effects are those its current attempt prepared, each as it was last found, or still open |
| LedgerReading.RetryIsRead | src/domain/run/events.ts:6646-6732 | a failed node may be retried exactly when the record of its failure says so |
| LedgerReading.SourceIsShown | src/domain/run/events.ts:6557-6644 | what a control record may read of a node is exactly what the records before show: its recorded output, or for a published result what was shown of its source |
| LedgerReading.DecisionIsRead | src/domain/run/events.ts:5299-5527 | a node carries a decision exactly when a record decided so |
| LedgerDecisions.ConditionsTakeTheFirstMatch | src/domain/run/events.ts:5342-5344 | in every accepted ledger a condition records the case of the first test that the recorded, whole evidence of its source equals, or the default where it equals none |
| LedgerDecisions.ReadersReadWholeValues | src/domain/run/events.ts:5369-5527 | a result publishes only a whole recorded value that its schema admits, and a loop check stops exactly on the value it is to stop on |
| LedgerDecisions.ApprovalsSeeWholeValues | src/domain/run/events.ts:4843-4925 | an approval is asked for only when everything it observes is recorded, and recorded whole |
| LedgerDecisions.ControlFailsForCause | src/domain/run/events.ts:6080-6275 | a control node fails only because what it reads was recorded incomplete, is not admitted, or because every check of a loop said to go on |
| LedgerDecisions.OmissionsAreWarranted | src/domain/run/events.ts:5575-5732 | a node is omitted only after its dependencies are settled, for a decision on record against it, or with exactly its omitted dependencies listed in order |
| LedgerDecisions.JoinsFollowTheirCondition | src/domain/run/events.ts:5734-5803 | a join takes the branch of the case that its condition decided, which has succeeded, and lists all other branches in order, each of them omitted |
| LedgerDecisions.LoopsEndAtTheFirstStop | src/domain/run/events.ts:5529-5573 | a loop completes with its first check on record to stop, counted from one |
| LedgerDecisions.OptimizationsEndInOrder | src/domain/run/events.ts:6029-6078 | an optimization completes with the last of its decided checks: all before it said to go on, all after it were omitted, and it said to stop or was the last |
| LedgerSafety.StartsAreDue | src/domain/run/events.ts:4986-5132 | a node starts only while the run is active, fewer nodes run than may, every dependency has succeeded, every guard was decided for it and, where needed, its last approval record is the grant |
| LedgerSafety.ConcurrencyIsBounded | src/domain/run/events.ts:4986-5132 | at no point of an accepted ledger do more nodes run than the workflow allows |
| LedgerSafety.OutcomesInOrder | src/domain/run/events.ts:6557-6732 | outcomes are recorded of running nodes only, the first in declaration order first |
| LedgerSafety.InterruptionsLoseNothing | src/domain/run/events.ts:5216-5255 | an attempt is given up as interrupted only with attempts left, no limit that its lost outcome could have touched, and every effect it prepared found not applied |
| LedgerSafety.RetriesAreAllowed | src/domain/run/events.ts:5257-5297 | a failed node is retried only if its failure allows it, attempts are left, the attempt prepared no effect and no limit is used up |
| LedgerSafety.EffectsAreFoundOnce | src/domain/run/events.ts:6277-6555 | an effect is prepared by a running node and found applied or not at most once |
| LedgerSafety.RequestsAreAlone | src/domain/run/events.ts:4470-4547 | an approval is requested with nothing running and no other approval open, for a command that has none or whose last one expired |
| LedgerSafety.ApprovalsAreAnswered | src/domain/run/events.ts:4549-4633 | an approval is decided only while the run waits for it, and expires only while granted and unused |
| LedgerSafety.RunsEndOnce | src/domain/run/events.ts:6734-6911 | nothing follows the record that ends a run; success needs every node settled, failure names the first failed node, and no end comes while a node runs |
| LedgerSafety.EndingsAreChosen | src/domain/run/events.ts:6760-6911 | a run fails only if its failure may not be retried or is not the only one, and used-up starts end it as exhausted, not as cancelled, only while nothing has failed and work is left |
| LedgerSafety.NothingBeginsAfterFailure | src/domain/run/events.ts:3958-4445 | after a failure only outcomes, recovery and the end may follow, and control nodes are decided only with nothing running |
| LedgerSafety.FirstReadyFirst | src/application/run-workflow.ts:2593-2743 | every start, request and decision of an accepted ledger is on the first ready node in declaration order |
| LedgerSafety.ResumptionIsMarked | src/application/run-workflow.ts:2593-2743 | after an interruption an accepted ledger goes on only with a resume record |
| SchedulerProgress.NoReadyNodeExactly | src/application/run-workflow.ts:496-501 | a quiet unfinished run has no transition exactly when every due node is a join whose condition was omitted though all its branches succeeded |
| SchedulerProgress.Progress | src/application/run-workflow.ts:3127-3244 | without such a join a quiet unfinished run always has a next transition |
| SchedulerProgress.HistoriesAreBounded | src/application/run-workflow.ts:467-501 | the records that change a node's status number at most the graph's allowance, however often the run crashes and resumes |
| LoopUnrolling.BodyNeedsContinue | src/application/run-workflow.ts:3205-3215 | a node of iteration k runs only after check k - 1 said to continue |
| LoopUnrolling.IterationsInOrder | src/application/run-workflow.ts:3205-3215 | ... and after checks 1 to k - 1 all did |
| LoopUnrolling.OneStop | src/application/run-workflow.ts:3564-3593 | at most one check of a loop ever says to stop |
| LoopUnrolling.FirstStopIsDoUntil | src/application/run-workflow.ts:3407-3435 | the first stopping check is where a bounded do-until over the recorded tests ends |
| LoopUnrolling.ControllerRefinesDoUntil | src/application/run-workflow.ts:3407-3435 | a completing controller records the outcome of that do-until, with exactly the stopping check's index, and the limit failure exactly when every check said to continue |
| LoopUnrolling.OutcomeIsAccepted | src/domain/run/events.ts:5529-5573 | the reducer accepts that record |
| OptimizationChain.CandidatesInOrder | src/domain/workflow/compiler.ts:1764-1830 | candidate k + 1 begins only after every check up to k decided to go on |
| OptimizationChain.OptimizationCompletesExactly | src/domain/run/events.ts:6029-6078 | a due controller has a completion exactly when its first check succeeded; the reducer accepts it, it counts a prefix of the checks that went on, and it ends at the check that stopped or at the last |
| LiveHistory.LiveHistoryIsAccepted | src/application/run-workflow.ts:2593-2743 | every ledger a run can leave behind, with concurrent batches, retries, approvals, crashes between any two writes and repeated resumes, is accepted by the recovery check, which rebuilds exactly the driver's state |
| LiveHistory.TransitionAdmitted | src/application/run-workflow.ts:493-551 | whatever the driver writes while it fills a batch is the scheduler's choice at that prefix |
| LiveHistory.RecordKeeps | src/application/run-workflow.ts:373-960 | every record keeps: children and other nodes never run together, a batch is what runs and is in declaration order, nothing but resume records follows an interruption |
| DriverAcceptance.DriverIsNeverRefused | src/application/run-workflow.ts:400-404 | wherever a run stands, the reducer accepts what the driver is about to write, but for a decision, a join and an interruption, which have their own exact conditions |
| DriverAcceptance.DecisionAcceptedExactly | src/domain/run/events.ts:4549-4614 | a decision on a waiting run is accepted exactly when it is on the node the scheduler would settle next |
| DriverAcceptance.OneRequestAtATime | src/domain/run/events.ts:4470-4547 | in every accepted history at most one approval is open; it is of the scheduler's next choice, and nothing runs or has failed |
| DriverAcceptance.InterruptionAcceptedExactly | src/application/run-workflow.ts:2252-2372 | an interruption the driver proposes is accepted exactly when the attempt may be disposed of: within its attempts, no limit that needs accounting, every effect known not applied |
| DriverAcceptance.OmissionAccepted | src/domain/run/events.ts:5575-5732 | the reason the scheduler gives for leaving a node out is one the reducer accepts |
| DriverAcceptance.EvaluationAccepted | src/domain/run/events.ts:5299-5527 | conditions, results and loop checks are decided by the scheduler as the reducer requires |
| WrittenLedgers.RunsAreWritten | src/application/run-workflow.ts:373-960 | in every ledger a run leaves, each record fits the records before it: batches are filled by starts of one sort, settled only when full, ended where the loop looks, agents interrupted in order |
| RealizedLedgers.WrittenIsRealized | src/application/run-workflow.ts:373-960 | every accepted ledger with that property is one a run leaves, and the run can stand wherever the last record allows |
| RealizedLedgers.LedgersLeftExactly | src/application/run-workflow.ts:2593-2743 | a ledger is left by some run if and only if the recovery check accepts it and each record fits |
| MixedBatch.AcceptedButNeverLeft | src/application/run-workflow.ts:519-524 | a compiled workflow has an accepted ledger that no run leaves |
| Steering.HistoryIsSteered | src/application/run-workflow.ts:3127-3244 | in every accepted history a join is left out only with its condition, a loop only if no check stopped it, an optimization never |
| RegionGraph.FirstCandidateFree | src/domain/workflow/compiler.ts:517-531 | the compiler's ordering rule keeps the first candidate of an optimization out of every case of every condition |
| RegionGraph.FreeCondition | src/domain/workflow/compiler.ts:1060-1173 | a condition whose join lies in no case lies in no case itself |
| UnconditionalNodes.NeverLeft | src/application/run-workflow.ts:3127-3244 | in every accepted history of a compiled workflow, a node in no case and in no later part of an unrolling is never left out |
| UnconditionalNodes.OptimizationAlwaysCompletes | src/application/run-workflow.ts:3437-3446 | in every accepted history of a compiled workflow, braided or not, a due controller has its completion and the reducer accepts it |
| UnrolledExample.UnrolledIsCompiled | src/domain/workflow/compiler.ts:1669-1860 | a workflow with a loop of two iterations before an optimization satisfies the compiler's rules |
| NestedRegions.RegionsDecide | src/domain/workflow/compiler.ts:1060-1173 | where regions nest, in every accepted history a settled node succeeded exactly if the run entered its region |
| NestedRegions.NoOrphans | src/application/run-workflow.ts:3155-3170 | where regions nest, a join whose condition was omitted has an omitted branch |
| NestedRegions.NestedJoinAccepted | src/domain/run/events.ts:5734-5803 | where regions nest, every chosen join has its record and the reducer accepts it |
| NestedRegions.NestedRunGoesOn | src/application/run-workflow.ts:467-560 | a run of a compiled nested workflow never throws: a transition exists while it is unfinished, every control transition has its record, and what the driver writes is accepted |
| NestedExample.DiamondFits | src/domain/workflow/compiler.ts:1060-1173 | a workflow with one condition, a node for each case and their join compiles, and its regions nest |
| BraidedCompiles.BraidedIsCompiled | src/domain/workflow/compiler.ts:287-413 | the braided workflow satisfies the compiler's rules: one entry, terminals, guards, case coverage, one join per condition, branch membership and completeness |
| BraidedCompiles.CompiledYetStuck | src/application/run-workflow.ts:496-501 | a compiled workflow has an accepted ledger after which the scheduler finds no ready node |
| BraidedCompiles.CompiledYetRefused | src/domain/run/events.ts:5734-5803 | a compiled workflow has an accepted ledger after which the scheduler chooses a join that the reducer refuses |
| BraidedJoins.ChosenJoinAcceptedExactly | src/domain/run/events.ts:5734-5803 | a chosen join is accepted exactly when the branch of the selected case succeeded and every other branch was omitted |
| ChildBudget.DecisionsAreExact | src/application/run-workflow.ts:1729-1768 | neither saturation nor the rounding of doubles changes a preflight decision: it is that of the exact sum |
| ChildBudget.SumIsNearest | src/application/run-workflow.ts:1729-1768 | the sum of two safe integers is the nearest double, ties going to the even significand |
| ChildBudget.Reservations.Covers | src/application/run-workflow.ts:1729-1768 | a child passes its preflight exactly when the ceilings of all children of the batch, and its own start, fit what the parent has left |
| ChildBudget.Reservations.Reserve | src/application/run-workflow.ts:1770-1806 | the held amounts stay the capped sums of the ceilings reserved |
| ChildBudget.FillBatch | src/application/run-workflow.ts:703-715 | the children that pass are covered together, with one start each; the first that is not covered still starts and ends the batch; otherwise the batch ends at its width, for want of children, or because starts used a limit up |
| Publication.JournalIsFaithful | src/application/run-workflow.ts:392-420 | under every interleaving of requests, turns and faults, memory is the fold of the confirmed entries, sequence numbers leave no gap, and the entries are a prefix of the requests in order |
| Publication.NothingFollowsAFailure | src/application/run-workflow.ts:392-420 | after one failed publication nothing is written and memory stands still |
| Publication.TurnsTakeInOrder | src/application/run-workflow.ts:392-420 | each turn takes exactly the first waiting request, also after a failure |
| Publication.EarlyStampNeedsEmptyQueue | src/application/run-workflow.ts:790-794 | a request that read its number when made survives its turn exactly when nothing was waiting and its payload is accepted; else it closes the queue |
| Publication.LateStampNeedsOnlyThePayload | src/application/run-workflow.ts:416-418 | a request that reads its number at its turn is refused only for its payload |
| Publication.Publisher.TakeTurn | src/application/run-workflow.ts:398-415 | one turn validates, makes durable and applies the first waiting request, or closes the queue, and keeps the journal faithful |
| Admission.ReduceAdmissionEvents | src/supervisor/admission.ts:521-544 | the reducer's loop gives the root's state continued by every later event in turn, or the first error |
| Admission.StartState | src/supervisor/admission.ts:745-791 | the loops that read a snapshot's lists give the state the snapshot describes, or its error |
| AdmissionSafety.OneDecision | src/supervisor/admission.ts:514-519 | for a new job exactly one of dispatch, queue and reject is accepted, the one its classification names |
| AdmissionSafety.QueuedDispatchExactly | src/supervisor/admission.ts:633-663 | a queued job is dispatched exactly when it is the oldest queued and a worker is free |
| AdmissionSafety.ClosingChecksHold | src/supervisor/admission.ts:793-827 | after a transition whose own guards hold, the closing checks never fail |
| AdmissionSafety.LedgersAreConsistent | src/supervisor/admission.ts:566-743 | every state a ledger reduces to has unique runs, workers and queue places, disjoint jobs and rejections, places no greater than the last, and both capacity limits kept |
| AdmissionSafety.QueueIsFifo | src/supervisor/admission.ts:587-607 | over whole ledgers the places of jobs dispatched from the queue strictly increase, whatever comes between |
| AdmissionCompaction.SnapshotParsesExactly | src/supervisor/admission.ts:330-347 | a reachable state's snapshot is valid exactly when no uncertain job's failure is longer than 4096 characters |
| AdmissionCompaction.SnapshotRestores | src/supervisor/admission.ts:759-791 | a valid snapshot restores the state it was taken of, retained events apart |
| AdmissionCompaction.CompactionPreservesMeaning | src/supervisor/admission.ts:521-544 | for every reachable state with a valid snapshot and every tail, snapshot and tail give the same error or state as the whole ledger, retained events apart |
| AdmissionCompaction.LongFailureBlocksCompaction | src/supervisor/admission.ts:190-196 | a ledger with a failure text between the two lengths reduces, and its snapshot is refused |
| AdmissionEffects.BookkeepingAfter | src/supervisor/admission.ts:566-585 | an accepted event has the next number under the same policy, and changes no job, rejection or limit but those of its own job |
| AdmissionEffects.EntryAfter | src/supervisor/admission.ts:587-663 | a job enters the table queued or dispatched under exactly the identity the event gives; a queued one is dispatched with the identity and place it had |
| AdmissionEffects.StageAfter | src/supervisor/admission.ts:664-719 | acceptance, cancellation and uncertainty change only their job's stage and keep its identity and place |
| AdmissionEffects.RemovalAfter | src/supervisor/admission.ts:695-733 | a release and a completed cancellation remove exactly their job |
| AdmissionEffects.RejectionAfter | src/supervisor/admission.ts:609-632 | a rejection is recorded of a new command when neither worker nor place is free, and kept until it is committed with the same digest |
| AdmissionEffects.LaterAcceptedExactly | src/supervisor/admission.ts:664-733 | the later events of a job are accepted exactly when they suit its stage, its worker or its cancellation command |
| AdmissionEffects.RefusedExactly | src/supervisor/admission.ts:566-663 | which error a refused event meets: its number, then its policy, then want of room for an enqueue or dispatch that is otherwise in order, else an invalid transition |
| AdmissionEffects.StandsAsLastRecorded | src/supervisor/admission.ts:521-544 | over whole ledgers a job stands where the last record about it put it, and is out of the table after a release or a completed cancellation |
| AdmissionEffects.ActiveExactly | src/supervisor/admission.ts:566-743 | a job holds a worker exactly when it was dispatched and not released since |
| AdmissionEffects.ReleaseFreesAWorker | src/supervisor/admission.ts:720-733 | a release lowers the active count by one, and the dispatch that was refused for want of a worker just before it is then accepted |
| AdmissionEffects.NumbersCount | src/supervisor/admission.ts:745-757 | sequence numbers count the records, queue places count the jobs that queued, and the retained events are the records |
| JsonLexical.RequireValidUnicode | src/domain/strict-json.ts:270-288 | the walk accepts exactly the texts in which every surrogate is paired |
| JsonLexical.NumberReadBack | src/domain/strict-json.ts:215-231 | the number pattern, on a written number followed by what cannot continue it, matches exactly that number |
| JsonLexical.ScanOver | src/domain/strict-json.ts:172-213 | scanning a written string gives back its characters and what follows |
| JsonNumbers.FiniteExactly | src/domain/strict-json.ts:223-229 | a number is finite exactly when its decimal value, as a real, is below 2^1024 - 2^970 |
| JsonTables.HexValueExactly | src/domain/strict-json.ts:194 | a hexadecimal digit is worth i exactly when it is the i-th character of either alphabet |
| JsonTables.TablesExactly | src/domain/strict-json.ts:64-99 | blanks, digits, exponent marks, signs, brackets and the fixed texts are exactly the characters the grammar names |
| JsonTables.EscapeParses | src/domain/strict-json.ts:200-204 | a quoted letter after a backslash parses to exactly the unit the table of eight gives it |
| JsonTables.HexParses | src/domain/strict-json.ts:192-199 | four quoted hexadecimal digits, in either case, parse to the unit they spell, and half a surrogate pair is refused |
| JsonTables.HexPairParses | src/domain/strict-json.ts:178-187 | two such escapes that spell a surrogate pair parse to the pair |
| JsonSoundness.ValueIsDerived | src/domain/strict-json.ts:64-170 | what the parser reads is the text of a derivation of the grammar, denotes the value, has no duplicate name and no unpaired surrogate, and is within the depth and node limits |
| JsonCompleteness.ValueComplete | src/domain/strict-json.ts:64-170 | the text of any derivation is read as what it denotes exactly when the value is interoperable and within the limits, else it is refused |
| JsonCompleteness.AcceptedExactly | src/domain/strict-json.ts:51-231 | the parser accepts a source with a value exactly when the source is a JSON text denoting it, the value is interoperable and both limits hold |
| JsonRefusal.OutcomeExactly | src/domain/strict-json.ts:51-231 | a JSON text gives its value, or the error of the first fault of that value in reading order: depth or count, ill-formed text or infinite number, repeated name |
| JsonRefusal.RefusedForCause | src/domain/strict-json.ts:32-62 | each error of a JSON text has its cause: a limit exceeded, an ill-formed text or infinite number, a name used twice, or limits out of range |
| JsonMalformed.MalformedIsInvalid | src/domain/strict-json.ts:51-231 | a text that is no JSON is refused as invalid, unless it holds an ill-formed token or is as long as a limit |
| StrictJsonParser.Parser.ParseValueHere | src/domain/strict-json.ts:64-99 | the method at any position advances the index and the node count as the function on the rest of the text says |
| StrictJsonParser.Parser.ParseItemsHere | src/domain/strict-json.ts:147-170 | the element loop gives the whole list the function gives |
| StrictJsonParser.Parser.ParseMembersHere | src/domain/strict-json.ts:101-145 | the member loop, with the set of names met so far, gives the members the function gives |
| StrictJsonParser.Parser.ScanCharacters | src/domain/strict-json.ts:172-213 | the string loop consumes exactly the characters of the string |
| StrictJsonParser.ParseStrictJson | src/domain/strict-json.ts:32-62 | a call on a source gives what the parsing function gives, trailing text refused |
| CanonicalRoundTrip.PrintRoundTrips | src/application/resolve-run-evidence-reference.ts:111-124 | parsing a value's canonical print gives the value with its members ordered exactly when its texts are well formed, its names distinct, its numbers finite and it is within the limits; else it is refused |
| CanonicalOrder.PrintsAlikeExactly | src/application/resolve-run-evidence-reference.ts:111-124 | two values with distinct names print alike exactly when they are the same up to the order of members |
| CanonicalForm.BeforeExactly | src/application/resolve-run-evidence-reference.ts:119-120 | a name sorts before another exactly when it has the smaller unit where they first differ, or ends there |
| CanonicalForm.OrderedAscends | src/application/resolve-run-evidence-reference.ts:111-124 | the names of every object that is printed ascend, at every level |
| CanonicalForm.CharacterExactly | src/application/resolve-run-evidence-reference.ts:111-124 | a unit prints as itself, as a letter after a backslash, or as four lower-case hexadecimal digits, by an explicit table |
| CanonicalForm.PrintIsShortest | src/application/resolve-run-evidence-reference.ts:111-124 | no JSON text that denotes the printed value is shorter than its canonical print |
| FirstActivation.InstallsArePrepared | src/application/capability-repository-first-activation.ts:644-735 | every install call, in every run with crashes and restarts, is made while a durable prepared record holds exactly its package's receipt |
| FirstActivation.SettledWasInstalled | src/application/capability-repository-first-activation.ts:593-610 | a settled record's exact package was installed |
| FirstActivation.RecordsProgress | src/application/capability-repository-first-activation.ts:393-422 | across runs the status only moves from waiting to prepared to settled, the receipt never changes once prepared, and the durable clock never decreases |
| FirstActivation.ChecksAreBounded | src/application/capability-repository-first-activation.ts:280-378 | checks never outnumber durable attempts, attempts never exceed the maximum, and the last observed clock never falls below the creation time |
| ActivationProgress.UndisturbedRunSettles | src/application/capability-repository-first-activation.ts:215-422 | from every stopped world of every run in which nothing is installed and attempts are left, a process whose clock does not go back and that finds a candidate within those attempts ends with it alone installed and its record settled |
| ActivationProgress.InstalledSettles | src/application/capability-repository-first-activation.ts:266-279 | a process that finds a prepared record with exactly its package installed settles it without another install call |
| ActivationProgress.PreparedInstalls | src/application/capability-repository-first-activation.ts:612-735 | a process that finds a prepared record and an empty store installs and settles it, whatever the install call reports |
| ActivationProgress.ClockMovesInside | src/application/capability-repository-first-activation.ts:737-765 | a clock moved inside an install call is settled with if the process learnt of it; else the prepared record stays for the next process |
| ActivationProgress.UsedUpIsFinal | src/application/capability-repository-first-activation.ts:284-289 | once the attempts are used up and the process has stopped, nothing is written, checked or installed any more |
| ActivationProgress.ForeignPackagesStop | src/application/capability-repository-first-activation.ts:225-283 | another package in the store stops the process before it writes or installs |
| ActivationProgress.CallsFindAnEmptyStore | src/application/capability-repository-first-activation.ts:631-634 | every install call is made over an empty store |
| EvaluationRunner.ValidateRunnerPrefix | src/application/run-evaluation.ts:571-600 | the check passes exactly the schedule prefixes whose records each name the digest before them |
| EvaluationRunner.ChainDeterminesLedger | src/application/run-evaluation.ts:571-600 | two valid prefixes that end in the same digest are the same ledger |
| EvaluationRunner.TrialsRunAtMostOnce | src/application/run-evaluation.ts:107-413 | across any crashes and restarts each trial's adapter runs at most once, and the committed records are a valid prefix |
| EvaluationRunner.RecordsOnlyGrow | src/application/run-evaluation.ts:402-407 | an earlier ledger is a prefix of every later one |
| EvaluationProgress.EveryRecordHasItsStep | src/application/run-evaluation.ts:121-146 | every committed record was added by one step: a recovered attempt as crashed from its own start, a finished one with the outcome and times of that step |
| EvaluationProgress.UndisturbedRunFinishes | src/application/run-evaluation.ts:107-413 | from every stopped world of every run an undisturbed runner finishes the schedule: the interrupted attempt is recorded as crashed without running again, each remaining trial as it went |
| SurfaceRebase.RebasePromptChanges | src/application/prepare-effective-harness-candidate.ts:865-893 | the loop over a clone gives the state in which every listed prompt was moved in turn, or the first error |
| SurfaceRebase.PromptsMoved | src/application/prepare-effective-harness-candidate.ts:865-893 | a rebase succeeds exactly when each listed agent exists on both sides with the expected prompt, and changes those prompts and nothing else |
| SurfaceRebase.AssertPromptOnlyChange | src/application/prepare-effective-harness-candidate.ts:941-965 | the check undoes each listed change and accepts exactly when the baseline is left |
| SurfaceRebase.CheckedExactly | src/application/prepare-effective-harness-candidate.ts:941-965 | the prompt-only check passes exactly when rebasing the changes onto the baseline gives the projection |
| SurfaceRebase.RouteCheckedExactly | src/application/prepare-effective-harness-candidate.ts:997-1017 | the routing-only check passes exactly when moving the route onto the baseline gives the projection |
| SurfaceRebase.FirstRefusal | src/application/prepare-effective-harness-candidate.ts:865-893 | a rebase is refused for its first change that cannot be moved, with the error of that change |
| SurfaceRebase.FirstMismatch | src/application/prepare-effective-harness-candidate.ts:941-965 | the prompt-only check names its first mismatch, and without one is refused exactly when something else changed |
| SurfaceRebase.RouteRefusals | src/application/prepare-effective-harness-candidate.ts:997-1017 | which error a routing check or move meets, in the order the source looks |
| SurfaceRebase.RebasesCommute | src/application/prepare-effective-harness-candidate.ts:841-893 | prompt and route rebases commute: either order succeeds exactly when the other does, with the same state |
| DriverRelay.WriteInnerLine | prime-container/internal/containerprotocol/driver_relay.go:135-151 | under any short writes what was sent is a prefix of the line, the whole line exactly on success, and each failure has its cause |
| DriverRelay.LinesRoundTrip | prime-container/internal/containerprotocol/driver_relay.go:117-151 | reading a stream that begins with a written line gives its payload and leaves the rest |
| DriverRelay.OnlyWrittenLinesAreRead | prime-container/internal/containerprotocol/driver_relay.go:117-133 | nothing but written lines is read |
| DriverRelay.RelayDriver | prime-container/internal/containerprotocol/driver_relay.go:11-91 | the loop, with the sequence numbers it expects on either side, gives the session of the function over what the two channels deliver |
| DriverRelay.SessionExactly | prime-container/internal/containerprotocol/driver_relay.go:11-91 | where every write goes through, a session succeeds exactly when the bootstrap is good and some first terminal frame ends a valid session; then the host received exactly the driver's frames and the marker, and the driver the bootstrap and one answer per request; else it stops, for the stated cause, after whole exchanges |
| DriverRelay.TranscriptIsComplete | prime-container/internal/containerprotocol/driver_relay.go:34-88 | of the acts of relaying, the host receives exactly the frames in order and the driver exactly the answers in order |
| RelayOrder.ExchangesInTurn | prime-container/internal/containerprotocol/driver_relay.go:34-88 | the acts of a relay are its exchanges in order: frame read, frame to the host, answer read, answer to the driver |
| RelayOrder.AnswersFollowRequests | prime-container/internal/containerprotocol/driver_relay.go:64-84 | a request reaches the host before its answer is read, the answer reaches the driver next, and all this before any later frame is read |
| RelayOrder.ReadErrorsExactly | prime-container/internal/containerprotocol/driver_relay.go:117-133 | a line is too long, cut short or rejected exactly when the buffer fills first, the stream ends first, or it could not have been written |
| SupervisorFrames.ReadFrame | src/supervisor/socket-transport.ts:22-59 | the handlers' chunk list and byte count give the outcome of the bytes received |
| SupervisorFrames.ChunkingDoesNotMatter | src/supervisor/socket-transport.ts:22-59 | however a frame is cut into chunks, and whatever follows, reading gives the frame |
| SupervisorFrames.OnlyFramesAreRead | src/supervisor/socket-transport.ts:22-59 | what is read is one frame: within the limit, ended by its only line feed |
| FrameOutcomes.OutcomeOfEvents | src/supervisor/socket-transport.ts:22-59 | the outcome of a socket is that of the first event that is not an unfinished chunk: failed, ended, too long, more than one frame, or the frame |
| SupervisorFrames.EncodedIsOneFrame | src/supervisor/protocol.ts:376-392 | an encoded message is one frame whose body is the JSON text of the message |
| FrameOutcomes.EncodedExactly | src/supervisor/protocol.ts:376-392 | a message is refused exactly when its JSON text and the line feed take more bytes than a frame may |
| FrameOutcomes.BodyExactly | src/supervisor/protocol.ts:410-442 | a frame has a body exactly when it is short enough and is the UTF-8 of one line with that body, a byte order mark apart; else its fault is length, then encoding, then form |
| SupervisorFrames.MessagesSurviveTransport | src/supervisor/protocol.ts:410-442 | an encoded message, cut into any chunks, is read and framed back into a text that denotes it |
| Utf8.EncodingRoundTrips | src/supervisor/protocol.ts:410-442 | well-formed text survives UTF-8 encoding and decoding; the byte order mark that the source's decoder drops is taken off where a frame is parsed |
| Utf8.DecodedExactly | src/supervisor/protocol.ts:420-428 | bytes decode to a text exactly when the text is well formed and they are its encoding: overlong forms, encoded surrogates and larger values are refused |

## Left out

- Delegation in runs: its sequence number is read outside the critical section, so only the queue's side of it is modelled (`Publication.EarlyStampNeedsEmptyQueue`).
- Agent command journals and their approvals; of what an agent records while it runs only effects are modelled.
- RecoveredHistory.ValidateRecoveredHistory: does not model the operation digest, goals, packages, capability and model-session identities checked by the recovery check: chains of field equality around the part that is modelled.
- RunAccounting.AccountIsExact: does not model the error for a sum past the safe integers (`src/domain/run/budget.ts:180-195`); amounts are unbounded.
- The evaluation and promotion of an optimization candidate: its outcome is a free choice, and the records of its progress are one kind of event.
- Child preflight inside the driver: a child may end its batch at any time; which children pass is `ChildBudget`.
- Timeouts, abort signals beyond one free choice, and message texts.
- StrictJsonParser.Parser.ScanCharacters: does not model the second decoding of the string token by the host's own parser; escapes are decoded where they are scanned.
- FirstActivation.InstallsArePrepared: does not model two processes at once, and the package store and the record store are abstract.
- EvaluationRunner.TrialsRunAtMostOnce: does not model the workspace isolator, and assumes the store reports no active attempt once its record is committed.
- SurfaceRebase.RebasesCommute: does not model the skill-package and child-specialist rebases, which follow the same pattern.
- Admission texts are taken as already trimmed and within the schema's character classes.
- DriverRelay.RelayDriver: does not model a write to the host or the driver that fails; `DriverRelay.WriteInnerLine` says what one leaves behind, and the relay then stops.
- Version selection in the repository watcher (`greatestCandidate`, a maximum with an ambiguity flag), the scheduler's interval arithmetic, paging of run events for display (`observeRun`), cutting verifier output at a code point (`boundedRaw`), the capture loop of `admitWorkflowPackages` and the grouping of evidence references by run: local computations that share no state with the protocols above, so no property here depends on them.
- Process spawning, sockets, sandboxes, workspaces, file stores, signatures and schemas.
