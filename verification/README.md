# LHGP protocol logic, verified

LHGP schedules long-running work by contract: a contract row carries a state,
a deadline and an acceptance; an append-only event log records what happened;
a daemon escalates deadlines, hands out leases and dispatches executors and
verifiers. This project models the protocol logic of that system and proves
what it promises over whole runs. Verify it with
`dafny verify dfyconfig.toml`.

## What is modelled

| modules | subject |
|---|---|
| `PlanProtocol`, `PlanStore`, `PlanRuns`, `PlanGate`, `PlanPruning` (on `Plan`, `PlanHash`, `StateMachine`) | the plan gate and the block/wake helpers: transactions as functions on a world (rows, log, grants); the helpers and tools as methods of a class, proved equal to those transactions; runs in which every helper and tool is cut between its reads and its writes and any other writer may come in between; theorems over all such runs |
| `Sanitize`, `Boundary` (on `Text`) | cleaning of untrusted terminal text, and the fence that carries it into a prompt |
| `AcceptanceSpec`, `SpecEvaluation`, `SpecSummary` (on `Json`) | all/any acceptance specs: validation, the two evaluation passes, the boolean formula they decide, and when the documented summary of it is right |
| `DeadlineLevels`, `DeadlineDaemon`, `VerificationRequests` | the daemon's escalation scan and its consumption of verification requests, over runs of ticks |
| `Lease`, `Partition` | fresh attempt identifiers, the lease, the write fence; disjointness of work partitions |
| `PlanHash`, `Yaml`, `Fingerprint`, `MemoryIndex`, `Forecast` (on `Utf8`, `Decimal`) | encodings and budgets: plan-hash preimage, YAML quoting, acceptance payload across store round trips, packing into a byte budget, forecast risk over time |

Conventions of the model:

- A `class` stands for code that changes things in place (the store, the
  daemon, the collectors of an evaluation). Its methods are specified by
  functions on the value of its fields; the theorems are about these functions.
- Runs are sequences of states and steps. Nothing bounds their length, the
  number of contracts, processes in flight, or how steps interleave.
- Exceptions are `Result` or `Option` values, or an untouched state.
- Unicode tables (category Cf, white space, letters and digits, lower case,
  word splitting), the host's conversion of a value to text, the digest
  function and the two fixed declarations above a fence are parameters, so the
  theorems hold for any of them. Text is a sequence of Unicode scalar values:
  lone surrogates do not occur.
- Time is an `int` (plan gate), or a `real` (deadlines in seconds, forecasts in
  minutes) on one time line; it is a parameter of every step. Floating-point
  rounding is not modelled. Event times need not be distinct or ordered: where
  the order of equally late rows matters, the results hold for every order.
- What the rest of the system answers (free capacity, an executor refusing, a
  verifier already in flight) is a parameter of the step that asks.

## What the proofs found

Where the code and its own documentation disagree, the model follows the code.

- **A new revision does not invalidate a plan approval.** The gate's
  documentation says so (`src/longtask/cli/dispatch.py:341-343`, also 86-92),
  but both writers that bump a revision re-stamp all earlier approvals
  (`src/longtask/persistence/store.py:1669-1679`, 1937-1952). What closes an
  open gate is time, a later verdict, or the acceptance: exactly
  `PlanGate.GateOverARun`. An acceptance that is edited and then put back opens
  the gate again under the old approval.
- **A stale plan wake can end a block it did not read** (`PlanGate.StaleWake`):
  the guard of the update names state and revision but not the block reason
  (`dispatch.py:107-118`), and the helpers keep the revision. It happens exactly
  when a capacity block of the contract was logged between the wake's read and
  its write (`PlanGate.WhatAWakeEnds`); a capacity wake never ends another kind
  of block.
- **A dispatcher's old row can find the gate open for a plan that misses a
  check the contract has by now** (`PlanGate.StaleViewFindsGateOpen`): the tick
  passes a row read earlier (`src/longtask/cli/tick.py:529-582`) and the gate
  compares against that row. The plan is right for the contract as it is now
  exactly when it names the checks added since (`PlanGate.OpenGateExactly`).
- **The command-line program submits and signs plans differently from the
  server's tools** (`PlanStore.Store.SubmitAtCommandLine`, `SignAtCommandLine`):
  its approvals carry no spec hash, so they never open the gate of a contract
  that has one (`PlanGate.CommandLineLacksTheHash`), goal grants do not count
  there, and a signature bears the name the caller gives.
- **One step outside the auto-approve scope is enough to need a signature.**
  The comment speaks of every step (`src/lhgp/contracts/plan.py:204-206`).
- **Attempt identifiers are fresh only while dispatches neither overlap nor fail
  half-way**: the name is chosen before the executor is asked and recorded after
  the lease is taken. In every run a fenced attempt stays fenced exactly as long
  as its name is not taken once more (`Lease.SupersededStaysFenced`). One
  dispatch at a time without such a failure never takes a name twice
  (`SerialRunsStayFenced`); overlapping ones can
  (`StaleChoiceRevivesACredential`), and so can one that fails between taking the
  lease and recording the attempt (`FailureRevivesAName`).
- **The summary of stage acceptance** (`src/lhgp/acceptance/spec.py:303-306`)
  is right for specs without `any` (`AcceptanceSpec.SummaryHoldsWithoutAny`) and
  can be wrong with it (`SummaryFailsWithAny`). It is right for all check results
  exactly for the specs that behave as one flat conjunction
  (`SpecSummary.SummaryFitsExactly`), which an `any` over one and the same check
  still does (`AnyOfLeaves`). Outcomes outside pass, fail and pending
  pass under `all` and fail under `any` (`OddOutcomes`). A valid spec may hold
  both combinators, and then its `any` part is never visited
  (`SpecEvaluation.AnyBesideAllIsIgnored`). A machine leaf without a kind, which
  validation refuses, is filed under one name and looked up under another, so
  its own result never counts (`MissingKindIsLost`).
- **Deadline levels can fall back**, for known windows under 60/0.95 seconds and
  only for those (`DeadlineLevels.LevelsRiseExactly`); and without a usable
  window the level is not always normal (`UnknownWindowLevel`, against
  `src/lhgp/enforcement/levels.py:98-100`). Just these windows can be notified
  four times (`DeadlineDaemon.FourNoticesHappen`).
- **Colour codes leave no trace in their escape form only**: the scanner drops
  U+009B and the other C1 introducers as single characters, so the parameters of
  a code introduced that way stay in the text (`Sanitize.EightBitColourLeaks`),
  where the module promises to keep colour codes from breaking a fence
  (`src/lhgp/untrusted/sanitize.py:9-10`). BEL ends every string, also those that
  may hold it (`BelLeaks`), and the C1 terminator ends none. Exactly which of the
  standard's control functions leave no trace is `ControlFunctionExactly`.
- **Verifiers of a gated contract start without the gate**
  (`src/longtask/cli/runner.py:1235-1330`); `PlanGate.AttemptsAreSafe` is about
  executors.
- **A truncated memory can exceed a budget well above the reserved overhead**
  (`MemoryIndex.TruncatedItemCanOverflow`, against
  `src/lhgp/memory/index.py:11-18`): the cut counts characters, the budget
  bytes, and head lines, indentation and marker are not counted at all. Exactly
  when it fits is `MemoryIndex.PackingFitsExactly`.
- **A fence title that carries the fence prefix adds its own occurrences**
  (`Boundary.BlockCount`), and then the reader never gets to the fence
  (`TitleDecides`); only the body is rewritten.
- **YAML quoting loses nothing exactly when the value has no raw control
  character** other than tab, line feed and carriage return
  (`Yaml.ScalarRoundTrip`).
- **An empty verifier name does not survive the store**: it comes back as the
  default, and the fingerprint changes (`Fingerprint.RoundTripKeepsPayload`).
- **Different plans can be hashed over the same bytes** when a field holds the
  byte that ends it (`PlanHash.PreimageCollision`), and only then.

## Model

| member | source | states |
|---|---|---|
| `PlanGate.OpenGateIsSafe` | src/longtask/cli/dispatch.py:325-404 | In every reachable state, if the gate may open on a row that was ever read, the latest verdict in the window is an approval whose plan uses allowed actions only, is aligned with the objective and covers every check of that row, and which was inside a scope the user gave (auto-approve or goal grant) or signed (over the server: by the user); a row at the current revision has the current content |
| `PlanGate.OpenGateExactly` | src/longtask/cli/dispatch.py:457-486 | Whatever row a dispatcher holds, an approval that opens the gate on it is right for the contract as it is now if and only if its plan names the checks added since that row was read |
| `PlanGate.CommandLineLacksTheHash` | src/longtask/cli/main.py:1277-1297 | An automatic approval from the command line never binds a contract that has a spec hash |
| `PlanGate.SubmissionExactly` | src/longtask/mcp_server.py:740-841 | Over the server a plan is approved at once if and only if it is approvable and its actions are all in the contract's enabled scope or all in the goal's enabled grant; at the command line only the contract's scope counts; a rejection gives reasons if and only if the plan is not approvable |
| `PlanGate.AttemptsAreSafe` | src/longtask/cli/dispatch.py:457-578 | In every run, every executor attempt of a gated contract was started after a point at which the gate was open, at the time the start bears, on the row its dispatcher held: some verdict was then the latest in the 24-hour window, bound that row's revision, checks and spec hash, and approved a plan that names every check of it, uses allowed actions only, and was in a given scope or signed. Verifiers (src/longtask/cli/runner.py:1313-1330) start without the gate |
| `PlanGate.ApprovalsAreBacked` | src/longtask/mcp_server.py:697-805 | In every run, every approval in the log, from the server's tools or the command line, was written for a row the contract once had, with that row's checks and (but for automatic ones from the command line) its spec hash, for a plan that covers it, in a scope given by then or signed, over the server by the user only; its stamp never runs ahead of the contract. Edits between the writer's read and its append do not break this |
| `PlanGate.GateExactly` | src/longtask/cli/dispatch.py:355-404 | For an approval later than all other verdicts, the gate opens in every order of equally late rows if and only if 24 hours have not passed and checks and spec hash are those approved |
| `PlanGate.ApprovalOverARun` | src/longtask/cli/dispatch.py:86-118 | Through any run in which no other verdict on the contract is logged, the approval stays current, payload and time unchanged, whatever wakes, blocks, moves and patches happen |
| `PlanGate.GateOverARun` | src/longtask/cli/dispatch.py:151-166 | Hence at every point of such a run the gate is open if and only if the approval is at most 24 hours old and names the checks and the spec hash the contract has at that point |
| `PlanGate.LastVerdictDecides` | src/longtask/cli/dispatch.py:355-404 | When one verdict is later than all others, the gate is open on any row if and only if that verdict is in the window and binds the row |
| `PlanGate.RejectionShutsTheGate` | src/longtask/cli/dispatch.py:333-340 | A rejection later than all other verdicts shuts the gate on every row and at every time, through any run until another verdict on the contract |
| `PlanGate.NextVerdictDecides` | src/longtask/cli/dispatch.py:355-404 | Right after a verdict at a later time than all before, the gate is open on a row if and only if that verdict is an approval that binds the row |
| `PlanGate.StampIsCurrentExactly` | src/longtask/persistence/store.py:1637-1679 | In every run an approval carries the contract's current revision if and only if no move or patch came between the reading of its row and its writing, or one came after |
| `PlanGate.ApprovalOpensExactly` | src/longtask/cli/dispatch.py:355-404 | In every run, an approval later than all other verdicts opens the gate on the contract's current row if and only if no move or patch came between the reading of its row and its writing, or one came after, and it is at most 24 hours old and names the checks and the spec hash the row has |
| `PlanGate.OtherRevisionShutsTheGate` | src/longtask/cli/dispatch.py:387-392 | A latest verdict stamped with another revision than the row's shuts the gate; so does an approval without a stamp whose payload names another revision |
| `PlanGate.PatchDecidesTheGate` | src/longtask/persistence/store.py:1842-1885 | After a patch of a contract with a current approval the gate is open if and only if the approval is at most 86400 seconds old and names the new checks and the new spec hash |
| `PlanGate.RevisionTellsBumps` | src/longtask/persistence/store.py:1596-1635 | Between any two points of a run the revision is the same if and only if no lifecycle move or patch of the contract took place |
| `PlanGate.BumpRebindsApprovals` | src/longtask/persistence/store.py:1637-1679 | After a lifecycle move or a patch every approval of the contract carries the new revision |
| `PlanProtocol.StampsRise` | src/longtask/persistence/store.py:1669-1679 | Re-stamping touches the stamps of the contract's own approvals only; none is lowered, given where there was none, or left below the new revision |
| `PlanGate.HelperWrites` | src/longtask/cli/dispatch.py:94-140 | Under every interleaving a helper's write either changes nothing, or makes a legal transition out of a non-terminal state, keeps revision and content, and appends exactly the one event that tells of it |
| `PlanGate.EveryRunReplays` | src/longtask/persistence/store.py:1489-1514 | In every state reachable without pruning, the log replays to the rows: each recorded move starts where the record stood and is allowed, and the state on record is the state of the row |
| `PlanGate.StepReplays` | src/longtask/cli/dispatch.py:177-220 | One step of any writer keeps that agreement between log and rows |
| `PlanPruning.PruningKeepsTheRecord` | src/lhgp/persistence/maintenance.py:113-146 | Pruning the log leaves the state on record of every contract that is not terminal as it was |
| `PlanPruning.PruningKeepsTheGate` | src/lhgp/persistence/maintenance.py:113-146 | ... and its gate as it was, on every row and at every time |
| `PlanPruning.PrunedMembers` | src/lhgp/persistence/maintenance.py:139-146 | Exactly the events of terminal contracts older than the cutoff are gone |
| `PlanGate.WhatAWakeEnds` | src/longtask/cli/dispatch.py:268-322 | A wake that takes effect: a capacity wake ends a capacity block; a plan wake ends the block it read if and only if no capacity block of the contract was logged between its read and its write |
| `PlanGate.BlockSince` | src/longtask/cli/dispatch.py:105-140 | In every run, a row found blocked at the revision of an earlier block is blocked for the reason it had then, or for capacity if a capacity block was logged in between |
| `PlanGate.StaleWake` | src/longtask/cli/dispatch.py:107-118 | A reachable state in which a plan wake that read one block ends another one at the same revision |
| `PlanGate.StaleViewFindsGateOpen` | src/longtask/cli/tick.py:529-582 | A reachable state in which the condition of `OpenGateExactly` fails: a dispatcher holding an old row finds the gate open although the plan misses a check the contract has now |
| `PlanRuns.RowsOverARun` | src/lhgp/contracts/state_machine.py:12-73 | Between any two points of a run: contracts stay, revisions do not fall, a revision fixes the content, terminal states are final, and within one revision a block turns only into activity or a capacity block |
| `PlanRuns.StepMovesRows` | src/longtask/cli/dispatch.py:105-124 | What any single step, helper or other writer, may do to a row |
| `PlanRuns.ProcsAreSound` | src/longtask/mcp_server.py:740-764 | Work in flight holds a row the contract once had, and an approving judgement for it is backed by the plan's content and a scope given by then |
| `PlanStore.Store.WriteIfUnchanged` | src/longtask/cli/dispatch.py:105-140 | The guarded update: rows, log and grants after it, and when it takes effect |
| `PlanStore.Store.WakeBlockedAfterPlanApproval` | src/longtask/cli/dispatch.py:52-140 | Wakes exactly a contract blocked for want of an executor; the whole new state |
| `PlanStore.Store.MarkBlockedCapacityFull` | src/longtask/cli/dispatch.py:143-220 | Blocks exactly an active contract, without a next decision time; the whole new state |
| `PlanStore.Store.WakeBlockedCapacityFull` | src/longtask/cli/dispatch.py:223-322 | Wakes exactly a contract blocked for capacity when there is some; the whole new state |
| `PlanStore.Store.LatestVerdict` | src/longtask/cli/dispatch.py:355-370 | Some verdict in the window that no other is later than, in any order of equally late ones; none if and only if there is none |
| `PlanStore.Store.HasRecentPlanApproval` | src/longtask/cli/dispatch.py:325-404 | Opens only on a latest verdict that binds revision, checks and spec hash; refuses only when there is no verdict or a latest one that does not bind |
| `PlanStore.Store.PassesPlanGate` | src/longtask/cli/dispatch.py:457-486 | Ungated contracts pass; a refusal appends exactly one refusal event and changes nothing else |
| `PlanStore.Store.UpdateContractState` | src/longtask/persistence/store.py:1583-1726 | Unknown contracts, a revision other than the expected one and illegal transitions are told apart and change nothing; otherwise new revision, decision time set or kept, re-stamped approvals, one event |
| `PlanStore.Store.PatchContract` | src/longtask/persistence/store.py:1818-1952 | Unknown contracts and a stale revision are told apart and change nothing; otherwise new revision and acceptance, re-stamped approvals, one event |
| `PlanStore.Store.SubmitPlan` | src/longtask/mcp_server.py:679-850 | Always audited when the contract exists; approved, rejected for reasons, or rejected for want of a signature; goal grants count; an approval wakes the contract; the whole new state and result |
| `PlanStore.Store.PlanSignoff` | src/longtask/mcp_server.py:853-996 | Only the user, as resolved by the server, can sign; an invalid plan leaves no trace; a signature is recorded under the user's name and wakes the contract |
| `PlanStore.Store.SubmitAtCommandLine` | src/longtask/cli/main.py:1225-1343 | As over the server, but without the goal's grant, without refusing an empty list of steps, and with approvals that carry no spec hash; the whole new state and result |
| `PlanStore.Store.SignAtCommandLine` | src/longtask/cli/main.py:1345-1416 | As over the server, but the signer is whoever the caller names; the whole new state and result |
| `Plan.Validate` | src/lhgp/contracts/plan.py:146-222 | The reasons in order, approval if there are none, and whether a signature is needed |
| `Plan.ApprovalMeans` | src/lhgp/contracts/plan.py:146-222 | Approved if and only if there are steps, each with an allowed action, non-blank texts and a rationale in which a keyword of the objective occurs, and every check occurs in what some step aims at or expects; a signature is needed if and only if the plan is not all inside the enabled scope |
| `Plan.ReasonsAreFaults` | src/lhgp/contracts/plan.py:146-222 | Every reason is given if and only if the fault it names is there, at the step it names, counted from 1 |
| `Plan.ReasonsInOrder` | src/lhgp/contracts/plan.py:146-203 | Faults of single steps come first, then those against the objective, then uncovered checks; the first two in the order of the steps |
| `Plan.CheckIdentifiersExactly` | src/lhgp/contracts/plan.py:318-333 | One identifier per typed or text check, none for a raw one, in the order of the checks |
| `Plan.CoveredMeansNamed` | src/lhgp/contracts/plan.py:335-350 | Coverage as computed is occurrence of the identifier, up to case, at some position of some step's text |
| `Plan.PickKeyword` | src/lhgp/contracts/plan.py:246-293 | Ideographs first, then the longer words, without repetition, stop words left out |
| `Plan.KeywordMembers` | src/lhgp/contracts/plan.py:246-293 | A text is a keyword if and only if some word of the objective yields it |
| `Plan.KeywordsAreDistinct` | src/lhgp/contracts/plan.py:246-293 | No keyword occurs twice, and all ideographs stand before all words |
| `Plan.PickedGrows` | src/lhgp/contracts/plan.py:246-293 | What a first part of the objective yields stands before what the rest adds, and no word is shorter than three |
| `Plan.UncoveredChecks` | src/lhgp/contracts/plan.py:335-350 | The identifiers no step mentions, in order |
| `Plan.UncoveredMembers` | src/lhgp/contracts/plan.py:335-350 | An identifier is reported if and only if it is asked for and no step mentions it |
| `Plan.UncoveredInOrder` | src/lhgp/contracts/plan.py:335-350 | Uncovered identifiers are listed in the order in which they were asked for |
| `StateMachine.TerminalStatesHaveNoExit` | src/lhgp/contracts/state_machine.py:12-65 | The terminal states are exactly those without a legal transition |
| `StateMachine.EntriesExactly` | src/lhgp/contracts/state_machine.py:30-65 | From which states each state may be entered: nothing returns to drafted, every state that is not terminal can be cancelled |
| `PlanHash.HashInput` | src/lhgp/contracts/plan.py:119-144 | The loop feeds the hasher exactly the preimage of the plan |
| `PlanHash.FeedStep` | src/lhgp/contracts/plan.py:133-143 | What one step contributes, field by field |
| `PlanHash.PreimageRoundTrip` | src/lhgp/contracts/plan.py:119-144 | A decoder recovers the exact steps if and only if no field holds the byte that ends it |
| `PlanHash.PreimageInjective` | src/lhgp/contracts/plan.py:119-129 | Distinct plans without such bytes have distinct preimages |
| `PlanHash.PreimageCollision` | src/lhgp/contracts/plan.py:133-143 | Two plans with the same preimage, one field holding a NUL |
| `Utf8.RoundTrip` | src/lhgp/contracts/plan.py:134-142 | UTF-8 encoding is inverted by decoding, for every text |
| `Decimal.IntRoundTrip` | src/lhgp/contracts/plan.py:134 | A step identifier's decimal text reads back as that integer |
| `Sanitize.SkipEscape` | src/lhgp/untrusted/sanitize.py:43-78 | Skipping an escape sequence by lookahead drops exactly what the one-character automaton drops |
| `Sanitize.SanitizeTerminalText` | src/lhgp/untrusted/sanitize.py:81-113 | The scanner computes the automaton's output, for every text |
| `Sanitize.HasTerminalControls` | src/lhgp/untrusted/sanitize.py:116-124 | True if and only if some character is not one that survives cleaning |
| `Sanitize.CleanFixpoint` | src/lhgp/untrusted/sanitize.py:81-88 | The texts cleaning leaves alone are exactly those made of surviving characters |
| `Sanitize.CleanIdempotent` | src/lhgp/untrusted/sanitize.py:87 | Cleaning twice is cleaning once |
| `Sanitize.CleanedCharacters` | src/lhgp/untrusted/sanitize.py:99-111 | No cleaned text holds a C0 control but tab, line feed and carriage return, nor DEL, nor a C1 control, nor a format character but the two joiners; so no direction override |
| `Sanitize.SurvivesExactly` | src/lhgp/untrusted/sanitize.py:90-113 | Outside every sequence a character other than ESC adds itself, in order, if and only if it is none of those |
| `Sanitize.CutShortExactly` | src/lhgp/untrusted/sanitize.py:57-78 | A sequence cut short ends in front of the character that cannot belong to it: from there on cleaning goes on as if a text began |
| `Sanitize.ControlFunctionExactly` | src/lhgp/untrusted/sanitize.py:43-113 | A control sequence (ECMA-48 section 5.4), command string or character string (section 5.6), in every form the standard gives them, or an escape sequence (ECMA-35) can be put anywhere no sequence is open without changing the cleaned text if and only if the scanner reads it as a whole (delimited by escape sequences, no BEL in a string), or what it reads as text instead leaves no trace by itself |
| `Sanitize.ControlSequenceExactly` | src/lhgp/untrusted/sanitize.py:54-63 | A control sequence is cleaned to nothing if and only if ESC introduces it; introduced by U+009B all but that character stays |
| `Sanitize.CommandStringExactly` | src/lhgp/untrusted/sanitize.py:64-72 | A command string is cleaned to nothing if and only if it is opened and closed by escape sequences, or opened by a C1 character and made of dropped format effectors |
| `Sanitize.CharacterStringExactly` | src/lhgp/untrusted/sanitize.py:64-72 | A character string, which may hold BEL, is cleaned to nothing if and only if opened by ESC, free of BEL and closed by ESC and backslash, or what is left after the first BEL, or after a C1 opening, is |
| `Sanitize.BelClosedStringIsSilent` | src/lhgp/untrusted/sanitize.py:67-68 | Strings closed by BEL leave no trace |
| `Sanitize.EightBitColourLeaks` | src/lhgp/untrusted/sanitize.py:105-107 | The colour code introduced by U+009B leaves its parameters in the text |
| `Sanitize.BelLeaks` | src/lhgp/untrusted/sanitize.py:67-68 | A character string with BEL in it leaves the rest in the text |
| `Sanitize.InvisibleMeansSilent` | src/lhgp/untrusted/sanitize.py:81-113 | A text can be put anywhere no sequence is open without changing the cleaned text if and only if it is cleaned to nothing and leaves no sequence open |
| `Sanitize.SplitsExactlyAtGround` | src/lhgp/untrusted/sanitize.py:81-113 | Cleaning distributes over a cut for every continuation if and only if no sequence is open at the cut |
| `Boundary.MakeUntrustedBlock` | src/lhgp/untrusted/boundary.py:56-78 | A block is made if and only if the label is legal |
| `Boundary.LabelExactly` | src/lhgp/untrusted/boundary.py:27 | The legal labels, character by character |
| `Boundary.NeutralizedHasNoPrefix` | src/lhgp/untrusted/boundary.py:51-53 | No body holds the fence prefix after neutralization, not even across replaced parts |
| `Boundary.NeutralizeIsIdentityWithoutPrefix` | src/lhgp/untrusted/boundary.py:51-53 | A body is rewritten if and only if it holds the prefix |
| `Boundary.BlockCount` | src/lhgp/untrusted/boundary.py:70-78 | The prefix occurs twice in the block, plus once per occurrence in the title: the body adds none |
| `Boundary.FenceHoldsWholeBody` | src/lhgp/untrusted/boundary.py:7-10 | Reading from the end of the opening line to the next prefix returns exactly the cleaned and neutralized body, for every body |
| `Boundary.TitleDecides` | src/lhgp/untrusted/boundary.py:70-78 | The fence holds every body whole if and only if the title is free of the prefix |
| `Boundary.BlockStartsWithDeclaration` | src/lhgp/untrusted/boundary.py:74-78 | Title, header and the declaration asked for stand in front of the fence |
| `Boundary.TokenIsDigestOfBody` | src/lhgp/untrusted/boundary.py:47-78 | The boundary can be checked: the token after the prefix is the digest of the very text a reader gets from inside the fence, and the label follows it |
| `AcceptanceSpec.VerdictIsExact` | src/lhgp/acceptance/spec.py:206-252 | Pass, fail or pending if and only if the all/any formula is true in all, in no, or in some but not all ways of settling the open leaves |
| `AcceptanceSpec.Extremes` | src/lhgp/acceptance/spec.py:211-223 | The verdict of any node is settled by the two extreme ways |
| `AcceptanceSpec.DecidedVerdictsStand` | src/lhgp/acceptance/spec.py:206-252 | New results never flip a decided verdict |
| `AcceptanceSpec.OnlyALeafReturnsOther` | src/lhgp/acceptance/spec.py:225-235 | An outcome outside pass, fail and pending comes out only from a spec that is a single such leaf |
| `AcceptanceSpec.SummaryHoldsWithoutAny` | src/lhgp/acceptance/spec.py:303-306 | The documented summary of the verdict is right for specs without `any` |
| `AcceptanceSpec.SummaryFailsWithAny` | src/lhgp/acceptance/spec.py:303-306 | An `any` with a passing member passes although a leaf of it failed |
| `SpecSummary.SummaryFitsExactly` | src/lhgp/acceptance/spec.py:303-306 | The documented summary is right for all check results if and only if every check can fail the spec alone, the spec needs a user exactly when one is asked for, and no empty `any` makes it hopeless |
| `SpecSummary.AnyOfLeaves` | src/lhgp/acceptance/spec.py:218-223 | An `any` over machine leaves meets that condition if and only if its leaves are all the same check |
| `AcceptanceSpec.OddOutcomes` | src/lhgp/acceptance/evaluator.py:66-72 | An undetermined check passes under `all` and fails under `any` |
| `AcceptanceSpec.NonArrayAllIsPassedOver` | src/lhgp/acceptance/spec.py:209-213 | Next to an `all` that is no array the `any` is read as if it stood alone |
| `SpecEvaluation.ValidateSpec` | src/lhgp/acceptance/spec.py:76-80 | Reports exactly the faults of the spec, each with its kind and path; none if and only if it is well formed, at every depth |
| `SpecEvaluation.SpecValidator.ValidateNode` | src/lhgp/acceptance/spec.py:83-137 | Errors are only added: exactly those whose fault is in the node or below it, with its path; so none if and only if the node is well formed |
| `SpecEvaluation.FaultlessIsValid` | src/lhgp/acceptance/spec.py:83-137 | A node is well formed if and only if neither it nor any node below it has one of the faults that are reported |
| `SpecEvaluation.ValidExactly` | src/lhgp/acceptance/spec.py:88-121 | What a well-formed node is: a group with no keys but the combinators, each a non-empty array of well-formed nodes; or a leaf judged by the user, or by the machine with a kind and a target of more than white space |
| `SpecEvaluation.Collector.Collect` | src/lhgp/acceptance/spec.py:159-189 | Appends one result per machine leaf, from left to right |
| `SpecEvaluation.EvaluateMachineChecks` | src/lhgp/acceptance/spec.py:140-156 | The machine results of the leaves of the visited tree, in order |
| `SpecEvaluation.Composition.EvalNode` | src/lhgp/acceptance/spec.py:206-252 | Returns the verdict of the node and adds exactly the counts and user results of its leaves |
| `SpecEvaluation.ComposeVerdict` | src/lhgp/acceptance/spec.py:192-270 | Verdict, listed results and counters against the map of machine results |
| `SpecEvaluation.EvaluateStageAcceptance` | src/lhgp/acceptance/spec.py:291-311 | Refuses what is not an object; for specs whose machine leaves name their kind, verdict, results and counts are those of reading the check results directly |
| `SpecEvaluation.TwoPassesAreOne` | src/lhgp/acceptance/spec.py:192-235 | Two-pass evaluation equals direct evaluation; counts agree; no machine leaf is ever missing from the map |
| `SpecEvaluation.CountersCountResults` | src/lhgp/acceptance/spec.py:228-270 | The pass and fail counters count the listed machine results by their outcome |
| `SpecEvaluation.LeafExactly` | src/lhgp/acceptance/spec.py:174-252 | What becomes of a single leaf: a check is listed with its own result, a question to the user as pending, any other judge nowhere |
| `SpecEvaluation.MapAnswersForLeaves` | src/lhgp/acceptance/spec.py:202 | The map built by the first pass answers for every machine leaf with its own check result |
| `SpecEvaluation.ValidSpecsNameTheirKinds` | src/lhgp/acceptance/spec.py:115-121 | A valid spec meets the condition of the two-pass theorem |
| `SpecEvaluation.FiledResults` | src/lhgp/acceptance/spec.py:174-202 | For every spec, kinds or not, the map of the first pass holds exactly the names under which machine leaves are filed, each with the check result of that name |
| `SpecEvaluation.MissingKindIsLost` | src/lhgp/acceptance/spec.py:176-227 | In every spec a machine leaf without a kind is composed as pending, whatever its check returned, unless a leaf with an empty kind is filed where it is looked up |
| `SpecEvaluation.KindlessSpecIsPending` | src/lhgp/acceptance/spec.py:176-227 | A spec that is one such leaf is pending whatever its check returned |
| `SpecEvaluation.AnyBesideAllIsIgnored` | src/lhgp/acceptance/spec.py:90-107 | A valid spec with both combinators evaluates as if it had only `all` |
| `DeadlineLevels.LevelIsPhase` | src/lhgp/enforcement/levels.py:87-143 | The level is that of the phase the remaining time falls in |
| `DeadlineLevels.LevelsRiseExactly` | src/lhgp/enforcement/levels.py:112-137 | Levels never fall back over time if and only if the window has no early notice (60/0.95 seconds or more, or not positive) |
| `DeadlineLevels.UnknownWindowLevel` | src/lhgp/enforcement/levels.py:95-100 | Without a usable window the level is normal if and only if more than 18 seconds remain |
| `DeadlineLevels.ElapsedExactly` | src/lhgp/enforcement/levels.py:66-143 | The reported ratio is the elapsed share of the window, 0 before it opens and 1 from the deadline on; without a usable window it is that of twice the time left, at least a minute |
| `DeadlineDaemon.Daemon.LatestEscalationLevel` | src/longtask/cli/daemon_loop.py:676-693 | The level of the contract's last escalation event |
| `DeadlineDaemon.Daemon.EnforceDeadlines` | src/longtask/cli/daemon_loop.py:696-755 | The loop appends exactly what the scan specifies and reports exactly what it appended |
| `DeadlineDaemon.ScanIsPerContract` | src/longtask/cli/daemon_loop.py:715-752 | A scan extends each contract's notices as if it were alone in the log |
| `DeadlineDaemon.LevelIsOnRecord` | src/longtask/cli/daemon_loop.py:719-728 | After a tick, a watched contract at risk has its level on record |
| `DeadlineDaemon.NoticeExactly` | src/longtask/cli/daemon_loop.py:715-752 | A scan logs one notice of a contract if and only if it is active or blocked, in one of the stretches of time with a notice, and the last notice gave another level; it is a breach lock if and only if the deadline is reached |
| `DeadlineDaemon.RunFollowsTurns` | src/longtask/cli/daemon_loop.py:696-755 | Over a run of ticks a contract's notices are determined by its phases and by when it was looked at, whatever else is logged or scanned |
| `DeadlineDaemon.NoticesOverARun` | src/longtask/cli/daemon_loop.py:696-755 | Over any run at non-decreasing times a contract with a fixed deadline gets at most four notices and at most one breach lock, the last one; without an early notice the levels strictly rise, so at most three |
| `DeadlineDaemon.BreachLocksOverARun` | src/longtask/cli/daemon_loop.py:731-751 | Over any run a notice is a breach lock if and only if its level is breached, and only the last one of a contract can be one |
| `DeadlineDaemon.FourNoticesHappen` | src/lhgp/enforcement/levels.py:115-137 | Some run gives a contract four notices if and only if its window has an early notice (a known window under 60/0.95 seconds) |
| `VerificationRequests.Daemon.PendingRequest` | src/longtask/cli/daemon_loop.py:522-545 | The oldest request no readable marker names |
| `VerificationRequests.Daemon.ConsumeVerificationRequests` | src/longtask/cli/daemon_loop.py:502-614 | The loop performs one turn per contract: dispatch, marker and start event only when accepted |
| `VerificationRequests.PendingExactly` | src/longtask/cli/daemon_loop.py:522-545 | The request served next is the open one with the least identifier, open meaning that no marker of the contract names it; none if and only if there is no open one |
| `VerificationRequests.DispatchesExactly` | src/longtask/cli/daemon_loop.py:519-613 | In every scan a verifier is dispatched for exactly the contracts that are active, have an open request and no verifier in flight, and whose dispatch is accepted; contracts that are not active or have a verifier in flight leave everything as it is |
| `VerificationRequests.DispatchesOverARun` | src/longtask/cli/daemon_loop.py:502-614 | Over every run there are exactly as many dispatches as such turns |
| `VerificationRequests.EveryRunIsOrderly` | src/longtask/cli/daemon_loop.py:502-614 | In every run the consumed requests of a contract are a duplicate-free prefix of its requests in event order, one per dispatch, and the next one is always the first not yet served |
| `VerificationRequests.RefusalKeepsRequest` | src/longtask/cli/daemon_loop.py:566-586 | A refused request stays next in line |
| `VerificationRequests.AcceptanceServesNext` | src/longtask/cli/daemon_loop.py:587-613 | An accepted turn serves exactly the request that was next |
| `Lease.FreshAttemptId` | src/longtask/cli/dispatch.py:488-495 | The loop ends (pigeonhole on the attempts) with the first candidate never recorded |
| `Lease.Pigeonhole` | src/longtask/cli/dispatch.py:490-495 | If the first n candidates are taken there are at least n attempts |
| `Lease.Store.Dispatch` | src/longtask/cli/dispatch.py:488-600 | The first accepting candidate gets the lease under a fresh name with the generation increased; refusals before it are recorded one each; no acceptance, no change |
| `Lease.Store.TakeLease` | src/longtask/persistence/leases.py:83-120 | Succeeds if and only if the expected generation is the current one; sets holder and next generation |
| `Lease.Store.ReleaseLease` | src/longtask/persistence/leases.py:405-423 | Removes the lease if generation and holder match; otherwise a fencing error that says which does not, and no change; a lease that is gone is no error |
| `Lease.DispatchIsThreeSteps` | src/longtask/cli/dispatch.py:488-592 | Choosing a name, taking the lease and recording the attempt, undisturbed, are what the dispatch method does |
| `Lease.AtMostOneWriter` | src/lhgp/promoter/lease.py:34-44 | At most one attempt passes a contract's fence, with one generation |
| `Lease.HolderTookLease` | src/longtask/cli/dispatch.py:533-560 | However dispatches, releases, reclaims and failures interleave, who holds a lease now and did not before has taken it in between |
| `Lease.WritesAgainOnlyByRetaking` | src/lhgp/promoter/lease.py:34-44 | In every run, an attempt that can write no longer writes again only if its very name is taken once more, even if generations repeat |
| `Lease.TakingPasses` | src/longtask/cli/dispatch.py:533-560 | Taking the lease under a name lets that name write |
| `Lease.SupersededStaysFenced` | src/lhgp/promoter/lease.py:34-44 | In every run, with overlaps and failures, an attempt that cannot write stays fenced through any stretch, on every contract and under every generation, if and only if no dispatch takes a lease under its name in that stretch |
| `Lease.SerialNamesAreFresh` | src/longtask/cli/dispatch.py:488-495 | In every run with one dispatch at a time, every name that was taken is recorded or about to be, and the name about to be taken is new |
| `Lease.TakenOnce` | src/longtask/cli/dispatch.py:488-495 | Hence no name is ever taken twice |
| `Lease.SerialRunsStayFenced` | src/lhgp/promoter/lease.py:34-44 | Hence an attempt that could write and was superseded never writes again, on any contract, under any generation |
| `Lease.WritesOneContract` | src/lhgp/promoter/lease.py:34-44 | Hence an attempt passes the fence of one contract only |
| `Lease.GenerationsRepeat` | src/longtask/persistence/leases.py:411-423 | Generation numbers do repeat after a release; the name keeps the old attempt out |
| `Lease.StaleChoiceRevivesACredential` | src/longtask/cli/dispatch.py:488-560 | A run in which two overlapping dispatches choose the same name and a fenced credential works again |
| `Lease.FailureRevivesAName` | src/longtask/cli/dispatch.py:549-592 | A run of one dispatch at a time in which a failure between taking and recording lets a fenced name write again |
| `Partition.OverlapIsSharedPath` | src/lhgp/promoter/lease.py:55-57 | Two scopes overlap if and only if some path lies under both |
| `Partition.CheckPartitionCompatible` | src/lhgp/promoter/lease.py:60-77 | Reports exactly the conflicts with the active partitions; none if and only if admissible |
| `Partition.DisjointMeansNoConflict` | src/lhgp/promoter/lease.py:60-77 | No conflict if and only if the partitions share no id, stage or reachable path |
| `Partition.ActivePartitionsAreDisjoint` | src/lhgp/promoter/lease.py:60-77 | However partitions are admitted and retired, the active ones are pairwise disjoint |
| `Yaml.EscapedIsOneMap` | src/lhgp/wiki/sync.py:175-180 | The four global replacements are one per-character map |
| `Yaml.ScalarRoundTrip` | src/lhgp/wiki/sync.py:168-181 | Decoding by YAML 1.2.2 (sections 5.7 and 7.3.1) returns the value if and only if it has no raw control character |
| `Yaml.ListRoundTrip` | src/lhgp/wiki/sync.py:184-190 | A list reads back as exactly its values, under the same condition |
| `Fingerprint.CheckRoundTrip` | src/lhgp/acceptance/checks.py:44-72 | A typed check reads back as itself unless its target is blank |
| `Fingerprint.CheckLoadsExactly` | src/lhgp/acceptance/checks.py:53-72 | Which mappings load as a check, and which error refuses each of the others |
| `Fingerprint.AbsentKeysAreDefaults` | src/lhgp/acceptance/checks.py:57-72 | An absent key of a check reads as its default: mandatory, no arguments, no note |
| `Fingerprint.RawPayload` | src/lhgp/contracts/acceptance.py:135-153 | A raw mapping stands in the payload as the check it loads as, or as it is if it does not load |
| `Fingerprint.RoundTripKeepsPayload` | src/lhgp/contracts/acceptance.py:62-95 | Storing and loading succeeds if and only if every check is loadable; it then keeps the payload, raw mappings included, if and only if a verifier is named |
| `Fingerprint.AbsentFieldsAreDefaults` | src/lhgp/contracts/contract_draft.py:149-156 | An acceptance must name its standard; every other absent key reads as its default |
| `Fingerprint.EmptyFieldsAreDefaults` | src/lhgp/contracts/contract_draft.py:149-156 | So does an empty value of checks or verifier |
| `Fingerprint.RoundTripSettles` | src/lhgp/contracts/contract_draft.py:101-160 | After one round trip further ones change nothing |
| `Fingerprint.FingerprintIsStable` | src/lhgp/contracts/acceptance.py:76-80 | Any number of round trips keeps the payload |
| `Fingerprint.PayloadDeterminesAcceptance` | src/lhgp/contracts/acceptance.py:76-91 | Between loaded acceptances, equal payloads mean equal standard, checks, verifier and spec |
| `Fingerprint.BudgetRoundTrip` | src/lhgp/contracts/contract_draft.py:124-186 | A budget reads back as itself; refused if and only if its declared cost line is not positive |
| `Fingerprint.BudgetLoadsExactly` | src/lhgp/contracts/contract_draft.py:168-186 | Which mappings load as a budget, and which error refuses each of the others; two verification attempts are reserved by default |
| `MemoryIndex.FitToBudget` | src/lhgp/memory/index.py:220-253 | The longest prefix by the running account; an oversize first item is truncated and alone |
| `MemoryIndex.PackingFitsExactly` | src/lhgp/memory/index.py:4-19 | What is written from a packing fits the budget if and only if the first item's section does, or its body is cut and head lines, cut and marker together do |
| `MemoryIndex.SizeOfTruncated` | src/lhgp/memory/index.py:113-130 | The byte size of a lone item's section after truncation, for every body and every budget, as a sum over head lines, lines of the cut, and marker |
| `MemoryIndex.SplitBeforeMarker` | src/lhgp/memory/index.py:81-82 | How the marker line changes the lines of any body, with every kind of line break at the cut |
| `MemoryIndex.AsciiLineFits` | src/lhgp/memory/index.py:54-58 | An item with a one-line ASCII body fits after truncation if and only if its head lines take at most 176 of the 200 bytes set aside |
| `MemoryIndex.NoRoomForBody` | src/lhgp/memory/index.py:120-125 | With no room for a body, head lines and marker alone are written, whatever they take |
| `MemoryIndex.LongestPrefixThatFits` | src/lhgp/memory/index.py:220-236 | That prefix is the longest whose section, as rendered, fits the budget in bytes |
| `MemoryIndex.PackedIsSection` | src/lhgp/memory/index.py:133-137 | The running account is the byte size of the rendered section |
| `MemoryIndex.HeaderSize` | src/lhgp/memory/index.py:51-52 | The header takes 38 bytes |
| `MemoryIndex.RenderedItem` | src/lhgp/memory/index.py:75-84 | How an item with no tags or two and a body of one line looks |
| `MemoryIndex.TruncatedItemCanOverflow` | src/lhgp/memory/index.py:113-130 | A truncated item can exceed a budget well above the reserved overhead |
| `Forecast.RiskNeverImproves` | src/lhgp/forecast/model.py:111-183 | With evidence and samples fixed, risk severity does not fall as time advances |
| `Forecast.RiskNeverImprovesOverARun` | src/lhgp/forecast/model.py:94-197 | The same between any two observations of a series |
| `Forecast.NarrowSlackPersists` | src/lhgp/forecast/model.py:172 | The narrow-slack test stays true across the one-minute kink |
| `Forecast.ProbabilityExtremes` | src/lhgp/forecast/model.py:116-135 | The empirical probability lies between 0 and 1, is 1 if and only if every observed duration fits, 0 if and only if none does |
| `Forecast.ProbabilityIsShare` | src/lhgp/forecast/model.py:116-135 | The empirical probability is the number of observations that fit over the number of observations |
| `Forecast.AllFitMeans` | src/lhgp/forecast/model.py:121-135 | In finishing times: it is 1 if and only if every observed duration, after queue and startup and before verification and safety margin, ends by the due date, or takes no time |
| `Forecast.ObservedExactly` | src/lhgp/forecast/model.py:116-120 | The observations are exactly the samples that are not negative |
| `Forecast.SnapshotMeaning` | src/lhgp/forecast/model.py:163-180 | A snapshot in terms of finishing times: if and only if conditions for missed, red with its reason, and green |
| `Forecast.SnapshotMiddle` | src/lhgp/forecast/model.py:172-183 | The same for orange, yellow and unknown, and which reason goes with which risk |
| `Forecast.SnapshotEvidence` | src/lhgp/forecast/model.py:114-160 | Confidence is high, and the forecast historical, if and only if nothing is missing or stale; what the p50 slack tells |
| `Forecast.SnapshotProbability` | src/lhgp/forecast/model.py:116-140 | Where the finish probability comes from, and when it is certain |

## Left out

- MemoryIndex.FitToBudget: the score is given already formatted, and text is taken to hold no lone surrogates.
- Lease.Store.Dispatch: the method runs without other writers in between (the runs of `Lease` cut it into its three steps); the plan gate in front of it is `PlanStore.Store.PassesPlanGate`; probe inputs and heartbeat times are not modelled. All work is in the default partition, as in the code.
- Lease.SerialRunsStayFenced: requires one dispatch at a time and no failure between taking the lease and recording the attempt; without the one or the other it is false (`StaleChoiceRevivesACredential`, `FailureRevivesAName`), and what holds in every run is `Lease.SupersededStaysFenced`.
- PlanStore.Store.UpdateContractState: wakeup time, deadline and acceptance status, revision snapshots, replies to a repeated request id and notifications are not modelled.
- PlanStore.Store.PatchContract: soft guidance, workload, snapshots and replies to a repeated request id are not modelled; the gate reads none of them.
- PlanStore.Store.SubmitPlan: reading the steps out of the request and the wording of messages are not modelled; the plan itself stands in the approval for its content hash.
- PlanGate.EveryRunReplays: the runs hold no pruning of old events (`src/lhgp/persistence/maintenance.py:113-160`), after which the log of a terminal contract no longer replays to its row; for every other contract record and gate stay (`PlanPruning`). The other theorems over runs are without pruning too.
- PlanStore.Store.HasRecentPlanApproval: payloads that are not what the tools write appear only as missing bindings; comparing times as text is modelled as comparing times.
- SpecEvaluation.ComposeVerdict: the free-text fields of results and the summary line are not modelled.
- SpecEvaluation.SpecValidator.ValidateNode: the wording of error messages is not modelled; errors carry their path and kind.
- Fingerprint.RoundTripKeepsPayload: the JSON text and the SHA-256 digest taken over the payload are not modelled; a non-null `checks` entry that is neither a list nor empty is refused, where the code would iterate over some such values.
- Fingerprint.BudgetRoundTrip: infinite and not-a-number cost lines do not exist among the reals.
- DeadlineDaemon.Daemon.EnforceDeadlines: the action's free text, projections and the cap of 1000 listed contracts are not modelled.
- VerificationRequests.Daemon.ConsumeVerificationRequests: which executor is asked, projections and the cap of 1000 listed contracts are not modelled; an event's identifier is its position in the log, so pruning of old events is not modelled.
- Forecast.SnapshotMeaning: the wording of the reasons is not modelled.
- Boundary.MakeUntrustedBlock: the two declarations are a parameter that may be any text without a capital L, and the digest any function to twelve hexadecimal digits.
- The resolution of datetimes, time zones and the parsing of ISO times.
- The rest of the store (write-back, notifications, maintenance), the runner, the tick loop around the dispatch, process spawning, RPC transport and the rest of the tool table: plumbing around the modelled steps.
- Decision tables, eligibility, budget and usage validation, and enums: settled by reading one branch each.
- Mermaid rendering, fairness (not wired), wiki pages, learning, portfolio, timeline and quality scripts: reporting, or rules without a caller.
