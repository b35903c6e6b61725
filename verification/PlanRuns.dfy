/**
 * Runs of the plan protocol in which every tool and helper is cut between its
 * reads and its writes, and any other writer may come in between.
 */
module PlanRuns {
  import opened Prelude
  import opened StateMachine
  import opened PlanHash
  import opened Plan
  import opened PlanProtocol
  import Fingerprint

  /** Work in flight, with the row as it was when it was read. */
  datatype Proc =
    | Moving(id: string, seen: Row, via: Via)
    | Submitting(id: string, seen: Row, plan: seq<PlanStep>)
    | Judged(id: string, seen: Row, plan: seq<PlanStep>, v: PlanValidation, door: Door)
    | Audited(id: string, seen: Row, plan: seq<PlanStep>, v: PlanValidation, door: Door)
    | Signing(id: string, seen: Row, plan: seq<PlanStep>, actor: string, door: Door)
    | Dispatching(id: string, seen: Row)
    | Cleared(id: string, seen: Row, at: int)
    | Verifying(id: string, seen: Row)

  datatype Sys = Sys(world: World, procs: map<nat, Proc>)

  datatype Step =
    | Creates(id: string, content: Content, now: int)
    | Updates(id: string, to: ContractState, reason: Option<BlockReason>, next: Option<int>, now: int)
    | Patches(id: string, checks: seq<Fingerprint.Check>, specHash: Option<string>, now: int)
    | Amends(goalId: string, grant: Grant)
    | Schedules(id: string, next: Option<int>)
    | Notes(e: Event)
    | ReadsForMove(p: nat, id: string, via: Via)
    | WritesMove(p: nat, now: int)
    | ReadsForSubmit(p: nat, id: string, plan: seq<PlanStep>)
    | LooksAtGoal(p: nat)
    | JudgesAtCommandLine(p: nat, id: string, plan: seq<PlanStep>)
    | LogsSubmission(p: nat, submitter: string, now: int)
    | LogsVerdict(p: nat, now: int)
    | ReadsForSignoff(p: nat, id: string, plan: seq<PlanStep>, actor: string, door: Door)
    | LogsSignature(p: nat, now: int)
    | ReadsForDispatch(p: nat, id: string)
    | LogsRefusal(p: nat, now: int)
    | FindsGateOpen(p: nat, now: int)
    | StartsAttempt(p: nat)
    | ReadsForVerifier(p: nat, id: string)
    | StartsVerifier(p: nat, now: int)

  ghost predicate IsEnabled(t: TextTables, s: Sys, step: Step) {
    var w := s.world;
    match step
    case Creates(id, _, _) => id !in w.contracts
    case Updates(id, to, _, _, _) => id in w.contracts && MayMove(w.contracts[id].state, to)
    case Patches(id, _, _, _) => id in w.contracts
    case Amends(_, _) => true
    case Schedules(id, _) => id in w.contracts
    case Notes(e) => e.body.OtherEvent?
    case ReadsForMove(_, id, via) => id in w.contracts && Applies(via, w.contracts[id])
    case WritesMove(p, _) => p in s.procs && s.procs[p].Moving?
    case ReadsForSubmit(_, id, plan) => id in w.contracts && plan != []
    case LooksAtGoal(p) => p in s.procs && s.procs[p].Submitting?
    case JudgesAtCommandLine(_, id, _) => id in w.contracts
    case LogsSubmission(p, _, _) => p in s.procs && s.procs[p].Judged?
    case LogsVerdict(p, _) => p in s.procs && s.procs[p].Audited?
    case ReadsForSignoff(_, id, plan, actor, door) =>
      id in w.contracts && plan != [] && Judge(t, w.contracts[id], plan).approved && (door.Server? ==> actor == "user")
    case LogsSignature(p, _) => p in s.procs && s.procs[p].Signing?
    case ReadsForDispatch(_, id) => id in w.contracts
    case LogsRefusal(p, _) => p in s.procs && s.procs[p].Dispatching?
    case FindsGateOpen(p, now) =>
      p in s.procs && s.procs[p].Dispatching? &&
      (s.procs[p].seen.content.gated ==> MayOpen(w.log, s.procs[p].id, s.procs[p].seen, now))
    case StartsAttempt(p) => p in s.procs && s.procs[p].Cleared?
    case ReadsForVerifier(_, id) => id in w.contracts
    case StartsVerifier(p, _) => p in s.procs && s.procs[p].Verifying?
  }

  function WorldAfter(t: TextTables, s: Sys, step: Step): World
    requires IsEnabled(t, s, step)
  {
    var w := s.world;
    match step
    case Creates(id, content, now) => Create(w, id, content, now)
    case Updates(id, to, reason, next, now) => UpdateState(w, id, to, reason, next, now)
    case Patches(id, checks, specHash, now) => Patch(w, id, checks, specHash, now)
    case Amends(goalId, grant) => World(w.contracts, w.log, w.grants[goalId := grant])
    case Schedules(id, next) => World(w.contracts[id := w.contracts[id].(nextDecisionAt := next)], w.log, w.grants)
    case Notes(e) => Append(w, e)
    case WritesMove(p, now) => Commit(w, s.procs[p].id, s.procs[p].seen, s.procs[p].via, now)
    case LogsSubmission(p, submitter, now) => Append(w, Event(s.procs[p].id, now, None, PlanSubmitted(submitter)))
    case LogsVerdict(p, now) =>
      var Audited(id, seen, plan, v, door) := s.procs[p];
      Append(w, Verdict(id, seen, plan, v, door, now))
    case LogsSignature(p, now) =>
      var Signing(id, seen, plan, actor, door) := s.procs[p];
      Append(w, Signature(id, seen, plan, actor, door, now))
    case LogsRefusal(p, now) => Append(w, Event(s.procs[p].id, now, Some(s.procs[p].seen.revision), DispatchRefused))
    case StartsAttempt(p) =>
      var Cleared(id, seen, at) := s.procs[p];
      Append(w, Event(id, at, Some(seen.revision), AttemptStarted(Executor)))
    case StartsVerifier(p, now) =>
      Append(w, Event(s.procs[p].id, now, Some(s.procs[p].seen.revision), AttemptStarted(Verifier)))
    case _ => w
  }

  function ProcsAfter(t: TextTables, s: Sys, step: Step): map<nat, Proc>
    requires IsEnabled(t, s, step)
  {
    var w := s.world;
    match step
    case ReadsForMove(p, id, via) => s.procs[p := Moving(id, w.contracts[id], via)]
    case WritesMove(p, _) => s.procs - {p}
    case ReadsForSubmit(p, id, plan) => s.procs[p := Submitting(id, w.contracts[id], plan)]
    case LooksAtGoal(p) =>
      var Submitting(id, seen, plan) := s.procs[p];
      s.procs[p := Judged(id, seen, plan, WithGrant(Judge(t, seen, plan), w, seen.content.goalId, plan), Server)]
    case JudgesAtCommandLine(p, id, plan) =>
      s.procs[p := Judged(id, w.contracts[id], plan, Judge(t, w.contracts[id], plan), CommandLine)]
    case LogsSubmission(p, _, _) =>
      var Judged(id, seen, plan, v, door) := s.procs[p];
      s.procs[p := Audited(id, seen, plan, v, door)]
    case LogsVerdict(p, _) => s.procs - {p}
    case ReadsForSignoff(p, id, plan, actor, door) => s.procs[p := Signing(id, w.contracts[id], plan, actor, door)]
    case LogsSignature(p, _) => s.procs - {p}
    case ReadsForDispatch(p, id) => s.procs[p := Dispatching(id, w.contracts[id])]
    case LogsRefusal(p, _) => s.procs - {p}
    case FindsGateOpen(p, now) => s.procs[p := Cleared(s.procs[p].id, s.procs[p].seen, now)]
    case StartsAttempt(p) => s.procs - {p}
    case ReadsForVerifier(p, id) => s.procs[p := Verifying(id, w.contracts[id])]
    case StartsVerifier(p, _) => s.procs - {p}
    case _ => s.procs
  }

  function Next(t: TextTables, s: Sys, step: Step): Sys
    requires IsEnabled(t, s, step)
  {
    Sys(WorldAfter(t, s, step), ProcsAfter(t, s, step))
  }

  const START: Sys := Sys(World(map[], [], map[]), map[])

  /** A run: the states, and the steps between them. */
  ghost predicate IsRun(t: TextTables, run: seq<Sys>, steps: seq<Step>) {
    |run| == |steps| + 1 && run[0] == START &&
    forall i {:trigger steps[i]} :: 0 <= i < |steps| ==>
      IsEnabled(t, run[i], steps[i]) && run[i + 1] == Next(t, run[i], steps[i])
  }

  // ----- rows -----

  /** How one step may change a row. */
  predicate RowMoves(a: Row, b: Row) {
    MayMove(a.state, b.state) &&
    b.content == a.content.(checks := b.content.checks, specHash := b.content.specHash) &&
    a.revision <= b.revision &&
    (a.revision == b.revision ==>
       a.content == b.content &&
       ((a.state == b.state && a.reason == b.reason) ||
        (a.state.Blocked? && b.state.Active?) ||
        (a.state.Active? && b.state.Blocked? && b.reason == Some(CapacityFull))))
  }

  lemma StepMovesRows(t: TextTables, s: Sys, step: Step, id: string)
    requires IsEnabled(t, s, step) && id in s.world.contracts
    requires forall p :: p in s.procs && s.procs[p].Moving? ==> Applies(s.procs[p].via, s.procs[p].seen)
    ensures id in Next(t, s, step).world.contracts
    ensures RowMoves(s.world.contracts[id], Next(t, s, step).world.contracts[id])
  {
  }

  /** What holds between the rows of one contract at two points of a run. */
  predicate RowLeadsTo(a: Row, b: Row) {
    b.content == a.content.(checks := b.content.checks, specHash := b.content.specHash) &&
    a.revision <= b.revision &&
    (IsTerminal(a.state) ==> b.state == a.state) &&
    (a.revision == b.revision ==>
       a.content == b.content &&
       (a.state.Blocked? ==>
          b.state.Active? || (b.state.Blocked? && (b.reason == a.reason || b.reason == Some(CapacityFull)))))
  }

  lemma LeadsOn(a: Row, b: Row, c: Row)
    requires RowLeadsTo(a, b) && RowMoves(b, c)
    ensures RowLeadsTo(a, c)
  {
    TerminalStatesHaveNoExit(b.state);
  }

  /** Work in flight has read a row its helper acts on. */
  ghost predicate MovesApply(s: Sys) {
    forall p :: p in s.procs && s.procs[p].Moving? ==> Applies(s.procs[p].via, s.procs[p].seen)
  }

  lemma {:induction false} MovesAlwaysApply(t: TextTables, run: seq<Sys>, steps: seq<Step>, i: nat)
    requires IsRun(t, run, steps) && i < |run|
    ensures MovesApply(run[i])
  {
    if i > 0 {
      MovesAlwaysApply(t, run, steps, i - 1);
      assert run[i] == Next(t, run[i - 1], steps[i - 1]);
    }
  }

  /** Whatever happens in between: contracts stay, revisions do not fall, a
      revision fixes the content, terminal states are final, and within one
      revision a block can only turn into activity or a full capacity. */
  lemma {:induction false} RowsOverARun(t: TextTables, run: seq<Sys>, steps: seq<Step>, i: nat, j: nat, id: string)
    requires IsRun(t, run, steps) && i <= j < |run| && id in run[i].world.contracts
    ensures id in run[j].world.contracts
    ensures RowLeadsTo(run[i].world.contracts[id], run[j].world.contracts[id])
    decreases j - i
  {
    if i < j {
      RowsOverARun(t, run, steps, i, j - 1, id);
      MovesAlwaysApply(t, run, steps, j - 1);
      StepMovesRows(t, run[j - 1], steps[j - 1], id);
      LeadsOn(run[i].world.contracts[id], run[j - 1].world.contracts[id], run[j].world.contracts[id]);
    }
  }

  /** The row was the contract's row at some point up to `i`. */
  ghost predicate WasRow(run: seq<Sys>, i: nat, id: string, row: Row)
    requires i < |run|
  {
    exists j :: 0 <= j <= i && id in run[j].world.contracts && run[j].world.contracts[id] == row
  }

  ghost predicate WasGranted(run: seq<Sys>, i: nat, goalId: string, plan: seq<PlanStep>)
    requires i < |run|
  {
    exists j :: 0 <= j <= i && goalId in run[j].world.grants && GrantCovers(run[j].world.grants[goalId], plan)
  }

  /** The plan was inside a scope the user had given. */
  ghost predicate InGivenScope(run: seq<Sys>, i: nat, content: Content, plan: seq<PlanStep>)
    requires i < |run|
  {
    InScope(content.autoApprove, plan) || WasGranted(run, i, content.goalId, plan)
  }

  ghost predicate IsJudgement(t: TextTables, run: seq<Sys>, i: nat, seen: Row, plan: seq<PlanStep>, v: PlanValidation)
    requires i < |run|
  {
    v.approved && !v.requiresSignoff ==>
      IsApprovable(t, plan, seen.content.objective, CheckIds(seen.content)) && InGivenScope(run, i, seen.content, plan)
  }

  ghost predicate ProcIsSound(t: TextTables, run: seq<Sys>, i: nat, proc: Proc)
    requires i < |run|
  {
    WasRow(run, i, proc.id, proc.seen) &&
    (proc.Judged? || proc.Audited? ==> IsJudgement(t, run, i, proc.seen, proc.plan, proc.v)) &&
    (proc.Signing? ==>
       IsApprovable(t, proc.plan, proc.seen.content.objective, CheckIds(proc.seen.content)) &&
       (proc.door.Server? ==> proc.actor == "user"))
  }

  lemma Later(t: TextTables, run: seq<Sys>, i: nat, proc: Proc)
    requires i + 1 < |run| && ProcIsSound(t, run, i, proc)
    ensures ProcIsSound(t, run, i + 1, proc)
  {
  }

  lemma JudgeIsSound(t: TextTables, run: seq<Sys>, i: nat, seen: Row, plan: seq<PlanStep>)
    requires i < |run|
    ensures IsJudgement(t, run, i, seen, plan,
                        WithGrant(Judge(t, seen, plan), run[i].world, seen.content.goalId, plan))
  {
    ApprovalMeans(t, plan, seen.content.objective, CheckIds(seen.content), seen.content.autoApprove);
  }

  lemma PlainJudgeIsSound(t: TextTables, run: seq<Sys>, i: nat, seen: Row, plan: seq<PlanStep>)
    requires i < |run|
    ensures IsJudgement(t, run, i, seen, plan, Judge(t, seen, plan))
  {
    ApprovalMeans(t, plan, seen.content.objective, CheckIds(seen.content), seen.content.autoApprove);
  }

  lemma {:induction false} ProcsAreSound(t: TextTables, run: seq<Sys>, steps: seq<Step>, i: nat)
    requires IsRun(t, run, steps) && i < |run|
    ensures forall p :: p in run[i].procs ==> ProcIsSound(t, run, i, run[i].procs[p])
  {
    if i > 0 {
      var s, step := run[i - 1], steps[i - 1];
      ProcsAreSound(t, run, steps, i - 1);
      forall p | p in run[i].procs
        ensures ProcIsSound(t, run, i, run[i].procs[p])
      {
        if p in s.procs {
          Later(t, run, i - 1, s.procs[p]);
        }
        NewProcIsSound(t, run, steps, i - 1, p);
      }
    }
  }

  lemma NewProcIsSound(t: TextTables, run: seq<Sys>, steps: seq<Step>, i: nat, p: nat)
    requires IsRun(t, run, steps) && i < |steps| && p in run[i + 1].procs
    requires p in run[i].procs ==> ProcIsSound(t, run, i + 1, run[i].procs[p])
    ensures ProcIsSound(t, run, i + 1, run[i + 1].procs[p])
  {
    var s, step := run[i], steps[i];
    var proc := run[i + 1].procs[p];
    assert run[i + 1] == Next(t, s, step);
    if step.JudgesAtCommandLine? && step.p == p {
      PlainJudgeIsSound(t, run, i + 1, proc.seen, proc.plan);
    } else if step.LooksAtGoal? && step.p == p {
      JudgeIsSound(t, run, i, proc.seen, proc.plan);
    } else if step.ReadsForSignoff? && step.p == p {
      ApprovalMeans(t, proc.plan, proc.seen.content.objective, CheckIds(proc.seen.content),
                    proc.seen.content.autoApprove);
    }
    assert proc.id in s.world.contracts && proc.seen == s.world.contracts[proc.id] ==>
           WasRow(run, i + 1, proc.id, proc.seen);
  }
}
