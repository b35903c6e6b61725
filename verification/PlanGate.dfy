/**
 * What the plan gate guarantees over whole runs: an open gate means a covering,
 * authorized plan; how long it stays open; and what the log says of the rows.
 */
module PlanGate {
  import opened Prelude
  import opened StateMachine
  import opened PlanHash
  import opened Plan
  import opened PlanProtocol
  import opened PlanRuns
  import Fingerprint

  // ----- what one submission and one signature write -----

  /** The goal's grant covers the plan: it is enabled, names some action, and
      names every action the plan uses. */
  ghost predicate IsGranted(w: World, goalId: string, plan: seq<PlanStep>) {
    goalId != "" && goalId in w.grants && w.grants[goalId].enabled &&
    (exists a :: a in w.grants[goalId].actions && a != "") &&
    (forall step :: step in plan ==> step.action != "" && step.action in w.grants[goalId].actions)
  }

  /** The contract's own scope spares the plan the signature: it is enabled and
      names every action the plan uses. */
  ghost predicate IsSpared(a: AutoApprove, plan: seq<PlanStep>) {
    a.enabled && forall step :: step in plan ==> step.action in a.actions
  }

  lemma GrantCoversMeans(w: World, goalId: string, plan: seq<PlanStep>)
    ensures IsGranted(w, goalId, plan) <==> goalId != "" && goalId in w.grants && GrantCovers(w.grants[goalId], plan)
  {
    if goalId in w.grants {
      var actions := w.grants[goalId].actions;
      forall a | a in actions
        ensures exists i :: 0 <= i < |actions| && actions[i] == a
      {
      }
      forall step | step in plan
        ensures exists i :: 0 <= i < |plan| && plan[i] == step
      {
      }
      if IsGranted(w, goalId, plan) {
        var a :| a in actions && a != "";
        var i :| 0 <= i < |actions| && actions[i] == a;
        assert GrantCovers(w.grants[goalId], plan);
      }
      if goalId != "" && GrantCovers(w.grants[goalId], plan) {
        var i :| 0 <= i < |actions| && actions[i] != "";
        assert actions[i] in actions;
        assert IsGranted(w, goalId, plan);
      }
    }
  }

  /** Over the server a plan is approved at once exactly when it is approvable and
      all its actions are in the contract's enabled scope or in the goal's grant;
      at the command line the grant does not count.  Otherwise it is rejected,
      with reasons exactly when it is not approvable. */
  lemma SubmissionExactly(t: TextTables, w: World, id: string, seen: Row, plan: seq<PlanStep>, now: int)
    ensures var e := Verdict(id, seen, plan, WithGrant(Judge(t, seen, plan), w, seen.content.goalId, plan), Server,
                             now);
            var approvable := IsApprovable(t, plan, seen.content.objective, CheckIds(seen.content));
            (e.body.PlanApproved? || e.body.PlanRejected?) && e.contractId == id && e.at == now &&
            (e.body.PlanApproved? <==>
               approvable && (IsSpared(seen.content.autoApprove, plan) || IsGranted(w, seen.content.goalId, plan))) &&
            (e.body.PlanApproved? ==> e.body.auto && e.body.plan == plan && e.revision == Some(seen.revision)) &&
            (e.body.PlanRejected? ==> e.revision == None && (e.body.reasons != [] <==> !approvable) &&
                                      (e.body.requiresSignoff <==> approvable))
    ensures var e := Verdict(id, seen, plan, Judge(t, seen, plan), CommandLine, now);
            e.body.PlanApproved? <==>
              IsApprovable(t, plan, seen.content.objective, CheckIds(seen.content)) &&
              IsSpared(seen.content.autoApprove, plan)
  {
    ApprovalMeans(t, plan, seen.content.objective, CheckIds(seen.content), seen.content.autoApprove);
    GrantCoversMeans(w, seen.content.goalId, plan);
    assert InScope(seen.content.autoApprove, plan) <==> IsSpared(seen.content.autoApprove, plan);
  }

  // ----- approvals in the log -----

  /** The plan was in a scope the user had given, or is signed: over the server
      by the user, at the command line by whoever runs it. */
  ghost predicate IsAuthorized(run: seq<Sys>, i: nat, content: Content, b: Body)
    requires i < |run| && b.PlanApproved?
  {
    if b.auto then InGivenScope(run, i, content, b.plan) && b.actor == "daemon"
    else b.door.Server? ==> b.actor == "user"
  }

  /** The approval was written for a row the contract once had: the plan covers
      that row's checks, and is authorized. */
  ghost predicate IsBackedBy(t: TextTables, run: seq<Sys>, i: nat, e: Event, row: Row)
    requires i < |run| && e.body.PlanApproved?
  {
    var b := e.body;
    WasRow(run, i, e.contractId, row) &&
    b.payloadRevision == Some(row.revision) &&
    b.acceptedCheckIds == Some(CheckIds(row.content)) &&
    b.boundSpecHash == (if b.auto && b.door.CommandLine? then None else row.content.specHash) &&
    IsApprovable(t, b.plan, row.content.objective, CheckIds(row.content)) &&
    IsAuthorized(run, i, row.content, b)
  }

  ghost predicate IsBacked(t: TextTables, run: seq<Sys>, i: nat, e: Event)
    requires i < |run|
  {
    e.body.PlanApproved? ==> exists row :: IsBackedBy(t, run, i, e, row)
  }

  /** Stamps never run ahead of the contract. */
  ghost predicate IsStamped(w: World, e: Event) {
    e.body.PlanApproved? ==>
      e.contractId in w.contracts && e.revision.Some? && e.revision.value <= w.contracts[e.contractId].revision
  }

  lemma BackedLater(t: TextTables, run: seq<Sys>, i: nat, e: Event, e': Event)
    requires i + 1 < |run| && IsBacked(t, run, i, e)
    requires e' == e.(revision := e'.revision)
    ensures IsBacked(t, run, i + 1, e')
  {
    if e.body.PlanApproved? {
      var row :| IsBackedBy(t, run, i, e, row);
      assert IsBackedBy(t, run, i + 1, e', row);
    }
  }

  /** The log grows at its end and keeps everything but stamps. */
  ghost predicate Extends(later: seq<Event>, earlier: seq<Event>) {
    |earlier| <= |later| &&
    forall k :: 0 <= k < |earlier| ==> later[k] == earlier[k].(revision := later[k].revision)
  }

  lemma StepExtendsLog(t: TextTables, s: Sys, step: Step)
    requires IsEnabled(t, s, step)
    ensures Extends(WorldAfter(t, s, step).log, s.world.log)
    ensures |WorldAfter(t, s, step).log| <= |s.world.log| + 1
    ensures |WorldAfter(t, s, step).log| > |s.world.log| && WorldAfter(t, s, step).log[|s.world.log|].body.PlanApproved?
        ==> step.LogsVerdict? || step.LogsSignature?
  {
  }

  lemma NewApprovalIsBacked(t: TextTables, run: seq<Sys>, steps: seq<Step>, i: nat)
    requires IsRun(t, run, steps) && i < |steps| && (steps[i].LogsVerdict? || steps[i].LogsSignature?)
    ensures var log := run[i + 1].world.log;
            log != [] && IsBacked(t, run, i + 1, log[|log| - 1]) && IsStamped(run[i + 1].world, log[|log| - 1])
  {
    var s, step := run[i], steps[i];
    assert run[i + 1] == Next(t, s, step);
    ProcsAreSound(t, run, steps, i);
    var proc := s.procs[step.p];
    assert ProcIsSound(t, run, i, proc);
    Later(t, run, i, proc);
    var log := run[i + 1].world.log;
    var e := log[|log| - 1];
    var j :| 0 <= j <= i && proc.id in run[j].world.contracts && run[j].world.contracts[proc.id] == proc.seen;
    RowsOverARun(t, run, steps, j, i + 1, proc.id);
    if e.body.PlanApproved? {
      assert IsBackedBy(t, run, i + 1, e, proc.seen);
    }
  }

  lemma {:induction false} ApprovalsAreBacked(t: TextTables, run: seq<Sys>, steps: seq<Step>, i: nat)
    requires IsRun(t, run, steps) && i < |run|
    ensures forall k :: 0 <= k < |run[i].world.log| ==> IsBacked(t, run, i, run[i].world.log[k])
    ensures forall k :: 0 <= k < |run[i].world.log| ==> IsStamped(run[i].world, run[i].world.log[k])
  {
    if i > 0 {
      ApprovalsAreBacked(t, run, steps, i - 1);
      forall k | 0 <= k < |run[i].world.log|
        ensures IsBacked(t, run, i, run[i].world.log[k])
        ensures IsStamped(run[i].world, run[i].world.log[k])
      {
        EntryIsBacked(t, run, steps, i - 1, k);
      }
    }
  }

  lemma EntryIsBacked(t: TextTables, run: seq<Sys>, steps: seq<Step>, i: nat, k: nat)
    requires IsRun(t, run, steps) && i < |steps| && k < |run[i + 1].world.log|
    requires k < |run[i].world.log| ==>
               IsBacked(t, run, i, run[i].world.log[k]) && IsStamped(run[i].world, run[i].world.log[k])
    ensures IsBacked(t, run, i + 1, run[i + 1].world.log[k])
    ensures IsStamped(run[i + 1].world, run[i + 1].world.log[k])
  {
    var before, after := run[i].world.log, run[i + 1].world.log;
    assert run[i + 1] == Next(t, run[i], steps[i]);
    StepExtendsLog(t, run[i], steps[i]);
    if k < |before| {
      BackedLater(t, run, i, before[k], after[k]);
      StampLater(t, run, steps, i, k);
    } else if after[k].body.PlanApproved? {
      assert k == |before|;
      NewApprovalIsBacked(t, run, steps, i);
    }
  }

  lemma StampLater(t: TextTables, run: seq<Sys>, steps: seq<Step>, i: nat, k: nat)
    requires IsRun(t, run, steps) && i < |steps| && k < |run[i].world.log|
    requires IsStamped(run[i].world, run[i].world.log[k]) && k < |run[i + 1].world.log|
    ensures IsStamped(run[i + 1].world, run[i + 1].world.log[k])
  {
    var e := run[i].world.log[k];
    StepExtendsLog(t, run[i], steps[i]);
    if e.body.PlanApproved? {
      RowsOverARun(t, run, steps, i, i + 1, e.contractId);
      assert run[i + 1] == Next(t, run[i], steps[i]);
    }
  }

  // ----- an open gate is a safe gate -----

  /** In every reachable state, and for every row a dispatcher may hold: if the
      gate may open on it, the latest verdict in the window is an approval whose
      plan covers every check of that row with allowed actions only, and was
      inside a scope the user had given or signed by the user.  A row read at the
      current revision has the contract's current checks. */
  lemma OpenGateIsSafe(t: TextTables, run: seq<Sys>, steps: seq<Step>, i: nat, id: string, view: Row, now: int)
    returns (k: nat)
    requires IsRun(t, run, steps) && i < |run| && WasRow(run, i, id, view)
    requires MayOpen(run[i].world.log, id, view, now)
    ensures k < |run[i].world.log| && IsLatestVerdict(run[i].world.log, id, now, k)
    ensures Binds(run[i].world.log[k], view.revision, CheckIds(view.content), view.content.specHash)
    ensures var b := run[i].world.log[k].body;
            b.PlanApproved? &&
            IsApprovable(t, b.plan, view.content.objective, CheckIds(view.content)) &&
            IsAuthorized(run, i, view.content, b)
    ensures id in run[i].world.contracts
    ensures run[i].world.contracts[id].revision == view.revision ==> run[i].world.contracts[id].content == view.content
  {
    var log := run[i].world.log;
    k :| IsLatestVerdict(log, id, now, k) &&
         Binds(log[k], view.revision, CheckIds(view.content), view.content.specHash);
    ApprovalsAreBacked(t, run, steps, i);
    assert IsBacked(t, run, i, log[k]);
    var row :| IsBackedBy(t, run, i, log[k], row);
    PastRows(t, run, steps, i, id, row);
    PastRows(t, run, steps, i, id, view);
    assert row.content.objective == view.content.objective && row.content.autoApprove == view.content.autoApprove
        && row.content.goalId == view.content.goalId;
  }

  /** Exactly when an open gate is safe for the contract as it is now, whatever
      row the dispatcher holds: the plan must name the checks added since that
      row was read.  Re-reading the row shows which ones these are. */
  lemma OpenGateExactly(t: TextTables, run: seq<Sys>, steps: seq<Step>, i: nat, id: string, view: Row, now: int)
    returns (k: nat)
    requires IsRun(t, run, steps) && i < |run| && WasRow(run, i, id, view)
    requires MayOpen(run[i].world.log, id, view, now)
    ensures k < |run[i].world.log| && IsLatestVerdict(run[i].world.log, id, now, k)
    ensures run[i].world.log[k].body.PlanApproved? && id in run[i].world.contracts
    ensures var plan, content := run[i].world.log[k].body.plan, run[i].world.contracts[id].content;
            IsApprovable(t, plan, content.objective, CheckIds(content))
            <==> forall c :: c in CheckIds(content) && c !in CheckIds(view.content) ==> IsNamedBy(t, plan, c)
  {
    k := OpenGateIsSafe(t, run, steps, i, id, view, now);
    PastRows(t, run, steps, i, id, view);
    AddedChecks(t, run[i].world.log[k].body.plan, view.content.objective, CheckIds(view.content),
                CheckIds(run[i].world.contracts[id].content));
  }

  lemma AddedChecks(t: TextTables, plan: seq<PlanStep>, objective: string, before: seq<string>, after: seq<string>)
    requires IsApprovable(t, plan, objective, before)
    ensures IsApprovable(t, plan, objective, after)
       <==> forall c :: c in after && c !in before ==> IsNamedBy(t, plan, c)
  {
    forall c | c in before
      ensures IsNamedBy(t, plan, c)
    {
      var i :| 0 <= i < |before| && before[i] == c;
    }
    if IsApprovable(t, plan, objective, after) {
      forall c | c in after
        ensures IsNamedBy(t, plan, c)
      {
        var i :| 0 <= i < |after| && after[i] == c;
      }
    }
  }

  lemma PastRows(t: TextTables, run: seq<Sys>, steps: seq<Step>, i: nat, id: string, row: Row)
    requires IsRun(t, run, steps) && i < |run| && WasRow(run, i, id, row)
    ensures id in run[i].world.contracts && RowLeadsTo(row, run[i].world.contracts[id])
  {
    var j :| 0 <= j <= i && id in run[j].world.contracts && run[j].world.contracts[id] == row;
    RowsOverARun(t, run, steps, j, i, id);
  }

  /** An automatic approval from the command line carries no spec hash, so it
      never binds a contract that has one: such a contract must go through the
      server or be signed. */
  lemma CommandLineLacksTheHash(t: TextTables, run: seq<Sys>, steps: seq<Step>, i: nat, k: nat, revision: nat,
                                ids: seq<string>, specHash: Option<string>)
    requires IsRun(t, run, steps) && i < |run| && k < |run[i].world.log|
    requires var b := run[i].world.log[k].body; b.PlanApproved? && b.auto && b.door.CommandLine?
    ensures Binds(run[i].world.log[k], revision, ids, specHash) ==> specHash.None?
  {
    ApprovalsAreBacked(t, run, steps, i);
    assert IsBacked(t, run, i, run[i].world.log[k]);
  }

  // ----- executors start under an open gate -----

  ghost predicate IsOpenOn(run: seq<Sys>, m: nat, id: string, seen: Row, at: int)
    requires m < |run|
  {
    WasRow(run, m, id, seen) && (seen.content.gated ==> MayOpen(run[m].world.log, id, seen, at))
  }

  /** At time `at` the gate was open on `seen`, at a point up to `i` with a log of
      at most `limit` events, or the contract is not gated. */
  ghost predicate WasCleared(run: seq<Sys>, i: nat, id: string, seen: Row, at: int, limit: nat)
    requires i < |run|
  {
    exists m :: 0 <= m <= i && |run[m].world.log| <= limit && IsOpenOn(run, m, id, seen, at)
  }

  lemma ClearedLater(run: seq<Sys>, i: nat, id: string, seen: Row, at: int, limit: nat, limit': nat)
    requires i + 1 < |run| && WasCleared(run, i, id, seen, at, limit) && limit <= limit'
    ensures WasCleared(run, i + 1, id, seen, at, limit')
  {
    var m :| 0 <= m <= i && |run[m].world.log| <= limit && IsOpenOn(run, m, id, seen, at);
    assert 0 <= m <= i + 1;
  }

  lemma {:induction false} ClearedProcs(t: TextTables, run: seq<Sys>, steps: seq<Step>, i: nat, p: nat)
    requires IsRun(t, run, steps) && i < |run| && p in run[i].procs && run[i].procs[p].Cleared?
    ensures var Cleared(id, seen, at) := run[i].procs[p];
            WasCleared(run, i, id, seen, at, |run[i].world.log|)
  {
    if i > 0 {
      var s, step := run[i - 1], steps[i - 1];
      assert run[i] == Next(t, s, step);
      StepExtendsLog(t, s, step);
      var Cleared(id, seen, at) := run[i].procs[p];
      ClearedComesFrom(t, s, step, p);
      if p in s.procs && s.procs[p].Cleared? {
        ClearedProcs(t, run, steps, i - 1, p);
        ClearedLater(run, i - 1, id, seen, at, |s.world.log|, |run[i].world.log|);
      } else {
        ProcsAreSound(t, run, steps, i - 1);
        assert ProcIsSound(t, run, i - 1, s.procs[p]);
        FindingIsClearing(run, i - 1, id, seen, at, |run[i].world.log|);
      }
    }
  }

  lemma ClearedComesFrom(t: TextTables, s: Sys, step: Step, p: nat)
    requires IsEnabled(t, s, step) && p in ProcsAfter(t, s, step) && ProcsAfter(t, s, step)[p].Cleared?
    ensures p in s.procs
    ensures ProcsAfter(t, s, step)[p] == s.procs[p] ||
            (step.FindsGateOpen? && step.p == p && s.procs[p].Dispatching? &&
             ProcsAfter(t, s, step)[p] == Cleared(s.procs[p].id, s.procs[p].seen, step.now))
  {
  }

  lemma FindingIsClearing(run: seq<Sys>, i: nat, id: string, seen: Row, at: int, limit: nat)
    requires i + 1 < |run| && |run[i].world.log| <= limit && IsOpenOn(run, i, id, seen, at)
    ensures WasCleared(run, i + 1, id, seen, at, limit)
  {
    assert 0 <= i <= i + 1;
  }

  predicate IsExecutorStart(e: Event) {
    e.body.AttemptStarted? && e.body.role.Executor?
  }

  /** An executor's start on record was logged by a dispatcher that had found the
      gate open, and bears the time at which it had. */
  ghost predicate IsClearedStart(run: seq<Sys>, i: nat, k: nat)
    requires i < |run| && k < |run[i].world.log|
  {
    var e := run[i].world.log[k];
    IsExecutorStart(e) ==>
      exists seen: Row :: e.revision == Some(seen.revision) && WasCleared(run, i, e.contractId, seen, e.at, k)
  }

  lemma {:induction false} StartsAreCleared(t: TextTables, run: seq<Sys>, steps: seq<Step>, i: nat, k: nat)
    requires IsRun(t, run, steps) && i < |run| && k < |run[i].world.log|
    ensures IsClearedStart(run, i, k)
  {
    if i > 0 && IsExecutorStart(run[i].world.log[k]) {
      var s, step := run[i - 1], steps[i - 1];
      assert run[i] == Next(t, s, step);
      StepExtendsLog(t, s, step);
      OnlyStartsLogStarts(t, s, step);
      var e := run[i].world.log[k];
      if k < |s.world.log| {
        StartsAreCleared(t, run, steps, i - 1, k);
        var seen: Row :| e.revision == Some(seen.revision) && WasCleared(run, i - 1, e.contractId, seen, e.at, k);
        ClearedLater(run, i - 1, e.contractId, seen, e.at, k, k);
      } else {
        ClearedProcs(t, run, steps, i - 1, step.p);
        ClearedLater(run, i - 1, e.contractId, s.procs[step.p].seen, e.at, k, k);
      }
    }
  }

  lemma OnlyStartsLogStarts(t: TextTables, s: Sys, step: Step)
    requires IsEnabled(t, s, step)
    ensures var log, log' := s.world.log, WorldAfter(t, s, step).log;
            |log'| > |log| && IsExecutorStart(log'[|log|]) ==>
              step.StartsAttempt? &&
              log'[|log|] == Event(s.procs[step.p].id, s.procs[step.p].at, Some(s.procs[step.p].seen.revision),
                                   AttemptStarted(Executor))
    ensures forall k :: 0 <= k < |s.world.log| && s.world.log[k].body.AttemptStarted? ==>
              WorldAfter(t, s, step).log[k] == s.world.log[k]
  {
  }

  /** In every run, every executor attempt of a gated contract was started after
      a point at which the gate was open, at the time the start bears, on the row
      its dispatcher held: verdict `v` was then the latest in the window, bound
      that row, and approved a plan that names every check of it, uses allowed
      actions only, and was authorized.  Verifiers start without the gate. */
  lemma AttemptsAreSafe(t: TextTables, run: seq<Sys>, steps: seq<Step>, i: nat, k: nat)
    returns (m: nat, view: Row, v: nat)
    requires IsRun(t, run, steps) && i < |run| && k < |run[i].world.log| && IsExecutorStart(run[i].world.log[k])
    ensures m <= i && WasRow(run, m, run[i].world.log[k].contractId, view)
    ensures run[i].world.log[k].revision == Some(view.revision)
    ensures view.content.gated ==>
              var e, log := run[i].world.log[k], run[m].world.log;
              v < |log| <= k && IsLatestVerdict(log, e.contractId, e.at, v) &&
              Binds(log[v], view.revision, CheckIds(view.content), view.content.specHash) &&
              IsApprovable(t, log[v].body.plan, view.content.objective, CheckIds(view.content)) &&
              IsAuthorized(run, m, view.content, log[v].body)
    ensures run[i].world.log[k].contractId in run[i].world.contracts
    ensures run[i].world.contracts[run[i].world.log[k].contractId].content.gated == view.content.gated
  {
    var e := run[i].world.log[k];
    StartsAreCleared(t, run, steps, i, k);
    assert IsClearedStart(run, i, k);
    view :| e.revision == Some(view.revision) && WasCleared(run, i, e.contractId, view, e.at, k);
    m :| 0 <= m <= i && |run[m].world.log| <= k && IsOpenOn(run, m, e.contractId, view, e.at);
    v := 0;
    if view.content.gated {
      v := OpenGateIsSafe(t, run, steps, m, e.contractId, view, e.at);
    }
    PastRows(t, run, steps, m, e.contractId, view);
    RowsOverARun(t, run, steps, m, i, e.contractId);
  }

  // ----- how long the gate stays open -----

  /** Verdict `k` is an approval later than every other verdict of the contract,
      and carries the current revision. */
  ghost predicate IsCurrentApproval(w: World, id: string, k: nat) {
    k < |w.log| && id in w.contracts && IsVerdict(w.log[k], id) && w.log[k].body.PlanApproved? &&
    w.log[k].revision == Some(w.contracts[id].revision) &&
    forall j :: 0 <= j < |w.log| && j != k && IsVerdict(w.log[j], id) ==> w.log[j].at < w.log[k].at
  }

  /** For such an approval the gate is a matter of time and of the acceptance. */
  lemma GateExactly(w: World, id: string, k: nat, now: int)
    requires IsCurrentApproval(w, id, k)
    ensures var row := w.contracts[id];
            (MayOpen(w.log, id, row, now) <==> StillHolds(w.log[k], row.content, now)) &&
            (MustOpen(w.log, id, row, now) <==> StillHolds(w.log[k], row.content, now))
  {
    var e := w.log[k];
    if now - PLAN_GATE_LOOKBACK_SECONDS <= e.at {
      assert IsLatestVerdict(w.log, id, now, k);
    }
    forall i | IsLatestVerdict(w.log, id, now, i)
      ensures i == k
    {
      assert w.log[k].at <= w.log[i].at;
    }
  }

  predicate LogsVerdictFor(s: Sys, step: Step, id: string) {
    (step.LogsVerdict? || step.LogsSignature?) && step.p in s.procs && s.procs[step.p].id == id
  }

  lemma ApprovalStaysCurrent(t: TextTables, s: Sys, step: Step, id: string, k: nat)
    requires IsEnabled(t, s, step) && !LogsVerdictFor(s, step, id)
    requires IsCurrentApproval(s.world, id, k)
    ensures IsCurrentApproval(Next(t, s, step).world, id, k)
    ensures Next(t, s, step).world.log[k].body == s.world.log[k].body &&
            Next(t, s, step).world.log[k].at == s.world.log[k].at
  {
    var w, w' := s.world, WorldAfter(t, s, step);
    StepExtendsLog(t, s, step);
    forall j | 0 <= j < |w'.log| && j != k && IsVerdict(w'.log[j], id)
      ensures w'.log[j].at < w'.log[k].at
    {
      if j == |w.log| {
        OnlyVerdictStepsLogVerdicts(t, s, step, id);
      } else {
        assert IsVerdict(w.log[j], id);
      }
    }
  }

  lemma OnlyVerdictStepsLogVerdicts(t: TextTables, s: Sys, step: Step, id: string)
    requires IsEnabled(t, s, step) && !LogsVerdictFor(s, step, id)
    ensures var w, w' := s.world, WorldAfter(t, s, step);
            |w'.log| > |w.log| ==> !IsVerdict(w'.log[|w.log|], id)
  {
  }

  /** Approval `k` is current at both points, with the same payload and time. */
  ghost predicate StaysCurrent(w: World, w': World, id: string, k: nat) {
    IsCurrentApproval(w, id, k) && IsCurrentApproval(w', id, k) &&
    w'.log[k].body == w.log[k].body && w'.log[k].at == w.log[k].at
  }

  lemma ApprovalOverAStep(t: TextTables, run: seq<Sys>, steps: seq<Step>, i: nat, id: string, k: nat)
    requires IsRun(t, run, steps) && i < |steps| && IsCurrentApproval(run[i].world, id, k)
    requires !LogsVerdictFor(run[i], steps[i], id)
    ensures StaysCurrent(run[i].world, run[i + 1].world, id, k)
  {
    ApprovalStaysCurrent(t, run[i], steps[i], id, k);
  }

  lemma StaysCurrentOn(u: World, v: World, w: World, id: string, k: nat)
    requires StaysCurrent(u, v, id, k) && StaysCurrent(v, w, id, k)
    ensures StaysCurrent(u, w, id, k)
  {
  }

  lemma {:induction false} ApprovalOverARun(t: TextTables, run: seq<Sys>, steps: seq<Step>, i: nat, j: nat, id: string,
                                            k: nat)
    requires IsRun(t, run, steps) && i <= j < |run| && IsCurrentApproval(run[i].world, id, k)
    requires forall m {:trigger steps[m]} :: i <= m < j ==> !LogsVerdictFor(run[m], steps[m], id)
    ensures StaysCurrent(run[i].world, run[j].world, id, k)
    decreases j - i
  {
    if i < j {
      ApprovalOverARun(t, run, steps, i, j - 1, id, k);
      ApprovalOverAStep(t, run, steps, j - 1, id, k);
      StaysCurrentOn(run[i].world, run[j - 1].world, run[j].world, id, k);
    }
  }

  /** The approval is at most 24 hours old and names the checks and the spec hash
      the contract has. */
  predicate StillHolds(e: Event, content: Content, now: int) {
    e.body.PlanApproved? && now - PLAN_GATE_LOOKBACK_SECONDS <= e.at &&
    e.body.acceptedCheckIds == Some(CheckIds(content)) && e.body.boundSpecHash == content.specHash
  }

  /** Once an approval is current it stays so through any run in which no other
      verdict on the contract is logged: plan wakes, capacity blocks and wakes,
      lifecycle moves, patches, other contracts' traffic.  All that time the gate
      is open exactly while 24 hours have not passed and the contract's checks
      and spec hash are those approved; it closes when they are edited, and
      opens again when they are put back. */
  lemma GateOverARun(t: TextTables, run: seq<Sys>, steps: seq<Step>, i: nat, j: nat, id: string, k: nat, now: int)
    requires IsRun(t, run, steps) && i <= j < |run| && IsCurrentApproval(run[i].world, id, k)
    requires forall m {:trigger steps[m]} :: i <= m < j ==> !LogsVerdictFor(run[m], steps[m], id)
    ensures id in run[j].world.contracts
    ensures var w, e := run[j].world, run[i].world.log[k];
            var row := w.contracts[id];
            (MayOpen(w.log, id, row, now) <==> StillHolds(e, row.content, now)) &&
            (MustOpen(w.log, id, row, now) <==> StillHolds(e, row.content, now))
  {
    ApprovalOverARun(t, run, steps, i, j, id, k);
    GateExactly(run[j].world, id, k, now);
  }

  // ----- what shuts and opens the gate -----

  /** Verdict `k` of the contract is later than all its others. */
  ghost predicate IsLastVerdict(log: seq<Event>, id: string, k: nat) {
    k < |log| && IsVerdict(log[k], id) &&
    forall j :: 0 <= j < |log| && j != k && IsVerdict(log[j], id) ==> log[j].at < log[k].at
  }

  /** The last verdict alone decides: the gate is open on a row exactly when that
      verdict is in the window and binds the row.  A rejection binds none. */
  lemma LastVerdictDecides(log: seq<Event>, id: string, k: nat, view: Row, now: int)
    requires IsLastVerdict(log, id, k)
    ensures var open := log[k].at >= now - PLAN_GATE_LOOKBACK_SECONDS &&
                        Binds(log[k], view.revision, CheckIds(view.content), view.content.specHash);
            (MayOpen(log, id, view, now) <==> open) && (MustOpen(log, id, view, now) <==> open)
  {
    forall i | IsLatestVerdict(log, id, now, i)
      ensures i == k
    {
      assert log[k].at <= log[i].at;
    }
    if log[k].at >= now - PLAN_GATE_LOOKBACK_SECONDS {
      assert IsLatestVerdict(log, id, now, k);
    }
  }

  lemma LastVerdictStays(t: TextTables, s: Sys, step: Step, id: string, k: nat)
    requires IsEnabled(t, s, step) && !LogsVerdictFor(s, step, id) && IsLastVerdict(s.world.log, id, k)
    ensures IsLastVerdict(Next(t, s, step).world.log, id, k)
    ensures Next(t, s, step).world.log[k].body == s.world.log[k].body
  {
    var log, log' := s.world.log, WorldAfter(t, s, step).log;
    StepExtendsLog(t, s, step);
    forall j | 0 <= j < |log'| && j != k && IsVerdict(log'[j], id)
      ensures log'[j].at < log'[k].at
    {
      if j == |log| {
        OnlyVerdictStepsLogVerdicts(t, s, step, id);
      } else {
        assert IsVerdict(log[j], id);
      }
    }
  }

  /** A rejection later than every other verdict shuts the gate on every row and
      at every time, through any run until another verdict on the contract. */
  lemma {:induction false} RejectionShutsTheGate(t: TextTables, run: seq<Sys>, steps: seq<Step>, i: nat, j: nat,
                                                 id: string, k: nat)
    requires IsRun(t, run, steps) && i <= j < |run|
    requires IsLastVerdict(run[i].world.log, id, k) && run[i].world.log[k].body.PlanRejected?
    requires forall m {:trigger steps[m]} :: i <= m < j ==> !LogsVerdictFor(run[m], steps[m], id)
    ensures IsLastVerdict(run[j].world.log, id, k) && run[j].world.log[k].body.PlanRejected?
    ensures forall view: Row, now: int :: !MayOpen(run[j].world.log, id, view, now)
    decreases j - i
  {
    if i < j {
      RejectionShutsTheGate(t, run, steps, i, j - 1, id, k);
      LastVerdictStays(t, run[j - 1], steps[j - 1], id, k);
      assert run[j] == Next(t, run[j - 1], steps[j - 1]);
    }
    forall view: Row, now: int
      ensures !MayOpen(run[j].world.log, id, view, now)
    {
      LastVerdictDecides(run[j].world.log, id, k, view, now);
    }
  }

  /** The next verdict, at a later time, takes over: right after it the gate is
      open on a row exactly when it is an approval that binds the row. */
  lemma NextVerdictDecides(t: TextTables, s: Sys, step: Step, id: string, view: Row)
    requires IsEnabled(t, s, step) && LogsVerdictFor(s, step, id)
    requires forall j :: 0 <= j < |s.world.log| && IsVerdict(s.world.log[j], id) ==> s.world.log[j].at < step.now
    ensures var log, log' := s.world.log, WorldAfter(t, s, step).log;
            |log'| == |log| + 1 &&
            (MayOpen(log', id, view, step.now)
             <==> Binds(log'[|log|], view.revision, CheckIds(view.content), view.content.specHash))
  {
    var log, log' := s.world.log, WorldAfter(t, s, step).log;
    assert log' == log + [log'[|log|]];
    assert IsLastVerdict(log', id, |log|);
    LastVerdictDecides(log', id, |log|, view, step.now);
  }

  // ----- which approvals carry the current revision -----

  predicate BumpsRevision(step: Step, id: string) {
    (step.Updates? || step.Patches?) && step.id == id
  }

  /** A lifecycle move or a patch of the contract between two points of a run. */
  ghost predicate IsBumpedBetween(steps: seq<Step>, i: nat, j: nat, id: string)
    requires j <= |steps|
  {
    exists m {:trigger steps[m]} :: i <= m < j && BumpsRevision(steps[m], id)
  }

  lemma StepBumps(t: TextTables, s: Sys, step: Step, id: string)
    requires IsEnabled(t, s, step) && id in s.world.contracts
    ensures id in WorldAfter(t, s, step).contracts
    ensures WorldAfter(t, s, step).contracts[id].revision
         == s.world.contracts[id].revision + if BumpsRevision(step, id) then 1 else 0
  {
  }

  lemma {:induction false} RevisionTellsBumps(t: TextTables, run: seq<Sys>, steps: seq<Step>, i: nat, j: nat,
                                              id: string)
    requires IsRun(t, run, steps) && i <= j < |run| && id in run[i].world.contracts
    ensures id in run[j].world.contracts && run[i].world.contracts[id].revision <= run[j].world.contracts[id].revision
    ensures run[i].world.contracts[id].revision == run[j].world.contracts[id].revision
            <==> !IsBumpedBetween(steps, i, j, id)
    decreases j - i
  {
    if i < j {
      RevisionTellsBumps(t, run, steps, i, j - 1, id);
      StepBumps(t, run[j - 1], steps[j - 1], id);
      assert run[j] == Next(t, run[j - 1], steps[j - 1]);
      assert BumpsRevision(steps[j - 1], id) ==> IsBumpedBetween(steps, i, j, id);
      if IsBumpedBetween(steps, i, j, id) {
        var m :| i <= m < j && BumpsRevision(steps[m], id);
        assert m < j - 1 ==> IsBumpedBetween(steps, i, j - 1, id);
      }
    }
  }

  lemma StampMoves(t: TextTables, s: Sys, step: Step, k: nat)
    requires IsEnabled(t, s, step) && k < |s.world.log| && s.world.log[k].body.PlanApproved?
    requires IsStamped(s.world, s.world.log[k])
    ensures var w, w' := s.world, WorldAfter(t, s, step);
            var id := w.log[k].contractId;
            k < |w'.log| && id in w'.contracts && w'.log[k].body == w.log[k].body && w'.log[k].contractId == id &&
            w'.log[k].revision == if BumpsRevision(step, id) then Some(w'.contracts[id].revision) else w.log[k].revision
  {
  }

  /** The stamp of an approval, from its writing at step `i` on. */
  lemma {:induction false} StampOverARun(t: TextTables, run: seq<Sys>, steps: seq<Step>, i: nat, j: nat, k: nat)
    requires IsRun(t, run, steps) && i <= j < |run|
    requires k < |run[i].world.log| && run[i].world.log[k].body.PlanApproved?
    ensures k < |run[j].world.log| && run[j].world.log[k].body.PlanApproved?
    ensures run[j].world.log[k].contractId == run[i].world.log[k].contractId
    ensures var id := run[i].world.log[k].contractId;
            id in run[j].world.contracts &&
            run[j].world.log[k].revision == if IsBumpedBetween(steps, i, j, id)
                                            then Some(run[j].world.contracts[id].revision)
                                            else run[i].world.log[k].revision
    decreases j - i
  {
    hide IsBacked;
    ApprovalsAreBacked(t, run, steps, i);
    assert IsStamped(run[i].world, run[i].world.log[k]);
    if i < j {
      var id := run[i].world.log[k].contractId;
      StampOverARun(t, run, steps, i, j - 1, k);
      ApprovalsAreBacked(t, run, steps, j - 1);
      StampMoves(t, run[j - 1], steps[j - 1], k);
      StepBumps(t, run[j - 1], steps[j - 1], id);
      assert run[j] == Next(t, run[j - 1], steps[j - 1]);
      assert BumpsRevision(steps[j - 1], id) ==> IsBumpedBetween(steps, i, j, id);
      if IsBumpedBetween(steps, i, j, id) && !BumpsRevision(steps[j - 1], id) {
        var m :| i <= m < j && BumpsRevision(steps[m], id);
        assert i <= m < j - 1;
      }
    }
  }

  /** Exactly when an approval carries the current revision: no move or patch of
      the contract came between the reading of its row (at `r`) and its writing
      (by step `i`), or one came after. */
  lemma StampIsCurrentExactly(t: TextTables, run: seq<Sys>, steps: seq<Step>, r: nat, i: nat, j: nat)
    requires IsRun(t, run, steps) && r <= i < j < |run| && (steps[i].LogsVerdict? || steps[i].LogsSignature?)
    requires var p := run[i].procs[steps[i].p];
             p.id in run[r].world.contracts && run[r].world.contracts[p.id] == p.seen
    requires run[i + 1].world.log[|run[i + 1].world.log| - 1].body.PlanApproved?
    ensures var id, k := run[i].procs[steps[i].p].id, |run[i].world.log|;
            k < |run[j].world.log| && id in run[j].world.contracts &&
            (run[j].world.log[k].revision == Some(run[j].world.contracts[id].revision)
             <==> !IsBumpedBetween(steps, r, i, id) || IsBumpedBetween(steps, i + 1, j, id))
  {
    var p, k := run[i].procs[steps[i].p], |run[i].world.log|;
    assert run[i + 1] == Next(t, run[i], steps[i]);
    var e := run[i + 1].world.log[k];
    assert |run[i + 1].world.log| == k + 1 && e.contractId == p.id && e.revision == Some(p.seen.revision);
    StampOverARun(t, run, steps, i + 1, j, k);
    RevisionTellsBumps(t, run, steps, r, i, p.id);
    StepBumps(t, run[i], steps[i], p.id);
    RevisionTellsBumps(t, run, steps, i + 1, j, p.id);
  }

  /** An approval for another revision opens nothing: neither by its stamp nor,
      if it bears none, by the revision in its payload. */
  lemma OtherRevisionShutsTheGate(log: seq<Event>, id: string, k: nat, view: Row, now: int)
    requires IsLastVerdict(log, id, k) && log[k].body.PlanApproved?
    ensures log[k].revision.Some? && log[k].revision.value != view.revision ==> !MayOpen(log, id, view, now)
    ensures log[k].revision.None? && log[k].body.payloadRevision != Some(view.revision) ==> !MayOpen(log, id, view, now)
    ensures log[k].revision == Some(view.revision) ==>
              (MayOpen(log, id, view, now) <==> StillHolds(log[k], view.content, now))
    ensures log[k].revision.None? && log[k].body.payloadRevision == Some(view.revision) ==>
              (MayOpen(log, id, view, now) <==> StillHolds(log[k], view.content, now))
  {
    LastVerdictDecides(log, id, k, view, now);
  }

  /** What an approval opens that was written at step `i` by a tool that had read
      the row at `r`, as long as it is the last verdict: the gate, exactly if no
      move or patch came between reading and writing, or one came after; and only
      while it is fresh and names the checks and the spec hash there are. */
  lemma ApprovalOpensExactly(t: TextTables, run: seq<Sys>, steps: seq<Step>, r: nat, i: nat, j: nat, now: int)
    requires IsRun(t, run, steps) && r <= i < j < |run| && (steps[i].LogsVerdict? || steps[i].LogsSignature?)
    requires var p := run[i].procs[steps[i].p];
             p.id in run[r].world.contracts && run[r].world.contracts[p.id] == p.seen
    requires run[i + 1].world.log[|run[i + 1].world.log| - 1].body.PlanApproved?
    requires IsLastVerdict(run[j].world.log, run[i].procs[steps[i].p].id, |run[i].world.log|)
    ensures var id, k, log := run[i].procs[steps[i].p].id, |run[i].world.log|, run[j].world.log;
            k < |log| && id in run[j].world.contracts &&
            (MayOpen(log, id, run[j].world.contracts[id], now) <==>
               (!IsBumpedBetween(steps, r, i, id) || IsBumpedBetween(steps, i + 1, j, id)) &&
               StillHolds(log[k], run[j].world.contracts[id].content, now))
  {
    var id, k := run[i].procs[steps[i].p].id, |run[i].world.log|;
    StampIsCurrentExactly(t, run, steps, r, i, j);
    assert run[i + 1] == Next(t, run[i], steps[i]);
    StampOverARun(t, run, steps, i + 1, j, k);
    ApprovalsAreBacked(t, run, steps, j);
    assert IsStamped(run[j].world, run[j].world.log[k]);
    OtherRevisionShutsTheGate(run[j].world.log, id, k, run[j].world.contracts[id], now);
  }

  /** A patch replaces checks and spec hash: right after it the gate is open on
      the contract exactly while the current approval is at most 86400 seconds old
      and names the new ones. */
  lemma PatchDecidesTheGate(t: TextTables, s: Sys, step: Step, k: nat, now: int)
    requires IsEnabled(t, s, step) && step.Patches? && IsCurrentApproval(s.world, step.id, k)
    ensures var w, b := WorldAfter(t, s, step), s.world.log[k].body;
            step.id in w.contracts &&
            (MayOpen(w.log, step.id, w.contracts[step.id], now) <==>
               s.world.log[k].at >= now - 86400 &&
               b.acceptedCheckIds == Some(CheckIdentifiers(step.checks)) && b.boundSpecHash == step.specHash)
  {
    ApprovalStaysCurrent(t, s, step, step.id, k);
    GateExactly(WorldAfter(t, s, step), step.id, k, now);
  }

  /** A new revision does not invalidate earlier approvals: after any lifecycle
      move or patch every approval of the contract carries the new revision, also
      one written by a tool that had read an older row. */
  lemma BumpRebindsApprovals(t: TextTables, run: seq<Sys>, steps: seq<Step>, i: nat, k: nat)
    requires IsRun(t, run, steps) && i < |steps| && (steps[i].Updates? || steps[i].Patches?)
    requires k < |run[i].world.log|
    requires run[i].world.log[k].contractId == steps[i].id && run[i].world.log[k].body.PlanApproved?
    ensures k < |run[i + 1].world.log| && steps[i].id in run[i + 1].world.contracts
    ensures run[i + 1].world.log[k].revision == Some(run[i + 1].world.contracts[steps[i].id].revision)
  {
    ApprovalsAreBacked(t, run, steps, i);
    assert IsStamped(run[i].world, run[i].world.log[k]);
    StepExtendsLog(t, run[i], steps[i]);
  }

  // ----- helpers and the audit trail -----

  /** A helper's write either does nothing at all, or moves the row along a legal
      transition out of no terminal state, keeps revision and content, and adds
      exactly the event that tells so. */
  lemma HelperWrites(t: TextTables, run: seq<Sys>, steps: seq<Step>, i: nat)
    requires IsRun(t, run, steps) && i < |steps| && steps[i].WritesMove?
    ensures var w, w' := run[i].world, run[i + 1].world;
            var p := run[i].procs[steps[i].p];
            w' == w ||
            (p.id in w.contracts && p.id in w'.contracts &&
             var a, b := w.contracts[p.id], w'.contracts[p.id];
             IsValidTransition(a.state, b.state) && !IsTerminal(a.state) &&
             a.revision == b.revision && a.content == b.content &&
             w'.contracts == w.contracts[p.id := b] && w'.grants == w.grants &&
             w'.log == w.log + [Event(p.id, steps[i].now, Some(a.revision), Moved(a.state, b.state, b.reason, p.via))])
  {
    MovesAlwaysApply(t, run, steps, i);
    assert run[i + 1] == Next(t, run[i], steps[i]);
  }

  /** The state a contract is in according to the log. */
  function StateOnRecord(log: seq<Event>, id: string): Option<ContractState> {
    if log == [] then None
    else
      var e := log[|log| - 1];
      if e.contractId == id && e.body.Created? then Some(e.body.state)
      else if e.contractId == id && e.body.Moved? then Some(e.body.to)
      else StateOnRecord(log[..|log| - 1], id)
  }

  /** Every recorded move starts where the record stood and is allowed. */
  ghost predicate IsConsistent(log: seq<Event>) {
    forall k :: 0 <= k < |log| && log[k].body.Moved? ==>
      StateOnRecord(log[..k], log[k].contractId) == Some(log[k].body.from) && MayMove(log[k].body.from, log[k].body.to)
  }

  lemma {:induction false} StampsDoNotMatter(a: seq<Event>, b: seq<Event>, id: string)
    requires |a| == |b| && Extends(a, b)
    ensures StateOnRecord(a, id) == StateOnRecord(b, id)
    decreases |a|
  {
    if a != [] {
      StampsDoNotMatter(a[..|a| - 1], b[..|b| - 1], id);
    }
  }

  lemma RecordAppend(log: seq<Event>, e: Event, id: string)
    ensures StateOnRecord(log + [e], id)
         == if e.contractId == id && e.body.Created? then Some(e.body.state)
            else if e.contractId == id && e.body.Moved? then Some(e.body.to)
            else StateOnRecord(log, id)
  {
    assert (log + [e])[..|log|] == log;
  }

  /** The log replays to the row, however the writers interleave. */
  ghost predicate IsReplayed(w: World) {
    IsConsistent(w.log) &&
    forall id: string :: StateOnRecord(w.log, id) == if id in w.contracts then Some(w.contracts[id].state) else None
  }

  lemma StepReplays(t: TextTables, s: Sys, step: Step)
    requires IsEnabled(t, s, step) && IsReplayed(s.world) && MovesApply(s)
    ensures IsReplayed(WorldAfter(t, s, step))
  {
    var w, w' := s.world, WorldAfter(t, s, step);
    StepExtendsLog(t, s, step);
    var kept := w'.log[..|w.log|];
    forall id: string
      ensures StateOnRecord(w'.log, id) == if id in w'.contracts then Some(w'.contracts[id].state) else None
    {
      StampsDoNotMatter(kept, w.log, id);
      if |w'.log| > |w.log| {
        RecordAppend(kept, w'.log[|w.log|], id);
        assert w'.log == kept + [w'.log[|w.log|]];
        NewEventTellsTheChange(t, s, step, id);
      } else {
        assert w'.log == kept;
        QuietStepsKeepStates(t, s, step, id);
      }
    }
    forall k | 0 <= k < |w'.log| && w'.log[k].body.Moved?
      ensures StateOnRecord(w'.log[..k], w'.log[k].contractId) == Some(w'.log[k].body.from)
      ensures MayMove(w'.log[k].body.from, w'.log[k].body.to)
    {
      StampsDoNotMatter(w'.log[..k], w.log[..k], w'.log[k].contractId);
      assert k == |w.log| ==> w.log[..k] == w.log;
      NewMoveIsLegal(t, s, step);
    }
  }

  lemma NewMoveIsLegal(t: TextTables, s: Sys, step: Step)
    requires IsEnabled(t, s, step) && MovesApply(s)
    ensures var w, w' := s.world, WorldAfter(t, s, step);
            |w'.log| > |w.log| && w'.log[|w.log|].body.Moved? ==>
              var e := w'.log[|w.log|];
              e.contractId in w.contracts && w.contracts[e.contractId].state == e.body.from &&
              MayMove(e.body.from, e.body.to)
  {
  }

  lemma NewEventTellsTheChange(t: TextTables, s: Sys, step: Step, id: string)
    requires IsEnabled(t, s, step) && |WorldAfter(t, s, step).log| > |s.world.log|
    ensures var w, w' := s.world, WorldAfter(t, s, step);
            var e := w'.log[|w.log|];
            if e.contractId == id && e.body.Created? then id in w'.contracts && w'.contracts[id].state == e.body.state
            else if e.contractId == id && e.body.Moved? then id in w'.contracts && w'.contracts[id].state == e.body.to
            else
              (id in w.contracts <==> id in w'.contracts) &&
              (id in w.contracts ==> w.contracts[id].state == w'.contracts[id].state)
  {
  }

  lemma QuietStepsKeepStates(t: TextTables, s: Sys, step: Step, id: string)
    requires IsEnabled(t, s, step) && |WorldAfter(t, s, step).log| == |s.world.log|
    ensures var w, w' := s.world, WorldAfter(t, s, step);
            (id in w.contracts <==> id in w'.contracts) &&
            (id in w.contracts ==> w.contracts[id].state == w'.contracts[id].state)
  {
  }

  lemma {:induction false} EveryRunReplays(t: TextTables, run: seq<Sys>, steps: seq<Step>, i: nat)
    requires IsRun(t, run, steps) && i < |run|
    ensures IsReplayed(run[i].world)
  {
    if i > 0 {
      EveryRunReplays(t, run, steps, i - 1);
      MovesAlwaysApply(t, run, steps, i - 1);
      StepReplays(t, run[i - 1], steps[i - 1]);
    }
  }

  // ----- stale reads -----

  predicate IsCapacityBlock(e: Event, id: string) {
    e.contractId == id && e.body.Moved? && e.body.via == CapacityBlock
  }

  /** A capacity block of the contract was logged after the first `from` events. */
  ghost predicate RanOutSince(log: seq<Event>, from: nat, id: string) {
    exists m {:trigger log[m]} :: from <= m < |log| && IsCapacityBlock(log[m], id)
  }

  /** Within a revision a step keeps the block, ends it, or logs a new one. */
  lemma StepOfBlock(t: TextTables, s: Sys, step: Step, id: string)
    requires IsEnabled(t, s, step) && MovesApply(s) && id in s.world.contracts
    ensures var w, w' := s.world, WorldAfter(t, s, step);
            id in w'.contracts &&
            var a, b := w.contracts[id], w'.contracts[id];
            var blocks := |w'.log| > |w.log| && IsCapacityBlock(w'.log[|w.log|], id);
            a.revision == b.revision ==>
              (if blocks then a.state.Active? && b.state.Blocked? && b.reason == Some(CapacityFull)
               else (a.state == b.state && a.reason == b.reason) || (a.state.Blocked? && b.state.Active?))
  {
  }

  lemma RanOutStep(later: seq<Event>, earlier: seq<Event>, from: nat, id: string)
    requires Extends(later, earlier) && |later| <= |earlier| + 1 && from <= |earlier|
    ensures RanOutSince(later, from, id)
       <==> RanOutSince(earlier, from, id) || (|later| > |earlier| && IsCapacityBlock(later[|earlier|], id))
  {
    forall m | 0 <= m < |earlier|
      ensures IsCapacityBlock(later[m], id) <==> IsCapacityBlock(earlier[m], id)
    {
    }
    if RanOutSince(earlier, from, id) {
      var m :| from <= m < |earlier| && IsCapacityBlock(earlier[m], id);
      assert IsCapacityBlock(later[m], id);
    }
    if RanOutSince(later, from, id) {
      var m :| from <= m < |later| && IsCapacityBlock(later[m], id);
      assert m < |earlier| ==> IsCapacityBlock(earlier[m], id);
    }
  }

  /** What has become of a block since it was read, at the same revision. */
  lemma {:induction false} BlockSince(t: TextTables, run: seq<Sys>, steps: seq<Step>, j: nat, i: nat, id: string)
    requires IsRun(t, run, steps) && j <= i < |run| && id in run[j].world.contracts
    requires run[j].world.contracts[id].state.Blocked?
    ensures id in run[i].world.contracts && |run[j].world.log| <= |run[i].world.log|
    ensures var a, b := run[j].world.contracts[id], run[i].world.contracts[id];
            a.revision == b.revision && b.state.Blocked? ==>
              b.reason == if RanOutSince(run[i].world.log, |run[j].world.log|, id) then Some(CapacityFull) else a.reason
    ensures run[i].world.contracts[id].revision == run[j].world.contracts[id].revision ==>
              run[i].world.contracts[id].state in {Active, Blocked}
    decreases i - j
  {
    if j < i {
      BlockSince(t, run, steps, j, i - 1, id);
      RowsOverARun(t, run, steps, j, i - 1, id);
      RowsOverARun(t, run, steps, i - 1, i, id);
      MovesAlwaysApply(t, run, steps, i - 1);
      StepOfBlock(t, run[i - 1], steps[i - 1], id);
      StepExtendsLog(t, run[i - 1], steps[i - 1]);
      RanOutStep(run[i].world.log, run[i - 1].world.log, |run[j].world.log|, id);
    }
  }

  /** The guard of a wake does not name the block reason.  A capacity wake still
      only ever ends a capacity block; a plan wake ends the block it has read
      exactly when no capacity block of the contract was logged since.  `j` may
      be the point of its read, or any point where the row was as read. */
  lemma WhatAWakeEnds(t: TextTables, run: seq<Sys>, steps: seq<Step>, j: nat, i: nat)
    requires IsRun(t, run, steps) && j <= i < |steps| && steps[i].WritesMove?
    requires run[i].procs[steps[i].p].via in {PlanWake, CapacityWake} && run[i + 1].world != run[i].world
    requires var p := run[i].procs[steps[i].p];
             p.id in run[j].world.contracts && run[j].world.contracts[p.id] == p.seen
    ensures var p := run[i].procs[steps[i].p];
            p.id in run[i].world.contracts &&
            var reason := run[i].world.contracts[p.id].reason;
            (p.via == CapacityWake ==> reason == Some(CapacityFull)) &&
            (p.via == PlanWake ==>
               (reason == p.seen.reason <==> !RanOutSince(run[i].world.log, |run[j].world.log|, p.id)))
  {
    var p := run[i].procs[steps[i].p];
    MovesAlwaysApply(t, run, steps, i);
    assert run[i + 1] == Next(t, run[i], steps[i]);
    BlockSince(t, run, steps, j, i, p.id);
  }

  /** Such a point there always is. */
  lemma WakesHaveRead(t: TextTables, run: seq<Sys>, steps: seq<Step>, i: nat) returns (j: nat)
    requires IsRun(t, run, steps) && i < |steps| && steps[i].WritesMove?
    ensures j <= i
    ensures var p := run[i].procs[steps[i].p];
            p.id in run[j].world.contracts && run[j].world.contracts[p.id] == p.seen
  {
    var p := run[i].procs[steps[i].p];
    ProcsAreSound(t, run, steps, i);
    assert ProcIsSound(t, run, i, p);
    j :| 0 <= j <= i && p.id in run[j].world.contracts && run[j].world.contracts[p.id] == p.seen;
  }

  // ----- what stale reads can do -----

  ghost predicate IsReachable(t: TextTables, s: Sys) {
    exists run, steps :: IsRun(t, run, steps) && run[|run| - 1] == s
  }

  lemma StartIsReachable(t: TextTables)
    ensures IsReachable(t, START)
  {
    assert IsRun(t, [START], []);
  }

  lemma StepIsReachable(t: TextTables, s: Sys, step: Step)
    requires IsReachable(t, s) && IsEnabled(t, s, step)
    ensures IsReachable(t, Next(t, s, step))
  {
    var run, steps :| IsRun(t, run, steps) && run[|run| - 1] == s;
    var run', steps' := run + [Next(t, s, step)], steps + [step];
    assert IsRun(t, run', steps') && run'[|run'| - 1] == Next(t, s, step);
  }

  /** One contract, its row, and the work in flight. */
  ghost predicate IsAt(t: TextTables, s: Sys, id: string, row: Row, procs: map<nat, Proc>) {
    IsReachable(t, s) && s.world.contracts == map[id := row] && s.procs == procs
  }

  lemma ReachCreated(t: TextTables, id: string, content: Content, now: int) returns (s: Sys)
    ensures IsAt(t, s, id, Row(Drafted, None, 1, None, content), map[])
    ensures s == Next(t, START, Creates(id, content, now))
  {
    StartIsReachable(t);
    StepIsReachable(t, START, Creates(id, content, now));
    s := Next(t, START, Creates(id, content, now));
  }

  lemma TakeStep(t: TextTables, s: Sys, step: Step, id: string, row: Row, procs: map<nat, Proc>) returns (s': Sys)
    requires IsReachable(t, s) && IsEnabled(t, s, step)
    requires WorldAfter(t, s, step).contracts == map[id := row] && ProcsAfter(t, s, step) == procs
    ensures IsAt(t, s', id, row, procs) && s' == Next(t, s, step)
  {
    StepIsReachable(t, s, step);
    s' := Next(t, s, step);
  }

  lemma ReachBlocked(t: TextTables, id: string, content: Content, now: int) returns (s: Sys)
    ensures IsAt(t, s, id, Row(Blocked, Some(NoExecutor), 3, None, content), map[])
  {
    s := ReachCreated(t, id, content, now);
    s := TakeStep(t, s, Updates(id, Active, None, None, now), id, Row(Active, None, 2, None, content), map[]);
    s := TakeStep(t, s, Updates(id, Blocked, Some(NoExecutor), None, now), id,
                  Row(Blocked, Some(NoExecutor), 3, None, content), map[]);
  }

  lemma ReachTwoWakes(t: TextTables, id: string, content: Content, now: int) returns (s: Sys)
    ensures var blocked := Row(Blocked, Some(NoExecutor), 3, None, content);
            IsAt(t, s, id, blocked, map[0 := Moving(id, blocked, PlanWake), 1 := Moving(id, blocked, PlanWake)])
  {
    var blocked := Row(Blocked, Some(NoExecutor), 3, None, content);
    s := ReachBlocked(t, id, content, now);
    s := TakeStep(t, s, ReadsForMove(0, id, PlanWake), id, blocked, map[0 := Moving(id, blocked, PlanWake)]);
    s := TakeStep(t, s, ReadsForMove(1, id, PlanWake), id, blocked,
                  map[0 := Moving(id, blocked, PlanWake), 1 := Moving(id, blocked, PlanWake)]);
  }

  /** A plan wake can end a block that is not the one it has read: two wakes read
      the same block, the first goes through, the contract blocks again for want
      of capacity at the same revision, and the second wake ends that block. */
  lemma StaleWake(t: TextTables, id: string, content: Content, now: int) returns (s: Sys)
    ensures IsReachable(t, s) && IsEnabled(t, s, WritesMove(0, now)) && id in s.world.contracts
    ensures s.procs[0].id == id && s.procs[0].via == PlanWake && s.procs[0].seen.reason == Some(NoExecutor)
    ensures s.world.contracts[id].reason == Some(CapacityFull)
    ensures Next(t, s, WritesMove(0, now)).world.contracts[id].state == Active
  {
    s := ReachBlockedAgain(t, id, content, now);
  }

  lemma ReachBlockedAgain(t: TextTables, id: string, content: Content, now: int) returns (s: Sys)
    ensures IsAt(t, s, id, Row(Blocked, Some(CapacityFull), 3, None, content),
                 map[0 := Moving(id, Row(Blocked, Some(NoExecutor), 3, None, content), PlanWake)])
  {
    var first := Moving(id, Row(Blocked, Some(NoExecutor), 3, None, content), PlanWake);
    var active := Row(Active, None, 3, Some(now), content);
    s := ReachTwoWakes(t, id, content, now);
    s := TakeStep(t, s, WritesMove(1, now), id, active, map[0 := first]);
    s := TakeStep(t, s, ReadsForMove(2, id, CapacityBlock), id, active,
                  map[0 := first, 2 := Moving(id, active, CapacityBlock)]);
    s := TakeStep(t, s, WritesMove(2, now), id, Row(Blocked, Some(CapacityFull), 3, None, content), map[0 := first]);
  }

  ghost predicate HasNoVerdict(log: seq<Event>) {
    forall i :: 0 <= i < |log| ==> !log[i].body.PlanApproved? && !log[i].body.PlanRejected?
  }

  lemma ReachSubmitting(t: TextTables, id: string, content: Content, plan: seq<PlanStep>, now: int) returns (s: Sys)
    requires plan != []
    ensures var row := Row(Drafted, None, 1, None, content);
            IsAt(t, s, id, row, map[0 := Dispatching(id, row), 1 := Submitting(id, row, plan)])
    ensures HasNoVerdict(s.world.log) && s.world.grants == map[]
  {
    var row := Row(Drafted, None, 1, None, content);
    s := ReachCreated(t, id, content, now);
    s := TakeStep(t, s, ReadsForDispatch(0, id), id, row, map[0 := Dispatching(id, row)]);
    s := TakeStep(t, s, ReadsForSubmit(1, id, plan), id, row,
                  map[0 := Dispatching(id, row), 1 := Submitting(id, row, plan)]);
  }

  lemma InScopeIsApproved(t: TextTables, row: Row, plan: seq<PlanStep>)
    requires IsApprovable(t, plan, row.content.objective, CheckIds(row.content))
    requires InScope(row.content.autoApprove, plan)
    ensures plan != [] && Judge(t, row, plan) == PlanValidation(true, [], false)
  {
    ApprovalMeans(t, plan, row.content.objective, CheckIds(row.content), row.content.autoApprove);
  }

  lemma ReachAudited(t: TextTables, id: string, content: Content, plan: seq<PlanStep>, now: int) returns (s: Sys)
    requires IsApprovable(t, plan, content.objective, CheckIds(content)) && InScope(content.autoApprove, plan)
    ensures var row := Row(Drafted, None, 1, None, content);
            IsAt(t, s, id, row,
                 map[0 := Dispatching(id, row), 1 := Audited(id, row, plan, PlanValidation(true, [], false), Server)])
    ensures HasNoVerdict(s.world.log)
  {
    hide Judge, IsApprovable, InScope, GrantCovers, CheckIds, MayOpen;
    var row := Row(Drafted, None, 1, None, content);
    var v := PlanValidation(true, [], false);
    InScopeIsApproved(t, row, plan);
    s := ReachSubmitting(t, id, content, plan, now);
    s := TakeStep(t, s, LooksAtGoal(1), id, row, map[0 := Dispatching(id, row), 1 := Judged(id, row, plan, v, Server)]);
    s := TakeStep(t, s, LogsSubmission(1, "agent:mcp", now), id, row,
                  map[0 := Dispatching(id, row), 1 := Audited(id, row, plan, v, Server)]);
  }

  /** A dispatcher that holds an old row can find the gate open although the plan
      misses a check the contract has by now: tool and dispatcher read the row,
      the checks are edited, and only then is the approval logged. */
  lemma StaleViewFindsGateOpen(t: TextTables, id: string, content: Content, plan: seq<PlanStep>,
                               checks: seq<Fingerprint.Check>, missed: string, now: int) returns (s: Sys)
    requires IsApprovable(t, plan, content.objective, CheckIds(content)) && InScope(content.autoApprove, plan)
    requires missed in CheckIdentifiers(checks) && !IsNamedBy(t, plan, missed)
    ensures IsReachable(t, s) && 0 in s.procs && s.procs[0].Dispatching? && s.procs[0].id == id
    ensures id in s.world.contracts && missed in CheckIds(s.world.contracts[id].content)
    ensures MayOpen(s.world.log, id, s.procs[0].seen, now) && MustOpen(s.world.log, id, s.procs[0].seen, now)
    ensures forall i :: 0 <= i < |s.world.log| && s.world.log[i].body.PlanApproved? ==> s.world.log[i].body.plan == plan
  {
    var row := Row(Drafted, None, 1, None, content);
    var v := PlanValidation(true, [], false);
    var patched := Row(Drafted, None, 2, None, content.(checks := checks));
    s := ReachAudited(t, id, content, plan, now);
    var before := s.world.log;
    s := TakeStep(t, s, Patches(id, checks, content.specHash, now), id, patched,
                  map[0 := Dispatching(id, row), 1 := Audited(id, row, plan, v, Server)]);
    var quiet := s.world.log;
    assert HasNoVerdict(quiet);
    s := TakeStep(t, s, LogsVerdict(1, now), id, patched, map[0 := Dispatching(id, row)]);
    OnlyVerdictDecides(quiet, Verdict(id, row, plan, v, Server, now), id, row, now);
  }

  lemma OnlyVerdictDecides(log: seq<Event>, e: Event, id: string, view: Row, now: int)
    requires forall i :: 0 <= i < |log| ==> !IsVerdict(log[i], id)
    requires IsVerdict(e, id) && e.at == now && Binds(e, view.revision, CheckIds(view.content), view.content.specHash)
    ensures MayOpen(log + [e], id, view, now) && MustOpen(log + [e], id, view, now)
  {
    assert IsLatestVerdict(log + [e], id, now, |log|);
  }
}
