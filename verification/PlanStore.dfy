/**
 * The helpers and tools of the plan gate, as they run against the database.
 *
 * Each method is proved to do exactly what the transactions of PlanProtocol say,
 * one after the other; what happens when other writers come in between is the
 * subject of PlanRuns.
 */
module PlanStore {
  import opened Prelude
  import opened StateMachine
  import opened PlanHash
  import opened Plan
  import opened PlanProtocol
  import Fingerprint

  datatype ToolError = StepsRequired | UnknownContract | AuthFailed

  datatype StoreError = NotFound | RevisionConflict | IllegalTransition

  datatype Signoff = SignedOff | NotSigned(reasons: seq<Reason>)

  class Store {
    const t: TextTables
    var contracts: map<string, Row>
    var log: seq<Event>
    var grants: map<string, Grant>

    constructor (t: TextTables)
      ensures this.t == t && Abs() == World(map[], [], map[])
    {
      this.t := t;
      contracts, log, grants := map[], [], map[];
    }

    function Abs(): World
      reads this
    {
      World(contracts, log, grants)
    }

    method GetContract(id: string) returns (view: Option<Row>)
      ensures view == if id in contracts then Some(contracts[id]) else None
    {
      view := if id in contracts then Some(contracts[id]) else None;
    }

    /** The guarded update shared by the bookkeeping helpers. */
    method WriteIfUnchanged(id: string, seen: Row, to: ContractState, reason: Option<BlockReason>,
                            next: Option<int>, via: Via, now: int) returns (changed: bool)
      modifies this
      ensures Abs() == CompareAndSet(old(Abs()), id, seen, to, reason, next, via, now)
      ensures changed <==>
                id in old(contracts) && old(contracts)[id].state == seen.state &&
                old(contracts)[id].revision == seen.revision
      ensures changed ==> log == old(log) + [Event(id, now, Some(seen.revision), Moved(seen.state, to, reason, via))]
      ensures !changed ==> Abs() == old(Abs())
    {
      if id !in contracts || contracts[id].state != seen.state || contracts[id].revision != seen.revision {
        return false;
      }
      contracts := contracts[id := contracts[id].(state := to, reason := reason, nextDecisionAt := next)];
      log := log + [Event(id, now, Some(seen.revision), Moved(seen.state, to, reason, via))];
      return true;
    }

    method WakeBlockedAfterPlanApproval(id: string, now: int) returns (woken: bool)
      modifies this
      ensures woken <==> id in old(contracts) && old(contracts)[id].state == Blocked &&
                         old(contracts)[id].reason == Some(NoExecutor)
      ensures woken <==> id in old(contracts) && Applies(PlanWake, old(contracts)[id])
      ensures Abs() == if woken then Commit(old(Abs()), id, old(contracts)[id], PlanWake, now) else old(Abs())
      ensures woken ==> contracts[id].state == Active && contracts[id].nextDecisionAt == Some(now)
    {
      var view := GetContract(id);
      if view.None? {
        return false;
      }
      if view.value.state != Blocked {
        return false;
      }
      if view.value.reason != Some(NoExecutor) {
        return false;
      }
      woken := WriteIfUnchanged(id, view.value, Active, None, Some(now), PlanWake, now);
    }

    method MarkBlockedCapacityFull(id: string, now: int) returns (blocked: bool)
      modifies this
      ensures blocked <==> id in old(contracts) && old(contracts)[id].state == Active
      ensures blocked <==> id in old(contracts) && Applies(CapacityBlock, old(contracts)[id])
      ensures Abs() == if blocked then Commit(old(Abs()), id, old(contracts)[id], CapacityBlock, now) else old(Abs())
      ensures blocked ==> contracts[id].reason == Some(CapacityFull) && contracts[id].nextDecisionAt == None
    {
      var view := GetContract(id);
      if view.None? {
        return false;
      }
      if view.value.state != Active {
        return false;
      }
      blocked := WriteIfUnchanged(id, view.value, Blocked, Some(CapacityFull), None, CapacityBlock, now);
    }

    /** `hasCapacity` is what the registry or the running counts answer. */
    method WakeBlockedCapacityFull(id: string, now: int, hasCapacity: bool) returns (woken: bool)
      modifies this
      ensures woken <==> hasCapacity && id in old(contracts) && old(contracts)[id].state == Blocked &&
                         old(contracts)[id].reason == Some(CapacityFull)
      ensures woken <==> hasCapacity && id in old(contracts) && Applies(CapacityWake, old(contracts)[id])
      ensures Abs() == if woken then Commit(old(Abs()), id, old(contracts)[id], CapacityWake, now) else old(Abs())
      ensures woken ==> contracts[id].state == Active && contracts[id].nextDecisionAt == Some(now)
    {
      var view := GetContract(id);
      if view.None? {
        return false;
      }
      if view.value.state != Blocked {
        return false;
      }
      if view.value.reason != Some(CapacityFull) {
        return false;
      }
      if !hasCapacity {
        return false;
      }
      woken := WriteIfUnchanged(id, view.value, Active, None, Some(now), CapacityWake, now);
    }

    /** The row a database returns for ORDER BY created_at DESC LIMIT 1: some
        verdict no other is later than. */
    method LatestVerdict(id: string, now: int) returns (found: Option<Event>)
      ensures found.None? <==> !exists i :: IsLatestVerdict(log, id, now, i)
      ensures found.Some? ==> exists i :: IsLatestVerdict(log, id, now, i) && log[i] == found.value
    {
      var best := -1;
      for i := 0 to |log|
        invariant -1 <= best < i
        invariant best == -1 ==> forall j :: 0 <= j < i ==>
                  !(IsVerdict(log[j], id) && log[j].at >= now - PLAN_GATE_LOOKBACK_SECONDS)
        invariant best >= 0 ==> IsVerdict(log[best], id) && log[best].at >= now - PLAN_GATE_LOOKBACK_SECONDS &&
                                forall j :: 0 <= j < i && IsVerdict(log[j], id) ==> log[j].at <= log[best].at
      {
        if IsVerdict(log[i], id) && log[i].at >= now - PLAN_GATE_LOOKBACK_SECONDS {
          if best < 0 || log[best].at < log[i].at {
            best := i;
          } else if log[best].at == log[i].at {
            best := *; // equally late: the order is not specified
            if best != i {
              best :| 0 <= best < i && IsVerdict(log[best], id) && log[best].at == log[i].at;
            }
          }
        }
      }
      if best < 0 {
        return None;
      }
      assert IsLatestVerdict(log, id, now, best);
      return Some(log[best]);
    }

    method HasRecentPlanApproval(id: string, revision: nat, ids: seq<string>, specHash: Option<string>, now: int)
      returns (open: bool)
      ensures open ==> exists i :: IsLatestVerdict(log, id, now, i) && Binds(log[i], revision, ids, specHash)
      ensures !open ==> (forall i :: !IsLatestVerdict(log, id, now, i)) ||
                        exists i :: IsLatestVerdict(log, id, now, i) && !Binds(log[i], revision, ids, specHash)
    {
      var found := LatestVerdict(id, now);
      if found.None? {
        return false;
      }
      var e := found.value;
      if !e.body.PlanApproved? {
        return false;
      }
      if e.revision.Some? {
        if e.revision.value != revision {
          return false;
        }
      } else if e.body.payloadRevision != Some(revision) {
        return false;
      }
      if e.body.acceptedCheckIds.None? {
        return false;
      }
      if e.body.acceptedCheckIds.value != ids {
        return false;
      }
      if specHash.Some? && e.body.boundSpecHash != specHash {
        return false;
      }
      return !(specHash.None? && e.body.boundSpecHash.Some?);
    }

    /** The gate in front of a dispatch.  The view was read earlier; a refusal is
        put on record. */
    method PassesPlanGate(id: string, view: Row, now: int) returns (open: bool)
      modifies this
      ensures !view.content.gated ==> open
      ensures view.content.gated && open ==> MayOpen(old(log), id, view, now)
      ensures view.content.gated && !open ==> !MustOpen(old(log), id, view, now)
      ensures Abs() ==
                if open then old(Abs()) else Append(old(Abs()), Event(id, now, Some(view.revision), DispatchRefused))
    {
      if !view.content.gated {
        return true;
      }
      open := HasRecentPlanApproval(id, view.revision, CheckIdentifiers(view.content.checks), view.content.specHash,
                                    now);
      if !open {
        log := log + [Event(id, now, Some(view.revision), DispatchRefused)];
      }
    }

    /** `expected` is the revision the caller has seen, if it cares. */
    method UpdateContractState(id: string, to: ContractState, expected: Option<nat>, reason: Option<BlockReason>,
                               next: Option<int>, now: int) returns (r: Result<Row, StoreError>)
      modifies this
      ensures id !in old(contracts) ==> r == Err(NotFound)
      ensures id in old(contracts) && expected.Some? && expected.value != old(contracts)[id].revision ==>
                r == Err(RevisionConflict)
      ensures id in old(contracts) && (expected.Some? ==> expected.value == old(contracts)[id].revision) ==>
                if MayMove(old(contracts)[id].state, to)
                then Abs() == UpdateState(old(Abs()), id, to, reason, next, now) && r == Ok(contracts[id])
                else r == Err(IllegalTransition)
      ensures r.Err? ==> Abs() == old(Abs())
      ensures r.Ok? ==> var was := old(contracts)[id];
                        r.value.state == to && r.value.reason == reason && r.value.revision == was.revision + 1 &&
                        r.value.nextDecisionAt == (if next.None? then was.nextDecisionAt else next) &&
                        r.value.content == was.content && |log| == |old(log)| + 1 &&
                        log[|old(log)|] == Event(id, now, Some(was.revision + 1),
                                                 Moved(was.state, to, reason, Lifecycle))
    {
      if id !in contracts {
        return Err(NotFound);
      }
      var row := contracts[id];
      if expected.Some? && row.revision != expected.value {
        return Err(RevisionConflict);
      }
      if !MayMove(row.state, to) {
        return Err(IllegalTransition);
      }
      var revision := row.revision + 1;
      var decision := if next.Some? then next else row.nextDecisionAt;
      contracts := contracts[id := row.(state := to, reason := reason, revision := revision,
                                        nextDecisionAt := decision)];
      log := Restamp(log, id, revision);
      log := log + [Event(id, now, Some(revision), Moved(row.state, to, reason, Lifecycle))];
      return Ok(contracts[id]);
    }

    method PatchContract(id: string, expected: nat, checks: seq<Fingerprint.Check>, specHash: Option<string>, now: int)
      returns (r: Result<Row, StoreError>)
      modifies this
      ensures id !in old(contracts) ==> r == Err(NotFound)
      ensures id in old(contracts) && old(contracts)[id].revision != expected ==> r == Err(RevisionConflict)
      ensures id in old(contracts) && old(contracts)[id].revision == expected ==>
                Abs() == Patch(old(Abs()), id, checks, specHash, now) && r == Ok(contracts[id])
      ensures r.Err? ==> Abs() == old(Abs())
      ensures r.Ok? ==> r.value.content.checks == checks && r.value.content.specHash == specHash &&
                        r.value.revision == expected + 1 && |log| == |old(log)| + 1 &&
                        log[|old(log)|] == Event(id, now, Some(expected + 1), Patched)
    {
      if id !in contracts {
        return Err(NotFound);
      }
      var row := contracts[id];
      if row.revision != expected {
        return Err(RevisionConflict);
      }
      var revision := row.revision + 1;
      var content := row.content.(checks := checks, specHash := specHash);
      contracts := contracts[id := row.(revision := revision, content := content)];
      log := log + [Event(id, now, Some(revision), Patched)];
      log := Restamp(log, id, revision);
      return Ok(contracts[id]);
    }

    /** Submit a plan: always audited, then approved, or rejected with reasons or
        for want of a signature; an approval wakes the contract. */
    method SubmitPlan(id: string, steps: seq<PlanStep>, submittedBy: string, now: int)
      returns (r: Result<PlanValidation, ToolError>)
      modifies this
      ensures steps == [] ==> r == Err(StepsRequired)
      ensures steps != [] && id !in old(contracts) ==> r == Err(UnknownContract)
      ensures r.Err? ==> Abs() == old(Abs())
      ensures steps != [] && id in old(contracts) ==>
                var seen := old(contracts)[id];
                var v := WithGrant(Judge(t, seen, steps), old(Abs()), seen.content.goalId, steps);
                var audited := Append(old(Abs()), Event(id, now, None, PlanSubmitted(submittedBy)));
                var judged := Append(audited, Verdict(id, seen, steps, v, Server, now));
                r == Ok(v) &&
                Abs() == if v.approved && !v.requiresSignoff && Applies(PlanWake, seen)
                         then Commit(judged, id, seen, PlanWake, now) else judged
    {
      hide Commit, CompareAndSet;
      if steps == [] {
        return Err(StepsRequired);
      }
      var view := GetContract(id);
      if view.None? {
        return Err(UnknownContract);
      }
      var seen := view.value;
      var v := Validate(t, steps, seen.content.objective, seen.content.checks, seen.content.autoApprove);
      if seen.content.goalId != "" && v.approved && v.requiresSignoff {
        if seen.content.goalId in grants {
          var grant := grants[seen.content.goalId];
          if grant.enabled {
            var granted := set a | a in grant.actions && a != "";
            if granted != {} && forall i :: 0 <= i < |steps| ==> steps[i].action in granted {
              v := v.(requiresSignoff := false);
            }
            GrantedSet(grant, granted);
          }
        }
      }
      log := log + [Event(id, now, None, PlanSubmitted(submittedBy))];
      if v.approved && !v.requiresSignoff {
        log := log + [Event(id, now, Some(seen.revision),
                            PlanApproved(steps, Some(seen.revision), Some(CheckIdentifiers(seen.content.checks)),
                                         seen.content.specHash, true, "daemon", Server))];
        var woken := WakeBlockedAfterPlanApproval(id, now);
      } else {
        log := log + [Event(id, now, None, PlanRejected(v.reasons, v.requiresSignoff))];
      }
      return Ok(v);
    }

    /** Sign a plan.  `principal` is the caller as the server has resolved it. */
    method PlanSignoff(id: string, steps: seq<PlanStep>, principal: Option<string>, now: int)
      returns (r: Result<Signoff, ToolError>)
      modifies this
      ensures principal != Some("user") ==> r == Err(AuthFailed)
      ensures principal == Some("user") && steps == [] ==> r == Err(StepsRequired)
      ensures principal == Some("user") && steps != [] && id !in old(contracts) ==> r == Err(UnknownContract)
      ensures !(r.Ok? && r.value.SignedOff?) ==> Abs() == old(Abs())
      ensures principal == Some("user") && steps != [] && id in old(contracts) ==>
                var seen := old(contracts)[id];
                var v := Judge(t, seen, steps);
                var signed := Append(old(Abs()), Signature(id, seen, steps, "user", Server, now));
                r == (if v.approved then Ok(SignedOff) else Ok(NotSigned(v.reasons))) &&
                (v.approved ==>
                   Abs() == if Applies(PlanWake, seen) then Commit(signed, id, seen, PlanWake, now) else signed)
    {
      if principal != Some("user") {
        return Err(AuthFailed);
      }
      if steps == [] {
        return Err(StepsRequired);
      }
      var view := GetContract(id);
      if view.None? {
        return Err(UnknownContract);
      }
      var seen := view.value;
      var v := Validate(t, steps, seen.content.objective, seen.content.checks, seen.content.autoApprove);
      if !v.approved {
        return Ok(NotSigned(v.reasons));
      }
      log := log + [Event(id, now, Some(seen.revision),
                          PlanApproved(steps, Some(seen.revision), Some(CheckIdentifiers(seen.content.checks)),
                                       seen.content.specHash, false, "user", Server))];
      var woken := WakeBlockedAfterPlanApproval(id, now);
      return Ok(SignedOff);
    }

    /** The command-line form: no goal is looked at, an empty list of steps is
        judged like any other, and an approval does not carry the spec hash. */
    method SubmitAtCommandLine(id: string, steps: seq<PlanStep>, submittedBy: string, now: int)
      returns (r: Result<PlanValidation, ToolError>)
      modifies this
      ensures id !in old(contracts) ==> r == Err(UnknownContract) && Abs() == old(Abs())
      ensures id in old(contracts) ==>
                var seen := old(contracts)[id];
                var v := Judge(t, seen, steps);
                var audited := Append(old(Abs()), Event(id, now, None, PlanSubmitted(submittedBy)));
                var judged := Append(audited, Verdict(id, seen, steps, v, CommandLine, now));
                r == Ok(v) &&
                Abs() == if v.approved && !v.requiresSignoff && Applies(PlanWake, seen)
                         then Commit(judged, id, seen, PlanWake, now) else judged
    {
      var view := GetContract(id);
      if view.None? {
        return Err(UnknownContract);
      }
      var seen := view.value;
      var v := Validate(t, steps, seen.content.objective, seen.content.checks, seen.content.autoApprove);
      log := log + [Event(id, now, None, PlanSubmitted(submittedBy))];
      if v.approved && !v.requiresSignoff {
        log := log + [Event(id, now, Some(seen.revision),
                            PlanApproved(steps, Some(seen.revision), Some(CheckIdentifiers(seen.content.checks)),
                                         None, true, "daemon", CommandLine))];
        var woken := WakeBlockedAfterPlanApproval(id, now);
      } else {
        log := log + [Event(id, now, None, PlanRejected(v.reasons, v.requiresSignoff))];
      }
      return Ok(v);
    }

    /** The command-line form: the name of the signer is the one the caller gives. */
    method SignAtCommandLine(id: string, steps: seq<PlanStep>, signer: string, now: int)
      returns (r: Result<Signoff, ToolError>)
      modifies this
      ensures id !in old(contracts) ==> r == Err(UnknownContract)
      ensures !(r.Ok? && r.value.SignedOff?) ==> Abs() == old(Abs())
      ensures id in old(contracts) ==>
                var seen := old(contracts)[id];
                var v := Judge(t, seen, steps);
                var signed := Append(old(Abs()), Signature(id, seen, steps, signer, CommandLine, now));
                r == (if v.approved then Ok(SignedOff) else Ok(NotSigned(v.reasons))) &&
                (v.approved ==>
                   Abs() == if Applies(PlanWake, seen) then Commit(signed, id, seen, PlanWake, now) else signed)
    {
      var view := GetContract(id);
      if view.None? {
        return Err(UnknownContract);
      }
      var seen := view.value;
      var v := Validate(t, steps, seen.content.objective, seen.content.checks, seen.content.autoApprove);
      if !v.approved {
        return Ok(NotSigned(v.reasons));
      }
      log := log + [Event(id, now, Some(seen.revision),
                          PlanApproved(steps, Some(seen.revision), Some(CheckIdentifiers(seen.content.checks)),
                                       seen.content.specHash, false, signer, CommandLine))];
      var woken := WakeBlockedAfterPlanApproval(id, now);
      return Ok(SignedOff);
    }
  }

  lemma GrantedSet(g: Grant, granted: set<string>)
    requires granted == set a | a in g.actions && a != ""
    ensures granted != {} <==> exists i :: 0 <= i < |g.actions| && g.actions[i] != ""
  {
    if granted != {} {
      var a :| a in granted;
      assert exists i :: 0 <= i < |g.actions| && g.actions[i] == a;
    } else {
      forall i | 0 <= i < |g.actions|
        ensures g.actions[i] == ""
      {
        var a := g.actions[i];
        assert a in g.actions && (a in granted <==> a != "");
      }
    }
  }
}
