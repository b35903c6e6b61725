/**
 * Pruning of the event log: old events of contracts in a terminal state are
 * deleted.  Nothing the plan gate or the audit trail says of any other contract
 * depends on them.
 */
module PlanPruning {
  import opened Prelude
  import opened StateMachine
  import opened PlanProtocol
  import opened PlanGate

  predicate IsPruned(w: World, e: Event, cutoff: int) {
    e.contractId in w.contracts && IsTerminal(w.contracts[e.contractId].state) && e.at < cutoff
  }

  function Pruned(w: World, log: seq<Event>, cutoff: int): seq<Event> {
    if log == [] then []
    else
      var e := log[|log| - 1];
      Pruned(w, log[..|log| - 1], cutoff) + if IsPruned(w, e, cutoff) then [] else [e]
  }

  /** What is kept is exactly what is not old or not of a terminal contract. */
  lemma {:induction false} PrunedMembers(w: World, log: seq<Event>, cutoff: int)
    ensures forall e :: e in Pruned(w, log, cutoff) <==>
              e in log &&
              (e.at >= cutoff || e.contractId !in w.contracts ||
               w.contracts[e.contractId].state !in {Complete, Satisfied, Cancelled, Archived})
  {
    if log != [] {
      PrunedMembers(w, log[..|log| - 1], cutoff);
      assert log == log[..|log| - 1] + [log[|log| - 1]];
    }
  }

  predicate IsLive(w: World, id: string) {
    id !in w.contracts || !IsTerminal(w.contracts[id].state)
  }

  /** The record of a contract that is not terminal replays as before. */
  lemma {:induction false} PruningKeepsTheRecord(w: World, log: seq<Event>, cutoff: int, id: string)
    requires IsLive(w, id)
    ensures StateOnRecord(Pruned(w, log, cutoff), id) == StateOnRecord(log, id)
  {
    if log != [] {
      var front, e := log[..|log| - 1], log[|log| - 1];
      PruningKeepsTheRecord(w, front, cutoff, id);
      if !IsPruned(w, e, cutoff) {
        RecordAppend(Pruned(w, front, cutoff), e, id);
      } else {
        assert e.contractId != id;
        assert Pruned(w, log, cutoff) == Pruned(w, front, cutoff);
      }
    }
  }

  lemma OpenByMembers(log: seq<Event>, id: string, view: Row, now: int)
    ensures MayOpen(log, id, view, now) <==>
            exists e :: e in log && IsVerdict(e, id) && e.at >= now - PLAN_GATE_LOOKBACK_SECONDS &&
                        (forall o :: o in log && IsVerdict(o, id) ==> o.at <= e.at) &&
                        Binds(e, view.revision, CheckIds(view.content), view.content.specHash)
  {
    if e :| e in log && IsVerdict(e, id) && e.at >= now - PLAN_GATE_LOOKBACK_SECONDS &&
            (forall o :: o in log && IsVerdict(o, id) ==> o.at <= e.at) &&
            Binds(e, view.revision, CheckIds(view.content), view.content.specHash) {
      var i :| 0 <= i < |log| && log[i] == e;
      assert IsLatestVerdict(log, id, now, i);
    }
    if i :| IsLatestVerdict(log, id, now, i) &&
            Binds(log[i], view.revision, CheckIds(view.content), view.content.specHash) {
      forall o | o in log && IsVerdict(o, id)
        ensures o.at <= log[i].at
      {
        var j :| 0 <= j < |log| && log[j] == o;
      }
      assert log[i] in log;
    }
  }

  /** Its gate opens as before. */
  lemma PruningKeepsTheGate(w: World, log: seq<Event>, cutoff: int, id: string, view: Row, now: int)
    requires IsLive(w, id)
    ensures MayOpen(Pruned(w, log, cutoff), id, view, now) <==> MayOpen(log, id, view, now)
  {
    PrunedMembers(w, log, cutoff);
    OpenByMembers(log, id, view, now);
    OpenByMembers(Pruned(w, log, cutoff), id, view, now);
  }
}
