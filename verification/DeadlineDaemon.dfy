/**
 * The daemon's deadline escalation: one scan over the contracts per tick, an
 * event only when the level differs from the one last recorded.
 */
module DeadlineDaemon {
  import opened Prelude
  import opened StateMachine
  import opened DeadlineLevels

  datatype Contract = Contract(id: string, state: ContractState, deadlineAt: real, createdAt: real)

  datatype Kind = LevelEscalated | BreachLocked

  /** Escalation events carry a level, None if their payload cannot be read. */
  datatype Event =
    | Notice(contractId: string, kind: Kind, level: Option<Level>)
    | OtherEvent(contractId: string)

  predicate IsEscalation(e: Event, id: string) {
    e.Notice? && e.contractId == id
  }

  /** The level carried by the last escalation event of the contract. */
  function LatestLevel(log: seq<Event>, id: string): Option<Level> {
    if log == [] then None
    else if IsEscalation(log[|log| - 1], id) then log[|log| - 1].level
    else LatestLevel(log[..|log| - 1], id)
  }

  predicate IsWatched(c: Contract) {
    c.state.Active? || c.state.Blocked?
  }

  function LevelAt(c: Contract, now: real): Level {
    ComputeDeadlineLevel(c.deadlineAt, now, ContractWindow(c.deadlineAt, c.createdAt)).level
  }

  function EventFor(id: string, level: Level): Event {
    Notice(id, if level == Breached then BreachLocked else LevelEscalated, Some(level))
  }

  /** What one contract's turn adds to the log. */
  function Emitted(log: seq<Event>, c: Contract, now: real): seq<Event> {
    var level := LevelAt(c, now);
    if IsWatched(c) && level != Normal && LatestLevel(log, c.id) != Some(level) then [EventFor(c.id, level)] else []
  }

  function Scan(log: seq<Event>, contracts: seq<Contract>, now: real): seq<Event>
    decreases |contracts|
  {
    if contracts == [] then log else Scan(log + Emitted(log, contracts[0], now), contracts[1..], now)
  }

  class Daemon {
    var events: seq<Event>

    constructor ()
      ensures events == []
    {
      events := [];
    }

    method LatestEscalationLevel(id: string) returns (level: Option<Level>)
      ensures level == LatestLevel(events, id)
    {
      var i := |events|;
      assert events[..i] == events;
      while i > 0
        invariant 0 <= i <= |events|
        invariant LatestLevel(events, id) == LatestLevel(events[..i], id)
      {
        if IsEscalation(events[i - 1], id) {
          return events[i - 1].level;
        }
        assert events[..i][..i - 1] == events[..i - 1];
        i := i - 1;
      }
      return None;
    }

    method EnforceDeadlines(contracts: seq<Contract>, now: real) returns (actions: seq<Event>)
      modifies this
      ensures events == Scan(old(events), contracts, now)
      ensures events == old(events) + actions
    {
      actions := [];
      var i := 0;
      while i < |contracts|
        invariant 0 <= i <= |contracts|
        invariant events == old(events) + actions
        invariant Scan(events, contracts[i..], now) == Scan(old(events), contracts, now)
      {
        var c := contracts[i];
        assert contracts[i..][1..] == contracts[i + 1..];
        assert events + [] == events;
        i := i + 1;
        if !c.state.Active? && !c.state.Blocked? {
          continue;
        }
        var decision := ComputeDeadlineLevel(c.deadlineAt, now, ContractWindow(c.deadlineAt, c.createdAt));
        if decision.level == Normal {
          continue;
        }
        var last := LatestEscalationLevel(c.id);
        if last == Some(decision.level) {
          continue;
        }
        var kind := if decision.level == Breached then BreachLocked else LevelEscalated;
        var e := Notice(c.id, kind, Some(decision.level));
        actions := actions + [e];
        events := events + [e];
      }
    }
  }

  // ----- one contract's share of the log -----

  function Escalations(log: seq<Event>, id: string): (es: seq<Event>)
    ensures forall e :: e in es ==> IsEscalation(e, id)
  {
    if log == [] then []
    else Escalations(log[..|log| - 1], id) + if IsEscalation(log[|log| - 1], id) then [log[|log| - 1]] else []
  }

  lemma {:induction false} EscalationsAppend(a: seq<Event>, b: seq<Event>, id: string)
    ensures Escalations(a + b, id) == Escalations(a, id) + Escalations(b, id)
    decreases |b|
  {
    if b == [] {
      assert a + b == a;
    } else {
      assert (a + b)[..|a + b| - 1] == a + b[..|b| - 1];
      EscalationsAppend(a, b[..|b| - 1], id);
    }
  }

  function LastLevel(es: seq<Event>, id: string): Option<Level>
    requires forall e :: e in es ==> IsEscalation(e, id)
  {
    if es == [] then None
    else
      var e := es[|es| - 1];
      assert e in es && IsEscalation(e, id);
      e.level
  }

  lemma {:induction false} LatestIsLastEscalation(log: seq<Event>, id: string)
    ensures LatestLevel(log, id) == LastLevel(Escalations(log, id), id)
  {
    if log != [] {
      LatestIsLastEscalation(log[..|log| - 1], id);
    }
  }

  lemma {:induction false} LatestDependsOnEscalations(log: seq<Event>, id: string)
    ensures LatestLevel(log, id) == LatestLevel(Escalations(log, id), id)
    ensures Escalations(Escalations(log, id), id) == Escalations(log, id)
  {
    if log != [] {
      var n := |log| - 1;
      LatestDependsOnEscalations(log[..n], id);
      if IsEscalation(log[n], id) {
        var es := Escalations(log, id);
        assert es[..|es| - 1] == Escalations(log[..n], id);
      } else {
        assert Escalations(log, id) == Escalations(log[..n], id);
      }
    }
  }

  predicate DistinctIds(contracts: seq<Contract>) {
    forall i, j :: 0 <= i < j < |contracts| ==> contracts[i].id != contracts[j].id
  }

  lemma EmittedAlone(log: seq<Event>, c: Contract, now: real, id: string)
    ensures Escalations(Emitted(log, c, now), id)
         == if c.id == id then Emitted(Escalations(log, id), c, now) else []
  {
    hide LevelAt;
    LatestDependsOnEscalations(log, id);
    var e := EventFor(c.id, LevelAt(c, now));
    assert [e][..0] == [];
    assert Escalations([e], id) == if c.id == id then [e] else [];
  }

  lemma {:induction false} ScanSkips(log: seq<Event>, contracts: seq<Contract>, now: real, id: string)
    requires forall i :: 0 <= i < |contracts| ==> contracts[i].id != id
    ensures Escalations(Scan(log, contracts, now), id) == Escalations(log, id)
    decreases |contracts|
  {
    hide LevelAt;
    if contracts != [] {
      var emitted := Emitted(log, contracts[0], now);
      EmittedAlone(log, contracts[0], now, id);
      EscalationsAppend(log, emitted, id);
      ScanSkips(log + emitted, contracts[1..], now, id);
    }
  }

  lemma DistinctTail(contracts: seq<Contract>, k: nat)
    requires k < |contracts| && DistinctIds(contracts)
    ensures DistinctIds(contracts[1..])
    ensures k > 0 ==> contracts[0].id != contracts[k].id
    ensures k == 0 ==> forall i :: 0 <= i < |contracts[1..]| ==> contracts[1..][i].id != contracts[0].id
  {
  }

  /** A scan touches each contract's share of the log on its own. */
  lemma {:induction false} ScanIsPerContract(log: seq<Event>, contracts: seq<Contract>, now: real, k: nat)
    requires k < |contracts| && DistinctIds(contracts)
    ensures Escalations(Scan(log, contracts, now), contracts[k].id)
         == Escalations(log, contracts[k].id) + Emitted(Escalations(log, contracts[k].id), contracts[k], now)
    decreases |contracts|
  {
    hide DistinctIds, Emitted, Escalations;
    var id, first, tail := contracts[k].id, contracts[0], contracts[1..];
    var emitted := Emitted(log, first, now);
    DistinctTail(contracts, k);
    EmittedAlone(log, first, now, id);
    EscalationsAppend(log, emitted, id);
    assert Scan(log, contracts, now) == Scan(log + emitted, tail, now);
    if k == 0 {
      ScanSkips(log + emitted, tail, now, id);
    } else {
      assert Escalations(log, id) + [] == Escalations(log, id) && tail[k - 1] == contracts[k];
      ScanIsPerContract(log + emitted, tail, now, k - 1);
    }
  }

  /** A scan logs one notice of a contract exactly when the contract is active or
      blocked, it is due or in one of the stretches 1, 3 and 4, and the last
      notice gave another level. */
  lemma NoticeExactly(log: seq<Event>, contracts: seq<Contract>, now: real, k: nat)
    requires k < |contracts| && DistinctIds(contracts)
    ensures var c := contracts[k];
            var phase := Phase(c.deadlineAt - now,
                               if c.createdAt < c.deadlineAt then Some(c.deadlineAt - c.createdAt) else None);
            var goes := (c.state == Active || c.state == Blocked) && phase in {1, 3, 4, 5} &&
                        LatestLevel(log, c.id) != Some(LevelOfPhase(phase));
            var kind := if now >= c.deadlineAt then BreachLocked else LevelEscalated;
            Escalations(Scan(log, contracts, now), c.id)
              == Escalations(log, c.id) + if goes then [Notice(c.id, kind, Some(LevelOfPhase(phase)))] else []
  {
    hide Scan, Escalations, DistinctIds, Phase;
    var c := contracts[k];
    ScanIsPerContract(log, contracts, now, k);
    LatestDependsOnEscalations(log, c.id);
    EmittedExactly(Escalations(log, c.id), c, now);
  }

  lemma EmittedExactly(log: seq<Event>, c: Contract, now: real)
    ensures var phase := Phase(c.deadlineAt - now,
                               if c.createdAt < c.deadlineAt then Some(c.deadlineAt - c.createdAt) else None);
            var goes := (c.state == Active || c.state == Blocked) && phase in {1, 3, 4, 5} &&
                        LatestLevel(log, c.id) != Some(LevelOfPhase(phase));
            var kind := if now >= c.deadlineAt then BreachLocked else LevelEscalated;
            Emitted(log, c, now) == if goes then [Notice(c.id, kind, Some(LevelOfPhase(phase)))] else []
  {
    hide ComputeDeadlineLevel, Phase;
    LevelIsPhase(c.deadlineAt, now, ContractWindow(c.deadlineAt, c.createdAt));
    BreachPhase(c.deadlineAt - now, ContractWindow(c.deadlineAt, c.createdAt));
  }

  lemma BreachPhase(remaining: real, total: Option<real>)
    ensures Phase(remaining, total) == 5 <==> remaining <= 0.0
    ensures Phase(remaining, total) <= 5
  {
  }

  // ----- whole runs -----

  /** One tick: events written by others since the last one, then the scan. */
  datatype Tick = Tick(others: seq<Event>, contracts: seq<Contract>, now: real)

  /** What must stay fixed for a contract during a run. */
  predicate IsOrdinary(t: Tick, id: string, deadlineAt: real, createdAt: real) {
    DistinctIds(t.contracts) && Escalations(t.others, id) == [] &&
    forall c :: c in t.contracts && c.id == id ==> c.deadlineAt == deadlineAt && c.createdAt == createdAt
  }

  ghost predicate IsRun(ticks: seq<Tick>, id: string, deadlineAt: real, createdAt: real) {
    (forall t :: t in ticks ==> IsOrdinary(t, id, deadlineAt, createdAt)) &&
    (forall i {:trigger ticks[i]} :: 0 < i < |ticks| ==> ticks[i - 1].now <= ticks[i].now)
  }

  function Run(log: seq<Event>, ticks: seq<Tick>): seq<Event> {
    if ticks == [] then log
    else
      var before := Run(log, ticks[..|ticks| - 1]);
      var t := ticks[|ticks| - 1];
      Scan(before + t.others, t.contracts, t.now)
  }

  function NoticesFor(id: string, levels: seq<Level>): seq<Event> {
    seq(|levels|, i requires 0 <= i < |levels| => EventFor(id, levels[i]))
  }

  /** How many notices fit into the phases up to and including `phase`. */
  function Allowance(phase: nat): nat {
    match phase
    case 0 => 0
    case 1 => 1
    case 2 => 1
    case 3 => 2
    case 4 => 3
    case _ => 4
  }

  predicate StrictlyRising(levels: seq<Level>) {
    forall i, j :: 0 <= i < j < |levels| ==> Ordinal(levels[i]) < Ordinal(levels[j])
  }

  /** The levels notified so far, the last of them in phase `q`. */
  predicate IsHistory(levels: seq<Level>, q: nat, earlyNotice: bool) {
    q <= 5 && |levels| <= Allowance(q) &&
    Normal !in levels && (forall i :: 0 <= i < |levels| - 1 ==> levels[i] != Breached) &&
    (levels != [] ==> levels[|levels| - 1] == LevelOfPhase(q)) &&
    (!earlyNotice ==> q != 1 && StrictlyRising(levels))
  }

  /** The history after a scan in phase `phase`. */
  function Extended(levels: seq<Level>, phase: nat): seq<Level> {
    var level := LevelOfPhase(phase);
    if level == Normal || (levels != [] && levels[|levels| - 1] == level) then levels else levels + [level]
  }

  // The levels of a run follow from the turns alone.

  /** What a tick means to one contract: is it looked at, and in which phase. */
  datatype Turn = Turn(watched: bool, phase: nat)

  function Levels(turns: seq<Turn>): seq<Level> {
    if turns == [] then []
    else
      var before := Levels(turns[..|turns| - 1]);
      var turn := turns[|turns| - 1];
      if turn.watched then Extended(before, turn.phase) else before
  }

  /** Phases never go back; without an early notice phase 1 does not occur. */
  ghost predicate PhasesRise(turns: seq<Turn>, earlyNotice: bool) {
    (forall i {:trigger turns[i]} :: 0 <= i < |turns| ==>
       turns[i].phase <= 5 && (!earlyNotice ==> turns[i].phase != 1)) &&
    (forall i {:trigger turns[i]} :: 0 < i < |turns| ==> turns[i - 1].phase <= turns[i].phase)
  }

  lemma HistoryGrows(levels: seq<Level>, q: nat, phase: nat, earlyNotice: bool)
    requires IsHistory(levels, q, earlyNotice) && q <= phase <= 5 && (!earlyNotice ==> phase != 1)
    ensures IsHistory(Extended(levels, phase), if Extended(levels, phase) == levels then q else phase, earlyNotice)
  {
    if Extended(levels, phase) != levels && levels != [] {
      assert levels[|levels| - 1] != Breached;
    }
  }

  lemma {:induction false} HistoryOfTurns(turns: seq<Turn>, earlyNotice: bool) returns (q: nat)
    requires PhasesRise(turns, earlyNotice)
    ensures IsHistory(Levels(turns), q, earlyNotice)
    ensures q <= if turns == [] then 0 else turns[|turns| - 1].phase
  {
    if turns == [] {
      return 0;
    }
    var n := |turns| - 1;
    q := HistoryOfTurns(turns[..n], earlyNotice);
    var before := Levels(turns[..n]);
    if turns[n].watched {
      HistoryGrows(before, q, turns[n].phase, earlyNotice);
      q := if Extended(before, turns[n].phase) == before then q else turns[n].phase;
    }
  }

  // The log of a run holds the notices of those levels.

  predicate WatchedIn(contracts: seq<Contract>, id: string) {
    exists c :: c in contracts && c.id == id && IsWatched(c)
  }

  function TurnAt(t: Tick, id: string, deadlineAt: real, createdAt: real): Turn {
    Turn(WatchedIn(t.contracts, id), Phase(deadlineAt - t.now, ContractWindow(deadlineAt, createdAt)))
  }

  function Turns(ticks: seq<Tick>, id: string, deadlineAt: real, createdAt: real): (turns: seq<Turn>)
    ensures |turns| == |ticks|
    ensures forall i :: 0 <= i < |ticks| ==> turns[i] == TurnAt(ticks[i], id, deadlineAt, createdAt)
  {
    seq(|ticks|, i requires 0 <= i < |ticks| => TurnAt(ticks[i], id, deadlineAt, createdAt))
  }

  lemma EmittedExtends(c: Contract, now: real, levels: seq<Level>)
    requires IsWatched(c)
    ensures var phase := Phase(c.deadlineAt - now, ContractWindow(c.deadlineAt, c.createdAt));
            NoticesFor(c.id, levels) + Emitted(NoticesFor(c.id, levels), c, now)
            == NoticesFor(c.id, Extended(levels, phase))
  {
    var es := NoticesFor(c.id, levels);
    LevelIsPhase(c.deadlineAt, now, ContractWindow(c.deadlineAt, c.createdAt));
    assert LatestLevel(es, c.id) == if levels == [] then None else Some(levels[|levels| - 1]);
  }

  lemma WatchedExactly(contracts: seq<Contract>, k: nat)
    requires k < |contracts| && DistinctIds(contracts)
    ensures WatchedIn(contracts, contracts[k].id) <==> IsWatched(contracts[k])
  {
  }

  lemma ScanExtends(log: seq<Event>, contracts: seq<Contract>, now: real, k: nat, levels: seq<Level>)
    requires k < |contracts| && DistinctIds(contracts)
    requires Escalations(log, contracts[k].id) == NoticesFor(contracts[k].id, levels)
    ensures var c := contracts[k];
            Escalations(Scan(log, contracts, now), c.id)
              == NoticesFor(c.id, if !IsWatched(c) then levels else
                                  Extended(levels,
                                           Phase(c.deadlineAt - now, ContractWindow(c.deadlineAt, c.createdAt))))
  {
    hide Phase, LevelAt, DistinctIds, Escalations, Scan;
    ScanIsPerContract(log, contracts, now, k);
    if IsWatched(contracts[k]) {
      EmittedExtends(contracts[k], now, levels);
    }
  }

  lemma ScanFinds(log: seq<Event>, t: Tick, id: string, deadlineAt: real, createdAt: real, levels: seq<Level>, k: nat)
    requires IsOrdinary(t, id, deadlineAt, createdAt) && Escalations(log, id) == NoticesFor(id, levels)
    requires k < |t.contracts| && t.contracts[k].id == id
    ensures var turn := TurnAt(t, id, deadlineAt, createdAt);
            Escalations(Scan(log, t.contracts, t.now), id)
              == NoticesFor(id, if turn.watched then Extended(levels, turn.phase) else levels)
  {
    hide Phase;
    WatchedExactly(t.contracts, k);
    ScanExtends(log, t.contracts, t.now, k, levels);
  }

  lemma ScanOfTick(log: seq<Event>, t: Tick, id: string, deadlineAt: real, createdAt: real, levels: seq<Level>)
    requires IsOrdinary(t, id, deadlineAt, createdAt) && Escalations(log, id) == NoticesFor(id, levels)
    ensures var turn := TurnAt(t, id, deadlineAt, createdAt);
            Escalations(Scan(log + t.others, t.contracts, t.now), id)
              == NoticesFor(id, if turn.watched then Extended(levels, turn.phase) else levels)
  {
    EscalationsAppend(log, t.others, id);
    if k: nat :| k < |t.contracts| && t.contracts[k].id == id {
      ScanFinds(log + t.others, t, id, deadlineAt, createdAt, levels, k);
    } else {
      ScanSkips(log + t.others, t.contracts, t.now, id);
    }
  }

  lemma {:induction false} RunFollowsTurns(ticks: seq<Tick>, id: string, deadlineAt: real, createdAt: real)
    requires forall t :: t in ticks ==> IsOrdinary(t, id, deadlineAt, createdAt)
    ensures Escalations(Run([], ticks), id) == NoticesFor(id, Levels(Turns(ticks, id, deadlineAt, createdAt)))
  {
    if ticks != [] {
      var n := |ticks| - 1;
      RunFollowsTurns(ticks[..n], id, deadlineAt, createdAt);
      var turns := Turns(ticks, id, deadlineAt, createdAt);
      assert turns[..n] == Turns(ticks[..n], id, deadlineAt, createdAt);
      ScanOfTick(Run([], ticks[..n]), ticks[n], id, deadlineAt, createdAt, Levels(turns[..n]));
    }
  }

  lemma PhaseRange(remaining: real, total: Option<real>)
    ensures Phase(remaining, total) <= 5
    ensures !HasEarlyNotice(total) ==> Phase(remaining, total) != 1
  {
  }

  lemma TurnsRise(ticks: seq<Tick>, id: string, deadlineAt: real, createdAt: real, total: Option<real>)
    requires IsRun(ticks, id, deadlineAt, createdAt) && total == ContractWindow(deadlineAt, createdAt)
    ensures PhasesRise(Turns(ticks, id, deadlineAt, createdAt), HasEarlyNotice(total))
  {
    var turns := Turns(ticks, id, deadlineAt, createdAt);
    var early := HasEarlyNotice(total);
    forall i | 0 <= i < |turns|
      ensures turns[i].phase <= 5 && (!early ==> turns[i].phase != 1)
    {
      PhaseRange(deadlineAt - ticks[i].now, total);
    }
    forall i | 0 < i < |turns|
      ensures turns[i - 1].phase <= turns[i].phase
    {
      assert turns[i - 1] == TurnAt(ticks[i - 1], id, deadlineAt, createdAt);
      PhasesAdvance(deadlineAt, ticks[i - 1].now, ticks[i].now, total);
    }
  }

  lemma {:induction false} RisingLowerBound(levels: seq<Level>, i: nat)
    requires i < |levels| && Normal !in levels && StrictlyRising(levels)
    ensures i + 1 <= Ordinal(levels[i])
  {
    if i > 0 {
      RisingLowerBound(levels, i - 1);
    } else {
      assert levels[0] in levels;
    }
  }

  /** At most four levels and at most one breach, the last one; without an early
      notice the levels strictly rise, so they are at most three. */
  predicate AreFew(levels: seq<Level>, earlyNotice: bool) {
    |levels| <= 4 && Normal !in levels &&
    (forall i :: 0 <= i < |levels| - 1 ==> levels[i] != Breached) &&
    (!earlyNotice ==> StrictlyRising(levels) && |levels| <= 3)
  }

  lemma HistoriesAreShort(levels: seq<Level>, q: nat, earlyNotice: bool)
    requires IsHistory(levels, q, earlyNotice)
    ensures AreFew(levels, earlyNotice)
  {
    if levels != [] && !earlyNotice {
      RisingLowerBound(levels, |levels| - 1);
    }
  }

  /** Over any run of ticks a contract with a fixed deadline gets a few notices
      only, in the sense above; windows of 64 seconds or more and windows that
      are not positive have no early notice. */
  lemma NoticesOverARun(ticks: seq<Tick>, id: string, deadlineAt: real, createdAt: real)
    requires IsRun(ticks, id, deadlineAt, createdAt)
    ensures exists levels ::
              Escalations(Run([], ticks), id) == NoticesFor(id, levels) &&
              AreFew(levels, HasEarlyNotice(ContractWindow(deadlineAt, createdAt)))
  {
    var turns := Turns(ticks, id, deadlineAt, createdAt);
    RunFollowsTurns(ticks, id, deadlineAt, createdAt);
    TurnsRise(ticks, id, deadlineAt, createdAt, ContractWindow(deadlineAt, createdAt));
    var earlyNotice := HasEarlyNotice(ContractWindow(deadlineAt, createdAt));
    var q := HistoryOfTurns(turns, earlyNotice);
    HistoriesAreShort(Levels(turns), q, earlyNotice);
  }

  /** Over any run, a notice is a breach lock exactly when its level is breached,
      and only the last notice of a contract can be one. */
  lemma BreachLocksOverARun(ticks: seq<Tick>, id: string, deadlineAt: real, createdAt: real)
    requires IsRun(ticks, id, deadlineAt, createdAt)
    ensures var es := Escalations(Run([], ticks), id);
            (forall e :: e in es ==>
               e.Notice? && e.level.Some? && (e.kind == BreachLocked <==> e.level == Some(Breached))) &&
            (forall i :: 0 <= i < |es| && es[i].Notice? && es[i].kind == BreachLocked ==> i == |es| - 1)
  {
    NoticesOverARun(ticks, id, deadlineAt, createdAt);
    var levels :| Escalations(Run([], ticks), id) == NoticesFor(id, levels) &&
                  AreFew(levels, HasEarlyNotice(ContractWindow(deadlineAt, createdAt)));
    assert forall i :: 0 <= i < |levels| ==> NoticesFor(id, levels)[i] == EventFor(id, levels[i]);
  }

  lemma OneMoreTurn(turns: seq<Turn>, turn: Turn)
    requires turn.watched
    ensures Levels(turns + [turn]) == Extended(Levels(turns), turn.phase)
  {
    assert (turns + [turn])[..|turns|] == turns;
  }

  /** Ticks that find one active contract, at these remaining times. */
  function TicksAt(c: Contract, remaining: seq<real>): seq<Tick> {
    seq(|remaining|, i requires 0 <= i < |remaining| => Tick([], [c], c.deadlineAt - remaining[i]))
  }

  /** Remaining times in the phases 1, 3, 4 and 5 of a window with an early notice. */
  function NoticedAt(window: real): seq<real> {
    [Min(window, (0.95 * window + MIN_ESCALATION_WINDOW) / 2.0), 0.20 * window, 0.02 * window, 0.0]
  }

  lemma NoticedPhases(window: real)
    requires HasEarlyNotice(Some(window))
    ensures var r := NoticedAt(window);
            window >= r[0] >= r[1] >= r[2] >= r[3] &&
            Phase(r[0], Some(window)) == 1 && Phase(r[1], Some(window)) == 3 &&
            Phase(r[2], Some(window)) == 4 && Phase(r[3], Some(window)) == 5
  {
  }

  lemma NoticedLevels()
    ensures Levels([Turn(true, 1), Turn(true, 3), Turn(true, 4), Turn(true, 5)]) == [Urgent, Warning, Urgent, Breached]
  {
    var t1, t2, t3, t4 := Turn(true, 1), Turn(true, 3), Turn(true, 4), Turn(true, 5);
    OneMoreTurn([], t1);
    OneMoreTurn([t1], t2);
    OneMoreTurn([t1, t2], t3);
    OneMoreTurn([t1, t2, t3], t4);
    assert [] + [t1] == [t1] && [t1] + [t2] == [t1, t2];
    assert [t1, t2] + [t3] == [t1, t2, t3] && [t1, t2, t3] + [t4] == [t1, t2, t3, t4];
  }

  lemma NoticedTurns(c: Contract)
    requires c.state.Active? && HasEarlyNotice(ContractWindow(c.deadlineAt, c.createdAt))
    ensures var ticks := TicksAt(c, NoticedAt(c.deadlineAt - c.createdAt));
            IsRun(ticks, c.id, c.deadlineAt, c.createdAt) &&
            Turns(ticks, c.id, c.deadlineAt, c.createdAt)
              == [Turn(true, 1), Turn(true, 3), Turn(true, 4), Turn(true, 5)]
  {
    hide Phase;
    NoticedPhases(c.deadlineAt - c.createdAt);
    assert c in [c] && IsWatched(c);
    assert WatchedIn([c], c.id);
    var r := NoticedAt(c.deadlineAt - c.createdAt);
    var ticks := TicksAt(c, r);
    forall i | 0 <= i < 4
      ensures c.deadlineAt - ticks[i].now == r[i]
    {
    }
  }

  /** Some run gives a contract four notices exactly when its window has an early
      notice; the run below finds it at the early stage, at risk, urgent, and due. */
  lemma FourNoticesHappen(id: string, deadlineAt: real, createdAt: real)
    ensures (exists ticks ::
               IsRun(ticks, id, deadlineAt, createdAt) && |Escalations(Run([], ticks), id)| == 4)
            <==> HasEarlyNotice(ContractWindow(deadlineAt, createdAt))
  {
    if HasEarlyNotice(ContractWindow(deadlineAt, createdAt)) {
      var c := Contract(id, Active, deadlineAt, createdAt);
      var ticks := TicksAt(c, NoticedAt(deadlineAt - createdAt));
      NoticedTurns(c);
      RunFollowsTurns(ticks, id, deadlineAt, createdAt);
      NoticedLevels();
      assert IsRun(ticks, id, deadlineAt, createdAt) && |Escalations(Run([], ticks), id)| == 4;
    }
    if ticks :| IsRun(ticks, id, deadlineAt, createdAt) && |Escalations(Run([], ticks), id)| == 4 {
      NoticesOverARun(ticks, id, deadlineAt, createdAt);
    }
  }

  /** After a tick, a watched contract at risk has its level on record. */
  lemma LevelIsOnRecord(log: seq<Event>, contracts: seq<Contract>, now: real, k: nat)
    requires k < |contracts| && DistinctIds(contracts)
    requires IsWatched(contracts[k]) && LevelAt(contracts[k], now) != Normal
    ensures LatestLevel(Scan(log, contracts, now), contracts[k].id) == Some(LevelAt(contracts[k], now))
  {
    var c := contracts[k];
    ScanIsPerContract(log, contracts, now, k);
    LatestIsLastEscalation(Scan(log, contracts, now), c.id);
    LatestIsLastEscalation(log, c.id);
    LatestDependsOnEscalations(log, c.id);
  }
}
