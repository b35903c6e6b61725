/**
 * Discrete deadline levels, keyed off the elapsed share of a contract's window.
 * Times are seconds on one time line, arithmetic is over the reals.
 */
module DeadlineLevels {
  import opened Prelude

  datatype Level = Normal | Warning | Urgent | Breached

  function Ordinal(l: Level): nat {
    match l
    case Normal => 0
    case Warning => 1
    case Urgent => 2
    case Breached => 3
  }

  const WARNING_THRESHOLD: real := 0.30
  const URGENT_THRESHOLD: real := 0.05
  const MIN_ESCALATION_WINDOW: real := 60.0

  datatype LevelDecision = LevelDecision(level: Level, remaining: real, elapsedRatio: real)

  function Max(a: real, b: real): real {
    if a >= b then a else b
  }

  function Min(a: real, b: real): real {
    if a <= b then a else b
  }

  /** The full window, or None when it is not positive. */
  function ContractWindow(deadlineAt: real, createdAt: real): Option<real> {
    if deadlineAt - createdAt > 0.0 then Some(deadlineAt - createdAt) else None
  }

  predicate IsKnown(total: Option<real>) {
    total.Some? && total.value > 0.0
  }

  function ComputeDeadlineLevel(deadlineAt: real, now: real, total: Option<real>): LevelDecision {
    var remaining := deadlineAt - now;
    if remaining <= 0.0 then LevelDecision(Breached, remaining, 1.0)
    else
      var window := if IsKnown(total) then total.value else Max(remaining * 2.0, MIN_ESCALATION_WINDOW);
      var elapsed := Max(0.0, Min(1.0, 1.0 - remaining / window));
      if remaining < MIN_ESCALATION_WINDOW && elapsed < URGENT_THRESHOLD then LevelDecision(Urgent, remaining, elapsed)
      else if elapsed >= 1.0 - URGENT_THRESHOLD then LevelDecision(Urgent, remaining, elapsed)
      else if elapsed >= 1.0 - WARNING_THRESHOLD then LevelDecision(Warning, remaining, elapsed)
      else LevelDecision(Normal, remaining, elapsed)
  }

  // ----- the levels as a succession of phases -----

  /** The stretches of time a contract goes through, in order.  Phase 1 is the
      notice given early on because the whole window is shorter than a minute. */
  function Phase(remaining: real, total: Option<real>): nat {
    if remaining <= 0.0 then 5
    else if IsKnown(total) then
      if remaining <= 0.05 * total.value then 4
      else if remaining <= 0.30 * total.value then 3
      else if remaining <= 0.95 * total.value then 2
      else if remaining < MIN_ESCALATION_WINDOW then 1
      else 0
    else if remaining <= 3.0 then 4
    else if remaining <= 18.0 then 3
    else 0
  }

  function LevelOfPhase(phase: nat): Level {
    match phase
    case 1 => Urgent
    case 3 => Warning
    case 4 => Urgent
    case 5 => Breached
    case _ => Normal
  }

  lemma ScaleCompare(a: real, b: real, w: real)
    requires w > 0.0
    ensures a <= b <==> a * w <= b * w
  {
    if a <= b {
      assert (b - a) * w >= 0.0;
    } else {
      assert (a - b) * w > 0.0;
    }
  }

  lemma RatioBounds(remaining: real, window: real, share: real)
    requires window > 0.0
    ensures 1.0 - remaining / window >= share <==> remaining <= (1.0 - share) * window
  {
    var ratio := remaining / window;
    assert ratio * window == remaining;
    ScaleCompare(ratio, 1.0 - share, window);
  }

  /** The reported level is that of the phase the contract is in. */
  lemma LevelIsPhase(deadlineAt: real, now: real, total: Option<real>)
    ensures ComputeDeadlineLevel(deadlineAt, now, total).level == LevelOfPhase(Phase(deadlineAt - now, total))
  {
    var remaining := deadlineAt - now;
    if remaining > 0.0 {
      var window := if IsKnown(total) then total.value else Max(remaining * 2.0, MIN_ESCALATION_WINDOW);
      RatioBounds(remaining, window, 0.05);
      RatioBounds(remaining, window, 0.95);
      RatioBounds(remaining, window, 0.70);
    }
  }

  lemma PhasesAdvance(deadlineAt: real, t1: real, t2: real, total: Option<real>)
    requires t1 <= t2
    ensures Phase(deadlineAt - t1, total) <= Phase(deadlineAt - t2, total)
  {
  }

  /** Phase 1 exists only for windows shorter than 60 / 0.95 seconds. */
  predicate HasEarlyNotice(total: Option<real>) {
    IsKnown(total) && 0.95 * total.value < MIN_ESCALATION_WINDOW
  }

  /** The level never falls back as time passes, exactly for the windows without
      an early notice; a window that is not positive is one of them. */
  lemma LevelsRiseExactly(deadlineAt: real, total: Option<real>)
    ensures (forall t1: real, t2: real :: t1 <= t2 ==>
               Ordinal(ComputeDeadlineLevel(deadlineAt, t1, total).level)
               <= Ordinal(ComputeDeadlineLevel(deadlineAt, t2, total).level))
            <==> !HasEarlyNotice(total)
  {
    if HasEarlyNotice(total) {
      var t1 := deadlineAt - (0.95 * total.value + MIN_ESCALATION_WINDOW) / 2.0;
      var t2 := deadlineAt - 0.95 * total.value;
      LevelIsPhase(deadlineAt, t1, total);
      LevelIsPhase(deadlineAt, t2, total);
      assert Phase(deadlineAt - t1, total) == 1 && Phase(deadlineAt - t2, total) == 2;
    } else {
      forall t1: real, t2: real | t1 <= t2
        ensures Ordinal(ComputeDeadlineLevel(deadlineAt, t1, total).level)
             <= Ordinal(ComputeDeadlineLevel(deadlineAt, t2, total).level)
      {
        LevelIsPhase(deadlineAt, t1, total);
        LevelIsPhase(deadlineAt, t2, total);
        PhasesAdvance(deadlineAt, t1, t2, total);
      }
    }
  }

  /** The reported share is the elapsed one.  Before the window opens it is 0; when
      the window is not positive it is taken to be twice the time left, and at
      least a minute. */
  lemma ElapsedExactly(deadlineAt: real, now: real, createdAt: real)
    ensures var d := ComputeDeadlineLevel(deadlineAt, now, ContractWindow(deadlineAt, createdAt));
            d.remaining == deadlineAt - now &&
            (d.level == Breached <==> deadlineAt <= now) &&
            if deadlineAt <= now then d.elapsedRatio == 1.0
            else if createdAt < deadlineAt then
              d.elapsedRatio * (deadlineAt - createdAt) == if now <= createdAt then 0.0 else now - createdAt
            else if deadlineAt - now >= 30.0 then d.elapsedRatio == 0.5
            else d.elapsedRatio * 60.0 == 60.0 - (deadlineAt - now)
  {
    if now < deadlineAt && createdAt < deadlineAt {
      ElapsedOfWindow(deadlineAt - now, deadlineAt - createdAt);
    } else if now < deadlineAt {
      ElapsedOfDefault(deadlineAt - now);
    }
  }

  lemma ElapsedOfWindow(remaining: real, window: real)
    requires remaining > 0.0 && window > 0.0
    ensures Max(0.0, Min(1.0, 1.0 - remaining / window)) * window
            == if remaining >= window then 0.0 else window - remaining
  {
    var ratio := remaining / window;
    assert ratio * window == remaining;
    ScaleCompare(ratio, 1.0, window);
    ScaleCompare(0.0, ratio, window);
    assert (1.0 - ratio) * window == window - remaining;
  }

  lemma ElapsedOfDefault(remaining: real)
    requires remaining > 0.0
    ensures var elapsed := Max(0.0, Min(1.0, 1.0 - remaining / Max(remaining * 2.0, MIN_ESCALATION_WINDOW)));
            if remaining >= 30.0 then elapsed == 0.5 else elapsed * 60.0 == 60.0 - remaining
  {
    if remaining >= 30.0 {
      var ratio := remaining / (remaining * 2.0);
      assert ratio * (remaining * 2.0) == remaining;
      ScaleCompare(ratio, 0.5, remaining * 2.0);
      ScaleCompare(0.5, ratio, remaining * 2.0);
    }
  }

  /** Without a usable window the level is not always normal: it is so exactly
      while more than 18 seconds remain. */
  lemma UnknownWindowLevel(deadlineAt: real, now: real, total: Option<real>)
    requires !IsKnown(total)
    ensures ComputeDeadlineLevel(deadlineAt, now, total).level == Normal <==> deadlineAt - now > 18.0
  {
    LevelIsPhase(deadlineAt, now, total);
  }
}
