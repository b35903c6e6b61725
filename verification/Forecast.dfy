/**
 * Deadline risk derived from a forecast and a sample of past durations.
 *
 * Times are minutes on one time line, arithmetic is over the reals.
 */
module Forecast {
  import opened Prelude

  datatype Forecast = Forecast(
    queueMinutes: Option<real>,
    startupMinutes: Option<real>,
    remainingMinutes: Option<real>,
    verificationMinutes: Option<real>,
    retryReserveMinutes: Option<real>,
    safetyMarginMinutes: Option<real>,
    p50: Option<real>,
    p90: Option<real>,
    pFinish: Option<real>)

  datatype Risk = Green | Unknown | Yellow | Orange | Red | Missed

  datatype Reason =
    | DeadlinePassed | ForecastTooLong | FinishUnlikely | SlackNarrow | FinishDoubtful | Healthy | NoEvidence

  datatype Confidence = Low | High

  /** How precise the forecast may be called. */
  datatype Precision = Coarse | Historical

  /** Where the finish probability comes from. */
  datatype Basis = Empirical | Heuristic | Unavailable

  datatype Snapshot = Snapshot(
    slackP50: Option<real>, slackP90: Option<real>, pFinish: Option<real>, basis: Basis,
    confidence: Confidence, precision: Precision, risk: Risk, reason: Reason,
    nextDecisionAt: Option<real>, sampleCount: nat)

  function Severity(r: Risk): nat {
    match r
    case Green => 0
    case Unknown => 1
    case Yellow => 2
    case Orange => 3
    case Red => 4
    case Missed => 5
  }

  function OrZero(v: Option<real>): real {
    match v case None => 0.0 case Some(x) => x
  }

  function Max(a: real, b: real): real {
    if a >= b then a else b
  }

  function Clamp(p: real): real {
    Max(0.0, if p <= 1.0 then p else 1.0)
  }

  /** Durations that can be observations: the non-negative ones. */
  function Observed(samples: seq<real>): seq<real> {
    if samples == [] then []
    else (if samples[0] >= 0.0 then [samples[0]] else []) + Observed(samples[1..])
  }

  /** How many durations fit in the available time. */
  function CountWithin(durations: seq<real>, available: real): nat {
    if durations == [] then 0
    else (if durations[0] <= available then 1 else 0) + CountWithin(durations[1..], available)
  }

  function FixedOverhead(f: Forecast): real {
    OrZero(f.queueMinutes) + OrZero(f.startupMinutes) + OrZero(f.verificationMinutes) + OrZero(f.safetyMarginMinutes)
  }

  function FinishProbability(f: Forecast, observed: seq<real>, remaining: real): Option<real> {
    if observed == [] then f.pFinish
    else
      var available := Max(remaining - FixedOverhead(f), 0.0);
      Some(CountWithin(observed, available) as real / |observed| as real)
  }

  function ReasonOf(remaining: real, slackP90: Option<real>, p: Option<real>): Reason {
    if remaining < 0.0 then DeadlinePassed
    else if slackP90.Some? && slackP90.value < 0.0 then ForecastTooLong
    else if p.Some? && p.value < 0.40 then FinishUnlikely
    else if slackP90.Some? && slackP90.value < 0.25 * Max(remaining, 1.0) then SlackNarrow
    else if p.Some? && p.value < 0.65 then FinishDoubtful
    else if p.Some? && p.value >= 0.85 && OrZero(slackP90) >= 0.0 then Healthy
    else NoEvidence
  }

  function RiskFor(reason: Reason): Risk {
    match reason
    case DeadlinePassed => Missed
    case ForecastTooLong => Red
    case FinishUnlikely => Red
    case SlackNarrow => Orange
    case FinishDoubtful => Yellow
    case Healthy => Green
    case NoEvidence => Unknown
  }

  function RiskOf(remaining: real, slackP90: Option<real>, p: Option<real>): Risk {
    RiskFor(ReasonOf(remaining, slackP90, p))
  }

  function Slack(remaining: real, forecast: Option<real>): Option<real> {
    match forecast case None => None case Some(m) => Some(remaining - m)
  }

  function BuildDeadlineSnapshot(f: Forecast, computedAt: real, dueAt: real, sampleCount: int, samples: seq<real>,
                                 staleAfter: real, updatedAt: Option<real>, next: Option<real>): Snapshot
  {
    var remaining := dueAt - computedAt;
    var observed := Observed(samples);
    var raw := FinishProbability(f, observed, remaining);
    var stale := updatedAt.Some? && computedAt - updatedAt.value > staleAfter;
    var complete := f.queueMinutes.Some? && f.startupMinutes.Some? && f.remainingMinutes.Some? &&
                    f.verificationMinutes.Some? && f.retryReserveMinutes.Some? && f.safetyMarginMinutes.Some? &&
                    f.p50.Some? && f.p90.Some? && raw.Some?;
    var p := match raw case None => None case Some(x) => Some(Clamp(x));
    var confidence := if sampleCount < 3 || !complete || stale then Low else High;
    var reason := ReasonOf(remaining, Slack(remaining, f.p90), p);
    Snapshot(Slack(remaining, f.p50), Slack(remaining, f.p90), p,
             if observed != [] then Empirical else if f.pFinish.Some? then Heuristic else Unavailable,
             confidence, if confidence.Low? then Coarse else Historical, RiskFor(reason), reason, next,
             if observed != [] then |observed| else if sampleCount > 0 then sampleCount else 0)
  }

  // ----- risk over time -----

  lemma {:induction false} FewerFitLater(durations: seq<real>, earlier: real, later: real)
    requires later <= earlier
    ensures CountWithin(durations, later) <= CountWithin(durations, earlier) <= |durations|
  {
    if durations != [] {
      FewerFitLater(durations[1..], earlier, later);
    }
  }

  /** The observations are the samples that are not negative. */
  lemma {:induction false} ObservedExactly(samples: seq<real>, d: real)
    ensures multiset(Observed(samples))[d] == if d >= 0.0 then multiset(samples)[d] else 0
  {
    if samples != [] {
      ObservedExactly(samples[1..], d);
      assert samples == [samples[0]] + samples[1..];
    }
  }

  /** An unknown overhead counts as none. */
  lemma UnknownIsNone(f: Forecast)
    ensures FixedOverhead(f.(queueMinutes := None)) == FixedOverhead(f.(queueMinutes := Some(0.0)))
    ensures FixedOverhead(f.(startupMinutes := None)) == FixedOverhead(f.(startupMinutes := Some(0.0)))
    ensures FixedOverhead(f.(verificationMinutes := None)) == FixedOverhead(f.(verificationMinutes := Some(0.0)))
    ensures FixedOverhead(f.(safetyMarginMinutes := None)) == FixedOverhead(f.(safetyMarginMinutes := Some(0.0)))
  {
  }

  lemma ProbabilityFalls(f: Forecast, observed: seq<real>, earlier: real, later: real)
    requires later <= earlier
    ensures var p, q := FinishProbability(f, observed, earlier), FinishProbability(f, observed, later);
            p.Some? == q.Some? && (p.Some? ==> q.value <= p.value)
  {
    if observed != [] {
      var a := Max(earlier - FixedOverhead(f), 0.0);
      var b := Max(later - FixedOverhead(f), 0.0);
      FewerFitLater(observed, a, b);
      DivideMonotone(CountWithin(observed, b) as real, CountWithin(observed, a) as real, |observed| as real);
    }
  }

  lemma DivideMonotone(a: real, b: real, n: real)
    requires a <= b && n > 0.0
    ensures a / n <= b / n
  {
    assert (b - a) / n >= 0.0;
    assert a / n + (b - a) / n == b / n;
  }

  /** The narrow-slack test, once true, stays true, across the point where less
      than a minute remains and its right side becomes constant. */
  lemma NarrowSlackPersists(earlier: real, later: real, p90: real)
    requires later <= earlier && earlier - p90 < 0.25 * Max(earlier, 1.0)
    ensures later - p90 < 0.25 * Max(later, 1.0)
  {
    if earlier > 1.0 {
      assert 0.75 * later <= 0.75 * earlier < p90;
    }
  }

  /** With evidence and samples fixed, the risk never improves as time passes. */
  lemma RiskNeverImproves(f: Forecast, t1: real, t2: real, dueAt: real, sampleCount: int, samples: seq<real>,
                          staleAfter: real, updatedAt: Option<real>, next: Option<real>)
    requires t1 <= t2
    ensures Severity(BuildDeadlineSnapshot(f, t1, dueAt, sampleCount, samples, staleAfter, updatedAt, next).risk)
         <= Severity(BuildDeadlineSnapshot(f, t2, dueAt, sampleCount, samples, staleAfter, updatedAt, next).risk)
  {
    var earlier, later := dueAt - t1, dueAt - t2;
    ProbabilityFalls(f, Observed(samples), earlier, later);
    if f.p90.Some? && earlier - f.p90.value < 0.25 * Max(earlier, 1.0) {
      NarrowSlackPersists(earlier, later, f.p90.value);
    }
  }

  /** The same over a whole series of observations of one contract. */
  lemma {:induction false} RiskNeverImprovesOverARun(f: Forecast, times: seq<real>, i: nat, j: nat, dueAt: real,
                                                     sampleCount: int, samples: seq<real>, staleAfter: real,
                                                     updatedAt: Option<real>, next: Option<real>)
    requires i <= j < |times| && forall k :: 0 < k < |times| ==> times[k - 1] <= times[k]
    ensures Severity(BuildDeadlineSnapshot(f, times[i], dueAt, sampleCount, samples, staleAfter, updatedAt, next).risk)
         <= Severity(BuildDeadlineSnapshot(f, times[j], dueAt, sampleCount, samples, staleAfter, updatedAt, next).risk)
    decreases j - i
  {
    if i < j {
      RiskNeverImprovesOverARun(f, times, i, j - 1, dueAt, sampleCount, samples, staleAfter, updatedAt, next);
      RiskNeverImproves(f, times[j - 1], times[j], dueAt, sampleCount, samples, staleAfter, updatedAt, next);
    }
  }

  predicate AllFit(durations: seq<real>, available: real) {
    forall i :: 0 <= i < |durations| ==> durations[i] <= available
  }

  predicate NoneFits(durations: seq<real>, available: real) {
    forall i :: 0 <= i < |durations| ==> durations[i] > available
  }

  lemma {:induction false} CountExtremes(durations: seq<real>, available: real)
    ensures CountWithin(durations, available) <= |durations|
    ensures CountWithin(durations, available) == |durations| <==> AllFit(durations, available)
    ensures CountWithin(durations, available) == 0 <==> NoneFits(durations, available)
  {
    if durations != [] {
      var first, rest := [durations[0]], durations[1..];
      CountExtremes(rest, available);
      assert durations == first + rest;
    }
  }

  lemma ShareExtremes(count: real, n: real)
    requires 0.0 <= count <= n && n > 0.0
    ensures 0.0 <= count / n <= 1.0 && (count / n == 1.0 <==> count == n) && (count / n == 0.0 <==> count == 0.0)
  {
    DivideMonotone(0.0, count, n);
    DivideMonotone(count, n, n);
    assert count == count / n * n;
  }

  /** The empirical probability is one exactly when every observed duration fits
      in the time available, and zero exactly when none does. */
  lemma ProbabilityExtremes(f: Forecast, observed: seq<real>, remaining: real)
    requires observed != []
    ensures var p := FinishProbability(f, observed, remaining);
            var available := Max(remaining - FixedOverhead(f), 0.0);
            p.Some? && 0.0 <= p.value <= 1.0 &&
            (p.value == 1.0 <==> AllFit(observed, available)) &&
            (p.value == 0.0 <==> NoneFits(observed, available))
  {
    var available := Max(remaining - FixedOverhead(f), 0.0);
    CountExtremes(observed, available);
    ShareExtremes(CountWithin(observed, available) as real, |observed| as real);
  }

  /** The observations that fit, by their positions. */
  function Fitting(durations: seq<real>, available: real): set<int> {
    set i | 0 <= i < |durations| && durations[i] <= available
  }

  lemma {:induction false} CountIsFitting(durations: seq<real>, available: real)
    ensures CountWithin(durations, available) == |Fitting(durations, available)|
  {
    if durations == [] {
      assert Fitting(durations, available) == {};
    } else {
      var n := |durations| - 1;
      var front := durations[..n];
      CountIsFitting(front, available);
      CountOneMore(front, durations[n], available);
      assert durations == front + [durations[n]];
      assert Fitting(durations, available)
          == Fitting(front, available) + if durations[n] <= available then {n} else {};
    }
  }

  lemma {:induction false} CountOneMore(durations: seq<real>, last: real, available: real)
    ensures CountWithin(durations + [last], available)
         == CountWithin(durations, available) + if last <= available then 1 else 0
  {
    if durations == [] {
      assert ([last])[1..] == [] && durations + [last] == [last];
    } else {
      assert (durations + [last])[1..] == durations[1..] + [last];
      CountOneMore(durations[1..], last, available);
    }
  }

  /** The empirical probability is the share of the observations that fit. */
  lemma ProbabilityIsShare(f: Forecast, observed: seq<real>, remaining: real)
    requires observed != []
    ensures var p := FinishProbability(f, observed, remaining);
            p.Some? &&
            p.value * |observed| as real == |Fitting(observed, Max(remaining - FixedOverhead(f), 0.0))| as real
  {
    CountIsFitting(observed, Max(remaining - FixedOverhead(f), 0.0));
  }

  /** In terms of finishing: the probability is one exactly when every observed
      duration, after queue and startup and before verification and the safety
      margin, ends by the due date, or takes no time at all; unknown overheads
      count as none. */
  lemma AllFitMeans(f: Forecast, observed: seq<real>, computedAt: real, dueAt: real)
    requires observed != [] && forall i :: 0 <= i < |observed| ==> observed[i] >= 0.0
    ensures var p := FinishProbability(f, observed, dueAt - computedAt);
            p.Some? &&
            (p.value == 1.0 <==>
               forall i :: 0 <= i < |observed| ==>
                 computedAt + OrZero(f.queueMinutes) + OrZero(f.startupMinutes) + observed[i]
                   + OrZero(f.verificationMinutes) + OrZero(f.safetyMarginMinutes) <= dueAt || observed[i] == 0.0)
  {
    ProbabilityExtremes(f, observed, dueAt - computedAt);
  }

  /** The risk read as conditions on the evidence rather than as a chain of
      tests: each severity is reached exactly when its condition or a worse one
      holds, and green needs positive evidence. */
  lemma RiskIsTheWorstThatHolds(remaining: real, slackP90: Option<real>, p: Option<real>)
    ensures var r := RiskOf(remaining, slackP90, p);
            var late := remaining < 0.0;
            var hopeless := (slackP90.Some? && slackP90.value < 0.0) || (p.Some? && p.value < 0.40);
            var narrow := slackP90.Some? && slackP90.value < 0.25 * Max(remaining, 1.0);
            var doubtful := p.Some? && p.value < 0.65;
            (r == Missed <==> late) &&
            (Severity(r) >= 4 <==> late || hopeless) &&
            (Severity(r) >= 3 <==> late || hopeless || narrow) &&
            (Severity(r) >= 2 <==> late || hopeless || narrow || doubtful) &&
            (r == Green <==> !late && !narrow && p.Some? && p.value >= 0.85)
  {
  }

  /** A snapshot in terms of finishing times: missed exactly when the due date is
      past, and otherwise red exactly when the p90 finish lies behind it or
      finishing has a chance under 0.40, with the reason saying which; green
      exactly when finishing has a chance of 0.85 and, where a p90 finish is known,
      a quarter of the remaining time (at least of a minute) is left after it. */
  lemma SnapshotMeaning(f: Forecast, computedAt: real, dueAt: real, sampleCount: int, samples: seq<real>,
                        staleAfter: real, updatedAt: Option<real>, next: Option<real>)
    ensures var s := BuildDeadlineSnapshot(f, computedAt, dueAt, sampleCount, samples, staleAfter, updatedAt, next);
            var tooLong := f.p90.Some? && computedAt + f.p90.value > dueAt;
            var unlikely := s.pFinish.Some? && s.pFinish.value < 0.40;
            var spare := 0.25 * Max(dueAt - computedAt, 1.0);
            (s.risk == Missed <==> computedAt > dueAt) &&
            (s.risk == Red <==> computedAt <= dueAt && (tooLong || unlikely)) &&
            (s.risk == Red && tooLong ==> s.reason == ForecastTooLong) &&
            (s.risk == Red && !tooLong ==> s.reason == FinishUnlikely) &&
            (s.risk == Green <==> computedAt <= dueAt && s.pFinish.Some? && s.pFinish.value >= 0.85 &&
                                  (f.p90.Some? ==> computedAt + f.p90.value + spare <= dueAt))
  {
    var remaining := dueAt - computedAt;
    var p := FinishProbability(f, Observed(samples), remaining);
    RiskIsTheWorstThatHolds(remaining, Slack(remaining, f.p90), if p.None? then None else Some(Clamp(p.value)));
  }

  /** In between: orange when less than that quarter is left after the p90 finish,
      yellow when the chance is under 0.65, and unknown for want of evidence.
      Each reason but two goes with one risk. */
  lemma SnapshotMiddle(f: Forecast, computedAt: real, dueAt: real, sampleCount: int, samples: seq<real>,
                       staleAfter: real, updatedAt: Option<real>, next: Option<real>)
    ensures var s := BuildDeadlineSnapshot(f, computedAt, dueAt, sampleCount, samples, staleAfter, updatedAt, next);
            var tooLong := f.p90.Some? && computedAt + f.p90.value > dueAt;
            var unlikely := s.pFinish.Some? && s.pFinish.value < 0.40;
            var spare := 0.25 * Max(dueAt - computedAt, 1.0);
            var narrow := f.p90.Some? && computedAt + f.p90.value + spare > dueAt;
            var inTime := computedAt <= dueAt && !tooLong && !unlikely;
            (s.risk == Orange <==> inTime && narrow) &&
            (s.risk == Yellow <==> inTime && !narrow && s.pFinish.Some? && s.pFinish.value < 0.65) &&
            (s.risk == Unknown <==> inTime && !narrow && (s.pFinish.Some? ==> 0.65 <= s.pFinish.value < 0.85)) &&
            (s.risk == Missed <==> s.reason == DeadlinePassed) && (s.risk == Orange <==> s.reason == SlackNarrow) &&
            (s.risk == Yellow <==> s.reason == FinishDoubtful) && (s.risk == Green <==> s.reason == Healthy) &&
            (s.risk == Unknown <==> s.reason == NoEvidence)
  {
  }

  /** Confidence is high, and the forecast called historical, exactly when nothing
      is missing or stale. */
  lemma SnapshotEvidence(f: Forecast, computedAt: real, dueAt: real, sampleCount: int, samples: seq<real>,
                         staleAfter: real, updatedAt: Option<real>, next: Option<real>)
    ensures var s := BuildDeadlineSnapshot(f, computedAt, dueAt, sampleCount, samples, staleAfter, updatedAt, next);
            (s.slackP50.Some? <==> f.p50.Some?) &&
            (f.p50.Some? ==> (s.slackP50.value >= 0.0 <==> computedAt + f.p50.value <= dueAt)) &&
            (s.confidence == High <==>
               sampleCount >= 3 && IsComplete(f, samples) &&
               (updatedAt.Some? ==> computedAt <= updatedAt.value + staleAfter)) &&
            (s.precision == Historical <==> s.confidence == High) &&
            s.nextDecisionAt == next
  {
  }

  /** The chance is the share of the observed durations that fit, if any were
      observed. */
  lemma SnapshotProbability(f: Forecast, computedAt: real, dueAt: real, sampleCount: int, samples: seq<real>,
                            staleAfter: real, updatedAt: Option<real>, next: Option<real>)
    ensures var s := BuildDeadlineSnapshot(f, computedAt, dueAt, sampleCount, samples, staleAfter, updatedAt, next);
            var observed := Observed(samples);
            var available := Max(dueAt - computedAt - FixedOverhead(f), 0.0);
            (s.basis == Empirical <==> observed != []) &&
            (s.basis == Unavailable <==> s.pFinish.None?) &&
            (s.pFinish.Some? ==> 0.0 <= s.pFinish.value <= 1.0) &&
            (observed != [] ==> s.sampleCount == |observed|) &&
            (observed != [] ==> (s.pFinish.value == 1.0 <==> AllFit(observed, available))) &&
            (observed != [] ==> (s.pFinish.value == 0.0 <==> NoneFits(observed, available)))
  {
    if Observed(samples) != [] {
      ProbabilityExtremes(f, Observed(samples), dueAt - computedAt);
    }
  }

  /** Every component of the forecast is known, the finish probability perhaps
      from samples only. */
  predicate IsComplete(f: Forecast, samples: seq<real>) {
    f.queueMinutes.Some? && f.startupMinutes.Some? && f.remainingMinutes.Some? && f.verificationMinutes.Some? &&
    f.retryReserveMinutes.Some? && f.safetyMarginMinutes.Some? && f.p50.Some? && f.p90.Some? &&
    (f.pFinish.Some? || Observed(samples) != [])
  }
}
