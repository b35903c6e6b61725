/**
 * The byte string a plan's content hash is taken over.
 *
 * Each step contributes its identifier, action, target and rationale, each
 * followed by byte 0, and its expected outcome followed by byte 1.
 */
module PlanHash {
  import opened Prelude
  import opened Decimal
  import Utf8

  const NUL: char := '\0'
  const SOH: char := '\U{01}'

  datatype PlanStep = PlanStep(stepId: int, action: string, target: string, rationale: string, expectedOutcome: string)

  function StepText(step: PlanStep): string {
    IntToString(step.stepId) + [NUL] + step.action + [NUL] + step.target + [NUL] + step.rationale + [NUL]
    + step.expectedOutcome + [SOH]
  }

  function Preimage(steps: seq<PlanStep>): seq<Utf8.Byte> {
    if steps == [] then [] else Utf8.Encode(StepText(steps[0])) + Preimage(steps[1..])
  }

  /** What the hasher has been fed when the loop over the steps is done. */
  method HashInput(steps: seq<PlanStep>) returns (fed: seq<Utf8.Byte>)
    ensures fed == Preimage(steps)
  {
    fed := [];
    for i := 0 to |steps|
      invariant fed == Preimage(steps[..i])
    {
      PreimageOfPrefix(steps, i);
      fed := FeedStep(fed, steps[i]);
    }
    assert steps[..|steps|] == steps;
  }

  lemma {:induction false} PreimageOfPrefix(steps: seq<PlanStep>, i: nat)
    requires i < |steps|
    ensures Preimage(steps[..i + 1]) == Preimage(steps[..i]) + Utf8.Encode(StepText(steps[i]))
  {
    if i == 0 {
      assert steps[..1] == [steps[0]] && steps[..1][1..] == [];
    } else {
      assert steps[..i + 1][1..] == steps[1..][..i] && steps[..i][1..] == steps[1..][..i - 1];
      PreimageOfPrefix(steps[1..], i - 1);
    }
  }

  method FeedStep(before: seq<Utf8.Byte>, step: PlanStep) returns (fed: seq<Utf8.Byte>)
    ensures fed == before + Utf8.Encode(StepText(step))
  {
    fed := before + Utf8.Encode(IntToString(step.stepId));
    fed := Feed(before, fed, IntToString(step.stepId), NUL, step.action);
    ghost var t := IntToString(step.stepId) + [NUL] + step.action;
    fed := Feed(before, fed, t, NUL, step.target);
    t := t + [NUL] + step.target;
    fed := Feed(before, fed, t, NUL, step.rationale);
    t := t + [NUL] + step.rationale;
    fed := Feed(before, fed, t, NUL, step.expectedOutcome);
    t := t + [NUL] + step.expectedOutcome;
    fed := fed + [1];
    Join(t, SOH, "");
    assert t + [SOH] + "" == StepText(step);
  }

  /** Feed a separator and a field to a hasher that has already seen `text`. */
  method Feed(ghost before: seq<Utf8.Byte>, fed: seq<Utf8.Byte>, ghost text: string, separator: char, field: string)
    returns (next: seq<Utf8.Byte>)
    requires fed == before + Utf8.Encode(text) && separator in {NUL, SOH}
    ensures next == before + Utf8.Encode(text + [separator] + field)
  {
    Join(text, separator, field);
    next := fed + [separator as int] + Utf8.Encode(field);
  }

  lemma Join(a: string, c: char, b: string)
    requires c == NUL || c == SOH
    ensures Utf8.Encode(a + [c] + b) == Utf8.Encode(a) + [c as int] + Utf8.Encode(b)
  {
    Utf8.EncodeAppend(a, [c]);
    Utf8.EncodeAppend(a + [c], b);
    assert [c][1..] == "";
  }

  // ----- reading a preimage back -----

  /** The text before the first `stop`, and the text after it. */
  function TakeUntil(s: string, stop: char): Option<(string, string)>
    decreases s
  {
    if s == "" then None
    else if s[0] == stop then Some(("", s[1..]))
    else
      match TakeUntil(s[1..], stop)
      case None => None
      case Some((field, rest)) => Some(([s[0]] + field, rest))
  }

  function ReadStep(s: string): Option<(PlanStep, string)> {
    var id := TakeUntil(s, NUL);
    if id.None? || !IsNumeral(id.value.0) then None else
    var action := TakeUntil(id.value.1, NUL);
    if action.None? then None else
    var target := TakeUntil(action.value.1, NUL);
    if target.None? then None else
    var rationale := TakeUntil(target.value.1, NUL);
    if rationale.None? then None else
    var outcome := TakeUntil(rationale.value.1, SOH);
    if outcome.None? then None else
    Some((PlanStep(ParseInt(id.value.0), action.value.0, target.value.0, rationale.value.0, outcome.value.0),
          outcome.value.1))
  }

  function ReadSteps(s: string): Option<seq<PlanStep>>
    decreases |s|
  {
    if s == "" then Some([])
    else
      match ReadStep(s)
      case None => None
      case Some((step, rest)) =>
        ReadStepConsumes(s);
        match ReadSteps(rest)
        case None => None
        case Some(steps) => Some([step] + steps)
  }

  function Decode(preimage: seq<Utf8.Byte>): Option<seq<PlanStep>> {
    match Utf8.Decode(preimage)
    case None => None
    case Some(text) => ReadSteps(text)
  }

  lemma {:induction false} TakeUntilReads(s: string, stop: char)
    ensures TakeUntil(s, stop).Some? ==>
              var (field, rest) := TakeUntil(s, stop).value;
              stop !in field && s == field + [stop] + rest
    decreases s
  {
    if s != "" && s[0] != stop {
      TakeUntilReads(s[1..], stop);
    }
  }

  lemma {:induction false} TakeUntilWrites(field: string, stop: char, rest: string)
    requires stop !in field
    ensures TakeUntil(field + [stop] + rest, stop) == Some((field, rest))
    decreases field
  {
    var s := field + [stop] + rest;
    if field == "" {
      assert s[1..] == rest;
    } else {
      assert s[1..] == field[1..] + [stop] + rest && s[0] == field[0];
      TakeUntilWrites(field[1..], stop, rest);
      assert field == [field[0]] + field[1..];
    }
  }

  lemma ReadStepConsumes(s: string)
    ensures ReadStep(s).Some? ==> |ReadStep(s).value.1| < |s|
  {
    if ReadStep(s).Some? {
      var id := TakeUntil(s, NUL);
      TakeUntilReads(s, NUL);
      var action := TakeUntil(id.value.1, NUL);
      TakeUntilReads(id.value.1, NUL);
      var target := TakeUntil(action.value.1, NUL);
      TakeUntilReads(action.value.1, NUL);
      var rationale := TakeUntil(target.value.1, NUL);
      TakeUntilReads(target.value.1, NUL);
      TakeUntilReads(rationale.value.1, SOH);
    }
  }

  // ----- unique decoding -----

  /** No field contains the byte that ends it. */
  predicate IsClean(step: PlanStep) {
    NUL !in step.action && NUL !in step.target && NUL !in step.rationale && SOH !in step.expectedOutcome
  }

  predicate AllClean(steps: seq<PlanStep>) {
    forall i :: 0 <= i < |steps| ==> IsClean(steps[i])
  }

  function Text(steps: seq<PlanStep>): string {
    if steps == [] then "" else StepText(steps[0]) + Text(steps[1..])
  }

  lemma {:induction false} PreimageIsEncodedText(steps: seq<PlanStep>)
    ensures Preimage(steps) == Utf8.Encode(Text(steps))
  {
    if steps != [] {
      PreimageIsEncodedText(steps[1..]);
      Utf8.EncodeAppend(StepText(steps[0]), Text(steps[1..]));
    }
  }

  lemma ReadStepBack(step: PlanStep, rest: string)
    requires IsClean(step)
    ensures ReadStep(StepText(step) + rest) == Some((step, rest))
  {
    var r4 := step.expectedOutcome + [SOH] + rest;
    var r3 := step.rationale + [NUL] + r4;
    var r2 := step.target + [NUL] + r3;
    var r1 := step.action + [NUL] + r2;
    var id := IntToString(step.stepId);
    assert StepText(step) + rest == id + [NUL] + r1;
    IntRoundTrip(step.stepId);
    TakeUntilWrites(id, NUL, r1);
    TakeUntilWrites(step.action, NUL, r2);
    TakeUntilWrites(step.target, NUL, r3);
    TakeUntilWrites(step.rationale, NUL, r4);
    TakeUntilWrites(step.expectedOutcome, SOH, rest);
  }

  lemma ReadOneMore(s: string, step: PlanStep, rest: string, steps: seq<PlanStep>)
    requires s != "" && ReadStep(s) == Some((step, rest)) && ReadSteps(rest) == Some(steps)
    ensures ReadSteps(s) == Some([step] + steps)
  {
  }

  lemma {:induction false} ReadStepsBack(steps: seq<PlanStep>)
    requires AllClean(steps)
    ensures ReadSteps(Text(steps)) == Some(steps)
  {
    if steps != [] {
      ReadStepBack(steps[0], Text(steps[1..]));
      ReadStepsBack(steps[1..]);
      ReadOneMore(Text(steps), steps[0], Text(steps[1..]), steps[1..]);
      assert steps == [steps[0]] + steps[1..];
    }
  }

  lemma {:induction false} ReadStepsAreClean(s: string)
    ensures ReadSteps(s).Some? ==> AllClean(ReadSteps(s).value)
    decreases |s|
  {
    if s != "" && ReadStep(s).Some? {
      var (step, rest) := ReadStep(s).value;
      ReadStepConsumes(s);
      ReadStepsAreClean(rest);
      ReadStepIsClean(s);
    }
  }

  lemma ReadStepIsClean(s: string)
    requires ReadStep(s).Some?
    ensures IsClean(ReadStep(s).value.0)
  {
    var id := TakeUntil(s, NUL);
    var action := TakeUntil(id.value.1, NUL);
    var target := TakeUntil(action.value.1, NUL);
    var rationale := TakeUntil(target.value.1, NUL);
    TakeUntilReads(id.value.1, NUL);
    TakeUntilReads(action.value.1, NUL);
    TakeUntilReads(target.value.1, NUL);
    TakeUntilReads(rationale.value.1, SOH);
  }

  /** The preimage of a plan reads back as that plan exactly when no field holds
      the byte that ends it. */
  lemma PreimageRoundTrip(steps: seq<PlanStep>)
    ensures Decode(Preimage(steps)) == Some(steps) <==> AllClean(steps)
  {
    PreimageIsEncodedText(steps);
    Utf8.RoundTrip(Text(steps));
    if AllClean(steps) {
      ReadStepsBack(steps);
    } else {
      ReadStepsAreClean(Text(steps));
    }
  }

  /** Distinct clean plans are hashed over distinct byte strings. */
  lemma PreimageInjective(p: seq<PlanStep>, q: seq<PlanStep>)
    requires AllClean(p) && AllClean(q) && Preimage(p) == Preimage(q)
    ensures p == q
  {
    PreimageRoundTrip(p);
    PreimageRoundTrip(q);
  }

  /** Without that condition two different plans can share a preimage. */
  lemma PreimageCollision()
    ensures var p := [PlanStep(1, "run command", "a\0b", "c", "d")];
            var q := [PlanStep(1, "run command", "a", "b\0c", "d")];
            p != q && Preimage(p) == Preimage(q)
  {
    var p := PlanStep(1, "run command", "a\0b", "c", "d");
    var q := PlanStep(1, "run command", "a", "b\0c", "d");
    assert p.target + [NUL] + p.rationale == q.target + [NUL] + q.rationale;
    SameMiddle(p, q);
  }

  lemma SameMiddle(p: PlanStep, q: PlanStep)
    requires p.stepId == q.stepId && p.action == q.action && p.expectedOutcome == q.expectedOutcome
    requires p.target + [NUL] + p.rationale == q.target + [NUL] + q.rationale
    ensures Preimage([p]) == Preimage([q])
  {
    var head, tail := IntToString(p.stepId) + [NUL] + p.action + [NUL], [NUL] + p.expectedOutcome + [SOH];
    assert StepText(p) == head + (p.target + [NUL] + p.rationale) + tail;
    assert StepText(q) == head + (q.target + [NUL] + q.rationale) + tail;
  }
}
