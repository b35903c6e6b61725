/**
 * The content identity of an acceptance: its canonical payload, and what the
 * store does to it.
 */
module Fingerprint {
  import opened Prelude
  import opened Json

  datatype CheckKind =
    | FileExists | FileContentMatches | CommandExitZero | ArtifactPresent | StructureValid
    | Observable | UserAssertion | OutputContains | OutputNotContains | OutputMatches
    | FileNotEmpty | LineCountMin | LineCountMax | NoForbidden | JsonPathEquals

  function KindValue(k: CheckKind): string {
    match k
    case FileExists => "file-exists"
    case FileContentMatches => "file-content-matches"
    case CommandExitZero => "command-exit-zero"
    case ArtifactPresent => "artifact-present"
    case StructureValid => "structure-valid"
    case Observable => "observable"
    case UserAssertion => "user-assertion"
    case OutputContains => "output-contains"
    case OutputNotContains => "output-not-contains"
    case OutputMatches => "output-matches"
    case FileNotEmpty => "file-not-empty"
    case LineCountMin => "line-count-min"
    case LineCountMax => "line-count-max"
    case NoForbidden => "no-forbidden"
    case JsonPathEquals => "json-path-equals"
  }

  function ParseKind(s: string): Option<CheckKind> {
    if s == "file-exists" then Some(FileExists)
    else if s == "file-content-matches" then Some(FileContentMatches)
    else if s == "command-exit-zero" then Some(CommandExitZero)
    else if s == "artifact-present" then Some(ArtifactPresent)
    else if s == "structure-valid" then Some(StructureValid)
    else if s == "observable" then Some(Observable)
    else if s == "user-assertion" then Some(UserAssertion)
    else if s == "output-contains" then Some(OutputContains)
    else if s == "output-not-contains" then Some(OutputNotContains)
    else if s == "output-matches" then Some(OutputMatches)
    else if s == "file-not-empty" then Some(FileNotEmpty)
    else if s == "line-count-min" then Some(LineCountMin)
    else if s == "line-count-max" then Some(LineCountMax)
    else if s == "no-forbidden" then Some(NoForbidden)
    else if s == "json-path-equals" then Some(JsonPathEquals)
    else None
  }

  datatype CheckSpec = CheckSpec(kind: CheckKind, target: string, args: map<string, Json>, mandatory: bool,
                                 note: string)

  datatype LoadError = TypeError | KeyError | ValueError

  /** What depends on the host language: white space, and the text of values
      that are not strings. */
  datatype Host = Host(isSpace: char -> bool, render: Json -> string)

  function CheckToDict(c: CheckSpec): map<string, Json> {
    map["kind" := Str(KindValue(c.kind)), "target" := Str(c.target), "args" := Obj(c.args),
        "mandatory" := Bool(c.mandatory), "note" := Str(c.note)]
  }

  function CheckFromDict(h: Host, data: map<string, Json>): Result<CheckSpec, LoadError> {
    var target := Get(data, "target", Null);
    var mandatory := Get(data, "mandatory", Bool(true));
    var args := Get(data, "args", Obj(map[]));
    if !target.Str? || IsBlank(h.isSpace, target.s) then Err(TypeError)
    else if !mandatory.Bool? then Err(TypeError)
    else if !args.Null? && !args.Obj? then Err(TypeError)
    else if "kind" !in data then Err(KeyError)
    else
      var kind := ParseKind(ToText(h.render, data["kind"]));
      if kind.None? then Err(ValueError)
      else Ok(CheckSpec(kind.value, target.s, if args.Obj? then args.fields else map[], mandatory.b,
                        ToText(h.render, Get(data, "note", Str("")))))
  }

  /** An entry of an acceptance: legacy free text, a typed check, or a raw
      mapping that never went through the parser. */
  datatype Check = Text(text: string) | Typed(spec: CheckSpec) | Raw(fields: map<string, Json>)

  function ParseCheck(h: Host, v: Json): Result<Check, LoadError> {
    if v.Obj? then
      match CheckFromDict(h, v.fields)
      case Ok(c) => Ok(Typed(c))
      case Err(e) => Err(e)
    else Ok(Text(ToText(h.render, v)))
  }

  function CanonicalCheck(h: Host, c: Check): Json {
    match c
    case Text(t) => Str(t)
    case Typed(spec) => Obj(CheckToDict(spec))
    case Raw(fields) =>
      match CheckFromDict(h, fields)
      case Ok(spec) => Obj(CheckToDict(spec))
      case Err(_) => Obj(fields)
  }

  datatype Acceptance = Acceptance(standard: string, checks: seq<Check>, verifier: string, spec: Json, specHash: Json)

  function CanonicalChecks(h: Host, checks: seq<Check>): seq<Json> {
    if checks == [] then [] else [CanonicalCheck(h, checks[0])] + CanonicalChecks(h, checks[1..])
  }

  /** What the fingerprint is a hash of. */
  function Payload(h: Host, a: Acceptance): Json {
    Obj(map["standard" := Str(a.standard), "verifier" := Str(a.verifier),
            "checks" := Arr(CanonicalChecks(h, a.checks)), "spec" := a.spec])
  }

  // ----- the store -----

  function StoredCheck(c: Check): Json {
    match c
    case Text(t) => Str(t)
    case Typed(spec) => Obj(CheckToDict(spec))
    case Raw(fields) => Obj(fields)
  }

  function StoredChecks(checks: seq<Check>): seq<Json> {
    if checks == [] then [] else [StoredCheck(checks[0])] + StoredChecks(checks[1..])
  }

  function ToDict(a: Acceptance): map<string, Json> {
    map["standard" := Str(a.standard), "checks" := Arr(StoredChecks(a.checks)), "verifier" := Str(a.verifier),
        "spec" := a.spec, "spec_hash" := a.specHash]
  }

  function ParseChecks(h: Host, items: seq<Json>): Result<seq<Check>, LoadError> {
    if items == [] then Ok([])
    else
      match ParseCheck(h, items[0])
      case Err(e) => Err(e)
      case Ok(c) =>
        match ParseChecks(h, items[1..])
        case Err(e) => Err(e)
        case Ok(cs) => Ok([c] + cs)
  }

  function FromDict(h: Host, data: map<string, Json>): Result<Acceptance, LoadError> {
    if "standard" !in data then Err(KeyError)
    else
      var checks := Get(data, "checks", Null);
      if IsTruthy(checks) && !checks.Arr? then Err(TypeError)
      else
        match ParseChecks(h, if checks.Arr? then checks.items else [])
        case Err(e) => Err(e)
        case Ok(cs) =>
          var verifier := Get(data, "verifier", Null);
          Ok(Acceptance(ToText(h.render, data["standard"]), cs,
                        if IsTruthy(verifier) then ToText(h.render, verifier) else "cross_check",
                        Get(data, "spec", Null), Get(data, "spec_hash", Null)))
  }

  function RoundTrip(h: Host, a: Acceptance): Result<Acceptance, LoadError> {
    FromDict(h, ToDict(a))
  }

  function RoundTrips(h: Host, a: Acceptance, n: nat): Result<Acceptance, LoadError> {
    if n == 0 then Ok(a)
    else
      match RoundTrips(h, a, n - 1)
      case Err(e) => Err(e)
      case Ok(b) => RoundTrip(h, b)
  }

  // ----- what a round trip does -----

  lemma KindRoundTrip(k: CheckKind)
    ensures ParseKind(KindValue(k)) == Some(k)
  {
    match k {
      case FileExists => case FileContentMatches => case CommandExitZero => case ArtifactPresent =>
      case StructureValid => case Observable => case UserAssertion => case OutputContains =>
      case OutputNotContains => case OutputMatches => case FileNotEmpty => case LineCountMin =>
      case LineCountMax => case NoForbidden => case JsonPathEquals =>
    }
  }

  /** A typed check reads back unless its target is blank. */
  lemma CheckRoundTrip(h: Host, c: CheckSpec)
    ensures CheckFromDict(h, CheckToDict(c)) == if IsBlank(h.isSpace, c.target) then Err(TypeError) else Ok(c)
  {
    KindRoundTrip(c.kind);
  }

  /** A key that is absent reads as its default: mandatory, no arguments, no note;
      null arguments read as none. */
  lemma AbsentKeysAreDefaults(h: Host, data: map<string, Json>)
    ensures "mandatory" !in data ==> CheckFromDict(h, data) == CheckFromDict(h, data["mandatory" := Bool(true)])
    ensures "args" !in data ==> CheckFromDict(h, data) == CheckFromDict(h, data["args" := Obj(map[])])
    ensures "args" !in data ==> CheckFromDict(h, data) == CheckFromDict(h, data["args" := Null])
    ensures "note" !in data ==> CheckFromDict(h, data) == CheckFromDict(h, data["note" := Str("")])
    ensures CheckFromDict(h, data).Ok? && "mandatory" !in data ==> CheckFromDict(h, data).value.mandatory
  {
  }

  /** Which mappings load as a check, and how the others are refused: first the
      types of target, mandatory and arguments, then the missing kind, then the
      unknown one. */
  lemma CheckLoadsExactly(h: Host, data: map<string, Json>)
    ensures var r := CheckFromDict(h, data);
            var typed :=
              "target" in data && data["target"].Str? && !IsBlank(h.isSpace, data["target"].s) &&
              ("mandatory" in data ==> data["mandatory"].Bool?) &&
              ("args" in data ==> data["args"].Obj? || data["args"].Null?);
            (r.Ok? <==> typed && "kind" in data && exists k :: KindValue(k) == ToText(h.render, data["kind"])) &&
            (r.Err? ==> r.error == if !typed then TypeError else if "kind" !in data then KeyError else ValueError) &&
            (r.Ok? ==>
               KindValue(r.value.kind) == ToText(h.render, data["kind"]) && Str(r.value.target) == data["target"])
  {
    if "kind" in data {
      ParseKindExactly(ToText(h.render, data["kind"]));
    }
  }

  lemma ParseKindExactly(s: string)
    ensures ParseKind(s).Some? <==> exists k :: KindValue(k) == s
    ensures ParseKind(s).Some? ==> KindValue(ParseKind(s).value) == s
  {
    if ParseKind(s).Some? {
      assert KindValue(ParseKind(s).value) == s;
    }
    if k :| KindValue(k) == s {
      KindRoundTrip(k);
    }
  }

  /** A raw mapping stands in the payload as the check it loads as; one that does
      not load stands there as it is. */
  lemma RawPayload(h: Host, fields: map<string, Json>)
    ensures var loaded := CheckFromDict(h, fields);
            CanonicalCheck(h, Raw(fields)) ==
              if loaded.Ok? then CanonicalCheck(h, Typed(loaded.value)) else StoredCheck(Raw(fields))
  {
  }

  /** A key that is absent from an acceptance reads as its default; only the
      standard must be there. */
  lemma AbsentFieldsAreDefaults(h: Host, data: map<string, Json>)
    ensures "standard" !in data ==> FromDict(h, data) == Err(KeyError)
    ensures "checks" !in data ==> FromDict(h, data) == FromDict(h, data["checks" := Arr([])])
    ensures "verifier" !in data ==> FromDict(h, data) == FromDict(h, data["verifier" := Str("cross_check")])
    ensures "spec" !in data ==> FromDict(h, data) == FromDict(h, data["spec" := Null])
    ensures "spec_hash" !in data ==> FromDict(h, data) == FromDict(h, data["spec_hash" := Null])
  {
  }

  /** So does an empty value of `checks` or `verifier`; any other value that is
      no list is refused as checks. */
  lemma EmptyFieldsAreDefaults(h: Host, data: map<string, Json>, v: Json)
    ensures var empty := v == Null || v == Bool(false) || v == Int(0) || v == Float(0.0) || v == Str("") ||
                         v == Arr([]) || v == Obj(map[]);
            (empty ==> FromDict(h, data["checks" := v]) == FromDict(h, data["checks" := Arr([])])) &&
            (empty ==> FromDict(h, data["verifier" := v]) == FromDict(h, data["verifier" := Str("cross_check")])) &&
            (!empty && !v.Arr? && "standard" in data ==> FromDict(h, data["checks" := v]) == Err(TypeError))
  {
    hide ParseChecks;
  }

  lemma ParsedTargetIsNotBlank(h: Host, fields: map<string, Json>)
    ensures CheckFromDict(h, fields).Ok? ==> !IsBlank(h.isSpace, CheckFromDict(h, fields).value.target)
  {
  }

  /** The check can be loaded once it has been stored. */
  predicate IsLoadable(h: Host, c: Check) {
    match c
    case Text(_) => true
    case Typed(spec) => !IsBlank(h.isSpace, spec.target)
    case Raw(fields) => CheckFromDict(h, fields).Ok?
  }

  lemma LoadOne(h: Host, c: Check)
    ensures ParseCheck(h, StoredCheck(c)).Ok? <==> IsLoadable(h, c)
    ensures IsLoadable(h, c) ==>
              var d := ParseCheck(h, StoredCheck(c)).value;
              !d.Raw? && IsLoadable(h, d) && CanonicalCheck(h, d) == CanonicalCheck(h, c)
    ensures IsLoadable(h, c) && !c.Raw? ==> ParseCheck(h, StoredCheck(c)) == Ok(c)
  {
    match c {
      case Text(_) =>
      case Typed(spec) => CheckRoundTrip(h, spec);
      case Raw(fields) => ParsedTargetIsNotBlank(h, fields);
    }
  }

  lemma {:induction false} LoadAll(h: Host, checks: seq<Check>)
    ensures var r := ParseChecks(h, StoredChecks(checks));
            (r.Ok? <==> forall i :: 0 <= i < |checks| ==> IsLoadable(h, checks[i])) &&
            (r.Ok? ==> CanonicalChecks(h, r.value) == CanonicalChecks(h, checks) &&
                       forall c :: c in r.value ==> !c.Raw? && IsLoadable(h, c)) &&
            (r.Ok? && (forall c :: c in checks ==> !c.Raw?) ==> r.value == checks)
  {
    if checks != [] {
      LoadOne(h, checks[0]);
      LoadAll(h, checks[1..]);
      assert checks == [checks[0]] + checks[1..];
    }
  }

  lemma CanonicalPayload(h: Host, a: Acceptance, b: Acceptance)
    ensures Payload(h, a) == Payload(h, b) <==>
            a.standard == b.standard && a.verifier == b.verifier && a.spec == b.spec &&
            CanonicalChecks(h, a.checks) == CanonicalChecks(h, b.checks)
  {
    if Payload(h, a) == Payload(h, b) {
      var p, q := Payload(h, a).fields, Payload(h, b).fields;
      assert p["standard"] == q["standard"] && p["verifier"] == q["verifier"] && p["checks"] == q["checks"] &&
             p["spec"] == q["spec"];
    }
  }

  /** Storing and loading succeeds exactly when every check can be loaded; it
      then keeps the payload, raw mappings included, exactly when a verifier is
      named, because an empty name is replaced by the default one. */
  lemma RoundTripKeepsPayload(h: Host, a: Acceptance)
    ensures var r := RoundTrip(h, a);
            (r.Ok? <==> forall i :: 0 <= i < |a.checks| ==> IsLoadable(h, a.checks[i])) &&
            (r.Ok? ==> (Payload(h, r.value) == Payload(h, a) <==> a.verifier != ""))
  {
    LoadAll(h, a.checks);
    var r := RoundTrip(h, a);
    if r.Ok? {
      CanonicalPayload(h, r.value, a);
    }
  }

  /** One round trip reaches a fixed point: everything after it is the identity. */
  lemma RoundTripSettles(h: Host, a: Acceptance)
    requires RoundTrip(h, a).Ok?
    ensures RoundTrip(h, RoundTrip(h, a).value) == RoundTrip(h, a)
  {
    var b := RoundTrip(h, a).value;
    LoadAll(h, a.checks);
    LoadAll(h, b.checks);
  }

  lemma {:induction false} RoundTripsSettle(h: Host, a: Acceptance, n: nat)
    requires RoundTrip(h, a).Ok? && n > 0
    ensures RoundTrips(h, a, n) == RoundTrip(h, a)
  {
    if n > 1 {
      RoundTripsSettle(h, a, n - 1);
      RoundTripSettles(h, a);
    } else {
      assert RoundTrips(h, a, 0) == Ok(a);
    }
  }

  /** Any number of round trips gives the fingerprint input that was there at the
      start, and from the first one on the same acceptance. */
  lemma FingerprintIsStable(h: Host, a: Acceptance, n: nat)
    requires a.verifier != "" && RoundTrip(h, a).Ok?
    ensures RoundTrips(h, a, n).Ok? && Payload(h, RoundTrips(h, a, n).value) == Payload(h, a)
    ensures n > 0 ==> RoundTrips(h, a, n) == RoundTrip(h, a)
  {
    if n > 0 {
      RoundTripsSettle(h, a, n);
      RoundTripKeepsPayload(h, a);
    }
  }

  lemma {:induction false} SameCanonicalChecks(h: Host, p: seq<Check>, q: seq<Check>)
    requires (forall c :: c in p ==> !c.Raw?) && (forall c :: c in q ==> !c.Raw?)
    requires CanonicalChecks(h, p) == CanonicalChecks(h, q)
    ensures p == q
  {
    if p == [] || q == [] {
      assert |CanonicalChecks(h, p)| == |CanonicalChecks(h, q)|;
    } else {
      var ps, qs := CanonicalChecks(h, p), CanonicalChecks(h, q);
      assert ps[0] == qs[0] && ps[1..] == CanonicalChecks(h, p[1..]) && qs[1..] == CanonicalChecks(h, q[1..]);
      SameCanonicalCheck(h, p[0], q[0]);
      SameCanonicalChecks(h, p[1..], q[1..]);
      assert p == [p[0]] + p[1..] && q == [q[0]] + q[1..];
    }
  }

  lemma SameCanonicalCheck(h: Host, c: Check, d: Check)
    requires !c.Raw? && !d.Raw? && CanonicalCheck(h, c) == CanonicalCheck(h, d)
    ensures c == d
  {
    if c.Typed? {
      var m, n := CheckToDict(c.spec), CheckToDict(d.spec);
      assert m["kind"] == n["kind"] && m["target"] == n["target"] && m["args"] == n["args"] &&
             m["mandatory"] == n["mandatory"] && m["note"] == n["note"];
      KindRoundTrip(c.spec.kind);
      KindRoundTrip(d.spec.kind);
    }
  }

  /** Between acceptances that came from the store, equal payloads mean the same
      promise in every field but the advisory hash. */
  lemma PayloadDeterminesAcceptance(h: Host, a: Acceptance, b: Acceptance)
    requires (forall c :: c in a.checks ==> !c.Raw?) && (forall c :: c in b.checks ==> !c.Raw?)
    ensures Payload(h, a) == Payload(h, b) <==> a == b.(specHash := a.specHash)
  {
    CanonicalPayload(h, a, b);
    if Payload(h, a) == Payload(h, b) {
      SameCanonicalChecks(h, a.checks, b.checks);
    }
  }

  // ----- budgets -----

  datatype Budget = Budget(
    maxDispatches: int, maxEscalations: int, maxConcurrentAttempts: int, maxAttemptMinutes: int,
    maxOutputBytes: int, verificationAttemptsReserved: int, maxCost: Option<real>)

  const DEFAULT_VERIFICATION_RESERVED: int := 2

  function BudgetToDict(b: Budget): map<string, Json> {
    var base := map[
      "max_dispatches" := Int(b.maxDispatches),
      "max_escalations" := Int(b.maxEscalations),
      "max_concurrent_attempts" := Int(b.maxConcurrentAttempts),
      "max_attempt_minutes" := Int(b.maxAttemptMinutes),
      "max_output_bytes" := Int(b.maxOutputBytes),
      "verification_attempts_reserved" := Int(b.verificationAttemptsReserved)];
    match b.maxCost
    case None => base
    case Some(cost) => base["max_cost" := Float(cost)]
  }

  /** `parse` reads an integer from a string. */
  function StrictInt(parse: string -> Option<int>, v: Json): Result<int, LoadError> {
    match v
    case Int(i) => Ok(i)
    case Str(s) => (match parse(s) case Some(i) => Ok(i) case None => Err(TypeError))
    case _ => Err(TypeError)
  }

  function RequiredInt(parse: string -> Option<int>, data: map<string, Json>, key: string): Result<int, LoadError> {
    if key in data then StrictInt(parse, data[key]) else Err(KeyError)
  }

  function PositiveNumber(v: Json): Result<real, LoadError> {
    match v
    case Int(i) => if i > 0 then Ok(i as real) else Err(TypeError)
    case Float(r) => if r > 0.0 then Ok(r) else Err(TypeError)
    case _ => Err(TypeError)
  }

  function BudgetFromDict(parse: string -> Option<int>, data: map<string, Json>): Result<Budget, LoadError> {
    var dispatches := RequiredInt(parse, data, "max_dispatches");
    if dispatches.Err? then Err(dispatches.error) else
    var escalations := RequiredInt(parse, data, "max_escalations");
    if escalations.Err? then Err(escalations.error) else
    var attempts := RequiredInt(parse, data, "max_concurrent_attempts");
    if attempts.Err? then Err(attempts.error) else
    var minutes := RequiredInt(parse, data, "max_attempt_minutes");
    if minutes.Err? then Err(minutes.error) else
    var output := RequiredInt(parse, data, "max_output_bytes");
    if output.Err? then Err(output.error) else
    var reserved := StrictInt(parse, Get(data, "verification_attempts_reserved", Int(DEFAULT_VERIFICATION_RESERVED)));
    if reserved.Err? then Err(reserved.error) else
    if "max_cost" !in data then
      Ok(Budget(dispatches.value, escalations.value, attempts.value, minutes.value, output.value, reserved.value, None))
    else
      match PositiveNumber(data["max_cost"])
      case Err(e) => Err(e)
      case Ok(cost) =>
        Ok(Budget(dispatches.value, escalations.value, attempts.value, minutes.value, output.value, reserved.value,
                  Some(cost)))
  }

  /** A budget reads back as itself, the undeclared cost line included; the only
      budgets refused are those whose declared cost line is not positive. */
  lemma BudgetRoundTrip(parse: string -> Option<int>, b: Budget)
    ensures BudgetFromDict(parse, BudgetToDict(b))
         == if b.maxCost.Some? && b.maxCost.value <= 0.0 then Err(TypeError) else Ok(b)
  {
    var d := BudgetToDict(b);
    assert "max_cost" in d <==> b.maxCost.Some?;
  }

  /** The entry is there and reads as an integer. */
  predicate Reads(parse: string -> Option<int>, data: map<string, Json>, key: string) {
    key in data && (data[key].Int? || (data[key].Str? && parse(data[key].s).Some?))
  }

  /** The first required entry at fault is missing. */
  predicate MissesKey(parse: string -> Option<int>, data: map<string, Json>) {
    "max_dispatches" !in data || (Reads(parse, data, "max_dispatches") && (
    "max_escalations" !in data || (Reads(parse, data, "max_escalations") && (
    "max_concurrent_attempts" !in data || (Reads(parse, data, "max_concurrent_attempts") && (
    "max_attempt_minutes" !in data || (Reads(parse, data, "max_attempt_minutes") && (
    "max_output_bytes" !in data))))))))
  }

  /** Which mappings load as a budget, and how the others are refused.  Without
      an entry of its own two verification attempts are reserved. */
  lemma BudgetLoadsExactly(parse: string -> Option<int>, data: map<string, Json>)
    ensures var r := BudgetFromDict(parse, data);
            (r.Ok? <==>
               Reads(parse, data, "max_dispatches") && Reads(parse, data, "max_escalations") &&
               Reads(parse, data, "max_concurrent_attempts") && Reads(parse, data, "max_attempt_minutes") &&
               Reads(parse, data, "max_output_bytes") &&
               ("verification_attempts_reserved" in data ==> Reads(parse, data, "verification_attempts_reserved")) &&
               ("max_cost" in data ==> (data["max_cost"].Int? && data["max_cost"].i > 0) ||
                                       (data["max_cost"].Float? && data["max_cost"].r > 0.0)))
    ensures var r := BudgetFromDict(parse, data);
            (r.Err? ==> r.error == if MissesKey(parse, data) then KeyError else TypeError) &&
            (r.Ok? && "verification_attempts_reserved" !in data ==> r.value.verificationAttemptsReserved == 2) &&
            (r.Ok? ==> (r.value.maxCost.Some? <==> "max_cost" in data))
  {
  }
}
