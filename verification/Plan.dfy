/**
 * Plans and their validation against a contract.
 */
module Plan {
  import opened Prelude
  import opened Text
  import opened PlanHash
  import Json
  import Fingerprint

  /** What depends on Unicode tables: lower case, white space, letters and
      digits, and cutting a text into words. */
  datatype TextTables = TextTables(
    lower: string -> string, isSpace: char -> bool, isAlnum: char -> bool, split: string -> seq<string>)

  const ALLOWED_ACTIONS: set<string> :=
    {"read file", "run command", "ask user", "verify acceptance", "write file", "search code"}

  const STOP_WORDS: set<string> :=
    {"the", "a", "an", "and", "or", "to", "of", "in", "for", "on", "with", "by", "is", "are", "be",
     "this", "that", "it", "as", "at", "from", "into",
     "\U{5B8C}\U{6210}", "\U{7684}", "\U{5728}", "\U{5E76}"}

  // ----- keywords of an objective -----

  predicate IsCjk(c: char) {
    '\U{4E00}' <= c <= '\U{9FFF}' || '\U{3400}' <= c <= '\U{4DBF}'
  }

  predicate HasCjk(token: string) {
    exists i :: 0 <= i < |token| && IsCjk(token[i])
  }

  function Cleaned(t: TextTables, raw: string): string
    decreases raw
  {
    if raw == "" then "" else (if t.isAlnum(raw[0]) then [raw[0]] else "") + Cleaned(t, raw[1..])
  }

  datatype Picked = Picked(cjk: string, words: seq<string>)

  function AddCjk(seen: string, token: string): string
    decreases token
  {
    if token == "" then seen
    else AddCjk(if IsCjk(token[0]) && token[0] !in seen then seen + [token[0]] else seen, token[1..])
  }

  function PickWord(t: TextTables, p: Picked, raw: string): Picked {
    var cleaned := Cleaned(t, raw);
    var lowered := t.lower(cleaned);
    if cleaned == "" || lowered in STOP_WORDS then p
    else if HasCjk(cleaned) then p.(cjk := AddCjk(p.cjk, cleaned))
    else if |lowered| < 3 || lowered in p.words then p
    else p.(words := p.words + [lowered])
  }

  function PickWords(t: TextTables, raws: seq<string>): Picked {
    if raws == [] then Picked("", []) else PickWord(t, PickWords(t, raws[..|raws| - 1]), raws[|raws| - 1])
  }

  /** Ideographs first, one keyword each, then the longer words. */
  function Keywords(t: TextTables, objective: string): seq<string> {
    var p := PickWords(t, t.split(objective));
    Singles(p.cjk) + p.words
  }

  function Singles(s: string): seq<string> {
    seq(|s|, i requires 0 <= i < |s| => [s[i]])
  }

  /** Add the ideographs of a word that have not been seen. */
  method AddIdeographs(seen: string, token: string) returns (cjk: string)
    ensures cjk == AddCjk(seen, token)
  {
    cjk := seen;
    for k := 0 to |token|
      invariant AddCjk(seen, token) == AddCjk(cjk, token[k..])
    {
      if IsCjk(token[k]) && token[k] !in cjk {
        cjk := cjk + [token[k]];
      }
      assert token[k..][1..] == token[k + 1..];
    }
  }

  method PickKeyword(t: TextTables, objective: string) returns (keywords: seq<string>)
    ensures keywords == Keywords(t, objective)
  {
    var raws := t.split(objective);
    var cjk, words := "", [];
    for i := 0 to |raws|
      invariant Picked(cjk, words) == PickWords(t, raws[..i])
    {
      assert raws[..i + 1][..i] == raws[..i];
      var cleaned := Cleaned(t, raws[i]);
      var lowered := t.lower(cleaned);
      if cleaned == "" || lowered in STOP_WORDS {
        continue;
      }
      if HasCjk(cleaned) {
        cjk := AddIdeographs(cjk, cleaned);
        continue;
      }
      if |lowered| < 3 || lowered in words {
        continue;
      }
      words := words + [lowered];
    }
    assert raws[..|raws|] == raws;
    keywords := Singles(cjk) + words;
  }

  /** A word of the objective that yields keywords. */
  predicate IsUsable(t: TextTables, raw: string) {
    var cleaned := Cleaned(t, raw);
    cleaned != "" && t.lower(cleaned) !in STOP_WORDS
  }

  /** `keyword` is one the word `raw` yields. */
  predicate Yields(t: TextTables, raw: string, keyword: string) {
    var cleaned := Cleaned(t, raw);
    IsUsable(t, raw) &&
    if HasCjk(cleaned) then |keyword| == 1 && IsCjk(keyword[0]) && keyword[0] in cleaned
    else keyword == t.lower(cleaned) && |keyword| >= 3
  }

  lemma {:induction false} AddCjkMembers(seen: string, token: string)
    ensures forall c :: c in AddCjk(seen, token) <==> c in seen || (IsCjk(c) && c in token)
    decreases token
  {
    if token != "" {
      var next := if IsCjk(token[0]) && token[0] !in seen then seen + [token[0]] else seen;
      AddCjkMembers(next, token[1..]);
      assert token == [token[0]] + token[1..];
    }
  }

  lemma {:induction false} PickedMembers(t: TextTables, raws: seq<string>, keyword: string)
    ensures var p := PickWords(t, raws);
            keyword in p.words || (|keyword| == 1 && keyword[0] in p.cjk)
            <==> exists i :: 0 <= i < |raws| && Yields(t, raws[i], keyword)
  {
    if raws != [] {
      var n := |raws| - 1;
      var front := PickWords(t, raws[..n]);
      PickedMembers(t, raws[..n], keyword);
      AddCjkMembers(front.cjk, Cleaned(t, raws[n]));
      var p := PickWords(t, raws);
      assert keyword in p.words || (|keyword| == 1 && keyword[0] in p.cjk)
        <==> keyword in front.words || (|keyword| == 1 && keyword[0] in front.cjk) || Yields(t, raws[n], keyword);
      assert forall i :: 0 <= i < n ==> raws[..n][i] == raws[i];
    }
  }

  /** Which keywords an objective has. */
  lemma KeywordMembers(t: TextTables, objective: string, keyword: string)
    ensures var raws := t.split(objective);
            keyword in Keywords(t, objective) <==> exists i :: 0 <= i < |raws| && Yields(t, raws[i], keyword)
  {
    var p := PickWords(t, t.split(objective));
    PickedMembers(t, t.split(objective), keyword);
    assert keyword in Singles(p.cjk) <==> |keyword| == 1 && keyword[0] in p.cjk by {
      if |keyword| == 1 && keyword[0] in p.cjk {
        var i :| 0 <= i < |p.cjk| && p.cjk[i] == keyword[0];
        assert Singles(p.cjk)[i] == keyword;
      }
    }
  }

  // ----- acceptance checks -----

  /** What a step must mention to cover a check.  A raw mapping has no identifier. */
  function CheckIdentifiers(checks: seq<Fingerprint.Check>): seq<string> {
    if checks == [] then []
    else
      (match checks[0]
       case Typed(spec) => [Fingerprint.KindValue(spec.kind) + ":" + spec.target]
       case Text(t) => [t]
       case Raw(_) => [])
      + CheckIdentifiers(checks[1..])
  }

  predicate StepCovers(t: TextTables, step: PlanStep, id: string) {
    Contains(t.lower(step.target + " " + step.expectedOutcome), t.lower(id))
  }

  predicate IsCovered(t: TextTables, steps: seq<PlanStep>, id: string) {
    exists i :: 0 <= i < |steps| && StepCovers(t, steps[i], id)
  }

  function Uncovered(t: TextTables, steps: seq<PlanStep>, ids: seq<string>): seq<string> {
    if ids == [] then []
    else
      var n := |ids| - 1;
      Uncovered(t, steps, ids[..n]) + if IsCovered(t, steps, ids[n]) then [] else [ids[n]]
  }

  method UncoveredChecks(t: TextTables, steps: seq<PlanStep>, ids: seq<string>) returns (uncovered: seq<string>)
    ensures uncovered == Uncovered(t, steps, ids)
  {
    if ids == [] {
      return [];
    }
    var covered := {};
    for i := 0 to |steps|
      invariant forall id :: id in covered <==> id in ids && IsCovered(t, steps[..i], id)
    {
      for k := 0 to |ids|
        invariant forall id :: id in covered <==>
                  (id in ids && IsCovered(t, steps[..i], id)) || (id in ids[..k] && StepCovers(t, steps[i], id))
      {
        assert ids[..k + 1] == ids[..k] + [ids[k]];
        if StepCovers(t, steps[i], ids[k]) {
          covered := covered + {ids[k]};
        }
      }
      assert ids[..|ids|] == ids;
      forall id
        ensures IsCovered(t, steps[..i + 1], id) <==> IsCovered(t, steps[..i], id) || StepCovers(t, steps[i], id)
      {
        CoverOneMore(t, steps, i, id);
      }
    }
    assert steps[..|steps|] == steps;
    uncovered := [];
    for k := 0 to |ids|
      invariant uncovered == Uncovered(t, steps, ids[..k])
    {
      assert ids[..k + 1][..k] == ids[..k];
      if ids[k] !in covered {
        uncovered := uncovered + [ids[k]];
      }
    }
    assert ids[..|ids|] == ids;
  }

  lemma CoverOneMore(t: TextTables, steps: seq<PlanStep>, i: nat, id: string)
    requires i < |steps|
    ensures IsCovered(t, steps[..i + 1], id) <==> IsCovered(t, steps[..i], id) || StepCovers(t, steps[i], id)
  {
    var front, more := steps[..i], steps[..i + 1];
    assert more[i] == steps[i];
    if IsCovered(t, front, id) {
      var k :| 0 <= k < |front| && StepCovers(t, front[k], id);
      assert more[k] == front[k];
    }
    if IsCovered(t, more, id) && !StepCovers(t, steps[i], id) {
      var k :| 0 <= k < |more| && StepCovers(t, more[k], id);
      assert k < i && front[k] == more[k];
    }
  }

  lemma {:induction false} UncoveredMembers(t: TextTables, steps: seq<PlanStep>, ids: seq<string>)
    ensures forall id :: id in Uncovered(t, steps, ids) <==> id in ids && !IsCovered(t, steps, id)
  {
    if ids != [] {
      UncoveredMembers(t, steps, ids[..|ids| - 1]);
      assert ids == ids[..|ids| - 1] + [ids[|ids| - 1]];
    }
  }

  // ----- validation -----

  datatype Reason =
    | NoSteps
    | ActionNotAllowed(index: nat)
    | EmptyRationale(index: nat)
    | EmptyTarget(index: nat)
    | EmptyOutcome(index: nat)
    | NoKeyword
    | OffObjective(index: nat)
    | CheckUncovered(id: string)

  function StructureOf(t: TextTables, step: PlanStep, index: nat): seq<Reason> {
    (if step.action in ALLOWED_ACTIONS then [] else [ActionNotAllowed(index)])
    + (if Json.IsBlank(t.isSpace, step.rationale) then [EmptyRationale(index)] else [])
    + (if Json.IsBlank(t.isSpace, step.target) then [EmptyTarget(index)] else [])
    + (if Json.IsBlank(t.isSpace, step.expectedOutcome) then [EmptyOutcome(index)] else [])
  }

  function Structure(t: TextTables, steps: seq<PlanStep>): seq<Reason> {
    if steps == [] then []
    else Structure(t, steps[..|steps| - 1]) + StructureOf(t, steps[|steps| - 1], |steps|)
  }

  predicate Mentions(t: TextTables, text: string, keywords: seq<string>) {
    exists k :: 0 <= k < |keywords| && Contains(t.lower(text), keywords[k])
  }

  function Alignment(t: TextTables, steps: seq<PlanStep>, keywords: seq<string>): seq<Reason> {
    if steps == [] then []
    else
      Alignment(t, steps[..|steps| - 1], keywords)
      + if Mentions(t, steps[|steps| - 1].rationale, keywords) then [] else [OffObjective(|steps|)]
  }

  function Coverage(uncovered: seq<string>): seq<Reason> {
    seq(|uncovered|, i requires 0 <= i < |uncovered| => CheckUncovered(uncovered[i]))
  }

  /** The reasons to reject a plan, in the order they are reported. */
  function Reasons(t: TextTables, steps: seq<PlanStep>, objective: string, ids: seq<string>): seq<Reason> {
    if steps == [] then [NoSteps]
    else
      var keywords := Keywords(t, objective);
      Structure(t, steps)
      + (if keywords == [] then [NoKeyword] else Alignment(t, steps, keywords))
      + Coverage(Uncovered(t, steps, ids))
  }

  datatype AutoApprove = AutoApprove(enabled: bool, actions: seq<string>)

  predicate InScope(a: AutoApprove, steps: seq<PlanStep>) {
    a.enabled && forall i :: 0 <= i < |steps| ==> steps[i].action in a.actions
  }

  datatype PlanValidation = PlanValidation(approved: bool, reasons: seq<Reason>, requiresSignoff: bool)

  function Validation(t: TextTables, steps: seq<PlanStep>, objective: string, ids: seq<string>,
                      a: AutoApprove): PlanValidation {
    var reasons := Reasons(t, steps, objective, ids);
    PlanValidation(reasons == [], reasons, reasons == [] && !InScope(a, steps))
  }

  method Validate(t: TextTables, steps: seq<PlanStep>, objective: string, checks: seq<Fingerprint.Check>,
                  a: AutoApprove)
    returns (v: PlanValidation)
    ensures v == Validation(t, steps, objective, CheckIdentifiers(checks), a)
  {
    var reasons := [];
    if steps == [] {
      reasons := reasons + [NoSteps];
      return PlanValidation(false, reasons, false);
    }
    reasons := StructuralReasons(t, steps);
    var keywords := PickKeyword(t, objective);
    if keywords == [] {
      reasons := reasons + [NoKeyword];
    } else {
      var off := AlignmentReasons(t, steps, keywords);
      reasons := reasons + off;
    }
    var uncovered := UncoveredChecks(t, steps, CheckIdentifiers(checks));
    reasons := reasons + Coverage(uncovered);
    var approved := reasons == [];
    var requiresSignoff := false;
    if approved && !a.enabled {
      requiresSignoff := true;
    } else if approved {
      for i := 0 to |steps|
        invariant !requiresSignoff && forall k :: 0 <= k < i ==> steps[k].action in a.actions
      {
        if steps[i].action !in a.actions {
          requiresSignoff := true;
          break;
        }
      }
    }
    v := PlanValidation(approved, reasons, requiresSignoff);
  }

  method StructuralReasons(t: TextTables, steps: seq<PlanStep>) returns (reasons: seq<Reason>)
    ensures reasons == Structure(t, steps)
  {
    reasons := [];
    for i := 0 to |steps|
      invariant reasons == Structure(t, steps[..i])
    {
      var step := steps[i];
      assert steps[..i + 1][..i] == steps[..i];
      var found := [];
      if step.action !in ALLOWED_ACTIONS {
        found := found + [ActionNotAllowed(i + 1)];
      }
      if Json.IsBlank(t.isSpace, step.rationale) {
        found := found + [EmptyRationale(i + 1)];
      }
      if Json.IsBlank(t.isSpace, step.target) {
        found := found + [EmptyTarget(i + 1)];
      }
      if Json.IsBlank(t.isSpace, step.expectedOutcome) {
        found := found + [EmptyOutcome(i + 1)];
      }
      assert found == StructureOf(t, step, i + 1);
      reasons := reasons + found;
    }
    assert steps[..|steps|] == steps;
  }

  method AlignmentReasons(t: TextTables, steps: seq<PlanStep>, keywords: seq<string>) returns (reasons: seq<Reason>)
    ensures reasons == Alignment(t, steps, keywords)
  {
    reasons := [];
    for i := 0 to |steps|
      invariant reasons == Alignment(t, steps[..i], keywords)
    {
      assert steps[..i + 1][..i] == steps[..i];
      if !Mentions(t, steps[i].rationale, keywords) {
        reasons := reasons + [OffObjective(i + 1)];
      }
    }
    assert steps[..|steps|] == steps;
  }

  // ----- what approval means -----

  /** The identifier occurs, up to case, in what some step aims at or expects. */
  ghost predicate IsNamedBy(t: TextTables, steps: seq<PlanStep>, id: string) {
    exists i :: 0 <= i < |steps| && Names(t, steps[i], id)
  }

  ghost predicate Names(t: TextTables, step: PlanStep, id: string) {
    Occurs(t.lower(step.target + " " + step.expectedOutcome), t.lower(id))
  }

  lemma CoveredMeansNamed(t: TextTables, steps: seq<PlanStep>, id: string)
    ensures IsCovered(t, steps, id) <==> IsNamedBy(t, steps, id)
  {
    forall i | 0 <= i < |steps|
      ensures StepCovers(t, steps[i], id) <==> Names(t, steps[i], id)
    {
      ContainsIsOccurs(t.lower(steps[i].target + " " + steps[i].expectedOutcome), t.lower(id));
    }
  }

  /** Some keyword occurs in the text, up to case. */
  ghost predicate IsAligned(t: TextTables, text: string, keywords: seq<string>) {
    exists k :: 0 <= k < |keywords| && Occurs(t.lower(text), keywords[k])
  }

  lemma MentionsMeansAligned(t: TextTables, text: string, keywords: seq<string>)
    ensures Mentions(t, text, keywords) <==> IsAligned(t, text, keywords)
  {
    forall k | 0 <= k < |keywords|
      ensures Contains(t.lower(text), keywords[k]) <==> Occurs(t.lower(text), keywords[k])
    {
      ContainsIsOccurs(t.lower(text), keywords[k]);
    }
  }

  ghost predicate IsWellFormed(t: TextTables, step: PlanStep, keywords: seq<string>) {
    step.action in ALLOWED_ACTIONS &&
    !Json.IsBlank(t.isSpace, step.rationale) &&
    !Json.IsBlank(t.isSpace, step.target) &&
    !Json.IsBlank(t.isSpace, step.expectedOutcome) &&
    IsAligned(t, step.rationale, keywords)
  }

  /** Steps that use allowed actions, say why and to what end, and between them
      mention every acceptance check. */
  ghost predicate IsApprovable(t: TextTables, steps: seq<PlanStep>, objective: string, ids: seq<string>) {
    steps != [] &&
    (forall i :: 0 <= i < |steps| ==> IsWellFormed(t, steps[i], Keywords(t, objective))) &&
    (forall i :: 0 <= i < |ids| ==> IsNamedBy(t, steps, ids[i]))
  }

  lemma {:induction false} NoStepReasons(t: TextTables, steps: seq<PlanStep>, keywords: seq<string>)
    ensures Structure(t, steps) == [] && Alignment(t, steps, keywords) == []
       <==> forall i :: 0 <= i < |steps| ==> IsWellFormed(t, steps[i], keywords)
  {
    if steps != [] {
      var n := |steps| - 1;
      NoStepReasons(t, steps[..n], keywords);
      MentionsMeansAligned(t, steps[n].rationale, keywords);
      assert steps == steps[..n] + [steps[n]];
    }
  }

  lemma NothingUncovered(t: TextTables, steps: seq<PlanStep>, ids: seq<string>)
    ensures Uncovered(t, steps, ids) == [] <==> forall i :: 0 <= i < |ids| ==> IsNamedBy(t, steps, ids[i])
  {
    forall id
      ensures IsCovered(t, steps, id) <==> IsNamedBy(t, steps, id)
    {
      CoveredMeansNamed(t, steps, id);
    }
    var uncovered := Uncovered(t, steps, ids);
    UncoveredMembers(t, steps, ids);
    if uncovered != [] {
      assert uncovered[0] in uncovered;
    } else {
      assert forall i :: 0 <= i < |ids| ==> ids[i] in ids;
    }
  }

  lemma NoReasons(t: TextTables, steps: seq<PlanStep>, objective: string, ids: seq<string>)
    ensures Reasons(t, steps, objective, ids) == [] <==> IsApprovable(t, steps, objective, ids)
  {
    if steps != [] {
      var keywords := Keywords(t, objective);
      NoStepReasons(t, steps, keywords);
      NothingUncovered(t, steps, ids);
      EmptyParts(Structure(t, steps), if keywords == [] then [NoKeyword] else Alignment(t, steps, keywords),
                 Coverage(Uncovered(t, steps, ids)));
      NoKeywordNoMention(t, steps[0], keywords);
    }
  }

  lemma EmptyParts(a: seq<Reason>, b: seq<Reason>, c: seq<Reason>)
    ensures a + b + c == [] <==> a == [] && b == [] && c == []
  {
    assert |a + b + c| == |a| + |b| + |c|;
  }

  lemma NoKeywordNoMention(t: TextTables, step: PlanStep, keywords: seq<string>)
    ensures keywords == [] ==> !IsWellFormed(t, step, keywords)
  {
  }

  /** A plan is approved exactly when it is approvable; it then needs a signature
      exactly when some step is outside the automatic scope. */
  lemma ApprovalMeans(t: TextTables, steps: seq<PlanStep>, objective: string, ids: seq<string>, a: AutoApprove)
    ensures var v := Validation(t, steps, objective, ids, a);
            (v.approved <==> IsApprovable(t, steps, objective, ids)) &&
            (v.requiresSignoff <==> IsApprovable(t, steps, objective, ids) && !InScope(a, steps))
  {
    NoReasons(t, steps, objective, ids);
  }

  /** The fault a reason names is there. */
  ghost predicate IsFault(t: TextTables, steps: seq<PlanStep>, keywords: seq<string>, ids: seq<string>, r: Reason) {
    match r
    case NoSteps => steps == []
    case ActionNotAllowed(k) => 1 <= k <= |steps| && steps[k - 1].action !in ALLOWED_ACTIONS
    case EmptyRationale(k) => 1 <= k <= |steps| && forall c :: c in steps[k - 1].rationale ==> t.isSpace(c)
    case EmptyTarget(k) => 1 <= k <= |steps| && forall c :: c in steps[k - 1].target ==> t.isSpace(c)
    case EmptyOutcome(k) => 1 <= k <= |steps| && forall c :: c in steps[k - 1].expectedOutcome ==> t.isSpace(c)
    case NoKeyword => steps != [] && keywords == []
    case OffObjective(k) => keywords != [] && 1 <= k <= |steps| && !IsAligned(t, steps[k - 1].rationale, keywords)
    case CheckUncovered(id) => steps != [] && id in ids && !IsNamedBy(t, steps, id)
  }

  lemma StepFaults(t: TextTables, step: PlanStep, index: nat, r: Reason)
    ensures r in StructureOf(t, step, index) <==>
            match r
            case ActionNotAllowed(k) => k == index && step.action !in ALLOWED_ACTIONS
            case EmptyRationale(k) => k == index && forall c :: c in step.rationale ==> t.isSpace(c)
            case EmptyTarget(k) => k == index && forall c :: c in step.target ==> t.isSpace(c)
            case EmptyOutcome(k) => k == index && forall c :: c in step.expectedOutcome ==> t.isSpace(c)
            case _ => false
  {
  }

  lemma {:induction false} StructureFaults(t: TextTables, steps: seq<PlanStep>, ids: seq<string>, r: Reason)
    ensures r in Structure(t, steps) <==>
            (r.ActionNotAllowed? || r.EmptyRationale? || r.EmptyTarget? || r.EmptyOutcome?) &&
            IsFault(t, steps, [], ids, r)
  {
    hide StructureOf;
    if steps != [] {
      var n := |steps| - 1;
      StructureFaults(t, steps[..n], ids, r);
      StepFaults(t, steps[n], |steps|, r);
    }
  }

  lemma {:induction false} AlignmentFaults(t: TextTables, steps: seq<PlanStep>, keywords: seq<string>,
                                           ids: seq<string>, r: Reason)
    requires keywords != []
    ensures r in Alignment(t, steps, keywords) <==> r.OffObjective? && IsFault(t, steps, keywords, ids, r)
  {
    hide Mentions, IsAligned;
    if steps != [] {
      var n := |steps| - 1;
      AlignmentFaults(t, steps[..n], keywords, ids, r);
      MentionsMeansAligned(t, steps[n].rationale, keywords);
    }
  }

  lemma CoverageFaults(t: TextTables, steps: seq<PlanStep>, ids: seq<string>, r: Reason)
    ensures r in Coverage(Uncovered(t, steps, ids)) <==>
            r.CheckUncovered? && r.id in ids && !IsNamedBy(t, steps, r.id)
  {
    var uncovered := Uncovered(t, steps, ids);
    UncoveredMembers(t, steps, ids);
    if r.CheckUncovered? {
      CoveredMeansNamed(t, steps, r.id);
      if i: nat :| i < |uncovered| && uncovered[i] == r.id {
        assert Coverage(uncovered)[i] == r;
      }
    }
  }

  /** A reason is given exactly when the fault it names is there, and the steps
      are numbered from 1. */
  lemma ReasonsAreFaults(t: TextTables, steps: seq<PlanStep>, objective: string, ids: seq<string>, r: Reason)
    ensures r in Reasons(t, steps, objective, ids) <==> IsFault(t, steps, Keywords(t, objective), ids, r)
  {
    hide Keywords, Structure, Alignment, Coverage, Uncovered;
    if steps != [] {
      var keywords := Keywords(t, objective);
      StructureFaults(t, steps, ids, r);
      CoverageFaults(t, steps, ids, r);
      if keywords != [] {
        AlignmentFaults(t, steps, keywords, ids, r);
      }
    }
  }

  // ----- constants and orders -----

  lemma AllowedActionsExactly(action: string)
    ensures action in ALLOWED_ACTIONS <==>
            action == "read file" || action == "run command" || action == "ask user" ||
            action == "verify acceptance" || action == "write file" || action == "search code"
  {
  }

  /** The unified ideographs and extension A, by code point. */
  lemma CjkExactly(c: char)
    ensures IsCjk(c) <==> 0x4E00 <= c as int < 0xA000 || 0x3400 <= c as int < 0x4DC0
  {
  }

  predicate AllAlnum(t: TextTables, s: string) {
    forall i :: 0 <= i < |s| ==> t.isAlnum(s[i])
  }

  /** Cleaning keeps the letters and digits, in their order. */
  lemma {:induction false} CleanedAppend(t: TextTables, a: string, b: string)
    ensures Cleaned(t, a + b) == Cleaned(t, a) + Cleaned(t, b)
    decreases a
  {
    if a == "" {
      assert a + b == b;
    } else {
      CleanedAppend(t, a[1..], b);
      assert (a + b)[1..] == a[1..] + b;
    }
  }

  lemma {:induction false} CleanedExactly(t: TextTables, a: string)
    ensures AllAlnum(t, Cleaned(t, a)) && |Cleaned(t, a)| <= |a|
    ensures AllAlnum(t, a) <==> Cleaned(t, a) == a
    ensures forall c :: c in Cleaned(t, a) <==> c in a && t.isAlnum(c)
    decreases a
  {
    if a != "" {
      CleanedExactly(t, a[1..]);
      assert a == [a[0]] + a[1..];
    }
  }

  lemma {:induction false} AddCjkGrows(seen: string, token: string)
    requires forall i, j :: 0 <= i < j < |seen| ==> seen[i] != seen[j]
    ensures seen <= AddCjk(seen, token)
    ensures var cjk := AddCjk(seen, token); forall i, j :: 0 <= i < j < |cjk| ==> cjk[i] != cjk[j]
    decreases token
  {
    if token != "" {
      AddCjkGrows(if IsCjk(token[0]) && token[0] !in seen then seen + [token[0]] else seen, token[1..]);
    }
  }

  predicate IsTidy(p: Picked) {
    (forall i, j :: 0 <= i < j < |p.cjk| ==> p.cjk[i] != p.cjk[j]) &&
    (forall i, j :: 0 <= i < j < |p.words| ==> p.words[i] != p.words[j]) &&
    (forall i :: 0 <= i < |p.words| ==> |p.words[i]| >= 3)
  }

  /** Later words come after the earlier ones. */
  lemma {:induction false} PickedGrows(t: TextTables, raws: seq<string>, i: nat)
    requires i <= |raws|
    ensures var p, q := PickWords(t, raws[..i]), PickWords(t, raws);
            IsTidy(p) && IsTidy(q) && p.cjk <= q.cjk && p.words <= q.words
  {
    if raws == [] || i == |raws| {
      assert raws[..i] == raws;
      if raws != [] {
        PickedGrows(t, raws[..|raws| - 1], |raws| - 1);
        WordKeepsTidy(t, PickWords(t, raws[..|raws| - 1]), raws[|raws| - 1]);
      }
    } else {
      var n := |raws| - 1;
      PickedGrows(t, raws[..n], i);
      assert raws[..n][..i] == raws[..i];
      WordKeepsTidy(t, PickWords(t, raws[..n]), raws[n]);
    }
  }

  lemma WordKeepsTidy(t: TextTables, p: Picked, raw: string)
    requires IsTidy(p)
    ensures IsTidy(PickWord(t, p, raw)) && p.cjk <= PickWord(t, p, raw).cjk && p.words <= PickWord(t, p, raw).words
  {
    AddCjkGrows(p.cjk, Cleaned(t, raw));
  }

  /** No keyword is given twice, and the ideographs come before the words. */
  lemma KeywordsAreDistinct(t: TextTables, objective: string, i: nat, j: nat)
    requires i < j < |Keywords(t, objective)|
    ensures var keywords := Keywords(t, objective);
            keywords[i] != keywords[j] && (|keywords[j]| == 1 ==> |keywords[i]| == 1)
  {
    var raws := t.split(objective);
    PickedGrows(t, raws, |raws|);
    assert raws[..|raws|] == raws;
  }

  /** Every check but a raw one has an identifier. */
  function IdentifierOf(c: Fingerprint.Check): seq<string> {
    if c.Typed? then [Fingerprint.KindValue(c.spec.kind) + ":" + c.spec.target]
    else if c.Text? then [c.text]
    else []
  }

  /** They are listed in the order of the checks. */
  lemma {:induction false} CheckIdentifiersExactly(checks: seq<Fingerprint.Check>, c: Fingerprint.Check)
    ensures CheckIdentifiers(checks + [c]) == CheckIdentifiers(checks) + IdentifierOf(c)
  {
    hide Fingerprint.KindValue;
    if checks == [] {
      assert checks + [c] == [c] && [c][1..] == [];
      assert IdentifierOf(c) + [] == [] + IdentifierOf(c);
    } else {
      var tail := checks[1..];
      assert (checks + [c])[1..] == tail + [c];
      CheckIdentifiersExactly(tail, c);
      assert IdentifierOf(checks[0]) + (CheckIdentifiers(tail) + IdentifierOf(c))
          == IdentifierOf(checks[0]) + CheckIdentifiers(tail) + IdentifierOf(c);
    }
  }

  /** The uncovered identifiers are listed in their own order. */
  lemma {:induction false} UncoveredInOrder(t: TextTables, steps: seq<PlanStep>, a: seq<string>, b: seq<string>)
    ensures Uncovered(t, steps, a + b) == Uncovered(t, steps, a) + Uncovered(t, steps, b)
    decreases |b|
  {
    if b == [] {
      assert a + b == a;
    } else {
      var n := |b| - 1;
      assert (a + b)[..|a + b| - 1] == a + b[..n];
      UncoveredInOrder(t, steps, a, b[..n]);
    }
  }

  /** Faults of single steps come first, then those against the objective, then
      the checks; the first two kinds are numbered by step. */
  function Rank(r: Reason): nat {
    if r.NoKeyword? || r.OffObjective? then 1 else if r.CheckUncovered? then 2 else 0
  }

  function Number(r: Reason): nat {
    match r
    case ActionNotAllowed(k) => k
    case EmptyRationale(k) => k
    case EmptyTarget(k) => k
    case EmptyOutcome(k) => k
    case OffObjective(k) => k
    case _ => 0
  }

  predicate Precedes(r: Reason, s: Reason) {
    Rank(r) < Rank(s) || (Rank(r) == Rank(s) && Number(r) <= Number(s))
  }

  predicate InOrder(reasons: seq<Reason>) {
    forall i, j :: 0 <= i < j < |reasons| ==> Precedes(reasons[i], reasons[j])
  }

  /** All of one rank, numbered from `low` to `high`. */
  predicate Within(reasons: seq<Reason>, rank: nat, low: nat, high: nat) {
    forall r :: r in reasons ==> Rank(r) == rank && low <= Number(r) <= high
  }

  lemma OrderAppend(a: seq<Reason>, b: seq<Reason>)
    requires InOrder(a) && InOrder(b) && forall r, s :: r in a && s in b ==> Precedes(r, s)
    ensures InOrder(a + b)
  {
    var c := a + b;
    forall i, j | 0 <= i < j < |c|
      ensures Precedes(c[i], c[j])
    {
      if i < |a| <= j {
        assert c[i] in a && c[j] in b;
      }
    }
  }

  lemma OneStepInOrder(t: TextTables, step: PlanStep, index: nat)
    ensures InOrder(StructureOf(t, step, index)) && Within(StructureOf(t, step, index), 0, index, index)
  {
  }

  lemma {:induction false} StructureInOrder(t: TextTables, steps: seq<PlanStep>)
    ensures InOrder(Structure(t, steps)) && Within(Structure(t, steps), 0, 0, |steps|)
  {
    hide StructureOf;
    if steps != [] {
      var n := |steps| - 1;
      StructureInOrder(t, steps[..n]);
      OneStepInOrder(t, steps[n], n + 1);
      OrderAppend(Structure(t, steps[..n]), StructureOf(t, steps[n], n + 1));
    }
  }

  lemma {:induction false} AlignmentInOrder(t: TextTables, steps: seq<PlanStep>, keywords: seq<string>)
    ensures InOrder(Alignment(t, steps, keywords)) && Within(Alignment(t, steps, keywords), 1, 0, |steps|)
  {
    hide Mentions;
    if steps != [] {
      var n := |steps| - 1;
      AlignmentInOrder(t, steps[..n], keywords);
      OrderAppend(Alignment(t, steps[..n], keywords),
                  if Mentions(t, steps[n].rationale, keywords) then [] else [OffObjective(n + 1)]);
    }
  }

  lemma ReasonsInOrder(t: TextTables, steps: seq<PlanStep>, objective: string, ids: seq<string>)
    ensures InOrder(Reasons(t, steps, objective, ids))
  {
    hide Structure, Alignment, Keywords, Uncovered;
    if steps != [] {
      var keywords := Keywords(t, objective);
      var aligned := if keywords == [] then [NoKeyword] else Alignment(t, steps, keywords);
      StructureInOrder(t, steps);
      AlignmentInOrder(t, steps, keywords);
      OrderAppend(Structure(t, steps), aligned);
      OrderAppend(Structure(t, steps) + aligned, Coverage(Uncovered(t, steps, ids)));
    }
  }
}
