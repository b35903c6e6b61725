/**
 * Validation of acceptance specs, and their evaluation in two passes: collect
 * the machine results into a list, then compose the verdict from a map of them.
 */
module SpecEvaluation {
  import opened Prelude
  import opened Json
  import opened AcceptanceSpec

  // ----- validation -----

  datatype PathStep = PathStep(op: Combinator, index: nat)

  datatype SpecError =
    | NotAnObject(path: seq<PathStep>)
    | NotAnArray(path: seq<PathStep>, op: Combinator)
    | EmptyGroup(path: seq<PathStep>, op: Combinator)
    | UnexpectedKey(path: seq<PathStep>, key: string)
    | BadJudge(path: seq<PathStep>)
    | KindRequired(path: seq<PathStep>)
    | TargetRequired(path: seq<PathStep>)

  function Key(op: Combinator): string {
    match op case All => "all" case Any => "any"
  }

  predicate IsNamed(isSpace: char -> bool, v: Json) {
    v.Str? && !IsBlank(isSpace, v.s)
  }

  /** A well-formed spec: groups hold nothing but non-empty arrays of well-formed
      specs, and leaves name their judge. */
  predicate IsValid(isSpace: char -> bool, node: Json)
    decreases node
  {
    node.Obj? &&
    var fields := node.fields;
    if "all" in fields || "any" in fields then
      fields.Keys <= {"all", "any"} &&
      ("all" in fields ==>
         (fields["all"].Arr? && fields["all"].items != [] &&
          forall i | 0 <= i < |fields["all"].items| :: IsValid(isSpace, fields["all"].items[i]))) &&
      ("any" in fields ==>
         (fields["any"].Arr? && fields["any"].items != [] &&
          forall i | 0 <= i < |fields["any"].items| :: IsValid(isSpace, fields["any"].items[i])))
    else
      IsUser(fields) ||
      (IsMachine(fields) && IsNamed(isSpace, Get(fields, "kind", Null)) &&
       IsNamed(isSpace, Get(fields, "target", Null)))
  }

  /** What a well-formed node is, in plain terms.  A group has no keys but the two
      combinators, each with a non-empty array of well-formed nodes; any other
      node is judged by the user, or by the machine with a kind and a target that
      are texts of more than white space. */
  lemma ValidExactly(isSpace: char -> bool, fields: map<string, Json>)
    ensures "all" in fields || "any" in fields ==>
              (IsValid(isSpace, Obj(fields)) <==>
               forall key :: key in fields ==>
                 (key == "all" || key == "any") && fields[key].Arr? && |fields[key].items| > 0 &&
                 forall member :: member in fields[key].items ==> IsValid(isSpace, member))
    ensures "all" !in fields && "any" !in fields ==>
              (IsValid(isSpace, Obj(fields)) <==>
               "judge" in fields &&
               (fields["judge"] == Str("user") ||
                (fields["judge"] == Str("machine") &&
                 forall key :: key == "kind" || key == "target" ==>
                   key in fields && fields[key].Str? &&
                   exists i :: 0 <= i < |fields[key].s| && !isSpace(fields[key].s[i]))))
  {
    if "all" in fields && fields["all"].Arr? {
      Members(isSpace, fields["all"].items);
    }
    if "any" in fields && fields["any"].Arr? {
      Members(isSpace, fields["any"].items);
    }
  }

  lemma Members(isSpace: char -> bool, items: seq<Json>)
    ensures (forall i | 0 <= i < |items| :: IsValid(isSpace, items[i]))
       <==> (forall member :: member in items ==> IsValid(isSpace, member))
  {
    forall i | 0 <= i < |items|
      ensures items[i] in items
    {
    }
  }

  /** The fault `e` names is there, in the node at `path` or below it. */
  ghost predicate IsFault(isSpace: char -> bool, node: Json, path: seq<PathStep>, e: SpecError)
    decreases node, 1
  {
    if !node.Obj? then e == NotAnObject(path)
    else if "all" in node.fields || "any" in node.fields then
      IsGroupFault(isSpace, node, All, path, e) || IsGroupFault(isSpace, node, Any, path, e) ||
      IsKeyFault(node.fields, path, e)
    else IsLeafFault(isSpace, node.fields, path, e)
  }

  ghost predicate IsGroupFault(isSpace: char -> bool, node: Json, op: Combinator, path: seq<PathStep>, e: SpecError)
    requires node.Obj?
    decreases node, 0
  {
    Key(op) in node.fields &&
    var value := node.fields[Key(op)];
    if !value.Arr? then e == NotAnArray(path, op)
    else if value.items == [] then e == EmptyGroup(path, op)
    else exists i | 0 <= i < |value.items| :: IsFault(isSpace, value.items[i], path + [PathStep(op, i)], e)
  }

  predicate IsKeyFault(fields: map<string, Json>, path: seq<PathStep>, e: SpecError) {
    e.UnexpectedKey? && e.path == path && e.key in fields && e.key != "all" && e.key != "any"
  }

  predicate IsLeafFault(isSpace: char -> bool, fields: map<string, Json>, path: seq<PathStep>, e: SpecError) {
    if IsMachine(fields) then
      (e == KindRequired(path) && !IsNamed(isSpace, Get(fields, "kind", Null))) ||
      (e == TargetRequired(path) && !IsNamed(isSpace, Get(fields, "target", Null)))
    else e == BadJudge(path) && !IsUser(fields)
  }

  /** A node is well-formed exactly when it has no fault. */
  lemma {:induction false} FaultlessIsValid(isSpace: char -> bool, node: Json, path: seq<PathStep>)
    ensures IsValid(isSpace, node) ==> forall e :: !IsFault(isSpace, node, path, e)
    ensures !IsValid(isSpace, node) ==> exists e :: IsFault(isSpace, node, path, e)
    decreases node, 1
  {
    if !node.Obj? {
      assert IsFault(isSpace, node, path, NotAnObject(path));
    } else if "all" in node.fields || "any" in node.fields {
      FaultlessGroup(isSpace, node, All, path);
      FaultlessGroup(isSpace, node, Any, path);
      FaultlessKeys(node.fields, path);
      ValidCombination(isSpace, node.fields);
      assert node == Obj(node.fields);
      if IsValid(isSpace, node) {
        forall e
          ensures !IsFault(isSpace, node, path, e)
        {
          assert !IsGroupFault(isSpace, node, All, path, e) && !IsGroupFault(isSpace, node, Any, path, e);
        }
      } else if e :| IsGroupFault(isSpace, node, All, path, e) || IsGroupFault(isSpace, node, Any, path, e) ||
                     IsKeyFault(node.fields, path, e) {
        assert IsFault(isSpace, node, path, e);
      }
    } else {
      FaultlessLeaf(isSpace, node.fields, path);
      if e :| IsLeafFault(isSpace, node.fields, path, e) {
        assert IsFault(isSpace, node, path, e);
      }
    }
  }

  lemma FaultlessLeaf(isSpace: char -> bool, fields: map<string, Json>, path: seq<PathStep>)
    requires "all" !in fields && "any" !in fields
    ensures IsValid(isSpace, Obj(fields)) <==> forall e :: !IsLeafFault(isSpace, fields, path, e)
  {
    assert IsUser(fields) ==> !IsMachine(fields);
    if !IsValid(isSpace, Obj(fields)) {
      var e := if !IsMachine(fields) then BadJudge(path)
               else if !IsNamed(isSpace, Get(fields, "kind", Null)) then KindRequired(path)
               else TargetRequired(path);
      assert IsLeafFault(isSpace, fields, path, e);
    }
  }

  lemma ValidCombination(isSpace: char -> bool, fields: map<string, Json>)
    requires "all" in fields || "any" in fields
    ensures IsValid(isSpace, Obj(fields)) <==>
            IsValidGroup(isSpace, fields, All) && IsValidGroup(isSpace, fields, Any) && fields.Keys <= {"all", "any"}
  {
  }

  lemma FaultlessKeys(fields: map<string, Json>, path: seq<PathStep>)
    ensures fields.Keys <= {"all", "any"} <==> forall e :: !IsKeyFault(fields, path, e)
  {
    if !(fields.Keys <= {"all", "any"}) {
      var key :| key in fields.Keys && key !in {"all", "any"};
      assert IsKeyFault(fields, path, UnexpectedKey(path, key));
    }
  }

  predicate IsValidGroup(isSpace: char -> bool, fields: map<string, Json>, op: Combinator) {
    Key(op) in fields ==>
      fields[Key(op)].Arr? && fields[Key(op)].items != [] &&
      forall i | 0 <= i < |fields[Key(op)].items| :: IsValid(isSpace, fields[Key(op)].items[i])
  }

  lemma {:induction false} FaultlessGroup(isSpace: char -> bool, node: Json, op: Combinator, path: seq<PathStep>)
    requires node.Obj?
    ensures IsValidGroup(isSpace, node.fields, op) <==> forall e :: !IsGroupFault(isSpace, node, op, path, e)
    decreases node, 0
  {
    if Key(op) in node.fields {
      var value := node.fields[Key(op)];
      if !value.Arr? {
        assert IsGroupFault(isSpace, node, op, path, NotAnArray(path, op));
      } else if value.items == [] {
        assert IsGroupFault(isSpace, node, op, path, EmptyGroup(path, op));
      } else {
        forall i | 0 <= i < |value.items|
          ensures IsValid(isSpace, value.items[i])
             <==> forall e :: !IsFault(isSpace, value.items[i], path + [PathStep(op, i)], e)
        {
          FaultlessIsValid(isSpace, value.items[i], path + [PathStep(op, i)]);
        }
        if !IsValidGroup(isSpace, node.fields, op) {
          var i :| 0 <= i < |value.items| && !IsValid(isSpace, value.items[i]);
          var e :| IsFault(isSpace, value.items[i], path + [PathStep(op, i)], e);
          assert IsGroupFault(isSpace, node, op, path, e);
        }
      }
    }
  }

  /** What was added in two stretches. */
  lemma AddedTwice(a: seq<SpecError>, b: seq<SpecError>, c: seq<SpecError>)
    requires a <= b <= c
    ensures a <= c && c[|a|..] == b[|a|..] + c[|b|..]
  {
  }

  class SpecValidator {
    const isSpace: char -> bool
    var errors: seq<SpecError>

    constructor (isSpace: char -> bool)
      ensures errors == [] && this.isSpace == isSpace
    {
      this.isSpace := isSpace;
      errors := [];
    }

    method Report(e: SpecError)
      modifies this
      ensures errors == old(errors) + [e]
    {
      errors := errors + [e];
    }

    /** Errors are only ever added: exactly those whose fault is there, so none
        exactly to a valid node. */
    method ValidateNode(node: Json, path: seq<PathStep>)
      modifies this
      ensures old(errors) <= errors
      ensures forall e :: e in errors[|old(errors)|..] <==> IsFault(isSpace, node, path, e)
      ensures errors == old(errors) <==> IsValid(isSpace, node)
      decreases node, 2
    {
      FaultlessIsValid(isSpace, node, path);
      if !node.Obj? {
        Report(NotAnObject(path));
        return;
      }
      var fields := node.fields;
      if "all" in fields || "any" in fields {
        ValidateGroup(node, All, path);
        ghost var afterAll := errors;
        ValidateGroup(node, Any, path);
        AddedTwice(old(errors), afterAll, errors);
        ghost var afterAny := errors;
        ValidateKeys(fields, path);
        AddedTwice(old(errors), afterAny, errors);
        NoneAdded(old(errors), errors);
        return;
      }
      ValidateLeaf(fields, path);
      NoneAdded(old(errors), errors);
    }

    method ValidateLeaf(fields: map<string, Json>, path: seq<PathStep>)
      modifies this
      ensures old(errors) <= errors
      ensures forall e :: e in errors[|old(errors)|..] <==> IsLeafFault(isSpace, fields, path, e)
    {
      if !IsMachine(fields) && !IsUser(fields) {
        Report(BadJudge(path));
        return;
      }
      if IsMachine(fields) {
        if !IsNamed(isSpace, Get(fields, "kind", Null)) {
          Report(KindRequired(path));
        }
        ghost var before := errors;
        if !IsNamed(isSpace, Get(fields, "target", Null)) {
          Report(TargetRequired(path));
        }
        AddedTwice(old(errors), before, errors);
      }
    }

    method ValidateGroup(node: Json, op: Combinator, path: seq<PathStep>)
      requires node.Obj?
      modifies this
      ensures old(errors) <= errors
      ensures forall e :: e in errors[|old(errors)|..] <==> IsGroupFault(isSpace, node, op, path, e)
      decreases node, 1
    {
      if Key(op) !in node.fields {
        return;
      }
      var value := node.fields[Key(op)];
      if !value.Arr? {
        Report(NotAnArray(path, op));
        return;
      }
      if value.items == [] {
        Report(EmptyGroup(path, op));
      }
      for i := 0 to |value.items|
        invariant old(errors) <= errors
        invariant value.items == [] ==> errors == old(errors) + [EmptyGroup(path, op)]
        invariant value.items != [] ==>
                  forall e :: e in errors[|old(errors)|..] <==>
                    exists k | 0 <= k < i :: IsFault(isSpace, value.items[k], path + [PathStep(op, k)], e)
      {
        ghost var before := errors;
        ValidateNode(value.items[i], path + [PathStep(op, i)]);
        AddedTwice(old(errors), before, errors);
      }
    }

    method ValidateKeys(fields: map<string, Json>, path: seq<PathStep>)
      modifies this
      ensures old(errors) <= errors
      ensures forall e :: e in errors[|old(errors)|..] <==> IsKeyFault(fields, path, e)
    {
      var keys := fields.Keys;
      while keys != {}
        invariant keys <= fields.Keys
        invariant old(errors) <= errors
        invariant forall e :: e in errors[|old(errors)|..] <==> IsKeyFault(fields, path, e) && e.key !in keys
        decreases keys
      {
        var key :| key in keys;
        ghost var before := errors;
        if key !in {"all", "any"} {
          Report(UnexpectedKey(path, key));
        }
        AddedTwice(old(errors), before, errors);
        keys := keys - {key};
      }
    }
  }

  lemma NoneAdded(before: seq<SpecError>, after: seq<SpecError>)
    requires before <= after
    ensures after == before <==> forall e :: e !in after[|before|..]
  {
    if after != before {
      assert after[|before|..][0] in after[|before|..];
    }
  }

  method ValidateSpec(isSpace: char -> bool, spec: Json) returns (errors: seq<SpecError>)
    ensures errors == [] <==> IsValid(isSpace, spec)
    ensures forall e :: e in errors <==> IsFault(isSpace, spec, [], e)
  {
    var v := new SpecValidator(isSpace);
    v.ValidateNode(spec, []);
    errors := v.errors;
  }

  // ----- results -----

  datatype CheckResult = CheckResult(judge: string, kind: string, target: string, outcome: Outcome)

  function MachineResult(render: Json -> string, fields: map<string, Json>, checks: map<string, Outcome>): CheckResult {
    var id := Identity(render, fields, "unknown");
    CheckResult("machine", ToText(render, Get(fields, "kind", Str("unknown"))),
                ToText(render, Get(fields, "target", Str(""))),
                if id in checks then checks[id] else Pending)
  }

  function UserResult(render: Json -> string, fields: map<string, Json>): CheckResult {
    CheckResult("user", "user-confirm", ToText(render, Get(fields, "question", Str("user confirmation required"))),
                Pending)
  }

  function MachineResults(render: Json -> string, leaves: seq<map<string, Json>>, checks: map<string, Outcome>)
    : seq<CheckResult>
  {
    if leaves == [] then []
    else (if IsMachine(leaves[0]) then [MachineResult(render, leaves[0], checks)] else [])
         + MachineResults(render, leaves[1..], checks)
  }

  function UserResults(render: Json -> string, leaves: seq<map<string, Json>>): seq<CheckResult> {
    if leaves == [] then []
    else (if IsUser(leaves[0]) then [UserResult(render, leaves[0])] else []) + UserResults(render, leaves[1..])
  }

  /** How many machine leaves came out as `o`. */
  function CountMachine(render: Json -> string, leaves: seq<map<string, Json>>, results: map<string, Outcome>,
                        o: Outcome): nat {
    if leaves == [] then 0
    else (if IsMachine(leaves[0]) && LeafOutcome(render, leaves[0], results) == o then 1 else 0)
         + CountMachine(render, leaves[1..], results, o)
  }

  lemma Associate(a: seq<CheckResult>, b: seq<CheckResult>, c: seq<CheckResult>)
    ensures a + b + c == a + (b + c)
  {
  }

  lemma {:induction false} MachineAppend(render: Json -> string, a: seq<map<string, Json>>, b: seq<map<string, Json>>,
                                         m: map<string, Outcome>)
    ensures MachineResults(render, a + b, m) == MachineResults(render, a, m) + MachineResults(render, b, m)
  {
    hide MachineResult, IsMachine;
    if a == [] {
      assert a + b == b;
    } else {
      var first := if IsMachine(a[0]) then [MachineResult(render, a[0], m)] else [];
      assert (a + b)[1..] == a[1..] + b;
      MachineAppend(render, a[1..], b, m);
      Associate(first, MachineResults(render, a[1..], m), MachineResults(render, b, m));
    }
  }

  lemma {:induction false} UserAppend(render: Json -> string, a: seq<map<string, Json>>, b: seq<map<string, Json>>)
    ensures UserResults(render, a + b) == UserResults(render, a) + UserResults(render, b)
  {
    hide UserResult, IsUser;
    if a == [] {
      assert a + b == b;
    } else {
      var first := if IsUser(a[0]) then [UserResult(render, a[0])] else [];
      assert (a + b)[1..] == a[1..] + b;
      UserAppend(render, a[1..], b);
      Associate(first, UserResults(render, a[1..]), UserResults(render, b));
    }
  }

  lemma {:induction false} CountAppend(render: Json -> string, a: seq<map<string, Json>>, b: seq<map<string, Json>>,
                                       m: map<string, Outcome>, o: Outcome)
    ensures CountMachine(render, a + b, m, o) == CountMachine(render, a, m, o) + CountMachine(render, b, m, o)
  {
    hide LeafOutcome, IsMachine;
    if a == [] {
      assert a + b == b;
    } else {
      assert (a + b)[1..] == a[1..] + b;
      CountAppend(render, a[1..], b, m, o);
    }
  }

  lemma ResultsOfPrefix(render: Json -> string, nodes: seq<Json>, i: nat, m: map<string, Outcome>)
    requires i < |nodes|
    ensures MachineResults(render, LeavesOfAll(nodes[..i + 1]), m)
         == MachineResults(render, LeavesOfAll(nodes[..i]), m) + MachineResults(render, Leaves(nodes[i]), m)
  {
    LeavesOfPrefix(nodes, i);
    MachineAppend(render, LeavesOfAll(nodes[..i]), Leaves(nodes[i]), m);
  }

  lemma {:induction false} LeavesOfPrefix(nodes: seq<Json>, i: nat)
    requires i < |nodes|
    ensures LeavesOfAll(nodes[..i + 1]) == LeavesOfAll(nodes[..i]) + Leaves(nodes[i])
  {
    if i == 0 {
      assert nodes[..1] == [nodes[0]] && nodes[..1][1..] == [];
    } else {
      assert nodes[..i + 1][1..] == nodes[1..][..i] && nodes[..i][1..] == nodes[1..][..i - 1];
      LeavesOfPrefix(nodes[1..], i - 1);
    }
  }

  function OutcomesOf(results: seq<CheckResult>): seq<Outcome> {
    seq(|results|, i requires 0 <= i < |results| => results[i].outcome)
  }

  lemma ResultOutcome(render: Json -> string, leaf: map<string, Json>, checks: map<string, Outcome>)
    requires IsMachine(leaf) && "kind" in leaf
    ensures MachineResult(render, leaf, checks).outcome == LeafOutcome(render, leaf, checks)
  {
  }

  lemma OneMoreOutcome(r: CheckResult, tail: seq<CheckResult>, o: Outcome)
    ensures multiset(OutcomesOf([r] + tail))[o] == multiset(OutcomesOf(tail))[o] + if r.outcome == o then 1 else 0
  {
    assert OutcomesOf([r] + tail) == [r.outcome] + OutcomesOf(tail);
  }

  /** The counters count the listed machine results by their outcome. */
  lemma {:induction false} CountersCountResults(render: Json -> string, leaves: seq<map<string, Json>>,
                                                checks: map<string, Outcome>, o: Outcome)
    requires forall i :: 0 <= i < |leaves| ==> IsMachine(leaves[i]) ==> "kind" in leaves[i]
    ensures CountMachine(render, leaves, checks, o) == multiset(OutcomesOf(MachineResults(render, leaves, checks)))[o]
  {
    hide MachineResult, LeafOutcome, OutcomesOf, IsMachine;
    if leaves == [] {
      NoOutcomes(o);
    } else {
      var tail := MachineResults(render, leaves[1..], checks);
      CountersCountResults(render, leaves[1..], checks, o);
      if IsMachine(leaves[0]) {
        ResultOutcome(render, leaves[0], checks);
        OneMoreOutcome(MachineResult(render, leaves[0], checks), tail, o);
      } else {
        assert [] + tail == tail;
      }
    }
  }

  lemma NoOutcomes(o: Outcome)
    ensures multiset(OutcomesOf([]))[o] == 0
  {
    assert OutcomesOf([]) == [];
  }

  /** What becomes of a single leaf, by its judge.  A named check is listed with
      its own result; a question to the user is listed as pending; a leaf with
      any other judge, or none, is listed nowhere.  All but checks are open. */
  lemma LeafExactly(render: Json -> string, spec: Json, fields: map<string, Json>, checks: map<string, Outcome>)
    requires ShapeOf(spec) == Leaf(fields)
    ensures var judge := if "judge" in fields then fields["judge"] else Null;
            var machine := MachineResults(render, Leaves(spec), checks);
            var user := UserResults(render, Leaves(spec));
            (judge != Str("machine") ==> machine == [] && Eval(render, spec, checks) == Pending) &&
            (judge != Str("user") ==> user == []) &&
            (judge == Str("user") ==> |user| == 1 && user[0].judge == "user" && user[0].kind == "user-confirm" &&
                                      user[0].outcome == Pending) &&
            (judge == Str("user") && "question" !in fields ==> user[0].target == "user confirmation required") &&
            (forall q :: judge == Str("user") && "question" in fields && fields["question"] == Str(q) ==>
               user[0].target == q)
    ensures forall kind, target ::
              "judge" in fields && fields["judge"] == Str("machine") &&
              "kind" in fields && fields["kind"] == Str(kind) &&
              "target" in fields && fields["target"] == Str(target) ==>
                var id := kind + ":" + target;
                var outcome := if id in checks then checks[id] else Pending;
                Eval(render, spec, checks) == outcome &&
                MachineResults(render, Leaves(spec), checks) == [CheckResult("machine", kind, target, outcome)]
  {
    assert [fields][1..] == [];
  }

  // ----- first pass -----

  class Collector {
    const render: Json -> string
    const checks: map<string, Outcome>
    var results: seq<CheckResult>

    constructor (render: Json -> string, checks: map<string, Outcome>)
      ensures results == [] && this.render == render && this.checks == checks
    {
      this.render, this.checks := render, checks;
      results := [];
    }

    method Collect(node: Json)
      modifies this
      ensures results == old(results) + MachineResults(render, Leaves(node), checks)
      decreases node, 1
    {
      var shape := ShapeOf(node);
      if shape.NotObject? {
        return;
      }
      if shape.Group? {
        CollectChildren(shape.children);
        return;
      }
      assert [shape.fields][1..] == [];
      if IsMachine(shape.fields) {
        results := results + [MachineResult(render, shape.fields, checks)];
      }
    }

    method CollectChildren(children: seq<Json>)
      modifies this
      ensures results == old(results) + MachineResults(render, LeavesOfAll(children), checks)
      decreases children, 0
    {
      ghost var found := [];
      ghost var before := results;
      for i := 0 to |children|
        invariant found == MachineResults(render, LeavesOfAll(children[..i]), checks)
        invariant results == before + found
      {
        Collect(children[i]);
        ghost var more := MachineResults(render, Leaves(children[i]), checks);
        ResultsOfPrefix(render, children, i, checks);
        Associate(before, found, more);
        found := found + more;
      }
      assert children[..|children|] == children;
    }
  }

  method EvaluateMachineChecks(render: Json -> string, spec: Json, checks: map<string, Outcome>)
    returns (results: seq<CheckResult>)
    ensures results == MachineResults(render, Leaves(spec), checks)
  {
    var c := new Collector(render, checks);
    c.Collect(spec);
    results := c.results;
  }

  // ----- second pass -----

  function ResultMap(results: seq<CheckResult>): map<string, Outcome> {
    if results == [] then map[]
    else
      var r := results[|results| - 1];
      ResultMap(results[..|results| - 1])[r.kind + ":" + r.target := r.outcome]
  }

  /** What a traversal has counted and listed. */
  datatype Tally = Tally(machinePass: nat, machineFail: nat, userPending: nat, results: seq<CheckResult>)

  function TallyOf(render: Json -> string, visited: seq<map<string, Json>>, m: map<string, Outcome>): Tally {
    var users := UserResults(render, visited);
    Tally(CountMachine(render, visited, m, Pass), CountMachine(render, visited, m, Fail), |users|, users)
  }

  function Plus(a: Tally, b: Tally): Tally {
    Tally(a.machinePass + b.machinePass, a.machineFail + b.machineFail, a.userPending + b.userPending,
          a.results + b.results)
  }

  function LeafTally(render: Json -> string, fields: map<string, Json>, m: map<string, Outcome>): Tally {
    if IsMachine(fields) then
      var o := LeafOutcome(render, fields, m);
      Tally(if o == Pass then 1 else 0, if o == Fail then 1 else 0, 0, [])
    else if IsUser(fields) then Tally(0, 0, 1, [UserResult(render, fields)])
    else Tally(0, 0, 0, [])
  }

  lemma OneLeaf(render: Json -> string, fields: map<string, Json>, m: map<string, Outcome>)
    ensures TallyOf(render, [fields], m) == LeafTally(render, fields, m)
  {
    var none: seq<map<string, Json>> := [];
    assert [fields][1..] == none && UserResults(render, none) == [];
    assert IsUser(fields) ==> !IsMachine(fields);
    assert UserResults(render, [fields]) == if IsUser(fields) then [UserResult(render, fields)] else [];
    assert CountMachine(render, none, m, Pass) == CountMachine(render, none, m, Fail) == 0;
    assert CountMachine(render, [fields], m, Pass) == LeafTally(render, fields, m).machinePass;
    assert CountMachine(render, [fields], m, Fail) == LeafTally(render, fields, m).machineFail;
  }

  lemma TallyAppend(render: Json -> string, before: Tally, a: seq<map<string, Json>>, b: seq<map<string, Json>>,
                    m: map<string, Outcome>)
    ensures Plus(before, TallyOf(render, a + b, m)) == Plus(Plus(before, TallyOf(render, a, m)), TallyOf(render, b, m))
  {
    UserAppend(render, a, b);
    CountAppend(render, a, b, m, Pass);
    CountAppend(render, a, b, m, Fail);
  }

  class Composition {
    const render: Json -> string
    const machineMap: map<string, Outcome>
    var machinePass: nat
    var machineFail: nat
    var userPending: nat
    var results: seq<CheckResult>

    constructor (render: Json -> string, machineMap: map<string, Outcome>, results: seq<CheckResult>)
      ensures machinePass == machineFail == userPending == 0 && this.results == results
      ensures this.render == render && this.machineMap == machineMap
    {
      this.render, this.machineMap, this.results := render, machineMap, results;
      machinePass, machineFail, userPending := 0, 0, 0;
    }

    ghost function State(): Tally
      reads this
    {
      Tally(machinePass, machineFail, userPending, results)
    }

    method EvalNode(node: Json) returns (o: Outcome)
      modifies this
      ensures o == Eval(render, node, machineMap)
      ensures State() == Plus(old(State()), TallyOf(render, Leaves(node), machineMap))
      decreases node, 1
    {
      var shape := ShapeOf(node);
      if shape.NotObject? {
        return Pending;
      }
      if shape.Group? {
        var outcomes := EvalChildren(shape.children);
        if shape.op.All? {
          return if Fail in outcomes then Fail else if Pending in outcomes then Pending else Pass;
        }
        return if Pass in outcomes then Pass else if Pending in outcomes then Pending else Fail;
      }
      o := EvalLeaf(shape.fields);
    }

    method EvalChildren(children: seq<Json>) returns (outcomes: seq<Outcome>)
      modifies this
      ensures outcomes == EvalAll(render, children, machineMap)
      ensures State() == Plus(old(State()), TallyOf(render, LeavesOfAll(children), machineMap))
      decreases children, 0
    {
      outcomes := [];
      ghost var visited := [];
      for i := 0 to |children|
        invariant |outcomes| == i
        invariant forall k :: 0 <= k < i ==> outcomes[k] == Eval(render, children[k], machineMap)
        invariant visited == LeavesOfAll(children[..i])
        invariant State() == Plus(old(State()), TallyOf(render, visited, machineMap))
      {
        var outcome := EvalNode(children[i]);
        outcomes := outcomes + [outcome];
        LeavesOfPrefix(children, i);
        TallyAppend(render, old(State()), visited, Leaves(children[i]), machineMap);
        visited := visited + Leaves(children[i]);
      }
      assert children[..|children|] == children;
    }

    method EvalLeaf(fields: map<string, Json>) returns (o: Outcome)
      modifies this
      ensures o == LeafOutcome(render, fields, machineMap)
      ensures State() == Plus(old(State()), TallyOf(render, [fields], machineMap))
    {
      OneLeaf(render, fields, machineMap);
      assert results + [] == results;
      if IsMachine(fields) {
        var id := Identity(render, fields, "");
        if id !in machineMap {
          return Pending;
        }
        if machineMap[id] == Pass {
          machinePass := machinePass + 1;
        } else if machineMap[id] == Fail {
          machineFail := machineFail + 1;
        }
        return machineMap[id];
      }
      if IsUser(fields) {
        userPending := userPending + 1;
        results := results + [UserResult(render, fields)];
      }
      return Pending;
    }
  }

  datatype SpecVerdict = SpecVerdict(
    outcome: Outcome, results: seq<CheckResult>, machinePass: nat, machineFail: nat, userPending: nat)

  method ComposeVerdict(render: Json -> string, spec: Json, machineResults: seq<CheckResult>) returns (v: SpecVerdict)
    ensures var m, leaves := ResultMap(machineResults), Leaves(spec);
            v == SpecVerdict(Eval(render, spec, m), machineResults + UserResults(render, leaves),
                             CountMachine(render, leaves, m, Pass), CountMachine(render, leaves, m, Fail),
                             |UserResults(render, leaves)|)
  {
    var machineMap := map[];
    for i := 0 to |machineResults|
      invariant machineMap == ResultMap(machineResults[..i])
    {
      var r := machineResults[i];
      machineMap := machineMap[r.kind + ":" + r.target := r.outcome];
      assert machineResults[..i + 1][..i] == machineResults[..i];
    }
    assert machineResults[..|machineResults|] == machineResults;
    var c := new Composition(render, machineMap, machineResults);
    var outcome := c.EvalNode(spec);
    v := SpecVerdict(outcome, c.results, c.machinePass, c.machineFail, c.userPending);
  }

  /** Both passes together.  For a spec whose machine leaves name their kind (a
      validated one) the verdict and its counts are those of reading the check
      results directly. */
  method EvaluateStageAcceptance(render: Json -> string, spec: Json, checks: map<string, Outcome>)
    returns (r: Result<SpecVerdict, string>)
    ensures r.Ok? <==> spec.Obj?
    ensures r.Ok? ==>
            var leaves := Leaves(spec);
            var machine, user := MachineResults(render, leaves, checks), UserResults(render, leaves);
            var m := ResultMap(machine);
            r.value == SpecVerdict(Eval(render, spec, m), machine + user, CountMachine(render, leaves, m, Pass),
                                   CountMachine(render, leaves, m, Fail), |user|)
    ensures r.Ok? && KindsNamed(Leaves(spec)) ==>
            var leaves := Leaves(spec);
            r.value == SpecVerdict(Eval(render, spec, checks),
                                   MachineResults(render, leaves, checks) + UserResults(render, leaves),
                                   CountMachine(render, leaves, checks, Pass),
                                   CountMachine(render, leaves, checks, Fail),
                                   |UserResults(render, leaves)|)
  {
    if !spec.Obj? {
      return Err("acceptance spec must be a dict");
    }
    var machineResults := EvaluateMachineChecks(render, spec, checks);
    var v := ComposeVerdict(render, spec, machineResults);
    if KindsNamed(Leaves(spec)) {
      TwoPassesAreOne(render, spec, checks);
    }
    return Ok(v);
  }

  // ----- two passes refine one -----

  predicate KindsNamed(leaves: seq<map<string, Json>>) {
    forall i :: 0 <= i < |leaves| ==> IsMachine(leaves[i]) ==> "kind" in leaves[i]
  }

  /** The machine leaf's result is filed under `id` by the first pass. */
  predicate IsFiledUnder(render: Json -> string, leaf: map<string, Json>, id: string) {
    IsMachine(leaf) && Identity(render, leaf, "unknown") == id
  }

  /** What the first pass files, with or without kinds: the names of the machine
      leaves, each with the check result of that name. */
  lemma {:induction false} FiledResults(render: Json -> string, leaves: seq<map<string, Json>>,
                                        checks: map<string, Outcome>, id: string)
    ensures var m := ResultMap(MachineResults(render, leaves, checks));
            (id in m <==> exists l :: l in leaves && IsFiledUnder(render, l, id)) &&
            (id in m ==> m[id] == if id in checks then checks[id] else Pending)
    decreases |leaves|
  {
    hide MachineResult, Identity, IsMachine;
    if leaves != [] {
      var n := |leaves| - 1;
      var front, last := leaves[..n], leaves[n];
      assert leaves == front + [last];
      FiledResults(render, front, checks, id);
      MapOfOneMore(render, front, last, checks);
      OneMoreFiled(render, front, last, id);
    }
  }

  /** What one more leaf puts into the map. */
  lemma MapOfOneMore(render: Json -> string, front: seq<map<string, Json>>, last: map<string, Json>,
                     checks: map<string, Outcome>)
    ensures var m := ResultMap(MachineResults(render, front, checks));
            ResultMap(MachineResults(render, front + [last], checks)) ==
              if !IsMachine(last) then m
              else
                var id := Identity(render, last, "unknown");
                m[id := if id in checks then checks[id] else Pending]
  {
    MachineAppend(render, front, [last], checks);
    assert [last][1..] == [];
    var results := MachineResults(render, front, checks);
    if IsMachine(last) {
      var r := MachineResult(render, last, checks);
      assert MachineResults(render, front + [last], checks) == results + [r];
      assert (results + [r])[..|results|] == results;
    } else {
      assert results + [] == results;
    }
  }

  lemma OneMoreFiled(render: Json -> string, front: seq<map<string, Json>>, last: map<string, Json>, id: string)
    ensures (exists l :: l in front + [last] && IsFiledUnder(render, l, id))
       <==> (exists l :: l in front && IsFiledUnder(render, l, id)) || IsFiledUnder(render, last, id)
  {
    assert forall l :: l in front + [last] <==> l in front || l == last;
  }

  /** What the map built by the first pass holds for a leaf: its check result,
      pending if there is none.  The second pass never misses a leaf. */
  lemma MapAnswersForLeaves(render: Json -> string, leaves: seq<map<string, Json>>, checks: map<string, Outcome>)
    requires KindsNamed(leaves)
    ensures var m := ResultMap(MachineResults(render, leaves, checks));
            (forall id :: id in m ==> m[id] == if id in checks then checks[id] else Pending) &&
            forall l :: l in leaves && IsMachine(l) ==> Identity(render, l, "") in m
  {
    var m := ResultMap(MachineResults(render, leaves, checks));
    forall id
      ensures id in m <==> exists l :: l in leaves && IsFiledUnder(render, l, id)
      ensures id in m ==> m[id] == if id in checks then checks[id] else Pending
    {
      FiledResults(render, leaves, checks, id);
    }
    forall l | l in leaves && IsMachine(l)
      ensures IsFiledUnder(render, l, Identity(render, l, ""))
    {
    }
  }

  lemma {:induction false} SameEval(render: Json -> string, node: Json, a: map<string, Outcome>,
                                    b: map<string, Outcome>)
    requires forall l :: l in Leaves(node) ==> LeafOutcome(render, l, a) == LeafOutcome(render, l, b)
    ensures Eval(render, node, a) == Eval(render, node, b)
    decreases node, 1
  {
    var shape := ShapeOf(node);
    if shape.Leaf? {
      assert shape.fields in Leaves(node);
    } else if shape.Group? {
      SameEvals(render, shape.children, a, b);
    }
  }

  lemma {:induction false} SameEvals(render: Json -> string, nodes: seq<Json>, a: map<string, Outcome>,
                                     b: map<string, Outcome>)
    requires forall l :: l in LeavesOfAll(nodes) ==> LeafOutcome(render, l, a) == LeafOutcome(render, l, b)
    ensures EvalAll(render, nodes, a) == EvalAll(render, nodes, b)
    decreases nodes, 0
  {
    if nodes != [] {
      SameEval(render, nodes[0], a, b);
      SameEvals(render, nodes[1..], a, b);
    }
  }

  lemma {:induction false} SameCounts(render: Json -> string, leaves: seq<map<string, Json>>, a: map<string, Outcome>,
                                      b: map<string, Outcome>, o: Outcome)
    requires forall l :: l in leaves ==> LeafOutcome(render, l, a) == LeafOutcome(render, l, b)
    ensures CountMachine(render, leaves, a, o) == CountMachine(render, leaves, b, o)
  {
    if leaves != [] {
      SameCounts(render, leaves[1..], a, b, o);
    }
  }

  lemma TwoPassesAreOne(render: Json -> string, spec: Json, checks: map<string, Outcome>)
    requires KindsNamed(Leaves(spec))
    ensures var m, leaves := ResultMap(MachineResults(render, Leaves(spec), checks)), Leaves(spec);
            Eval(render, spec, m) == Eval(render, spec, checks) &&
            (forall o: Outcome :: CountMachine(render, leaves, m, o) == CountMachine(render, leaves, checks, o)) &&
            forall l :: l in leaves && IsMachine(l) ==> Identity(render, l, "") in m
  {
    var leaves := Leaves(spec);
    var m := ResultMap(MachineResults(render, leaves, checks));
    MapAnswersForLeaves(render, leaves, checks);
    forall l | l in leaves
      ensures LeafOutcome(render, l, m) == LeafOutcome(render, l, checks)
    {
    }
    SameEval(render, spec, m, checks);
    forall o: Outcome
      ensures CountMachine(render, leaves, m, o) == CountMachine(render, leaves, checks, o)
    {
      SameCounts(render, leaves, m, checks, o);
    }
  }

  lemma {:induction false} ValidSpecsNameTheirKinds(isSpace: char -> bool, spec: Json)
    requires IsValid(isSpace, spec)
    ensures KindsNamed(Leaves(spec))
    ensures forall l :: l in Leaves(spec) ==> IsMachine(l) || IsUser(l)
    decreases spec, 1
  {
    var shape := ShapeOf(spec);
    if shape.Group? {
      ValidNodesNameTheirKinds(isSpace, shape.children);
    }
  }

  lemma {:induction false} ValidNodesNameTheirKinds(isSpace: char -> bool, nodes: seq<Json>)
    requires forall i | 0 <= i < |nodes| :: IsValid(isSpace, nodes[i])
    ensures KindsNamed(LeavesOfAll(nodes))
    ensures forall l :: l in LeavesOfAll(nodes) ==> IsMachine(l) || IsUser(l)
    decreases nodes, 0
  {
    if nodes != [] {
      ValidSpecsNameTheirKinds(isSpace, nodes[0]);
      ValidNodesNameTheirKinds(isSpace, nodes[1..]);
    }
  }

  lemma NamesDiffer(render: Json -> string, a: map<string, Json>, b: map<string, Json>)
    requires "kind" !in a && "kind" !in b
    ensures Identity(render, a, "unknown") != Identity(render, b, "")
  {
    assert Identity(render, a, "unknown")[0] == 'u' && Identity(render, b, "")[0] == ':';
  }

  /** Without a kind the two passes file and look up the same leaf under
      different names, so its own check result never counts: the leaf is pending
      unless another leaf, with an empty kind, is filed where it is looked up. */
  lemma MissingKindIsLost(render: Json -> string, leaves: seq<map<string, Json>>, leaf: map<string, Json>,
                          checks: map<string, Outcome>)
    requires leaf in leaves && IsMachine(leaf) && "kind" !in leaf
    ensures var m, id := ResultMap(MachineResults(render, leaves, checks)), Identity(render, leaf, "");
            LeafOutcome(render, leaf, m) ==
              if (exists l :: l in leaves && "kind" in l && IsFiledUnder(render, l, id)) && id in checks
              then checks[id] else Pending
  {
    var id := Identity(render, leaf, "");
    FiledResults(render, leaves, checks, id);
    forall l | l in leaves && "kind" !in l
      ensures !IsFiledUnder(render, l, id)
    {
      NamesDiffer(render, l, leaf);
    }
  }

  /** So a spec that is one such leaf stays pending whatever its check returned. */
  lemma KindlessSpecIsPending(render: Json -> string, spec: Json, checks: map<string, Outcome>)
    requires ShapeOf(spec).Leaf? && IsMachine(ShapeOf(spec).fields) && "kind" !in ShapeOf(spec).fields
    ensures Eval(render, spec, ResultMap(MachineResults(render, Leaves(spec), checks))) == Pending
  {
    MissingKindIsLost(render, Leaves(spec), ShapeOf(spec).fields, checks);
  }

  /** A valid spec may carry both combinators; its `any` part is never visited. */
  lemma AnyBesideAllIsIgnored(isSpace: char -> bool, render: Json -> string, all: Json, any: Json,
                              results: map<string, Outcome>)
    requires IsValid(isSpace, all) && IsValid(isSpace, any)
    ensures var spec := Obj(map["all" := Arr([all]), "any" := Arr([any])]);
            IsValid(isSpace, spec) &&
            Eval(render, spec, results) == Eval(render, Obj(map["all" := Arr([all])]), results)
  {
    var spec := Obj(map["all" := Arr([all]), "any" := Arr([any])]);
    assert spec.fields.Keys == {"all", "any"};
  }
}
