/**
 * Declarative acceptance specs: all/any trees over machine and user criteria,
 * validated, evaluated in two passes, and read as boolean formulas.
 */
module AcceptanceSpec {
  import opened Prelude
  import opened Json

  datatype Outcome = Pass | Fail | Pending | Other(name: string)

  datatype Combinator = All | Any

  /** How a node is read: the first combinator that holds an array decides. */
  datatype Shape = NotObject | Leaf(fields: map<string, Json>) | Group(op: Combinator, children: seq<Json>)

  function ShapeOf(node: Json): (s: Shape)
    ensures s.Group? ==> forall c :: c in s.children ==> c < node
  {
    if !node.Obj? then NotObject
    else if "all" in node.fields && node.fields["all"].Arr? then Group(All, node.fields["all"].items)
    else if "any" in node.fields && node.fields["any"].Arr? then Group(Any, node.fields["any"].items)
    else Leaf(node.fields)
  }

  predicate IsMachine(fields: map<string, Json>) {
    Get(fields, "judge", Null) == Str("machine")
  }

  predicate IsUser(fields: map<string, Json>) {
    Get(fields, "judge", Null) == Str("user")
  }

  /** The key under which a check result is filed, "kind:target". */
  function Identity(render: Json -> string, fields: map<string, Json>, defaultKind: string): string {
    ToText(render, Get(fields, "kind", Str(defaultKind))) + ":" + ToText(render, Get(fields, "target", Str("")))
  }

  function LeafOutcome(render: Json -> string, fields: map<string, Json>, results: map<string, Outcome>): Outcome {
    var id := Identity(render, fields, "");
    if IsMachine(fields) && id in results then results[id] else Pending
  }

  function Combine(op: Combinator, outcomes: seq<Outcome>): Outcome {
    match op
    case All => if Fail in outcomes then Fail else if Pending in outcomes then Pending else Pass
    case Any => if Pass in outcomes then Pass else if Pending in outcomes then Pending else Fail
  }

  function Eval(render: Json -> string, node: Json, results: map<string, Outcome>): Outcome
    decreases node, 1
  {
    match ShapeOf(node)
    case NotObject => Pending
    case Leaf(fields) => LeafOutcome(render, fields, results)
    case Group(op, children) => Combine(op, EvalAll(render, children, results))
  }

  function EvalAll(render: Json -> string, nodes: seq<Json>, results: map<string, Outcome>): (outcomes: seq<Outcome>)
    ensures |outcomes| == |nodes|
    ensures forall i :: 0 <= i < |nodes| ==> outcomes[i] == Eval(render, nodes[i], results)
    decreases nodes, 0
  {
    if nodes == [] then [] else [Eval(render, nodes[0], results)] + EvalAll(render, nodes[1..], results)
  }

  /** The leaves of the tree that is visited, from left to right. */
  function Leaves(node: Json): seq<map<string, Json>>
    decreases node, 1
  {
    match ShapeOf(node)
    case NotObject => []
    case Leaf(fields) => [fields]
    case Group(_, children) => LeavesOfAll(children)
  }

  function LeavesOfAll(nodes: seq<Json>): seq<map<string, Json>>
    decreases nodes, 0
  {
    if nodes == [] then [] else Leaves(nodes[0]) + LeavesOfAll(nodes[1..])
  }

  // ----- the formula a spec stands for -----

  /** The truth of one leaf.  A machine outcome outside pass, fail and pending is
      taken by the combinator above it: true under `all`, false under `any`. */
  predicate Truth(o: Outcome, undecided: bool, above: Combinator) {
    match o
    case Pass => true
    case Fail => false
    case Pending => undecided
    case Other(_) => above.All?
  }

  /** The all/any formula, once `decide` has settled every open leaf; leaves are
      named by their path from the root. */
  predicate Holds(render: Json -> string, node: Json, results: map<string, Outcome>,
                  decide: seq<nat> -> bool, path: seq<nat>, above: Combinator)
    decreases node
  {
    match ShapeOf(node)
    case NotObject => decide(path)
    case Leaf(fields) => Truth(LeafOutcome(render, fields, results), decide(path), above)
    case Group(op, children) =>
      if op.All? then
        forall i | 0 <= i < |children| :: Holds(render, children[i], results, decide, path + [i], All)
      else
        exists i | 0 <= i < |children| :: Holds(render, children[i], results, decide, path + [i], Any)
  }

  predicate Never(path: seq<nat>) { false }

  predicate Always(path: seq<nat>) { true }

  /** An outcome as the combinator above it takes it. */
  function Taken(o: Outcome, above: Combinator): Outcome {
    if o.Other? then (if above.All? then Pass else Fail) else o
  }

  /** The verdict is decided by the two extreme ways of settling the open leaves. */
  lemma {:induction false} Extremes(render: Json -> string, node: Json, results: map<string, Outcome>,
                                    path: seq<nat>, above: Combinator)
    ensures Holds(render, node, results, Never, path, above) <==> Taken(Eval(render, node, results), above) == Pass
    ensures !Holds(render, node, results, Always, path, above) <==> Taken(Eval(render, node, results), above) == Fail
    decreases node
  {
    var shape := ShapeOf(node);
    if shape.Group? {
      var children := shape.children;
      var outcomes := EvalAll(render, children, results);
      forall i | 0 <= i < |children|
        ensures Holds(render, children[i], results, Never, path + [i], shape.op)
                <==> Taken(outcomes[i], shape.op) == Pass
        ensures !Holds(render, children[i], results, Always, path + [i], shape.op)
                <==> Taken(outcomes[i], shape.op) == Fail
      {
        Extremes(render, children[i], results, path + [i], shape.op);
      }
      CombineTaken(shape.op, outcomes);
    }
  }

  lemma CombineTaken(op: Combinator, outcomes: seq<Outcome>)
    ensures Combine(All, outcomes) == Pass <==> forall i :: 0 <= i < |outcomes| ==> Taken(outcomes[i], All) == Pass
    ensures Combine(All, outcomes) == Fail <==> exists i :: 0 <= i < |outcomes| && Taken(outcomes[i], All) == Fail
    ensures Combine(Any, outcomes) == Pass <==> exists i :: 0 <= i < |outcomes| && Taken(outcomes[i], Any) == Pass
    ensures Combine(Any, outcomes) == Fail <==> forall i :: 0 <= i < |outcomes| ==> Taken(outcomes[i], Any) == Fail
  {
    if Combine(All, outcomes) != Pass {
      var o := if Fail in outcomes then Fail else Pending;
      var i :| 0 <= i < |outcomes| && outcomes[i] == o;
      assert Taken(outcomes[i], All) != Pass;
    }
    if Combine(All, outcomes) == Fail {
      var i :| 0 <= i < |outcomes| && outcomes[i] == Fail;
      assert Taken(outcomes[i], All) == Fail;
    }
    if Combine(Any, outcomes) != Fail {
      var o := if Pass in outcomes then Pass else Pending;
      var i :| 0 <= i < |outcomes| && outcomes[i] == o;
      assert Taken(outcomes[i], Any) != Fail;
    }
    if Combine(Any, outcomes) == Pass {
      var i :| 0 <= i < |outcomes| && outcomes[i] == Pass;
      assert Taken(outcomes[i], Any) == Pass;
    }
  }

  /** Settling more leaves favourably never falsifies the formula. */
  lemma {:induction false} Between(render: Json -> string, node: Json, results: map<string, Outcome>,
                                   decide: seq<nat> -> bool, path: seq<nat>, above: Combinator)
    ensures Holds(render, node, results, Never, path, above) ==> Holds(render, node, results, decide, path, above)
    ensures Holds(render, node, results, decide, path, above) ==> Holds(render, node, results, Always, path, above)
    decreases node
  {
    var shape := ShapeOf(node);
    if shape.Group? {
      forall i | 0 <= i < |shape.children|
        ensures Holds(render, shape.children[i], results, Never, path + [i], shape.op)
            ==> Holds(render, shape.children[i], results, decide, path + [i], shape.op)
        ensures Holds(render, shape.children[i], results, decide, path + [i], shape.op)
            ==> Holds(render, shape.children[i], results, Always, path + [i], shape.op)
      {
        Between(render, shape.children[i], results, decide, path + [i], shape.op);
      }
    }
  }

  /** The composed verdict is exact: pass when the formula holds however the
      open leaves are settled, fail when it holds in no way, and pending when
      both kinds of settlement exist.  The one exception is a spec that is a
      single machine leaf, whose outcome is returned as it came. */
  lemma VerdictIsExact(render: Json -> string, spec: Json, results: map<string, Outcome>)
    requires !Eval(render, spec, results).Other?
    ensures Eval(render, spec, results) == Pass <==>
            forall decide: seq<nat> -> bool :: Holds(render, spec, results, decide, [], All)
    ensures Eval(render, spec, results) == Fail <==>
            forall decide: seq<nat> -> bool :: !Holds(render, spec, results, decide, [], All)
    ensures Eval(render, spec, results) == Pending <==>
            (exists decide: seq<nat> -> bool :: Holds(render, spec, results, decide, [], All)) &&
            (exists decide: seq<nat> -> bool :: !Holds(render, spec, results, decide, [], All))
  {
    Extremes(render, spec, results, [], All);
    forall decide: seq<nat> -> bool
      ensures Holds(render, spec, results, Never, [], All) ==> Holds(render, spec, results, decide, [], All)
      ensures Holds(render, spec, results, decide, [], All) ==> Holds(render, spec, results, Always, [], All)
    {
      Between(render, spec, results, decide, [], All);
    }
  }

  lemma OnlyALeafReturnsOther(render: Json -> string, spec: Json, results: map<string, Outcome>)
    ensures Eval(render, spec, results).Other? <==>
            ShapeOf(spec).Leaf? && LeafOutcome(render, ShapeOf(spec).fields, results).Other?
  {
  }

  /** `later` keeps every decided result and may add or settle others. */
  predicate Refines(later: map<string, Outcome>, earlier: map<string, Outcome>) {
    forall id :: id in earlier && earlier[id] != Pending ==> id in later && later[id] == earlier[id]
  }

  lemma {:induction false} SettlingKeepsExtremes(render: Json -> string, node: Json, earlier: map<string, Outcome>,
                                                 later: map<string, Outcome>, path: seq<nat>, above: Combinator)
    requires Refines(later, earlier)
    ensures Holds(render, node, earlier, Never, path, above) ==> Holds(render, node, later, Never, path, above)
    ensures Holds(render, node, later, Always, path, above) ==> Holds(render, node, earlier, Always, path, above)
    decreases node
  {
    var shape := ShapeOf(node);
    if shape.Group? {
      forall i | 0 <= i < |shape.children|
        ensures Holds(render, shape.children[i], earlier, Never, path + [i], shape.op)
            ==> Holds(render, shape.children[i], later, Never, path + [i], shape.op)
        ensures Holds(render, shape.children[i], later, Always, path + [i], shape.op)
            ==> Holds(render, shape.children[i], earlier, Always, path + [i], shape.op)
      {
        SettlingKeepsExtremes(render, shape.children[i], earlier, later, path + [i], shape.op);
      }
    }
  }

  /** New results never flip a decided verdict. */
  lemma DecidedVerdictsStand(render: Json -> string, spec: Json, earlier: map<string, Outcome>,
                             later: map<string, Outcome>)
    requires Refines(later, earlier)
    requires Eval(render, spec, earlier) in {Pass, Fail}
    ensures Eval(render, spec, later) == Eval(render, spec, earlier)
  {
    forall above: Combinator
      ensures Eval(render, spec, earlier) == Pass ==> Taken(Eval(render, spec, later), above) == Pass
      ensures Eval(render, spec, earlier) == Fail ==> Taken(Eval(render, spec, later), above) == Fail
    {
      Extremes(render, spec, earlier, [], above);
      Extremes(render, spec, later, [], above);
      SettlingKeepsExtremes(render, spec, earlier, later, [], above);
    }
    assert Taken(Eval(render, spec, later), All) == Taken(Eval(render, spec, later), Any);
  }

  /** No visited group is an `any` group, and every visited node is an object. */
  predicate IsConjunctive(node: Json)
    decreases node
  {
    match ShapeOf(node)
    case NotObject => false
    case Leaf(_) => true
    case Group(op, children) => op.All? && forall i | 0 <= i < |children| :: IsConjunctive(children[i])
  }

  lemma {:induction false} ConjunctiveTaken(render: Json -> string, node: Json, results: map<string, Outcome>)
    requires IsConjunctive(node)
    ensures Taken(Eval(render, node, results), All) == Pass <==>
            forall l :: l in Leaves(node) ==> Taken(LeafOutcome(render, l, results), All) == Pass
    ensures Taken(Eval(render, node, results), All) == Fail <==>
            exists l :: l in Leaves(node) && LeafOutcome(render, l, results) == Fail
    decreases node, 1
  {
    var shape := ShapeOf(node);
    if shape.Group? {
      ConjunctiveAll(render, shape.children, results);
      CombineTaken(All, EvalAll(render, shape.children, results));
    }
  }

  lemma {:induction false} ConjunctiveAll(render: Json -> string, nodes: seq<Json>, results: map<string, Outcome>)
    requires forall i | 0 <= i < |nodes| :: IsConjunctive(nodes[i])
    ensures (forall i :: 0 <= i < |nodes| ==> Taken(Eval(render, nodes[i], results), All) == Pass) <==>
            forall l :: l in LeavesOfAll(nodes) ==> Taken(LeafOutcome(render, l, results), All) == Pass
    ensures (exists i :: 0 <= i < |nodes| && Taken(Eval(render, nodes[i], results), All) == Fail) <==>
            exists l :: l in LeavesOfAll(nodes) && LeafOutcome(render, l, results) == Fail
    decreases nodes, 0
  {
    hide Eval, LeafOutcome, Leaves, Taken;
    if nodes != [] {
      ConjunctiveTaken(render, nodes[0], results);
      ConjunctiveAll(render, nodes[1..], results);
      assert forall i :: 1 <= i < |nodes| ==> nodes[i] == nodes[1..][i - 1];
      assert forall i :: 0 <= i < |nodes[1..]| ==> nodes[1..][i] == nodes[i + 1];
    }
  }

  /** The short summary of the verdict (fail when any check failed, pass when
      all passed and nothing is open) is right for specs without `any`. */
  lemma SummaryHoldsWithoutAny(render: Json -> string, spec: Json, results: map<string, Outcome>)
    requires IsConjunctive(spec)
    requires forall l :: l in Leaves(spec) ==> !LeafOutcome(render, l, results).Other?
    ensures Eval(render, spec, results) == Fail <==>
            exists l :: l in Leaves(spec) && LeafOutcome(render, l, results) == Fail
    ensures Eval(render, spec, results) == Pass <==>
            forall l :: l in Leaves(spec) ==> LeafOutcome(render, l, results) == Pass
  {
    ConjunctiveTaken(render, spec, results);
    if ShapeOf(spec).Leaf? {
      assert ShapeOf(spec).fields in Leaves(spec);
    }
  }

  /** ... and with `any` a failed check need not fail the spec: it passes as soon
      as any other member does.  For which specs the summary is right all the same
      is the subject of SpecSummary. */
  lemma SummaryFailsWithAny(render: Json -> string, children: seq<Json>, i: nat, j: nat, results: map<string, Outcome>)
    requires i < |children| && j < |children|
    requires Eval(render, children[i], results) == Pass
    requires ShapeOf(children[j]).Leaf? && LeafOutcome(render, ShapeOf(children[j]).fields, results) == Fail
    ensures var spec := Obj(map["any" := Arr(children)]);
            Eval(render, spec, results) == Pass &&
            exists l :: l in Leaves(spec) && LeafOutcome(render, l, results) == Fail
  {
    var spec := Obj(map["any" := Arr(children)]);
    assert ShapeOf(spec) == Group(Any, children);
    var outcomes := EvalAll(render, children, results);
    assert outcomes[i] == Pass;
    LeafIsVisited(children, j);
    assert ShapeOf(children[j]).fields in Leaves(spec);
  }

  lemma {:induction false} LeafIsVisited(nodes: seq<Json>, j: nat)
    requires j < |nodes| && ShapeOf(nodes[j]).Leaf?
    ensures ShapeOf(nodes[j]).fields in LeavesOfAll(nodes)
  {
    if j > 0 {
      LeafIsVisited(nodes[1..], j - 1);
    }
  }

  /** An outcome such as "undetermined" passes under `all` and fails under `any`. */
  lemma OddOutcomes(render: Json -> string, leaf: Json, results: map<string, Outcome>)
    requires leaf.Obj? && ShapeOf(leaf).Leaf? && LeafOutcome(render, leaf.fields, results).Other?
    ensures Eval(render, Obj(map["all" := Arr([leaf])]), results) == Pass
    ensures Eval(render, Obj(map["any" := Arr([leaf])]), results) == Fail
  {
    var outcomes := EvalAll(render, [leaf], results);
    assert outcomes == [LeafOutcome(render, leaf.fields, results)];
  }

  /** A combinator that holds no array is passed over: next to an `all` that is
      no array the `any` is read, as if it stood alone. */
  lemma NonArrayAllIsPassedOver(render: Json -> string, fields: map<string, Json>, all: Json,
                                results: map<string, Outcome>)
    requires !all.Arr? && "any" in fields && fields["any"].Arr?
    ensures Eval(render, Obj(fields["all" := all]), results)
         == Eval(render, Obj(map["any" := fields["any"]]), results)
  {
  }
}
