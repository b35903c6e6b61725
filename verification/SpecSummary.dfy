/**
 * The short summary of a verdict, as documentation gives it: fail when any check
 * failed, pass when all passed and nothing is open, pending otherwise.  Here is
 * for which specs it is right.
 */
module SpecSummary {
  import opened Prelude
  import opened Json
  import opened AcceptanceSpec

  /** The summary reads the leaves as one flat conjunction. */
  function Summary(render: Json -> string, spec: Json, results: map<string, Outcome>): Outcome {
    Combine(All, OutcomesOf(render, Leaves(spec), results))
  }

  function OutcomesOf(render: Json -> string, leaves: seq<map<string, Json>>, results: map<string, Outcome>)
    : (outcomes: seq<Outcome>)
    ensures |outcomes| == |leaves|
    ensures forall i :: 0 <= i < |leaves| ==> outcomes[i] == LeafOutcome(render, leaves[i], results)
  {
    seq(|leaves|, i requires 0 <= i < |leaves| => LeafOutcome(render, leaves[i], results))
  }

  /** Check results are pass, fail or pending. */
  predicate AreUsual(results: map<string, Outcome>) {
    forall id :: id in results ==> !results[id].Other?
  }

  // ----- what can be seen of a spec before any check is run -----

  predicate IsNamed(render: Json -> string, leaf: map<string, Json>, id: string) {
    IsMachine(leaf) && Identity(render, leaf, "") == id
  }

  /** A failure of the check `id` alone fails the node: some member of every
      `all` group, every member of every `any` group depends on it. */
  predicate DependsOn(render: Json -> string, node: Json, id: string)
    decreases node
  {
    match ShapeOf(node)
    case NotObject => false
    case Leaf(fields) => IsNamed(render, fields, id)
    case Group(op, children) =>
      if op.All? then exists i | 0 <= i < |children| :: DependsOn(render, children[i], id)
      else forall i | 0 <= i < |children| :: DependsOn(render, children[i], id)
  }

  /** The node needs something that no check can give: a user, or an object. */
  predicate NeedsMore(node: Json)
    decreases node
  {
    match ShapeOf(node)
    case NotObject => true
    case Leaf(fields) => !IsMachine(fields)
    case Group(op, children) =>
      if op.All? then exists i | 0 <= i < |children| :: NeedsMore(children[i])
      else forall i | 0 <= i < |children| :: NeedsMore(children[i])
  }

  /** The node fails from the outset, because of empty `any` groups. */
  predicate IsHopeless(node: Json)
    decreases node
  {
    match ShapeOf(node)
    case NotObject => false
    case Leaf(_) => false
    case Group(op, children) =>
      if op.All? then exists i | 0 <= i < |children| :: IsHopeless(children[i])
      else forall i | 0 <= i < |children| :: IsHopeless(children[i])
  }

  predicate HasOpenLeaf(spec: Json) {
    exists l :: l in Leaves(spec) && !IsMachine(l)
  }

  /** Every check can fail the spec by itself, the spec needs a user exactly when
      one is asked for, and it is not hopeless. */
  predicate IsAsIfFlat(render: Json -> string, spec: Json) {
    (forall l :: l in Leaves(spec) && IsMachine(l) ==> DependsOn(render, spec, Identity(render, l, ""))) &&
    (HasOpenLeaf(spec) <==> NeedsMore(spec)) &&
    !IsHopeless(spec)
  }

  // ----- groups as minimum and maximum -----

  function Rank(o: Outcome): nat {
    match o
    case Fail => 0
    case Pending => 1
    case _ => 2
  }

  predicate NoneOdd(outcomes: seq<Outcome>) {
    forall i :: 0 <= i < |outcomes| ==> !outcomes[i].Other?
  }

  lemma CombineRank(op: Combinator, outcomes: seq<Outcome>, bound: nat)
    requires NoneOdd(outcomes) && bound < 2
    ensures !Combine(op, outcomes).Other?
    ensures Rank(Combine(op, outcomes)) <= bound <==>
            if op.All? then exists i :: 0 <= i < |outcomes| && Rank(outcomes[i]) <= bound
            else forall i :: 0 <= i < |outcomes| ==> Rank(outcomes[i]) <= bound
  {
    var o := Combine(op, outcomes);
    if o in outcomes {
      var i :| 0 <= i < |outcomes| && outcomes[i] == o;
      assert Rank(outcomes[i]) == Rank(o);
    }
  }

  lemma GroupRank(render: Json -> string, node: Json, results: map<string, Outcome>, bound: nat)
    requires ShapeOf(node).Group? && bound < 2
    requires forall i :: 0 <= i < |ShapeOf(node).children| ==> !Eval(render, ShapeOf(node).children[i], results).Other?
    ensures var Group(op, children) := ShapeOf(node);
            !Eval(render, node, results).Other? &&
            (Rank(Eval(render, node, results)) <= bound <==>
              if op.All? then exists i | 0 <= i < |children| :: Rank(Eval(render, children[i], results)) <= bound
              else forall i | 0 <= i < |children| :: Rank(Eval(render, children[i], results)) <= bound)
  {
    var Group(op, children) := ShapeOf(node);
    CombineRank(op, EvalAll(render, children, results), bound);
  }

  lemma {:induction false} UsualResultsGiveUsualVerdicts(render: Json -> string, node: Json,
                                                         results: map<string, Outcome>)
    requires AreUsual(results)
    ensures !Eval(render, node, results).Other?
    decreases node
  {
    var shape := ShapeOf(node);
    if shape.Group? {
      forall i | 0 <= i < |shape.children|
        ensures !Eval(render, shape.children[i], results).Other?
      {
        UsualResultsGiveUsualVerdicts(render, shape.children[i], results);
      }
      CombineRank(shape.op, EvalAll(render, shape.children, results), 0);
    }
  }

  // ----- the three conditions are about the verdict -----

  function ResultOf(results: map<string, Outcome>, id: string): Outcome {
    if id in results then results[id] else Pending
  }

  /** A check a node depends on bounds its verdict. */
  lemma {:induction false} DependenceBounds(render: Json -> string, node: Json, results: map<string, Outcome>,
                                            id: string)
    requires AreUsual(results) && DependsOn(render, node, id)
    ensures Rank(Eval(render, node, results)) <= Rank(ResultOf(results, id))
    decreases node
  {
    var shape := ShapeOf(node);
    var bound := Rank(ResultOf(results, id));
    if shape.Group? && bound < 2 {
      forall i | 0 <= i < |shape.children|
        ensures !Eval(render, shape.children[i], results).Other?
        ensures DependsOn(render, shape.children[i], id) ==> Rank(Eval(render, shape.children[i], results)) <= bound
      {
        UsualResultsGiveUsualVerdicts(render, shape.children[i], results);
        if DependsOn(render, shape.children[i], id) {
          DependenceBounds(render, shape.children[i], results, id);
        }
      }
      GroupRank(render, node, results, bound);
    }
  }

  /** ... and one it does not depend on cannot fail it alone. */
  lemma {:induction false} OneFailure(render: Json -> string, node: Json, id: string)
    ensures Eval(render, node, map[id := Fail]) == Fail <==> DependsOn(render, node, id)
    decreases node
  {
    var shape, results := ShapeOf(node), map[id := Fail];
    if shape.Group? {
      forall i | 0 <= i < |shape.children|
        ensures !Eval(render, shape.children[i], results).Other?
        ensures Eval(render, shape.children[i], results) == Fail <==> DependsOn(render, shape.children[i], id)
      {
        UsualResultsGiveUsualVerdicts(render, shape.children[i], results);
        OneFailure(render, shape.children[i], id);
      }
      GroupRank(render, node, results, 0);
      RankZero(render, node, results);
      RankZeroAll(render, shape.children, results);
    }
  }

  lemma RankZero(render: Json -> string, node: Json, results: map<string, Outcome>)
    ensures Rank(Eval(render, node, results)) <= 0 <==> Eval(render, node, results) == Fail
  {
  }

  lemma RankZeroAll(render: Json -> string, nodes: seq<Json>, results: map<string, Outcome>)
    ensures forall i | 0 <= i < |nodes| ::
              Rank(Eval(render, nodes[i], results)) <= 0 <==> Eval(render, nodes[i], results) == Fail
  {
  }

  /** Where no leaf fails only a hopeless node does. */
  lemma {:induction false} NothingFails(render: Json -> string, node: Json, results: map<string, Outcome>)
    requires AreUsual(results) && forall l :: l in Leaves(node) ==> LeafOutcome(render, l, results) != Fail
    ensures Eval(render, node, results) == Fail <==> IsHopeless(node)
    decreases node
  {
    var shape := ShapeOf(node);
    if shape.Leaf? {
      assert shape.fields in Leaves(node);
    } else if shape.Group? {
      forall i | 0 <= i < |shape.children|
        ensures !Eval(render, shape.children[i], results).Other?
        ensures Rank(Eval(render, shape.children[i], results)) <= 0 <==> IsHopeless(shape.children[i])
      {
        UsualResultsGiveUsualVerdicts(render, shape.children[i], results);
        ChildLeaves(shape.children, i);
        NothingFails(render, shape.children[i], results);
      }
      GroupRank(render, node, results, 0);
    }
  }

  lemma {:induction false} ChildLeaves(nodes: seq<Json>, i: nat)
    requires i < |nodes|
    ensures forall l :: l in Leaves(nodes[i]) ==> l in LeavesOfAll(nodes)
  {
    if i > 0 {
      ChildLeaves(nodes[1..], i - 1);
    }
  }

  /** Where every check passes a node passes unless it needs more. */
  lemma {:induction false} EverythingPasses(render: Json -> string, node: Json, results: map<string, Outcome>)
    requires AreUsual(results)
    requires forall l :: l in Leaves(node) && IsMachine(l) ==> LeafOutcome(render, l, results) == Pass
    ensures Eval(render, node, results) == Pass <==> !NeedsMore(node)
    decreases node
  {
    var shape := ShapeOf(node);
    if shape.Leaf? {
      assert shape.fields in Leaves(node);
    } else if shape.Group? {
      forall i | 0 <= i < |shape.children|
        ensures !Eval(render, shape.children[i], results).Other?
        ensures Rank(Eval(render, shape.children[i], results)) <= 1 <==> NeedsMore(shape.children[i])
      {
        UsualResultsGiveUsualVerdicts(render, shape.children[i], results);
        ChildLeaves(shape.children, i);
        EverythingPasses(render, shape.children[i], results);
      }
      GroupRank(render, node, results, 1);
    }
  }

  /** A node that needs more never passes. */
  lemma {:induction false} NeverPasses(render: Json -> string, node: Json, results: map<string, Outcome>)
    requires AreUsual(results) && NeedsMore(node)
    ensures Eval(render, node, results) != Pass
    decreases node
  {
    var shape := ShapeOf(node);
    if shape.Group? {
      forall i | 0 <= i < |shape.children|
        ensures !Eval(render, shape.children[i], results).Other?
        ensures NeedsMore(shape.children[i]) ==> Rank(Eval(render, shape.children[i], results)) <= 1
      {
        UsualResultsGiveUsualVerdicts(render, shape.children[i], results);
        if NeedsMore(shape.children[i]) {
          NeverPasses(render, shape.children[i], results);
        }
      }
      GroupRank(render, node, results, 1);
    }
  }

  // ----- when the summary is right -----

  lemma SummaryMeans(render: Json -> string, spec: Json, results: map<string, Outcome>)
    ensures Summary(render, spec, results) == Fail <==>
            exists l :: l in Leaves(spec) && LeafOutcome(render, l, results) == Fail
    ensures Summary(render, spec, results) == Pending <==>
            (forall l :: l in Leaves(spec) ==> LeafOutcome(render, l, results) != Fail) &&
            exists l :: l in Leaves(spec) && LeafOutcome(render, l, results) == Pending
    ensures !Summary(render, spec, results).Other?
  {
    var leaves := Leaves(spec);
    var outcomes := OutcomesOf(render, leaves, results);
    forall o: Outcome
      ensures o in outcomes <==> exists l :: l in leaves && LeafOutcome(render, l, results) == o
    {
      if o in outcomes {
        var i :| 0 <= i < |outcomes| && outcomes[i] == o;
        assert leaves[i] in leaves;
      }
      if l :| l in leaves && LeafOutcome(render, l, results) == o {
        var i :| 0 <= i < |leaves| && leaves[i] == l;
        assert outcomes[i] == o;
      }
    }
  }

  lemma FlatSpecsFit(render: Json -> string, spec: Json, results: map<string, Outcome>)
    requires IsAsIfFlat(render, spec) && AreUsual(results)
    ensures Eval(render, spec, results) == Summary(render, spec, results)
  {
    SummaryMeans(render, spec, results);
    UsualResultsGiveUsualVerdicts(render, spec, results);
    if l :| l in Leaves(spec) && LeafOutcome(render, l, results) == Fail {
      DependenceBounds(render, spec, results, Identity(render, l, ""));
    } else {
      NothingFails(render, spec, results);
      if l :| l in Leaves(spec) && LeafOutcome(render, l, results) == Pending {
        if IsMachine(l) {
          DependenceBounds(render, spec, results, Identity(render, l, ""));
        } else {
          NeverPasses(render, spec, results);
        }
      } else {
        EverythingPasses(render, spec, results);
      }
    }
  }

  /** All checks of the spec pass. */
  function AllPass(render: Json -> string, leaves: seq<map<string, Json>>): map<string, Outcome> {
    map l | l in leaves :: Identity(render, l, "") := Pass
  }

  lemma FailuresTell(render: Json -> string, spec: Json, l: map<string, Json>)
    requires l in Leaves(spec) && IsMachine(l)
    requires var results := map[Identity(render, l, "") := Fail];
             Eval(render, spec, results) == Summary(render, spec, results)
    ensures DependsOn(render, spec, Identity(render, l, ""))
  {
    var results := map[Identity(render, l, "") := Fail];
    assert LeafOutcome(render, l, results) == Fail;
    SummaryMeans(render, spec, results);
    OneFailure(render, spec, Identity(render, l, ""));
  }

  lemma SilenceTells(render: Json -> string, spec: Json)
    requires Eval(render, spec, map[]) == Summary(render, spec, map[])
    ensures !IsHopeless(spec)
  {
    SummaryMeans(render, spec, map[]);
    NothingFails(render, spec, map[]);
  }

  lemma SuccessTells(render: Json -> string, spec: Json)
    requires var results := AllPass(render, Leaves(spec));
             Eval(render, spec, results) == Summary(render, spec, results)
    ensures HasOpenLeaf(spec) <==> NeedsMore(spec)
  {
    var results := AllPass(render, Leaves(spec));
    forall l | l in Leaves(spec)
      ensures LeafOutcome(render, l, results) == if IsMachine(l) then Pass else Pending
    {
    }
    SummaryMeans(render, spec, results);
    EverythingPasses(render, spec, results);
  }

  /** The summary is right for all check results exactly for the specs that
      behave as one flat conjunction.  Whether a spec does can be seen before any
      check is run. */
  lemma SummaryFitsExactly(render: Json -> string, spec: Json)
    ensures (forall results :: AreUsual(results) ==> Eval(render, spec, results) == Summary(render, spec, results))
       <==> IsAsIfFlat(render, spec)
  {
    if IsAsIfFlat(render, spec) {
      forall results | AreUsual(results)
        ensures Eval(render, spec, results) == Summary(render, spec, results)
      {
        FlatSpecsFit(render, spec, results);
      }
    } else if forall results :: AreUsual(results) ==> Eval(render, spec, results) == Summary(render, spec, results) {
      forall l | l in Leaves(spec) && IsMachine(l)
        ensures DependsOn(render, spec, Identity(render, l, ""))
      {
        assert AreUsual(map[Identity(render, l, "") := Fail]);
        FailuresTell(render, spec, l);
      }
      assert AreUsual(map[]) && AreUsual(AllPass(render, Leaves(spec)));
      SilenceTells(render, spec);
      SuccessTells(render, spec);
      assert false;
    }
  }

  /** An `any` over machine leaves fits exactly when they are all one check. */
  lemma AnyOfLeaves(render: Json -> string, children: seq<Json>)
    requires children != []
    requires forall i :: 0 <= i < |children| ==> ShapeOf(children[i]).Leaf? && IsMachine(ShapeOf(children[i]).fields)
    ensures IsAsIfFlat(render, Obj(map["any" := Arr(children)])) <==>
            forall i, j :: 0 <= i < |children| && 0 <= j < |children| ==>
              NameOf(render, children[i]) == NameOf(render, children[j])
  {
    var spec := Obj(map["any" := Arr(children)]);
    assert ShapeOf(spec) == Group(Any, children);
    LeavesOfLeaves(children);
    assert !NeedsMore(children[0]) && !IsHopeless(children[0]);
    assert !NeedsMore(spec) && !IsHopeless(spec);
    forall l | l in Leaves(spec)
      ensures exists i :: 0 <= i < |children| && ShapeOf(children[i]).fields == l
    {
      var i :| 0 <= i < |LeavesOfAll(children)| && LeavesOfAll(children)[i] == l;
      assert ShapeOf(children[i]).fields == l;
    }
    assert !HasOpenLeaf(spec);
    forall i | 0 <= i < |children|
      ensures ShapeOf(children[i]).fields in Leaves(spec)
      ensures DependsOn(render, spec, NameOf(render, children[i])) <==>
              forall j :: 0 <= j < |children| ==> NameOf(render, children[j]) == NameOf(render, children[i])
    {
      assert LeavesOfAll(children)[i] == ShapeOf(children[i]).fields;
      AnyDependsOn(render, children, NameOf(render, children[i]));
    }
  }

  function NameOf(render: Json -> string, leaf: Json): string
    requires ShapeOf(leaf).Leaf?
  {
    Identity(render, ShapeOf(leaf).fields, "")
  }

  lemma AnyDependsOn(render: Json -> string, children: seq<Json>, id: string)
    requires forall i :: 0 <= i < |children| ==> ShapeOf(children[i]).Leaf? && IsMachine(ShapeOf(children[i]).fields)
    ensures DependsOn(render, Obj(map["any" := Arr(children)]), id) <==>
            forall j :: 0 <= j < |children| ==> NameOf(render, children[j]) == id
  {
    assert ShapeOf(Obj(map["any" := Arr(children)])) == Group(Any, children);
    assert forall j :: 0 <= j < |children| ==>
           (DependsOn(render, children[j], id) <==> NameOf(render, children[j]) == id);
  }

  lemma {:induction false} LeavesOfLeaves(nodes: seq<Json>)
    requires forall i :: 0 <= i < |nodes| ==> ShapeOf(nodes[i]).Leaf?
    ensures |LeavesOfAll(nodes)| == |nodes|
    ensures forall i :: 0 <= i < |nodes| ==> LeavesOfAll(nodes)[i] == ShapeOf(nodes[i]).fields
  {
    if nodes != [] {
      LeavesOfLeaves(nodes[1..]);
      assert LeavesOfAll(nodes) == [ShapeOf(nodes[0]).fields] + LeavesOfAll(nodes[1..]);
    }
  }
}
