/**
 * Compatibility of work partitions: scopes given as path prefixes and stages.
 */
module Partition {

  /** Without trailing slashes. */
  function Normalized(path: string): (n: string)
    ensures n == "" || n[|n| - 1] != '/'
    ensures n <= path && forall i :: |n| <= i < |path| ==> path[i] == '/'
    decreases path
  {
    if path != "" && path[|path| - 1] == '/' then Normalized(path[..|path| - 1]) else path
  }

  predicate PathPrefixOverlap(a: string, b: string) {
    var x, y := Normalized(a), Normalized(b);
    x == y || y + "/" <= x || x + "/" <= y
  }

  /** The path is the scope itself or lies below it. */
  predicate IsUnder(path: string, scope: string) {
    var p, s := Normalized(path), Normalized(scope);
    p == s || s + "/" <= p
  }

  lemma NormalizedTwice(path: string)
    ensures Normalized(Normalized(path)) == Normalized(path)
  {
  }

  lemma PrefixesOfOne(a: string, b: string, x: string)
    requires a + "/" <= x && b + "/" <= x && |a| <= |b|
    ensures a == b || a + "/" <= b
  {
    assert a == x[..|a|] && b == x[..|b|];
    if |a| < |b| {
      assert (a + "/") == x[..|a| + 1] == b[..|a| + 1];
    }
  }

  /** Two scopes overlap exactly when some path lies under both. */
  lemma OverlapIsSharedPath(a: string, b: string)
    ensures PathPrefixOverlap(a, b) <==> exists path :: IsUnder(path, a) && IsUnder(path, b)
  {
    var x, y := Normalized(a), Normalized(b);
    NormalizedTwice(a);
    NormalizedTwice(b);
    if PathPrefixOverlap(a, b) {
      var longer := if y + "/" <= x then x else y;
      assert IsUnder(longer, a) && IsUnder(longer, b);
    }
    if path :| IsUnder(path, a) && IsUnder(path, b) {
      var p := Normalized(path);
      if x + "/" <= p && y + "/" <= p {
        if |x| <= |y| {
          PrefixesOfOne(x, y, p);
        } else {
          PrefixesOfOne(y, x, p);
        }
      }
    }
  }

  datatype Partition = Partition(id: string, scopePaths: seq<string>, scopeStages: seq<string>)

  datatype Conflict =
    | IdActive(id: string)
    | PathsOverlap(other: string, path: string, otherPath: string)
    | StagesOverlap(other: string, shared: set<string>)

  function Stages(p: Partition): set<string> {
    set s | s in p.scopeStages
  }

  /** The conflicts of the candidate with one active partition. */
  ghost predicate IsConflictWith(e: Conflict, candidate: Partition, other: Partition) {
    match e
    case IdActive(id) => id == candidate.id == other.id
    case PathsOverlap(id, path, otherPath) =>
      id == other.id && path in candidate.scopePaths && otherPath in other.scopePaths &&
      PathPrefixOverlap(path, otherPath)
    case StagesOverlap(id, shared) => id == other.id && shared == Stages(candidate) * Stages(other) && shared != {}
  }

  method CheckPartitionCompatible(candidate: Partition, active: seq<Partition>) returns (errors: seq<Conflict>)
    ensures errors == [] <==> IsAdmissible(candidate, active)
    ensures forall e :: e in errors <==> exists o :: o in active && IsConflictWith(e, candidate, o)
  {
    errors := [];
    for i := 0 to |active|
      invariant forall e :: e in errors <==> exists o :: o in active[..i] && IsConflictWith(e, candidate, o)
    {
      var found := ConflictsWith(candidate, active[i]);
      errors := errors + found;
      assert active[..i + 1] == active[..i] + [active[i]];
    }
    assert active[..|active|] == active;
    if errors != [] {
      assert errors[0] in errors;
      ghost var o :| o in active && IsConflictWith(errors[0], candidate, o);
      assert !IsAdmissible(candidate, active);
    } else {
      forall o, e | o in active
        ensures !IsConflictWith(e, candidate, o)
      {
        assert e !in errors;
      }
    }
  }

  method ConflictsWith(candidate: Partition, other: Partition) returns (errors: seq<Conflict>)
    ensures forall e :: e in errors <==> IsConflictWith(e, candidate, other)
  {
    errors := [];
    if other.id == candidate.id {
      errors := errors + [IdActive(candidate.id)];
    }
    var ours, theirs := candidate.scopePaths, other.scopePaths;
    for i := 0 to |ours|
      invariant forall e :: e in errors <==>
                (IsConflictWith(e, candidate, other) && !e.StagesOverlap? && (e.PathsOverlap? ==> e.path in ours[..i]))
    {
      for j := 0 to |theirs|
        invariant forall e :: e in errors <==>
                  (IsConflictWith(e, candidate, other) && !e.StagesOverlap? &&
                   (e.PathsOverlap? ==> e.path in ours[..i] || (e.path == ours[i] && e.otherPath in theirs[..j])))
      {
        assert theirs[..j + 1] == theirs[..j] + [theirs[j]];
        if PathPrefixOverlap(ours[i], theirs[j]) {
          errors := errors + [PathsOverlap(other.id, ours[i], theirs[j])];
        }
      }
      assert theirs[..|theirs|] == theirs;
      assert ours[..i + 1] == ours[..i] + [ours[i]];
    }
    assert ours[..|ours|] == ours;
    var shared := Stages(candidate) * Stages(other);
    if shared != {} {
      errors := errors + [StagesOverlap(other.id, shared)];
    }
  }

  /** Nothing in common: neither identifier, nor stage, nor any reachable path. */
  ghost predicate AreDisjoint(p: Partition, q: Partition) {
    p.id != q.id && Stages(p) !! Stages(q) &&
    forall path, a, b :: a in p.scopePaths && b in q.scopePaths ==> !(IsUnder(path, a) && IsUnder(path, b))
  }

  lemma DisjointMeansNoConflict(p: Partition, q: Partition)
    ensures AreDisjoint(p, q) <==> forall e :: !IsConflictWith(e, p, q)
  {
    if AreDisjoint(p, q) {
      forall e
        ensures !IsConflictWith(e, p, q)
      {
        if e.PathsOverlap? {
          OverlapIsSharedPath(e.path, e.otherPath);
        }
      }
    } else if p.id == q.id {
      assert IsConflictWith(IdActive(p.id), p, q);
    } else if Stages(p) * Stages(q) != {} {
      assert IsConflictWith(StagesOverlap(q.id, Stages(p) * Stages(q)), p, q);
    } else {
      assert Stages(p) !! Stages(q) by {
        assert forall s :: s in Stages(p) && s in Stages(q) ==> s in Stages(p) * Stages(q);
      }
      var path, a, b :| a in p.scopePaths && b in q.scopePaths && IsUnder(path, a) && IsUnder(path, b);
      OverlapIsSharedPath(a, b);
      assert IsConflictWith(PathsOverlap(q.id, a, b), p, q);
    }
  }

  // ----- admission over a run -----

  datatype Step = Admit(candidate: Partition) | Retire(index: nat)

  ghost predicate IsAdmissible(candidate: Partition, active: seq<Partition>) {
    forall o :: o in active ==> forall e :: !IsConflictWith(e, candidate, o)
  }

  /** A candidate joins only when the check finds nothing; any member may leave. */
  ghost function After(active: seq<Partition>, s: Step): seq<Partition> {
    match s
    case Admit(candidate) => if IsAdmissible(candidate, active) then active + [candidate] else active
    case Retire(index) => if index < |active| then active[..index] + active[index + 1..] else active
  }

  ghost function Run(steps: seq<Step>): seq<Partition> {
    if steps == [] then [] else After(Run(steps[..|steps| - 1]), steps[|steps| - 1])
  }

  ghost predicate PairwiseDisjoint(active: seq<Partition>) {
    forall i, j :: 0 <= i < j < |active| ==> AreDisjoint(active[i], active[j])
  }

  lemma DisjointSymmetric(p: Partition, q: Partition)
    ensures AreDisjoint(p, q) <==> AreDisjoint(q, p)
  {
  }

  /** However partitions come and go, the active ones have nothing in common. */
  lemma {:induction false} ActivePartitionsAreDisjoint(steps: seq<Step>)
    ensures PairwiseDisjoint(Run(steps))
  {
    if steps != [] {
      ActivePartitionsAreDisjoint(steps[..|steps| - 1]);
      var active, s := Run(steps[..|steps| - 1]), steps[|steps| - 1];
      if s.Admit? && IsAdmissible(s.candidate, active) {
        forall i | 0 <= i < |active|
          ensures AreDisjoint(active[i], s.candidate)
        {
          assert active[i] in active;
          DisjointMeansNoConflict(s.candidate, active[i]);
          DisjointSymmetric(s.candidate, active[i]);
        }
      }
    }
  }
}
