/**
 * Fresh attempt identifiers, the lease of each contract, and the write fence.
 */
module Lease {
  import opened Prelude
  import opened Decimal

  datatype Lease = Lease(holder: Option<string>, generation: nat)

  datatype FenceError = GenerationFenced | NotHolder

  /** A write passes only with the current generation and the holder's name. */
  function CheckWriteFence(lease: Lease, generation: nat, attemptId: string): Result<(), FenceError> {
    if generation != lease.generation then Err(GenerationFenced)
    else if Some(attemptId) != lease.holder then Err(NotHolder)
    else Ok(())
  }

  // ----- fresh identifiers -----

  function Candidate(prefix: string, k: nat): string {
    if k == 0 then prefix else prefix + "-" + NatToString(k)
  }

  lemma CandidatesDiffer(prefix: string, j: nat, k: nat)
    requires j != k
    ensures Candidate(prefix, j) != Candidate(prefix, k)
  {
    if j > 0 && k > 0 && Candidate(prefix, j) == Candidate(prefix, k) {
      var n := |prefix| + 1;
      assert Candidate(prefix, j)[n..] == NatToString(j) && Candidate(prefix, k)[n..] == NatToString(k);
      NatToStringInjective(j, k);
    }
  }

  /** If the first `n` candidates are all taken there are at least `n` attempts. */
  lemma {:induction false} Pigeonhole(prefix: string, n: nat, attempts: set<string>)
    requires forall k: nat :: k < n ==> Candidate(prefix, k) in attempts
    ensures n <= |attempts|
  {
    if n > 0 {
      forall k: nat | k < n - 1
        ensures Candidate(prefix, k) in attempts - {Candidate(prefix, n - 1)}
      {
        CandidatesDiffer(prefix, k, n - 1);
      }
      Pigeonhole(prefix, n - 1, attempts - {Candidate(prefix, n - 1)});
    }
  }

  /** The first candidate that no recorded attempt uses; `k` is its number. */
  method FreshAttemptId(prefix: string, attempts: set<string>) returns (id: string, ghost k: nat)
    ensures id !in attempts && id == Candidate(prefix, k)
    ensures id == if k == 0 then prefix else prefix + "-" + NatToString(k)
    ensures forall j: nat :: j < k ==> Candidate(prefix, j) in attempts
  {
    id := prefix;
    var sequence := 1;
    while id in attempts
      invariant sequence >= 1 && id == Candidate(prefix, sequence - 1)
      invariant forall j: nat :: j < sequence - 1 ==> Candidate(prefix, j) in attempts
      decreases |attempts| + 1 - sequence
    {
      Pigeonhole(prefix, sequence, attempts);
      id := prefix + "-" + NatToString(sequence);
      sequence := sequence + 1;
    }
    k := sequence - 1;
  }

  ghost predicate IsFirstFree(prefix: string, attempts: set<string>, id: string) {
    id !in attempts &&
    exists k: nat :: id == Candidate(prefix, k) && forall j: nat :: j < k ==> Candidate(prefix, j) in attempts
  }

  // ----- leases and attempts -----

  datatype World = World(attempts: set<string>, leases: map<string, Lease>)

  function GenerationOf(w: World, contractId: string): nat {
    if contractId in w.leases then w.leases[contractId].generation else 0
  }

  /** Take or take over the lease; the generation is compared and incremented. */
  function Grant(w: World, contractId: string, id: string, expected: nat): Option<World> {
    if expected != GenerationOf(w, contractId) then None
    else Some(World(w.attempts, w.leases[contractId := Lease(Some(id), expected + 1)]))
  }

  function Record(w: World, id: string): World {
    World(w.attempts + {id}, w.leases)
  }

  function Release(w: World, contractId: string, id: string, generation: nat): World {
    if contractId in w.leases && CheckWriteFence(w.leases[contractId], generation, id).Ok?
    then World(w.attempts, w.leases - {contractId})
    else w
  }

  /** How one candidate executor answers: it has no adapter, refuses, or accepts. */
  datatype Answer = NoAdapter | Refuses | Accepts

  class Store {
    var attempts: set<string>
    var leases: map<string, Lease>
    var refusals: nat

    constructor ()
      ensures Abs() == World({}, map[]) && refusals == 0
    {
      attempts, leases, refusals := {}, map[], 0;
    }

    function Abs(): World
      reads this
    {
      World(attempts, leases)
    }

    method TakeLease(contractId: string, expected: nat, id: string) returns (ok: bool)
      modifies this
      ensures ok <==> Grant(old(Abs()), contractId, id, expected).Some?
      ensures Abs() == if ok then Grant(old(Abs()), contractId, id, expected).value else old(Abs())
      ensures refusals == old(refusals)
    {
      var current := if contractId in leases then leases[contractId].generation else 0;
      if expected != current {
        return false;
      }
      leases := leases[contractId := Lease(Some(id), expected + 1)];
      return true;
    }

    /** Try the candidates in order; the first that accepts gets the lease under
        an identifier never recorded before, and the attempt is recorded. */
    method Dispatch(contractId: string, prefix: string, candidates: seq<Answer>) returns (started: Option<string>)
      modifies this
      ensures started.Some? <==> Accepts in candidates
      ensures started.Some? ==>
                IsFirstFree(prefix, old(attempts), started.value) &&
                Abs() == Dispatched(old(Abs()), contractId, started.value)
      ensures started.None? ==> Abs() == old(Abs()) && refusals == old(refusals) + |candidates|
      ensures started.Some? ==>
                exists n :: 0 <= n < |candidates| && candidates[n].Accepts? && Accepts !in candidates[..n] &&
                            refusals == old(refusals) + n
    {
      var id, k := FreshAttemptId(prefix, attempts);
      var expected := if contractId in leases then leases[contractId].generation else 0;
      for n := 0 to |candidates|
        invariant Abs() == old(Abs()) && refusals == old(refusals) + n
        invariant Accepts !in candidates[..n]
      {
        if candidates[n].NoAdapter? || candidates[n].Refuses? {
          refusals := refusals + 1;
          continue;
        }
        var ok := TakeLease(contractId, expected, id);
        attempts := attempts + {id};
        return Some(id);
      }
      return None;
    }

    /** Releasing a lease that is gone is no error; another's is fenced off. */
    method ReleaseLease(contractId: string, id: string, generation: nat) returns (r: Result<(), FenceError>)
      modifies this
      ensures contractId in old(leases) ==> r == CheckWriteFence(old(leases)[contractId], generation, id)
      ensures contractId !in old(leases) ==> r == Ok(())
      ensures r == Err(GenerationFenced) <==>
                contractId in old(leases) && old(leases)[contractId].generation != generation
      ensures r == Err(NotHolder) <==>
                contractId in old(leases) && old(leases)[contractId].generation == generation &&
                old(leases)[contractId].holder != Some(id)
      ensures Abs() == Release(old(Abs()), contractId, id, generation) && refusals == old(refusals)
      ensures r.Ok? ==> contractId !in leases
      ensures r.Err? ==> Abs() == old(Abs())
    {
      if contractId !in leases {
        return Ok(());
      }
      if leases[contractId].generation != generation {
        return Err(GenerationFenced);
      }
      if leases[contractId].holder != Some(id) {
        return Err(NotHolder);
      }
      leases := leases - {contractId};
      return Ok(());
    }
  }

  function Dispatched(w: World, contractId: string, id: string): World {
    World(w.attempts + {id}, w.leases[contractId := Lease(Some(id), GenerationOf(w, contractId) + 1)])
  }

  // ----- whole runs -----

  /** A dispatch under way: the name it has chosen, the generation it has read,
      and whether it has taken the lease. */
  datatype InFlight = InFlight(contractId: string, id: string, expected: nat, tookLease: bool)

  datatype Sys = Sys(world: World, inFlight: map<nat, InFlight>)

  /** Dispatches (of executors and of verifiers) choose, take and record in three
      steps, and may end before they are through; besides there are releases,
      reclaims that leave no holder, and attempt rows written by others. */
  datatype Step =
    | Chooses(p: nat, contractId: string, prefix: string, id: string)
    | Takes(p: nat)
    | Records(p: nat)
    | GivesUp(p: nat)
    | Releases(contractId: string, id: string, generation: nat)
    | Reclaims(contractId: string)
    | RecordsOther(id: string)

  ghost predicate IsEnabled(s: Sys, step: Step) {
    match step
    case Chooses(p, _, prefix, id) => p !in s.inFlight && IsFirstFree(prefix, s.world.attempts, id)
    case Takes(p) => p in s.inFlight && !s.inFlight[p].tookLease
    case Records(p) => p in s.inFlight && s.inFlight[p].tookLease
    case GivesUp(p) => p in s.inFlight
    case _ => true
  }

  ghost function Next(s: Sys, step: Step): Sys
    requires IsEnabled(s, step)
  {
    var w := s.world;
    match step
    case Chooses(p, contractId, _, id) =>
      Sys(w, s.inFlight[p := InFlight(contractId, id, GenerationOf(w, contractId), false)])
    case Takes(p) =>
      var f := s.inFlight[p];
      (match Grant(w, f.contractId, f.id, f.expected)
       case None => Sys(w, s.inFlight - {p})
       case Some(w') => Sys(w', s.inFlight[p := f.(tookLease := true)]))
    case Records(p) => Sys(Record(w, s.inFlight[p].id), s.inFlight - {p})
    case GivesUp(p) => Sys(w, s.inFlight - {p})
    case Releases(contractId, id, generation) => Sys(Release(w, contractId, id, generation), s.inFlight)
    case Reclaims(contractId) =>
      if contractId in w.leases
      then Sys(World(w.attempts, w.leases[contractId := Lease(None, w.leases[contractId].generation + 1)]), s.inFlight)
      else s
    case RecordsOther(id) => Sys(Record(w, id), s.inFlight)
  }

  /** Undisturbed, the three steps are what the method above does. */
  lemma DispatchIsThreeSteps(w: World, contractId: string, prefix: string, id: string)
    requires IsFirstFree(prefix, w.attempts, id)
    ensures var chosen := Next(Sys(w, map[]), Chooses(0, contractId, prefix, id));
            IsEnabled(chosen, Takes(0)) &&
            var taken := Next(chosen, Takes(0));
            IsEnabled(taken, Records(0)) &&
            Next(taken, Records(0)) == Sys(Dispatched(w, contractId, id), map[])
  {
    var chosen := Next(Sys(w, map[]), Chooses(0, contractId, prefix, id));
    var recorded := Next(Next(chosen, Takes(0)), Records(0));
    assert recorded.inFlight == map[];
  }

  const START: Sys := Sys(World({}, map[]), map[])

  ghost predicate IsRun(run: seq<Sys>, steps: seq<Step>) {
    |run| == |steps| + 1 && run[0] == START &&
    forall i {:trigger steps[i]} :: 0 <= i < |steps| ==>
      IsEnabled(run[i], steps[i]) && run[i + 1] == Next(run[i], steps[i])
  }

  predicate Passes(w: World, contractId: string, id: string, generation: nat) {
    contractId in w.leases && CheckWriteFence(w.leases[contractId], generation, id).Ok?
  }

  ghost predicate PassesSomewhere(w: World, id: string) {
    exists contractId, generation :: Passes(w, contractId, id, generation)
  }

  predicate IsHolder(w: World, contractId: string, id: string) {
    contractId in w.leases && w.leases[contractId].holder == Some(id)
  }

  lemma HoldersPass(w: World, id: string)
    ensures PassesSomewhere(w, id) <==> exists c :: IsHolder(w, c, id)
  {
    if c :| IsHolder(w, c, id) {
      assert Passes(w, c, id, w.leases[c].generation);
    }
    if c, g :| Passes(w, c, id, g) {
      assert IsHolder(w, c, id);
    }
  }

  /** The step takes the lease of `contractId` under the name `id`. */
  predicate TakesLease(s: Sys, step: Step, contractId: string, id: string) {
    step.Takes? && step.p in s.inFlight &&
    s.inFlight[step.p].contractId == contractId && s.inFlight[step.p].id == id &&
    s.inFlight[step.p].expected == GenerationOf(s.world, contractId)
  }

  /** Whoever holds a lease now and did not at an earlier point took it in
      between, however dispatches, releases, reclaims and failures interleave. */
  lemma {:induction false} HolderTookLease(run: seq<Sys>, steps: seq<Step>, j: nat, k: nat, c: string, id: string)
    returns (m: nat)
    requires IsRun(run, steps) && j <= k < |run|
    requires !IsHolder(run[j].world, c, id) && IsHolder(run[k].world, c, id)
    ensures j <= m < k && TakesLease(run[m], steps[m], c, id)
    decreases k - j
  {
    m := k - 1;
    if IsHolder(run[k - 1].world, c, id) {
      m := HolderTookLease(run, steps, j, k - 1, c, id);
    } else {
      assert run[k] == Next(run[k - 1], steps[k - 1]);
    }
  }

  /** At most one attempt passes a contract's fence, and with one generation. */
  lemma AtMostOneWriter(w: World, c: string, id1: string, id2: string, g1: nat, g2: nat)
    requires Passes(w, c, id1, g1) && Passes(w, c, id2, g2)
    ensures id1 == id2 && g1 == g2
  {
  }

  /** An attempt that can write no longer writes again only if its very name is
      taken once more. */
  lemma WritesAgainOnlyByRetaking(run: seq<Sys>, steps: seq<Step>, j: nat, k: nat, id: string)
    returns (m: nat, c: string)
    requires IsRun(run, steps) && j <= k < |run|
    requires !PassesSomewhere(run[j].world, id) && PassesSomewhere(run[k].world, id)
    ensures j <= m < k && TakesLease(run[m], steps[m], c, id)
  {
    HoldersPass(run[j].world, id);
    HoldersPass(run[k].world, id);
    c :| IsHolder(run[k].world, c, id);
    m := HolderTookLease(run, steps, j, k, c, id);
  }

  /** Taking the lease under a name lets that name write. */
  lemma TakingPasses(run: seq<Sys>, steps: seq<Step>, m: nat, c: string, id: string)
    requires IsRun(run, steps) && m < |steps| && TakesLease(run[m], steps[m], c, id)
    ensures PassesSomewhere(run[m + 1].world, id)
  {
    assert run[m + 1] == Next(run[m], steps[m]);
    assert IsHolder(run[m + 1].world, c, id);
    HoldersPass(run[m + 1].world, id);
  }

  /** The name is used to take a lease between the two states. */
  ghost predicate IsTakenBetween(run: seq<Sys>, steps: seq<Step>, j: nat, n: nat, id: string)
    requires |run| == |steps| + 1 && n < |run|
  {
    exists m, c :: j <= m < n && TakesLease(run[m], steps[m], c, id)
  }

  /** The fence exactly: in every run, however dispatches overlap and fail, an
      attempt that cannot write stays fenced on every contract and under every
      generation as long as, and only as long as, no dispatch takes a lease under
      its very name. */
  lemma SupersededStaysFenced(run: seq<Sys>, steps: seq<Step>, j: nat, n: nat, id: string)
    requires IsRun(run, steps) && j <= n < |run| && !PassesSomewhere(run[j].world, id)
    ensures (forall k :: j <= k <= n ==> !PassesSomewhere(run[k].world, id)) <==> !IsTakenBetween(run, steps, j, n, id)
  {
    if k :| j <= k <= n && PassesSomewhere(run[k].world, id) {
      var m, c := WritesAgainOnlyByRetaking(run, steps, j, k, id);
      assert j <= m < n;
    }
    if m, c :| j <= m < n && TakesLease(run[m], steps[m], c, id) {
      TakingPasses(run, steps, m, c, id);
    }
  }

  // ----- one dispatch at a time -----

  /** No dispatch chooses while another is under way, and none fails between
      taking the lease and recording the attempt. */
  ghost predicate IsSerial(run: seq<Sys>, steps: seq<Step>)
    requires |run| == |steps| + 1
  {
    forall i {:trigger steps[i]} :: 0 <= i < |steps| ==>
      (steps[i].Chooses? ==> run[i].inFlight == map[]) &&
      (steps[i].GivesUp? && steps[i].p in run[i].inFlight ==> !run[i].inFlight[steps[i].p].tookLease)
  }

  /** The name has been used to take a lease before state `i`. */
  ghost predicate WasTaken(run: seq<Sys>, steps: seq<Step>, i: nat, id: string)
    requires |run| == |steps| + 1 && i < |run|
  {
    exists m, c :: 0 <= m < i && TakesLease(run[m], steps[m], c, id)
  }

  /** Names that were taken are recorded, or about to be; the name a dispatch is
      about to take is new. */
  ghost predicate NamesAreFresh(run: seq<Sys>, steps: seq<Step>, i: nat)
    requires |run| == |steps| + 1 && i < |run|
  {
    var s := run[i];
    (forall p, q :: p in s.inFlight && q in s.inFlight ==> p == q) &&
    (forall id :: WasTaken(run, steps, i, id) ==>
       id in s.world.attempts || exists p :: p in s.inFlight && s.inFlight[p].tookLease && s.inFlight[p].id == id) &&
    (forall p :: p in s.inFlight && !s.inFlight[p].tookLease ==> !WasTaken(run, steps, i, s.inFlight[p].id))
  }

  lemma TakenBefore(run: seq<Sys>, steps: seq<Step>, i: nat, id: string)
    requires |run| == |steps| + 1 && i < |steps|
    ensures WasTaken(run, steps, i + 1, id) <==>
            WasTaken(run, steps, i, id) || exists c :: TakesLease(run[i], steps[i], c, id)
  {
  }

  lemma {:induction false} SerialNamesAreFresh(run: seq<Sys>, steps: seq<Step>, i: nat)
    requires IsRun(run, steps) && IsSerial(run, steps) && i < |run|
    ensures NamesAreFresh(run, steps, i)
  {
    if i > 0 {
      SerialNamesAreFresh(run, steps, i - 1);
      var s, step := run[i - 1], steps[i - 1];
      assert run[i] == Next(s, step);
      var s' := run[i];
      forall id
        ensures WasTaken(run, steps, i, id)
                <==> WasTaken(run, steps, i - 1, id) || exists c :: TakesLease(s, step, c, id)
      {
        TakenBefore(run, steps, i - 1, id);
      }
      forall id | WasTaken(run, steps, i, id)
        ensures id in s'.world.attempts ||
                exists p :: p in s'.inFlight && s'.inFlight[p].tookLease && s'.inFlight[p].id == id
      {
        if c :| TakesLease(s, step, c, id) {
          assert step.p in s'.inFlight && s'.inFlight[step.p].tookLease;
        } else if id !in s.world.attempts {
          var p :| p in s.inFlight && s.inFlight[p].tookLease && s.inFlight[p].id == id;
          assert step.Records? || p in s'.inFlight;
        }
      }
    }
  }

  /** One dispatch at a time, no name is taken twice. */
  lemma TakenOnce(run: seq<Sys>, steps: seq<Step>, m: nat, n: nat, c: string, d: string, id: string)
    requires IsRun(run, steps) && IsSerial(run, steps) && m < |steps| && n < |steps|
    requires TakesLease(run[m], steps[m], c, id) && TakesLease(run[n], steps[n], d, id)
    ensures m == n && c == d
  {
    SerialNamesAreFresh(run, steps, m);
    SerialNamesAreFresh(run, steps, n);
    assert m < n ==> WasTaken(run, steps, n, id);
    assert n < m ==> WasTaken(run, steps, m, id);
  }

  /** So then an attempt that could write and was superseded never writes again,
      on any contract and under any generation. */
  lemma SerialRunsStayFenced(run: seq<Sys>, steps: seq<Step>, i: nat, j: nat, k: nat, id: string)
    requires IsRun(run, steps) && IsSerial(run, steps) && i <= j <= k < |run|
    requires PassesSomewhere(run[i].world, id) && !PassesSomewhere(run[j].world, id)
    ensures !PassesSomewhere(run[k].world, id)
  {
    if PassesSomewhere(run[k].world, id) {
      assert !PassesSomewhere(run[0].world, id);
      var m, c := WritesAgainOnlyByRetaking(run, steps, 0, i, id);
      var n, d := WritesAgainOnlyByRetaking(run, steps, j, k, id);
      TakenOnce(run, steps, m, n, c, d, id);
      assert false;
    }
  }

  /** An attempt passes the fence of one contract only. */
  lemma WritesOneContract(run: seq<Sys>, steps: seq<Step>, i: nat, c: string, d: string, id: string, g: nat, h: nat)
    requires IsRun(run, steps) && IsSerial(run, steps) && i < |run|
    requires Passes(run[i].world, c, id, g) && Passes(run[i].world, d, id, h)
    ensures c == d && g == h
  {
    var m := HolderTookLease(run, steps, 0, i, c, id);
    var n := HolderTookLease(run, steps, 0, i, d, id);
    TakenOnce(run, steps, m, n, c, d, id);
  }

  /** Generations do repeat once a lease row is gone, so it is the fresh name and
      not the number that keeps the first attempt out. */
  lemma GenerationsRepeat(contractId: string, a: string, b: string)
    requires a != b
    ensures var w1 := Dispatched(World({}, map[]), contractId, a);
            var w2 := Release(w1, contractId, a, 1);
            var w3 := Dispatched(w2, contractId, b);
            Passes(w1, contractId, a, 1) && Passes(w3, contractId, b, 1) && !Passes(w3, contractId, a, 1)
  {
  }

  /** If two dispatchers choose before either records, they choose the same name,
      and the second can take the lease once the first is done with it: the
      credential of the first, fenced in between, works again. */
  lemma StaleChoiceRevivesACredential(contractId: string, prefix: string) returns (run: seq<Sys>, steps: seq<Step>)
    ensures IsRun(run, steps) && |run| == 7
    ensures Passes(run[4].world, contractId, prefix, 1)
    ensures !PassesSomewhere(run[5].world, prefix)
    ensures Passes(run[6].world, contractId, prefix, 1)
  {
    assert prefix == Candidate(prefix, 0);
    var f := InFlight(contractId, prefix, 0, false);
    var held := map[contractId := Lease(Some(prefix), 1)];
    var s1 := Sys(World({}, map[]), map[0 := f]);
    var s2 := Sys(World({}, map[]), map[0 := f, 1 := f]);
    var s3 := Sys(World({}, held), map[0 := f.(tookLease := true), 1 := f]);
    var s4 := Sys(World({prefix}, held), map[1 := f]);
    var s5 := Sys(World({prefix}, map[]), map[1 := f]);
    var s6 := Sys(World({prefix}, held), map[1 := f.(tookLease := true)]);
    run := [START, s1, s2, s3, s4, s5, s6];
    steps := [Chooses(0, contractId, prefix, prefix), Chooses(1, contractId, prefix, prefix), Takes(0), Records(0),
              Releases(contractId, prefix, 1), Takes(1)];
    assert Next(START, steps[0]) == s1;
    assert Next(s1, steps[1]) == s2;
    assert Next(s2, steps[2]) == s3;
    assert Next(s3, steps[3]) == s4;
    assert Next(s4, steps[4]) == s5;
    assert Next(s5, steps[5]) == s6;
  }

  /** If a dispatch fails between taking the lease and recording the attempt, its
      name is free again: once the lease is reclaimed, the next dispatch chooses
      it and revives the name that was fenced off. */
  lemma FailureRevivesAName(contractId: string, prefix: string) returns (run: seq<Sys>, steps: seq<Step>)
    ensures IsRun(run, steps) && |run| == 7
    ensures forall i :: 0 <= i < |steps| && steps[i].Chooses? ==> run[i].inFlight == map[]
    ensures PassesSomewhere(run[2].world, prefix)
    ensures !PassesSomewhere(run[4].world, prefix)
    ensures PassesSomewhere(run[6].world, prefix)
  {
    assert prefix == Candidate(prefix, 0);
    var none := map[contractId := Lease(None, 2)];
    var s1 := Sys(World({}, map[]), map[0 := InFlight(contractId, prefix, 0, false)]);
    var s2 := Sys(World({}, map[contractId := Lease(Some(prefix), 1)]),
                  map[0 := InFlight(contractId, prefix, 0, true)]);
    var s3 := Sys(s2.world, map[]);
    var s4 := Sys(World({}, none), map[]);
    var s5 := Sys(World({}, none), map[1 := InFlight(contractId, prefix, 2, false)]);
    var s6 := Sys(World({}, map[contractId := Lease(Some(prefix), 3)]),
                  map[1 := InFlight(contractId, prefix, 2, true)]);
    run := [START, s1, s2, s3, s4, s5, s6];
    steps := [Chooses(0, contractId, prefix, prefix), Takes(0), GivesUp(0), Reclaims(contractId),
              Chooses(1, contractId, prefix, prefix), Takes(1)];
    assert Next(START, steps[0]) == s1;
    assert Next(s1, steps[1]) == s2;
    assert Next(s2, steps[2]) == s3;
    assert Next(s3, steps[3]) == s4;
    assert Next(s4, steps[4]) == s5;
    assert Next(s5, steps[5]) == s6;
    assert IsHolder(s2.world, contractId, prefix) && IsHolder(s6.world, contractId, prefix);
    HoldersPass(s2.world, prefix);
    HoldersPass(s4.world, prefix);
    HoldersPass(s6.world, prefix);
  }
}
