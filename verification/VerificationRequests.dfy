/**
 * Consumption of user verification requests: requests and consumption markers
 * are events of one log, the daemon serves the oldest open request of each
 * contract and marks it only when a verifier was really dispatched.
 *
 * An event's identifier is its position in the log.
 */
module VerificationRequests {
  import opened Prelude
  import opened StateMachine

  datatype Contract = Contract(id: string, state: ContractState)

  /** A consumption marker names its request, or nothing if it is malformed. */
  datatype Event =
    | Requested(contractId: string)
    | Consumed(contractId: string, request: Option<nat>)
    | Started(contractId: string)
    | OtherEvent(contractId: string)

  /** What the rest of the system answers during one contract's turn: whether a
      verifier is already in flight, whether the dispatch is accepted, and the
      events that dispatching (or anyone else meanwhile) puts in the log. */
  datatype Reply = Reply(inFlight: bool, accepted: bool, logged: seq<Event>)

  /** Only the turn itself writes consumption markers. */
  predicate WritesNoMarker(events: seq<Event>) {
    forall e :: e in events ==> !e.Consumed?
  }

  function RequestIds(log: seq<Event>, id: string): seq<nat> {
    if log == [] then []
    else
      var n := |log| - 1;
      RequestIds(log[..n], id) + if log[n] == Requested(id) then [n] else []
  }

  function ConsumedIds(log: seq<Event>, id: string): seq<nat> {
    if log == [] then []
    else
      var e := log[|log| - 1];
      ConsumedIds(log[..|log| - 1], id)
      + if e.Consumed? && e.contractId == id && e.request.Some? then [e.request.value] else []
  }

  function FirstOpen(requests: seq<nat>, consumed: set<nat>): Option<nat> {
    if requests == [] then None
    else if requests[0] !in consumed then Some(requests[0])
    else FirstOpen(requests[1..], consumed)
  }

  function ToSet(ids: seq<nat>): set<nat> {
    set i | i in ids
  }

  /** The oldest request not marked as consumed. */
  function Pending(log: seq<Event>, id: string): Option<nat> {
    FirstOpen(RequestIds(log, id), ToSet(ConsumedIds(log, id)))
  }

  /** The log, and the contracts for which a verifier was dispatched, in order. */
  datatype World = World(log: seq<Event>, dispatched: seq<string>)

  function Turn(w: World, c: Contract, r: Reply): World {
    if !c.state.Active? || Pending(w.log, c.id).None? || r.inFlight then w
    else if !r.accepted then World(w.log + r.logged, w.dispatched)
    else
      World(w.log + r.logged + [Consumed(c.id, Some(Pending(w.log, c.id).value)), Started(c.id)], w.dispatched + [c.id])
  }

  function Scan(w: World, contracts: seq<Contract>, replies: seq<Reply>): World
    requires |replies| == |contracts|
    decreases |contracts|
  {
    if contracts == [] then w else Scan(Turn(w, contracts[0], replies[0]), contracts[1..], replies[1..])
  }

  class Daemon {
    var log: seq<Event>
    var dispatched: seq<string>

    constructor ()
      ensures Abs() == World([], [])
    {
      log, dispatched := [], [];
    }

    function Abs(): World
      reads this
    {
      World(log, dispatched)
    }

    method PendingRequest(id: string) returns (pending: Option<nat>)
      ensures pending == Pending(log, id)
    {
      var requested := [];
      var consumed := {};
      for i := 0 to |log|
        invariant requested == RequestIds(log[..i], id)
        invariant consumed == ToSet(ConsumedIds(log[..i], id))
      {
        assert log[..i + 1][..i] == log[..i];
        if log[i] == Requested(id) {
          requested := requested + [i];
        } else if log[i].Consumed? && log[i].contractId == id && log[i].request.Some? {
          consumed := consumed + {log[i].request.value};
        }
      }
      assert log[..|log|] == log;
      for k := 0 to |requested|
        invariant FirstOpen(requested, consumed) == FirstOpen(requested[k..], consumed)
      {
        if requested[k] !in consumed {
          return Some(requested[k]);
        }
      }
      return None;
    }

    method ConsumeVerificationRequests(contracts: seq<Contract>, replies: seq<Reply>)
      requires |replies| == |contracts|
      modifies this
      ensures Abs() == Scan(old(Abs()), contracts, replies)
    {
      var i := 0;
      while i < |contracts|
        invariant 0 <= i <= |contracts|
        invariant Scan(Abs(), contracts[i..], replies[i..]) == Scan(old(Abs()), contracts, replies)
      {
        var c, r := contracts[i], replies[i];
        assert contracts[i..][1..] == contracts[i + 1..] && replies[i..][1..] == replies[i + 1..];
        i := i + 1;
        if !c.state.Active? {
          continue;
        }
        var pending := PendingRequest(c.id);
        if pending.None? {
          continue;
        }
        if r.inFlight {
          continue;
        }
        log := log + r.logged;
        if !r.accepted {
          continue; // refused is not consumed: the request stays open
        }
        dispatched := dispatched + [c.id];
        log := log + [Consumed(c.id, pending), Started(c.id)];
      }
    }
  }

  // ----- the oldest open request -----

  /** The event at `r` is a request of the contract and no marker names it. */
  predicate IsOpen(log: seq<Event>, id: string, r: nat) {
    r < |log| && log[r] == Requested(id) && Consumed(id, Some(r)) !in log
  }

  lemma {:induction false} QueueMembers(log: seq<Event>, id: string)
    ensures forall r: nat :: r in RequestIds(log, id) <==> r < |log| && log[r] == Requested(id)
    ensures forall r: nat :: r in ConsumedIds(log, id) <==> Consumed(id, Some(r)) in log
  {
    if log != [] {
      var n := |log| - 1;
      QueueMembers(log[..n], id);
      assert log == log[..n] + [log[n]];
    }
  }

  lemma {:induction false} FirstOpenIsLeast(requests: seq<nat>, consumed: set<nat>)
    requires Ascending(requests)
    ensures var first := FirstOpen(requests, consumed);
            (first.None? ==> forall r :: r in requests ==> r in consumed) &&
            (first.Some? ==> first.value in requests && first.value !in consumed &&
                             forall r :: r in requests && r < first.value ==> r in consumed)
  {
    if requests != [] {
      FirstOpenIsLeast(requests[1..], consumed);
      assert requests == [requests[0]] + requests[1..];
      assert requests[0] in requests;
      assert forall r :: r in requests[1..] ==> requests[0] < r;
    }
  }

  /** The request served next is the open request with the least position. */
  lemma PendingExactly(log: seq<Event>, id: string, r: nat)
    ensures Pending(log, id) == Some(r) <==> IsOpen(log, id, r) && forall q: nat :: q < r ==> !IsOpen(log, id, q)
    ensures Pending(log, id) == None <==> forall q: nat :: !IsOpen(log, id, q)
  {
    QueueMembers(log, id);
    RequestIdsAscend(log, id);
    FirstOpenIsLeast(RequestIds(log, id), ToSet(ConsumedIds(log, id)));
    assert forall q: nat :: IsOpen(log, id, q) <==> q in RequestIds(log, id) && q !in ToSet(ConsumedIds(log, id));
  }

  // ----- the queue discipline -----

  predicate Ascending(ids: seq<nat>) {
    forall i, j :: 0 <= i < j < |ids| ==> ids[i] < ids[j]
  }

  lemma {:induction false} RequestIdsAscend(log: seq<Event>, id: string)
    ensures Ascending(RequestIds(log, id))
    ensures forall r :: r in RequestIds(log, id) ==> r < |log|
  {
    if log != [] {
      RequestIdsAscend(log[..|log| - 1], id);
      var front := RequestIds(log[..|log| - 1], id);
      assert forall i :: 0 <= i < |front| ==> front[i] in front;
    }
  }

  lemma {:induction false} QuietAppend(log: seq<Event>, extra: seq<Event>, id: string)
    requires WritesNoMarker(extra)
    ensures ConsumedIds(log + extra, id) == ConsumedIds(log, id)
    ensures RequestIds(log, id) <= RequestIds(log + extra, id)
    decreases |extra|
  {
    if extra == [] {
      assert log + extra == log;
    } else {
      assert (log + extra)[..|log + extra| - 1] == log + extra[..|extra| - 1];
      assert extra[|extra| - 1] in extra;
      QuietAppend(log, extra[..|extra| - 1], id);
    }
  }

  lemma MarkerAppend(log: seq<Event>, contractId: string, request: nat, id: string)
    ensures var log' := log + [Consumed(contractId, Some(request)), Started(contractId)];
            RequestIds(log', id) == RequestIds(log, id) &&
            ConsumedIds(log', id) == ConsumedIds(log, id) + if contractId == id then [request] else []
  {
    var marker, started := Consumed(contractId, Some(request)), Started(contractId);
    var log' := log + [marker, started];
    assert log'[..|log'| - 1] == log + [marker];
    assert (log + [marker])[..|log|] == log;
  }

  lemma {:induction false} FirstOpenAfterPrefix(requests: seq<nat>, served: nat)
    requires served <= |requests| && Ascending(requests)
    ensures FirstOpen(requests, ToSet(requests[..served]))
         == if served == |requests| then None else Some(requests[served])
  {
    SkipServed(requests, served, 0);
    assert requests[0..] == requests;
  }

  lemma {:induction false} SkipServed(requests: seq<nat>, served: nat, k: nat)
    requires k <= served <= |requests| && Ascending(requests)
    ensures FirstOpen(requests[k..], ToSet(requests[..served]))
         == if served == |requests| then None else Some(requests[served])
    decreases served - k
  {
    if k < served {
      assert requests[k] == requests[..served][k] && requests[k] in ToSet(requests[..served]);
      assert requests[k..][1..] == requests[k + 1..];
      SkipServed(requests, served, k + 1);
    } else if served < |requests| {
      assert requests[k] !in requests[..served];
    }
  }

  /** How often a verifier was dispatched for the contract. */
  function Served(dispatched: seq<string>, id: string): nat {
    if dispatched == [] then 0
    else Served(dispatched[..|dispatched| - 1], id) + if dispatched[|dispatched| - 1] == id then 1 else 0
  }

  /** The consumed requests are the first ones made, in order and once each, and
      as many as there were dispatches. */
  predicate IsOrderly(w: World, id: string) {
    ConsumedIds(w.log, id) <= RequestIds(w.log, id) &&
    |ConsumedIds(w.log, id)| == Served(w.dispatched, id)
  }

  lemma PendingIsNext(w: World, id: string)
    requires IsOrderly(w, id)
    ensures var served, requests := Served(w.dispatched, id), RequestIds(w.log, id);
            Pending(w.log, id) == if served == |requests| then None else Some(requests[served])
  {
    RequestIdsAscend(w.log, id);
    var consumed := ConsumedIds(w.log, id);
    assert consumed == RequestIds(w.log, id)[..|consumed|];
    FirstOpenAfterPrefix(RequestIds(w.log, id), |consumed|);
  }

  lemma TurnIsOrderly(w: World, c: Contract, r: Reply, id: string)
    requires IsOrderly(w, id) && WritesNoMarker(r.logged)
    ensures IsOrderly(Turn(w, c, r), id)
  {
    var w' := Turn(w, c, r);
    if w' != w {
      QuietAppend(w.log, r.logged, id);
      if r.accepted {
        MarkerAppend(w.log + r.logged, c.id, Pending(w.log, c.id).value, id);
        assert w'.dispatched[..|w'.dispatched| - 1] == w.dispatched;
        if c.id == id {
          PendingIsNext(w, id);
          var requests, consumed := RequestIds(w.log, id), ConsumedIds(w.log, id);
          assert consumed + [requests[|consumed|]] == requests[..|consumed| + 1];
        }
      }
    }
  }

  lemma {:induction false} ScanIsOrderly(w: World, contracts: seq<Contract>, replies: seq<Reply>, id: string)
    requires |replies| == |contracts| && forall r :: r in replies ==> WritesNoMarker(r.logged)
    requires IsOrderly(w, id)
    ensures IsOrderly(Scan(w, contracts, replies), id)
    decreases |contracts|
  {
    if contracts != [] {
      assert replies[0] in replies;
      TurnIsOrderly(w, contracts[0], replies[0], id);
      ScanIsOrderly(Turn(w, contracts[0], replies[0]), contracts[1..], replies[1..], id);
    }
  }

  // ----- whole runs -----

  datatype Step = Others(events: seq<Event>) | Tick(contracts: seq<Contract>, replies: seq<Reply>)

  predicate IsStep(s: Step) {
    match s
    case Others(events) => WritesNoMarker(events)
    case Tick(contracts, replies) => |replies| == |contracts| && forall r :: r in replies ==> WritesNoMarker(r.logged)
  }

  function Run(steps: seq<Step>): World
    requires forall i :: 0 <= i < |steps| ==> IsStep(steps[i])
  {
    if steps == [] then World([], [])
    else
      var before := Run(steps[..|steps| - 1]);
      assert IsStep(steps[|steps| - 1]);
      match steps[|steps| - 1]
      case Others(events) => World(before.log + events, before.dispatched)
      case Tick(contracts, replies) => Scan(before, contracts, replies)
  }

  /** In every run, and for every contract, the requests consumed are a prefix of
      the requests made, without repetition, one per dispatch; so a refused
      request stays the next one to be served. */
  lemma {:induction false} EveryRunIsOrderly(steps: seq<Step>, id: string)
    requires forall i :: 0 <= i < |steps| ==> IsStep(steps[i])
    ensures var w := Run(steps);
            IsOrderly(w, id) && Ascending(ConsumedIds(w.log, id)) &&
            Pending(w.log, id) == if Served(w.dispatched, id) == |RequestIds(w.log, id)| then None
                                  else Some(RequestIds(w.log, id)[Served(w.dispatched, id)])
  {
    var w := Run(steps);
    if steps != [] {
      var front := steps[..|steps| - 1];
      EveryRunIsOrderly(front, id);
      match steps[|steps| - 1] {
        case Others(events) => QuietAppend(Run(front).log, events, id);
        case Tick(contracts, replies) => ScanIsOrderly(Run(front), contracts, replies, id);
      }
    }
    RequestIdsAscend(w.log, id);
    PendingIsNext(w, id);
  }

  /** The world in front of the `k`-th contract's turn. */
  function Before(w: World, contracts: seq<Contract>, replies: seq<Reply>, k: nat): World
    requires |replies| == |contracts| && k <= |contracts|
  {
    Scan(w, contracts[..k], replies[..k])
  }

  lemma ScanOne(w: World, c: Contract, r: Reply)
    ensures Scan(w, [c], [r]) == Turn(w, c, r)
  {
    assert [c][1..] == [] && [r][1..] == [];
  }

  lemma {:induction false} ScanStep(w: World, contracts: seq<Contract>, replies: seq<Reply>, k: nat)
    requires |replies| == |contracts| && k < |contracts|
    ensures Before(w, contracts, replies, k + 1) == Turn(Before(w, contracts, replies, k), contracts[k], replies[k])
    decreases k
  {
    if k == 0 {
      assert contracts[..1] == [contracts[0]] && replies[..1] == [replies[0]];
      assert contracts[..0] == [] && replies[..0] == [];
      ScanOne(w, contracts[0], replies[0]);
    } else {
      assert contracts[..k + 1][1..] == contracts[1..][..k] && replies[..k + 1][1..] == replies[1..][..k];
      assert contracts[..k][1..] == contracts[1..][..k - 1] && replies[..k][1..] == replies[1..][..k - 1];
      ScanStep(Turn(w, contracts[0], replies[0]), contracts[1..], replies[1..], k - 1);
    }
  }

  /** In every scan, a verifier is dispatched for exactly those contracts that are
      active, have an open request and no verifier in flight, and whose dispatch is
      accepted; only then are a marker and a start logged, the marker for the
      oldest open request.  Contracts that are not active and contracts with a
      verifier in flight leave everything as it is. */
  lemma DispatchesExactly(w: World, contracts: seq<Contract>, replies: seq<Reply>, k: nat)
    requires |replies| == |contracts| && k < |contracts|
    ensures var b, a := Before(w, contracts, replies, k), Before(w, contracts, replies, k + 1);
            var c, r := contracts[k], replies[k];
            var open := Pending(b.log, c.id);
            var goes := c.state == Active && open.Some? && !r.inFlight && r.accepted;
            a.dispatched == b.dispatched + (if goes then [c.id] else []) &&
            (goes ==> a.log == b.log + r.logged + [Consumed(c.id, open), Started(c.id)]) &&
            (!goes && c.state == Active && open.Some? && !r.inFlight ==> a.log == b.log + r.logged) &&
            (c.state != Active || open.None? || r.inFlight ==> a == b)
  {
    ScanStep(w, contracts, replies, k);
  }

  /** The turn dispatches a verifier. */
  predicate Goes(b: World, c: Contract, r: Reply) {
    c.state == Active && Pending(b.log, c.id).Some? && !r.inFlight && r.accepted
  }

  /** How many turns of a scan do. */
  function Going(w: World, contracts: seq<Contract>, replies: seq<Reply>): nat
    requires |replies| == |contracts|
    decreases |contracts|
  {
    if contracts == [] then 0
    else
      (if Goes(w, contracts[0], replies[0]) then 1 else 0) +
      Going(Turn(w, contracts[0], replies[0]), contracts[1..], replies[1..])
  }

  function GoingOverARun(steps: seq<Step>): nat
    requires forall i :: 0 <= i < |steps| ==> IsStep(steps[i])
  {
    if steps == [] then 0
    else
      var front, last := steps[..|steps| - 1], steps[|steps| - 1];
      assert IsStep(last);
      GoingOverARun(front) + if last.Tick? then Going(Run(front), last.contracts, last.replies) else 0
  }

  lemma {:induction false} ScanCounts(w: World, contracts: seq<Contract>, replies: seq<Reply>)
    requires |replies| == |contracts|
    ensures |Scan(w, contracts, replies).dispatched| == |w.dispatched| + Going(w, contracts, replies)
    decreases |contracts|
  {
    if contracts != [] {
      DispatchesExactly(w, contracts, replies, 0);
      assert contracts[..0] == [] && replies[..0] == [];
      ScanStep(w, contracts, replies, 0);
      ScanCounts(Turn(w, contracts[0], replies[0]), contracts[1..], replies[1..]);
    }
  }

  /** Over every run there are exactly as many dispatches as such turns. */
  lemma {:induction false} DispatchesOverARun(steps: seq<Step>)
    requires forall i :: 0 <= i < |steps| ==> IsStep(steps[i])
    ensures |Run(steps).dispatched| == GoingOverARun(steps)
  {
    if steps != [] {
      var front, last := steps[..|steps| - 1], steps[|steps| - 1];
      DispatchesOverARun(front);
      assert IsStep(last);
      if last.Tick? {
        ScanCounts(Run(front), last.contracts, last.replies);
      }
    }
  }

  /** A refused turn leaves the same request next in line. */
  lemma RefusalKeepsRequest(w: World, c: Contract, r: Reply)
    requires IsOrderly(w, c.id) && WritesNoMarker(r.logged)
    requires Pending(w.log, c.id).Some? && !r.accepted
    ensures Pending(Turn(w, c, r).log, c.id) == Pending(w.log, c.id)
  {
    var w' := Turn(w, c, r);
    TurnIsOrderly(w, c, r, c.id);
    PendingIsNext(w, c.id);
    PendingIsNext(w', c.id);
    QuietAppend(w.log, r.logged, c.id);
  }

  /** An accepted turn of an active contract serves exactly the request that was
      next in line. */
  lemma AcceptanceServesNext(w: World, c: Contract, r: Reply)
    requires IsOrderly(w, c.id) && WritesNoMarker(r.logged)
    requires c.state.Active? && !r.inFlight && r.accepted && Served(w.dispatched, c.id) < |RequestIds(w.log, c.id)|
    ensures var w' := Turn(w, c, r);
            ConsumedIds(w'.log, c.id)
            == ConsumedIds(w.log, c.id) + [RequestIds(w.log, c.id)[Served(w.dispatched, c.id)]]
  {
    PendingIsNext(w, c.id);
    QuietAppend(w.log, r.logged, c.id);
    MarkerAppend(w.log + r.logged, c.id, Pending(w.log, c.id).value, c.id);
  }
}
