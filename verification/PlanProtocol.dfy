/**
 * The plan gate and the block/wake protocol, one database operation at a time.
 *
 * A world is what the database holds: the contract rows, the append-only event
 * log and the users' grants.  Every function below is one transaction.
 */
module PlanProtocol {
  import opened Prelude
  import opened StateMachine
  import opened PlanHash
  import opened Plan
  import Fingerprint

  datatype BlockReason =
    | NeedUser | LeaseDead | BudgetExhausted | ConstraintRefused | NoExecutor
    | AcceptanceFailed | DeadlineMissed | NeedArbitration | CapacityFull

  /** What a contract promises: fixed within a revision. */
  datatype Content = Content(
    objective: string, checks: seq<Fingerprint.Check>, specHash: Option<string>, autoApprove: AutoApprove,
    goalId: string, gated: bool)

  datatype Row = Row(
    state: ContractState, reason: Option<BlockReason>, revision: nat, nextDecisionAt: Option<int>, content: Content)

  /** The user's pre-authorization kept with a goal. */
  datatype Grant = Grant(enabled: bool, actions: seq<string>)

  /** Who moved a contract from one state to another. */
  datatype Via = PlanWake | CapacityBlock | CapacityWake | Lifecycle

  /** Where a plan is submitted or signed: over the server's tools, or with the
      command-line program. */
  datatype Door = Server | CommandLine

  datatype Role = Executor | Verifier

  datatype Body =
    | Created(state: ContractState)
    | Moved(from: ContractState, to: ContractState, reason: Option<BlockReason>, via: Via)
    | Patched
    | PlanSubmitted(submittedBy: string)
    | PlanApproved(plan: seq<PlanStep>, payloadRevision: Option<nat>, acceptedCheckIds: Option<seq<string>>,
                   boundSpecHash: Option<string>, auto: bool, actor: string, door: Door)
    | PlanRejected(reasons: seq<Reason>, requiresSignoff: bool)
    | DispatchRefused
    | AttemptStarted(role: Role)
    | OtherEvent

  /** `revision` is a column of its own and may be re-stamped later. */
  datatype Event = Event(contractId: string, at: int, revision: Option<nat>, body: Body)

  datatype World = World(contracts: map<string, Row>, log: seq<Event>, grants: map<string, Grant>)

  function CheckIds(c: Content): seq<string> {
    CheckIdentifiers(c.checks)
  }

  // ----- moving rows without a new revision -----

  /** UPDATE ... WHERE state = ? AND revision = ?, and the event that goes with it
      when a row was changed.  The block reason is not part of the guard. */
  function CompareAndSet(w: World, id: string, seen: Row, to: ContractState, reason: Option<BlockReason>,
                         next: Option<int>, via: Via, now: int): World
  {
    if id in w.contracts && w.contracts[id].state == seen.state && w.contracts[id].revision == seen.revision then
      World(w.contracts[id := w.contracts[id].(state := to, reason := reason, nextDecisionAt := next)],
            w.log + [Event(id, now, Some(seen.revision), Moved(seen.state, to, reason, via))],
            w.grants)
    else w
  }

  /** Whether a helper acts at all on the row it has read. */
  predicate Applies(via: Via, seen: Row) {
    match via
    case PlanWake => seen.state.Blocked? && seen.reason == Some(NoExecutor)
    case CapacityBlock => seen.state.Active?
    case CapacityWake => seen.state.Blocked? && seen.reason == Some(CapacityFull)
    case Lifecycle => false
  }

  /** The write of a helper, given the row it has read. */
  function Commit(w: World, id: string, seen: Row, via: Via, now: int): World {
    match via
    case PlanWake => CompareAndSet(w, id, seen, Active, None, Some(now), via, now)
    case CapacityBlock => CompareAndSet(w, id, seen, Blocked, Some(CapacityFull), None, via, now)
    case CapacityWake => CompareAndSet(w, id, seen, Active, None, Some(now), via, now)
    case Lifecycle => w
  }

  // ----- the store's own writers -----

  /** Every earlier approval of the contract is stamped with the new revision. */
  function Restamp(log: seq<Event>, id: string, revision: nat): (r: seq<Event>)
    ensures |r| == |log|
    ensures forall i :: 0 <= i < |log| ==> r[i] == RestampOne(log[i], id, revision)
  {
    seq(|log|, i requires 0 <= i < |log| => RestampOne(log[i], id, revision))
  }

  function RestampOne(e: Event, id: string, revision: nat): Event {
    if e.contractId == id && e.body.PlanApproved? && e.revision.Some? && e.revision.value < revision
    then e.(revision := Some(revision))
    else e
  }

  /** Re-stamping changes the stamps of the contract's approvals only; none is
      given to an approval without one, none is lowered, and none is left below
      the new revision. */
  lemma StampsRise(log: seq<Event>, id: string, revision: nat, i: nat)
    requires i < |log|
    ensures var e, e' := log[i], Restamp(log, id, revision)[i];
            e' == e.(revision := e'.revision) &&
            (e.contractId != id || !e.body.PlanApproved? || e.revision.None? ==> e' == e) &&
            (e.contractId == id && e.body.PlanApproved? && e.revision.Some? ==>
               e'.revision.Some? && e.revision.value <= e'.revision.value &&
               revision <= e'.revision.value && e'.revision in {e.revision, Some(revision)})
  {
  }

  predicate MayMove(from: ContractState, to: ContractState) {
    from == to || IsValidTransition(from, to)
  }

  /** `next` is a new decision time, or None to keep the one there is. */
  function UpdateState(w: World, id: string, to: ContractState, reason: Option<BlockReason>, next: Option<int>,
                       now: int): World
    requires id in w.contracts && MayMove(w.contracts[id].state, to)
  {
    var row := w.contracts[id];
    var revision := row.revision + 1;
    var decision := if next.Some? then next else row.nextDecisionAt;
    World(w.contracts[id := row.(state := to, reason := reason, revision := revision, nextDecisionAt := decision)],
          Restamp(w.log, id, revision) + [Event(id, now, Some(revision), Moved(row.state, to, reason, Lifecycle))],
          w.grants)
  }

  /** A patch may replace the acceptance, and nothing else of the content. */
  function Patch(w: World, id: string, checks: seq<Fingerprint.Check>, specHash: Option<string>, now: int): World
    requires id in w.contracts
  {
    var row := w.contracts[id];
    var revision := row.revision + 1;
    var content := row.content.(checks := checks, specHash := specHash);
    World(w.contracts[id := row.(revision := revision, content := content)],
          Restamp(w.log + [Event(id, now, Some(revision), Patched)], id, revision),
          w.grants)
  }

  function Create(w: World, id: string, content: Content, now: int): World
    requires id !in w.contracts
  {
    World(w.contracts[id := Row(Drafted, None, 1, None, content)],
          w.log + [Event(id, now, Some(1), Created(Drafted))], w.grants)
  }

  function Append(w: World, e: Event): World {
    World(w.contracts, w.log + [e], w.grants)
  }

  // ----- submitting and signing plans -----

  predicate GrantCovers(g: Grant, plan: seq<PlanStep>) {
    g.enabled && (exists i :: 0 <= i < |g.actions| && g.actions[i] != "") &&
    forall i :: 0 <= i < |plan| ==> plan[i].action != "" && plan[i].action in g.actions
  }

  function Judge(t: TextTables, seen: Row, plan: seq<PlanStep>): PlanValidation {
    Validation(t, plan, seen.content.objective, CheckIds(seen.content), seen.content.autoApprove)
  }

  /** The goal's grant can spare an approved plan the signature. */
  function WithGrant(v: PlanValidation, w: World, goalId: string, plan: seq<PlanStep>): PlanValidation {
    if v.requiresSignoff && goalId != "" && goalId in w.grants && GrantCovers(w.grants[goalId], plan)
    then v.(requiresSignoff := false)
    else v
  }

  /** An automatic approval from the command line carries no spec hash. */
  function Approval(seen: Row, plan: seq<PlanStep>, auto: bool, actor: string, door: Door): Body {
    PlanApproved(plan, Some(seen.revision), Some(CheckIds(seen.content)),
                 if auto && door.CommandLine? then None else seen.content.specHash, auto, actor, door)
  }

  function Verdict(id: string, seen: Row, plan: seq<PlanStep>, v: PlanValidation, door: Door, now: int): Event {
    if v.approved && !v.requiresSignoff
    then Event(id, now, Some(seen.revision), Approval(seen, plan, true, "daemon", door))
    else Event(id, now, None, PlanRejected(v.reasons, v.requiresSignoff))
  }

  function Signature(id: string, seen: Row, plan: seq<PlanStep>, actor: string, door: Door, now: int): Event {
    Event(id, now, Some(seen.revision), Approval(seen, plan, false, actor, door))
  }

  // ----- the gate -----

  const PLAN_GATE_LOOKBACK_SECONDS: int := 24 * 60 * 60

  predicate IsVerdict(e: Event, id: string) {
    e.contractId == id && (e.body.PlanApproved? || e.body.PlanRejected?)
  }

  /** The row a query for the latest verdict may return: none in the window is
      later, and among equally late ones any may come first. */
  predicate IsLatestVerdict(log: seq<Event>, id: string, now: int, i: int) {
    0 <= i < |log| && IsVerdict(log[i], id) && log[i].at >= now - PLAN_GATE_LOOKBACK_SECONDS &&
    forall j :: 0 <= j < |log| && IsVerdict(log[j], id) ==> log[j].at <= log[i].at
  }

  /** The verdict is an approval bound to this revision and this acceptance. */
  predicate Binds(e: Event, revision: nat, ids: seq<string>, specHash: Option<string>) {
    e.body.PlanApproved? &&
    (if e.revision.Some? then e.revision else e.body.payloadRevision) == Some(revision) &&
    e.body.acceptedCheckIds == Some(ids) &&
    e.body.boundSpecHash == specHash
  }

  /** The gate may open: for some order of equally late verdicts it does. */
  ghost predicate MayOpen(log: seq<Event>, id: string, view: Row, now: int) {
    exists i ::
      IsLatestVerdict(log, id, now, i) &&
      Binds(log[i], view.revision, CheckIds(view.content), view.content.specHash)
  }

  /** The gate must open: there is a latest verdict, and in every order it does. */
  ghost predicate MustOpen(log: seq<Event>, id: string, view: Row, now: int) {
    (exists i :: IsLatestVerdict(log, id, now, i)) &&
    forall i :: IsLatestVerdict(log, id, now, i) ==>
      Binds(log[i], view.revision, CheckIds(view.content), view.content.specHash)
  }
}
