/** The contract states and the transitions between them that may be written. */
module StateMachine {
  datatype ContractState = Drafted | Active | Paused | Blocked | Expired | Satisfied | Complete | Cancelled | Archived

  const TERMINAL_STATES: set<ContractState> := {Complete, Satisfied, Cancelled, Archived}

  function LegalTransitions(s: ContractState): set<ContractState> {
    match s
    case Drafted => {Active, Cancelled}
    case Active => {Paused, Blocked, Satisfied, Complete, Expired, Cancelled}
    case Paused => {Active, Cancelled}
    case Blocked => {Active, Satisfied, Complete, Archived, Expired, Cancelled}
    case Expired => {Satisfied, Complete, Archived, Active, Cancelled}
    case Satisfied => {}
    case Complete => {}
    case Cancelled => {}
    case Archived => {}
  }

  predicate IsTerminal(s: ContractState) {
    s in TERMINAL_STATES
  }

  predicate IsValidTransition(from: ContractState, to: ContractState) {
    to in LegalTransitions(from)
  }

  /** The same table by target: from where each state may be entered. */
  lemma EntriesExactly(from: ContractState, to: ContractState)
    ensures IsValidTransition(from, to) <==>
            match to
            case Drafted => false
            case Active => from in {Drafted, Paused, Blocked, Expired}
            case Paused => from == Active
            case Blocked => from == Active
            case Expired => from in {Active, Blocked}
            case Satisfied => from in {Active, Blocked, Expired}
            case Complete => from in {Active, Blocked, Expired}
            case Cancelled => !IsTerminal(from)
            case Archived => from in {Blocked, Expired}
  {
  }

  lemma TerminalStatesHaveNoExit(s: ContractState)
    ensures IsTerminal(s) <==> LegalTransitions(s) == {}
  {
    match s {
      case Drafted => assert Active in LegalTransitions(s);
      case Active => assert Paused in LegalTransitions(s);
      case Paused => assert Active in LegalTransitions(s);
      case Blocked => assert Active in LegalTransitions(s);
      case Expired => assert Active in LegalTransitions(s);
      case _ =>
    }
  }
}
