/** The state capability contract (IState) and the observable effects of the state machine. */
module States {

  /**
   * A state object as the machine sees it: its Name (by convention the name of its own type)
   * and an id that tells apart distinct objects, since two objects may share a Name.
   * CanEnter and CanExit are read anew at every transition, so they are not part of the
   * value: their answers at a call are given as Guards. The machine's calls to the Enter
   * and Exit hooks are recorded as Events.
   */
  datatype State = State(name: string, id: nat)

  /**
   * What the guards answer when SetState reads them: CanExit of Current and CanEnter of
   * the target.
   */
  datatype Guards = Guards(currentCanExit: bool, targetCanEnter: bool)

  /** One call of a lifecycle hook by the machine, on the state object it was called on. */
  datatype Event = Enter(state: State) | Exit(state: State)

  /** The exceptions the machine's operations raise. */
  datatype Error =
    | DuplicateState(name: string)   // ArgumentException from Register
    | NotFound(name: string)         // NotFoundException from Get and Set
    | NullReference                  // IsActiveState while Current is still null
}
