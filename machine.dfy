/**
 * StateMachine<TState> as a class: the registry and Current are fields that its methods
 * update in place; the hook calls are a ghost trace. Each operation is proved against the
 * function of module Protocol that gives its effect on the machine's observable state.
 */
module Machines {
  import opened Wrappers
  import opened States
  import Protocol

  class StateMachine {
    /** registeredStatesMap */
    var registry: map<string, State>
    /** Current; None while it is null */
    var current: Option<State>
    /** The Enter and Exit calls made so far */
    ghost var trace: seq<Event>

    /** The observable state of this machine. */
    ghost function Model(): Protocol.Machine
      reads this
    {
      Protocol.Machine(registry, current, trace)
    }

    ghost predicate Valid()
      reads this
    {
      Protocol.Invariant(Model())
    }

    /** The constructor; its capacity hint has no observable effect. */
    constructor ()
      ensures Valid() && Model() == Protocol.Initial()
    {
      registry := map[];
      current := None;
      trace := [];
    }

    method Register(s: State) returns (r: Outcome<Error>)
      requires Valid()
      modifies this
      ensures Valid()
      ensures match Protocol.Register(old(Model()), s)
              case Success(next) => r == Pass && Model() == next
              case Failure(e) => r == Fail(e) && Model() == old(Model())
    {
      var name := s.name;
      if name in registry {
        return Fail(DuplicateState(name));
      }
      registry := registry[name := s];
      r := Pass;
    }

    method Unregister(s: State)
      requires Valid()
      modifies this
      ensures Valid()
      ensures Model() == Protocol.Unregister(old(Model()), s)
    {
      registry := registry - {s.name};
    }

    /** The private Get(name); Get<T>() is this lookup with the name of T. */
    function Get(name: string): (r: Result<State, Error>)
      reads this
      ensures r == Protocol.Get(Model(), name)
    {
      if name in registry then Success(registry[name]) else Failure(NotFound(name))
    }

    /** Set<T>(safeTransition), with the name of T; guards are the answers read during the call. */
    method SetByName(name: string, safe: bool, guards: Guards) returns (r: Result<bool, Error>)
      requires Valid()
      modifies this
      ensures Valid()
      ensures match Protocol.SetByName(old(Model()), name, safe, guards)
              case Success(step) => r == Success(step.ok) && Model() == step.next
              case Failure(e) => r == Failure(e) && Model() == old(Model())
    {
      var found := Get(name);
      if found.Failure? {
        return Failure(found.error);
      }
      var ok := SetState(found.value, safe, guards);
      r := Success(ok);
    }

    /** Set(newState, safeTransition); guards are the answers read during the call. */
    method Set(newState: State, safe: bool, guards: Guards) returns (r: Result<bool, Error>)
      requires Valid()
      modifies this
      ensures Valid()
      ensures match Protocol.Set(old(Model()), newState, safe, guards)
              case Success(step) => r == Success(step.ok) && Model() == step.next
              case Failure(e) => r == Failure(e) && Model() == old(Model())
    {
      var stateName := newState.name;
      if stateName !in registry {
        return Failure(NotFound(stateName));
      }
      var ok := SetState(newState, safe, guards);
      r := Success(ok);
    }

    function IsActiveState(stateName: string): (r: Result<bool, Error>)
      reads this
      ensures r == Protocol.IsActiveState(Model(), stateName)
    {
      if current.None? then Failure(NullReference) else Success(current.value.name == stateName)
    }

    /** The IsActiveState(TState) overload. */
    function IsActiveStateOf(s: State): (r: Result<bool, Error>)
      reads this
      ensures r == Protocol.IsActiveStateOf(Model(), s)
    {
      IsActiveState(s.name)
    }

    function GetAllStates(): (r: set<State>)
      reads this
      ensures r == Protocol.AllStates(Model())
    {
      registry.Values
    }

    /**
     * The private SetState. The guards are the answers Current.CanExit and newState.CanEnter
     * give when read here; neither is read unless the check before it passed.
     */
    method SetState(newState: State, safe: bool, guards: Guards) returns (ok: bool)
      requires Valid()
      modifies this
      ensures Valid()
      ensures ok == Protocol.SetState(old(Model()), newState, safe, guards).ok
      ensures Model() == Protocol.SetState(old(Model()), newState, safe, guards).next
    {
      if safe {
        if current.Some? {
          if current.value.name == newState.name {
            return false;
          }
          if !guards.currentCanExit {
            return false;
          }
        }
        if !guards.targetCanEnter {
          return false;
        }
      }
      Transition(newState);
      ok := true;
    }

    method Transition(newState: State)
      requires Valid()
      modifies this
      ensures Valid()
      ensures Model() == Protocol.Transition(old(Model()), newState)
    {
      if current.Some? {
        trace := trace + [Exit(current.value)];
      }
      current := Some(newState);
      trace := trace + [Enter(newState)];
      assert Model() == Protocol.Transition(old(Model()), newState);
    }
  }
}
