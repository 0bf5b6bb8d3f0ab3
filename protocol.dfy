/**
 * A value model of StateMachine<TState>: every operation of the class as a function from
 * the machine's observable state before the call to its result and the state after it.
 * The class in module Machines is proved against these functions.
 */
module Protocol {
  import opened Wrappers
  import opened States

  /**
   * The observable state of one machine: the registry (registeredStatesMap, keyed by name),
   * Current (None while it is still null), and the hook calls made so far.
   */
  datatype Machine = Machine(registry: map<string, State>, current: Option<State>, trace: seq<Event>)

  /** The result of the private SetState: whether the transition happened, and the machine after it. */
  datatype Step = Step(ok: bool, next: Machine)

  /** Every registry key is the name of the state stored under it. */
  predicate KeyedByName(registry: map<string, State>) {
    forall name :: name in registry ==> registry[name].name == name
  }

  /** Completed activation spans: each state entered is exited next, before anything else is entered. */
  predicate Spans(trace: seq<Event>)
    decreases |trace|
  {
    trace == [] ||
    (|trace| >= 2 && trace[0].Enter? && trace[1] == Exit(trace[0].state) && Spans(trace[2..]))
  }

  /**
   * The hook calls so far are completed spans followed, once Current is set, by the open
   * span of Current: no hooks before the first transition, and Current was the last state entered.
   */
  predicate Bracketed(trace: seq<Event>, current: Option<State>) {
    match current
    case None => trace == []
    case Some(s) => |trace| >= 1 && trace[|trace| - 1] == Enter(s) && Spans(trace[..|trace| - 1])
  }

  /** What every reachable machine satisfies. */
  predicate Invariant(m: Machine) {
    KeyedByName(m.registry) && Bracketed(m.trace, m.current)
  }

  /** A freshly constructed machine: no states, Current null, no hooks called. */
  function Initial(): (m: Machine)
    ensures Invariant(m)
    ensures AllStates(m) == {} && m.current.None?
  {
    Machine(map[], None, [])
  }

  /**
   * Register: adds name |-> state when the name is free; a taken name raises
   * ArgumentException and the first entry stays.
   */
  function Register(m: Machine, s: State): (r: Result<Machine, Error>)
    ensures r.Failure? <==> s.name in m.registry
    ensures r.Failure? ==> r.error == DuplicateState(s.name)
    ensures r.Success? ==> r.value.registry.Keys == m.registry.Keys + {s.name} && r.value.registry[s.name] == s
    ensures r.Success? ==> forall name :: name in m.registry ==> r.value.registry[name] == m.registry[name]
    ensures r.Success? ==> r.value.current == m.current && r.value.trace == m.trace
    ensures r.Success? && KeyedByName(m.registry) ==> KeyedByName(r.value.registry)
  {
    if s.name in m.registry then Failure(DuplicateState(s.name))
    else Success(m.(registry := m.registry[s.name := s]))
  }

  /** Unregister: removes the entry of the state's name, if any; never fails and leaves Current alone. */
  function Unregister(m: Machine, s: State): (r: Machine)
    ensures r.registry.Keys == m.registry.Keys - {s.name}
    ensures forall name :: name in r.registry ==> r.registry[name] == m.registry[name]
    ensures s.name !in m.registry ==> r == m
    ensures r.current == m.current && r.trace == m.trace
    ensures KeyedByName(m.registry) ==> KeyedByName(r.registry)
  {
    m.(registry := m.registry - {s.name})
  }

  /** Get(name), and Get<T>() with the name of T: the registered state, or NotFoundException. */
  function Get(m: Machine, name: string): (r: Result<State, Error>)
    ensures r.Success? <==> name in m.registry
    ensures r.Failure? ==> r.error == NotFound(name)
    ensures r.Success? ==> r.value == m.registry[name]
    ensures r.Success? && KeyedByName(m.registry) ==> r.value.name == name
  {
    if name in m.registry then Success(m.registry[name]) else Failure(NotFound(name))
  }

  /**
   * The guards of SetState, given what CanExit of Current and CanEnter of the target answer
   * at this call. A safe transition is refused when the target has Current's name, when
   * Current may not be exited, or when the target may not be entered; with Current null
   * only the target's guard is read. An unsafe transition is never refused.
   */
  function Admits(current: Option<State>, target: State, safe: bool, g: Guards): (ok: bool)
    ensures !safe ==> ok
    ensures safe && current.Some? && current.value.name == target.name ==> !ok
    ensures safe && current.Some? && !g.currentCanExit ==> !ok
    ensures safe && !g.targetCanEnter ==> !ok
    ensures safe && current.None? ==> (ok <==> g.targetCanEnter)
    ensures safe && current.Some? && current.value.name != target.name && g.currentCanExit && g.targetCanEnter ==> ok
  {
    if safe then
      if current.Some? && current.value.name == target.name then false
      else if current.Some? && !g.currentCanExit then false
      else g.targetCanEnter
    else true
  }

  /**
   * Transition: exit the old Current (when there is one), make the target Current, enter it.
   * The exit comes before the enter, and the spans of the trace stay well nested.
   */
  function Transition(m: Machine, target: State): (r: Machine)
    ensures r.current == Some(target) && r.registry == m.registry
    ensures m.current.Some? ==> r.trace == m.trace + [Exit(m.current.value), Enter(target)]
    ensures m.current.None? ==> r.trace == m.trace + [Enter(target)]
    ensures Invariant(m) ==> Invariant(r)
  {
    var hooks := if m.current.Some? then [Exit(m.current.value), Enter(target)] else [Enter(target)];
    var r := Machine(m.registry, Some(target), m.trace + hooks);
    if Bracketed(m.trace, m.current) then TransitionKeepsBracketed(m, target); r else r
  }

  /** SetState: a transition either happens completely or, when refused, changes nothing at all. */
  function SetState(m: Machine, target: State, safe: bool, g: Guards): (r: Step)
    ensures r.ok <==> Admits(m.current, target, safe, g)
    ensures r.ok ==> r.next == Transition(m, target)
    ensures !r.ok ==> r.next == m
  {
    if Admits(m.current, target, safe, g) then Step(true, Transition(m, target)) else Step(false, m)
  }

  /**
   * Set(newState, safe): only the name of the argument must be registered; the transition is
   * to the argument itself, not to the state registered under its name.
   */
  function Set(m: Machine, target: State, safe: bool, g: Guards): (r: Result<Step, Error>)
    ensures target.name !in m.registry ==> r == Failure(NotFound(target.name))
    ensures target.name in m.registry ==> r.Success? && r.value == SetState(m, target, safe, g)
    ensures r.Success? && r.value.ok ==> r.value.next.current == Some(target)
  {
    if target.name !in m.registry then Failure(NotFound(target.name)) else Success(SetState(m, target, safe, g))
  }

  /**
   * Set<T>(safe) with the name of T: the transition is to the registered instance, whose
   * CanEnter is the one read.
   */
  function SetByName(m: Machine, name: string, safe: bool, g: Guards): (r: Result<Step, Error>)
    ensures name !in m.registry ==> r == Failure(NotFound(name))
    ensures name in m.registry ==> r.Success? && r.value == SetState(m, m.registry[name], safe, g)
    ensures r.Success? && r.value.ok ==> r.value.next.current == Some(m.registry[name])
  {
    match Get(m, name)
    case Failure(e) => Failure(e)
    case Success(s) => Success(SetState(m, s, safe, g))
  }

  /** IsActiveState(name): whether Current has that name; a NullReferenceException while Current is null. */
  function IsActiveState(m: Machine, name: string): (r: Result<bool, Error>)
    ensures r.Failure? <==> m.current.None?
    ensures r.Failure? ==> r.error == NullReference
    ensures r.Success? ==> (r.value <==> m.current.value.name == name)
  {
    match m.current
    case None => Failure(NullReference)
    case Some(c) => Success(c.name == name)
  }

  /** IsActiveState(state): the same question, asked with the state's name. */
  function IsActiveStateOf(m: Machine, s: State): (r: Result<bool, Error>)
    ensures m.current.None? ==> r == Failure(NullReference)
    ensures m.current.Some? ==> r == Success(m.current.value.name == s.name)
  {
    IsActiveState(m, s.name)
  }

  /** GetAllStates: the states in the registry, each one under its own name. */
  function AllStates(m: Machine): (r: set<State>)
    ensures forall name :: name in m.registry ==> m.registry[name] in r
    ensures KeyedByName(m.registry) ==> forall s :: s in r <==> s.name in m.registry && m.registry[s.name] == s
  {
    m.registry.Values
  }

  /** A registry keyed by name holds as many distinct states as it has keys. */
  lemma {:induction false} AllStatesCount(m: Machine)
    requires KeyedByName(m.registry)
    ensures |AllStates(m)| == |m.registry|
    decreases |m.registry|
  {
    if m.registry != map[] {
      var name :| name in m.registry;
      var rest := m.(registry := m.registry - {name});
      assert m.registry.Keys == rest.registry.Keys + {name};
      AllStatesCount(rest);
      assert AllStates(m) == AllStates(rest) + {m.registry[name]};
      assert m.registry[name] !in AllStates(rest);
    }
  }

  /** Closing the open span and opening a new one keeps the spans complete. */
  lemma {:induction false} SpansExtend(trace: seq<Event>, s: State)
    requires Spans(trace)
    ensures Spans(trace + [Enter(s), Exit(s)])
  {
    if trace != [] {
      SpansExtend(trace[2..], s);
      assert (trace + [Enter(s), Exit(s)])[2..] == trace[2..] + [Enter(s), Exit(s)];
    }
  }

  lemma TransitionKeepsBracketed(m: Machine, target: State)
    requires Bracketed(m.trace, m.current)
    ensures m.current.Some? ==> Bracketed(m.trace + [Exit(m.current.value), Enter(target)], Some(target))
    ensures m.current.None? ==> Bracketed(m.trace + [Enter(target)], Some(target))
  {
    if m.current.Some? {
      var t := m.trace + [Exit(m.current.value), Enter(target)];
      var open := m.trace[..|m.trace| - 1];
      SpansExtend(open, m.current.value);
      assert m.trace == open + [Enter(m.current.value)];
      assert t[..|t| - 1] == open + [Enter(m.current.value), Exit(m.current.value)];
    } else {
      assert (m.trace + [Enter(target)])[..0] == [];
    }
  }
}
