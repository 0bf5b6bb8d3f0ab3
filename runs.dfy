/**
 * Sequences of calls a client makes on one machine, and what holds along them. A call that
 * throws is caught by the client: the machine is left as it was before the call.
 */
module Runs {
  import opened Wrappers
  import opened States
  import opened Protocol

  /**
   * One public call on the machine (Get and the queries change nothing and are left out);
   * a Set carries what the guards answer during that call.
   */
  datatype Op =
    | RegisterOp(state: State)
    | UnregisterOp(state: State)
    | SetOp(state: State, safe: bool, guards: Guards)
    | SetByNameOp(name: string, safe: bool, guards: Guards)

  /** The machine after one call. */
  function Apply(m: Machine, op: Op): (r: Machine)
    ensures m.trace <= r.trace
    ensures m.current.Some? ==> r.current.Some?
    ensures !op.SetOp? && !op.SetByNameOp? ==> r.current == m.current && r.trace == m.trace
  {
    match op
    case RegisterOp(s) =>
      (match Register(m, s) case Success(next) => next case Failure(_) => m)
    case UnregisterOp(s) =>
      Unregister(m, s)
    case SetOp(s, safe, g) =>
      (match Set(m, s, safe, g) case Success(step) => step.next case Failure(_) => m)
    case SetByNameOp(name, safe, g) =>
      (match SetByName(m, name, safe, g) case Success(step) => step.next case Failure(_) => m)
  }

  /** Every call keeps the registry keyed by name and the hook calls well nested. */
  lemma ApplyKeepsInvariant(m: Machine, op: Op)
    requires Invariant(m)
    ensures Invariant(Apply(m, op))
  {
  }

  /** The machine after a sequence of calls. */
  function Run(m: Machine, ops: seq<Op>): Machine
    decreases |ops|
  {
    if ops == [] then m else Run(Apply(m, ops[0]), ops[1..])
  }

  /**
   * Along any run: the registry stays keyed by name, the hook calls stay well nested with
   * Current last entered, hooks once called stay in the trace, and once Current is set it
   * is never null again (the machine goes from uninitialised to active and stays active).
   */
  lemma {:induction false} RunKeepsInvariant(m: Machine, ops: seq<Op>)
    requires Invariant(m)
    ensures Invariant(Run(m, ops))
    ensures m.trace <= Run(m, ops).trace
    ensures m.current.Some? ==> Run(m, ops).current.Some?
    decreases |ops|
  {
    if ops != [] {
      ApplyKeepsInvariant(m, ops[0]);
      RunKeepsInvariant(Apply(m, ops[0]), ops[1..]);
    }
  }

  /** The states of a sequence, as a set. */
  function Elements(states: seq<State>): (r: set<State>)
    ensures forall s :: s in r <==> s in states
  {
    if states == [] then {} else {states[0]} + Elements(states[1..])
  }

  /** The calls Register(states[0]), Register(states[1]), ... in order. */
  function Registrations(states: seq<State>): (ops: seq<Op>)
    ensures |ops| == |states|
    ensures forall i :: 0 <= i < |states| ==> ops[i] == RegisterOp(states[i])
  {
    if states == [] then [] else [RegisterOp(states[0])] + Registrations(states[1..])
  }

  /**
   * Registering states with distinct names that are not yet registered adds exactly those
   * states to GetAllStates, and neither calls a hook nor touches Current.
   */
  lemma {:induction false} RegisteringDistinctNames(m: Machine, states: seq<State>)
    requires KeyedByName(m.registry)
    requires forall i, j :: 0 <= i < j < |states| ==> states[i].name != states[j].name
    requires forall i :: 0 <= i < |states| ==> states[i].name !in m.registry
    ensures AllStates(Run(m, Registrations(states))) == AllStates(m) + Elements(states)
    ensures Run(m, Registrations(states)).current == m.current
    ensures Run(m, Registrations(states)).trace == m.trace
    decreases |states|
  {
    if states != [] {
      var first, rest := states[0], states[1..];
      var next := Register(m, first).value;
      RegisterAddsState(m, first);
      RemainingNamesFree(m, states);
      assert Run(m, Registrations(states)) == Run(next, Registrations(rest)) by {
        assert Registrations(states)[0] == RegisterOp(first);
        assert Registrations(states)[1..] == Registrations(rest);
      }
      RegisteringDistinctNames(next, rest);
      assert Elements(states) == {first} + Elements(rest);
    }
  }

  /** After the first of them is registered, the other names are still distinct and free. */
  lemma RemainingNamesFree(m: Machine, states: seq<State>)
    requires states != [] && states[0].name !in m.registry
    requires forall i, j :: 0 <= i < j < |states| ==> states[i].name != states[j].name
    requires forall i :: 0 <= i < |states| ==> states[i].name !in m.registry
    ensures var next, rest := Register(m, states[0]).value, states[1..];
      (forall i :: 0 <= i < |rest| ==> rest[i].name !in next.registry) &&
      (forall i, j :: 0 <= i < j < |rest| ==> rest[i].name != rest[j].name)
  {
  }

  /** Registering a state under a free name adds exactly that state to GetAllStates. */
  lemma RegisterAddsState(m: Machine, s: State)
    requires KeyedByName(m.registry) && s.name !in m.registry
    ensures Apply(m, RegisterOp(s)) == Register(m, s).value
    ensures AllStates(Register(m, s).value) == AllStates(m) + {s}
  {
  }

  /** From a new machine: registering states with distinct names makes GetAllStates exactly those states. */
  lemma RegisteringIntoNewMachine(states: seq<State>)
    requires forall i, j :: 0 <= i < j < |states| ==> states[i].name != states[j].name
    ensures AllStates(Run(Initial(), Registrations(states))) == Elements(states)
    ensures Run(Initial(), Registrations(states)).current.None?
  {
    RegisteringDistinctNames(Initial(), states);
  }

  /** Re-setting the active state safely is refused without any hook call. */
  lemma SafeSetOfActiveStateIsRefused(m: Machine, name: string, g: Guards)
    requires KeyedByName(m.registry)
    requires m.current.Some? && m.current.value.name == name && name in m.registry
    ensures Set(m, m.registry[name], true, g) == Success(Step(false, m))
    ensures SetByName(m, name, true, g) == Success(Step(false, m))
  {
  }

  /** Re-setting the active state unsafely exits it and enters it again. */
  lemma UnsafeSetOfActiveStateReenters(m: Machine, g: Guards)
    requires m.current.Some? && m.current.value.name in m.registry
    ensures Set(m, m.current.value, false, g)
         == Success(Step(true, m.(trace := m.trace + [Exit(m.current.value), Enter(m.current.value)])))
  {
  }

  /**
   * Unregistering the active state does not clear Current: it is still reported active,
   * though GetAllStates no longer holds it.
   */
  lemma UnregisterKeepsCurrentActive(m: Machine)
    requires Invariant(m) && m.current.Some?
    ensures var r := Unregister(m, m.current.value);
      r.current == m.current && m.current.value !in AllStates(r)
      && IsActiveState(r, m.current.value.name) == Success(true)
  {
  }

  /**
   * The guards are read at each call: a safe Set refused because Current may not be exited
   * goes ahead when it is tried again once Current's CanExit answers true.
   */
  lemma RefusedNowAdmittedLater(m: Machine, target: State, now: Guards, later: Guards)
    requires Invariant(m) && m.current.Some? && target.name in m.registry
    requires m.current.value.name != target.name
    requires !now.currentCanExit && later.currentCanExit && later.targetCanEnter
    ensures Set(m, target, true, now) == Success(Step(false, m))
    ensures var r := Set(m, target, true, later);
      r.Success? && r.value.ok && r.value.next.current == Some(target)
      && r.value.next.trace == m.trace + [Exit(m.current.value), Enter(target)]
  {
  }

  /**
   * Two runs from the same machine with the same calls but different guard answers end
   * with different Current: a state that refused to be left can be left later.
   */
  lemma {:induction false} LeavingAfterRefusal(m: Machine, target: State, now: Guards, later: Guards)
    requires Invariant(m) && m.current.Some? && target.name in m.registry
    requires m.current.value.name != target.name
    requires !now.currentCanExit && later.currentCanExit && later.targetCanEnter
    ensures Run(m, [SetOp(target, true, now)]).current == m.current
    ensures Run(m, [SetOp(target, true, now), SetOp(target, true, later)]).current == Some(target)
  {
    var op1, op2 := SetOp(target, true, now), SetOp(target, true, later);
    assert Apply(m, op1) == m by {
      assert Set(m, target, true, now) == Success(Step(false, m));
    }
    RunFirst(m, op1, []);
    RunFirst(m, op1, [op2]);
    RunFirst(m, op2, []);
  }

  /** Running a first call and then the rest. */
  lemma RunFirst(m: Machine, op: Op, ops: seq<Op>)
    ensures Run(m, [op] + ops) == Run(Apply(m, op), ops)
  {
  }

  /**
   * Register(s), Set(s), Unregister(s) leaves Current set to s, which is no longer
   * registered: Current need not be a registered state.
   */
  lemma CurrentNotAlwaysRegistered(s: State, g: Guards)
    requires g.targetCanEnter
    ensures var r := Run(Initial(), [RegisterOp(s), SetOp(s, true, g), UnregisterOp(s)]);
      r.current == Some(s) && s !in AllStates(r)
  {
    var m1 := Machine(map[s.name := s], None, []);
    var m2 := Machine(map[s.name := s], Some(s), [Enter(s)]);
    var m3 := Machine(map[], Some(s), [Enter(s)]);
    assert Apply(Initial(), RegisterOp(s)) == m1 by {
      assert Register(Initial(), s) == Success(m1);
    }
    assert Apply(m1, SetOp(s, true, g)) == m2 by {
      assert Set(m1, s, true, g) == Success(Step(true, m2));
    }
    assert Apply(m2, UnregisterOp(s)) == m3 by {
      assert Unregister(m2, s) == m3;
    }
    RunFirst(m2, UnregisterOp(s), []);
    RunFirst(m1, SetOp(s, true, g), [UnregisterOp(s)]);
    RunFirst(Initial(), RegisterOp(s), [SetOp(s, true, g), UnregisterOp(s)]);
  }

  /**
   * Register(s), then Set(t) with a state t of the same name: Set activates its argument, so
   * Current is t while the registry still holds s under that name.
   */
  lemma CurrentNotAlwaysTheRegisteredInstance(s: State, t: State, g: Guards)
    requires s.name == t.name && s != t && g.targetCanEnter
    ensures var r := Run(Initial(), [RegisterOp(s), SetOp(t, true, g)]);
      r.current == Some(t) && t.name in r.registry && r.registry[t.name] == s && t !in AllStates(r)
  {
    var m1 := Machine(map[s.name := s], None, []);
    var m2 := Machine(map[s.name := s], Some(t), [Enter(t)]);
    assert Apply(Initial(), RegisterOp(s)) == m1 by {
      assert Register(Initial(), s) == Success(m1);
    }
    assert Apply(m1, SetOp(t, true, g)) == m2 by {
      assert Set(m1, t, true, g) == Success(Step(true, m2));
    }
    RunFirst(m1, SetOp(t, true, g), []);
    RunFirst(Initial(), RegisterOp(s), [SetOp(t, true, g)]);
  }
}
