# StateMachine — a verified Dafny model

`StateMachine<TState>` is a generic finite-state container. It keeps a registry of named
states (a dictionary from each state's `Name` to the state) and a single `Current` state,
which is null until the first successful transition. A transition to a target state is
either *safe* or *unsafe*:

- A safe transition is refused, with the result `false` and no other effect, when Current
  has the target's name, when Current's `CanExit` is false, or when the target's `CanEnter`
  is false. While Current is null, only the target's `CanEnter` is read.
- An unsafe transition reads no guard.
- A transition that goes ahead calls `Exit` on the old Current (if there is one), makes the
  target Current, calls `Enter` on it, and returns `true`.

Registering a name twice raises `ArgumentException`. Looking up or setting an unknown name
raises `NotFoundException`.

The model has five files:

- `wrappers.dfy`: `Option` (a reference that may be null), and `Result` and `Outcome` (a
  normal return or the exception raised).
- `states.dfy`: a state object as the value `State(name, id)`, where `id` tells apart
  distinct objects that share a name. `CanExit` and `CanEnter` are read anew at every
  transition, so their answers at a call are an input, `Guards(currentCanExit,
  targetCanEnter)`. The calls the machine makes to `Enter` and `Exit` are recorded as
  `Event`s. `Error` lists the exceptions.
- `protocol.dfy` (module `Protocol`): the machine's observable state as the value
  `Machine(registry, current, trace)`, where `trace` is the list of hook calls so far. Each
  operation of the class is a function of that value, and its contract states the effect.
  The invariant `Invariant` says two things. The registry is keyed by each state's own
  name. The hook calls are well nested: each state entered is exited before the next one is
  entered, and Current is the state entered last.
- `machine.dfy` (module `Machines`): the class `StateMachine`. Its `registry` and `current`
  fields are updated in place by its methods, and its hook calls go to a ghost `trace`
  field. Every method keeps `Valid()` and is proved to have exactly the effect of its
  `Protocol` function.
- `runs.dfy` (module `Runs`): sequences of calls made by a client, where an exception is
  caught and leaves the machine as it was. It proves what holds along every run, and it
  exhibits runs after which Current is not the state registered under its name.

### Where the code differs from what one might expect

- One might expect Current to be always unset or a registered state. The code does not
  keep this:
  - `Unregister` never clears Current (`StateMachine/Core/StateMachine.cs:27`), so the
    removed state is still reported active.
  - `Set(newState)` checks only that the *name* is registered, and then activates the
    argument object itself (`StateMachine/Core/StateMachine.cs:54-61`), which may differ
    from the registered state.

  `Runs.CurrentNotAlwaysRegistered` and `Runs.CurrentNotAlwaysTheRegisteredInstance`
  prove both cases.
- One might expect `IsActiveState` to answer false while nothing is active. The code
  dereferences `Current` with no null check (`StateMachine/Core/StateMachine.cs:64`), so it throws a
  `NullReferenceException` there. The model returns `Failure(NullReference)`.

## Model

| member | source | states |
|---|---|---|
| Protocol.Initial | StateMachine/Core/StateMachine.cs:11-13 | a new machine has no states and no Current, has called no hooks, and satisfies the invariant |
| Protocol.Register | StateMachine/Core/StateMachine.cs:16-25 | fails with DuplicateState exactly when the name is already a key; otherwise adds exactly the entry name ↦ state, keeps every other entry, Current and the hooks, and keeps the registry keyed by name |
| Protocol.Unregister | StateMachine/Core/StateMachine.cs:27 | the keys become the old keys minus the state's name and the other entries are kept; a no-op when the name is absent; never fails; Current and hooks are untouched |
| Protocol.Get | StateMachine/Core/StateMachine.cs:82-88 | succeeds exactly when the name is a key, with the registered state, which carries that name; otherwise NotFound(name) |
| Protocol.Admits | StateMachine/Core/StateMachine.cs:68-76 | given what CanExit of Current and CanEnter of the target answer at this call: an unsafe transition is always admitted; a safe one is refused if the target has Current's name, if Current's CanExit answers false, or if the target's CanEnter answers false; with no Current only CanEnter decides; with all guards passing it is admitted |
| Protocol.Transition | StateMachine/Core/StateMachine.cs:90-94 | Current becomes the target and the registry is unchanged; the hooks appended are Exit(old Current), when there is one, then Enter(target); the invariant is kept |
| Protocol.TransitionKeepsBracketed | StateMachine/Core/StateMachine.cs:90-94 | exiting the open span and entering the target keeps the hook calls well nested, with the target entered last |
| Protocol.SetState | StateMachine/Core/StateMachine.cs:68-80 | returns true exactly when the guard answers read at this call admit the transition, and then performs it; when refused, the machine is left exactly as it was |
| Protocol.Set | StateMachine/Core/StateMachine.cs:53-62 | an unregistered name fails with NotFound and changes nothing; otherwise it is SetState on the argument, so a successful call makes the argument itself Current |
| Protocol.SetByName | StateMachine/Core/StateMachine.cs:41-44 | an unregistered name fails with NotFound and changes nothing; otherwise it is SetState on the registered instance, which becomes Current on success |
| Protocol.IsActiveState | StateMachine/Core/StateMachine.cs:64 | fails with NullReference exactly when there is no Current; otherwise true exactly when Current has the given name |
| Protocol.IsActiveStateOf | StateMachine/Core/StateMachine.cs:65 | the same answer as IsActiveState on the state's name |
| Protocol.AllStates | StateMachine/Core/StateMachine.cs:66 | holds every registered state; with the registry keyed by name, a state is in it exactly when it is registered under its own name |
| Protocol.AllStatesCount | StateMachine/Core/StateMachine.cs:66 | with the registry keyed by name, the states enumerated are as many as the registry's entries (no two entries share a state) |
| Machines.StateMachine.constructor | StateMachine/Core/StateMachine.cs:11-13 | a new machine is valid and equals Protocol.Initial |
| Machines.StateMachine.Register | StateMachine/Core/StateMachine.cs:16-25 | updates the registry field in place exactly as Protocol.Register; on a duplicate it returns the error and the machine is unchanged |
| Machines.StateMachine.Unregister | StateMachine/Core/StateMachine.cs:27 | removes the entry in place exactly as Protocol.Unregister; Current is untouched |
| Machines.StateMachine.Get | StateMachine/Core/StateMachine.cs:82-88 | returns exactly Protocol.Get of the current fields |
| Machines.StateMachine.SetByName | StateMachine/Core/StateMachine.cs:41-44 | looks the name up and delegates to SetState with the registered instance; result and new state as Protocol.SetByName, unchanged on NotFound |
| Machines.StateMachine.Set | StateMachine/Core/StateMachine.cs:53-62 | checks the name is registered and delegates to SetState with the argument; result and new state as Protocol.Set, unchanged on NotFound |
| Machines.StateMachine.IsActiveState | StateMachine/Core/StateMachine.cs:64 | returns exactly Protocol.IsActiveState of the current fields |
| Machines.StateMachine.IsActiveStateOf | StateMachine/Core/StateMachine.cs:65 | returns exactly Protocol.IsActiveStateOf of the current fields |
| Machines.StateMachine.GetAllStates | StateMachine/Core/StateMachine.cs:66 | returns exactly Protocol.AllStates of the current fields |
| Machines.StateMachine.SetState | StateMachine/Core/StateMachine.cs:68-80 | checks the name, then Current's CanExit answer, then the target's CanEnter answer, in the source's order; result and new state as Protocol.SetState, and the machine stays valid |
| Machines.StateMachine.Transition | StateMachine/Core/StateMachine.cs:90-94 | exits the old Current, assigns Current, enters the target, in that order, as Protocol.Transition; the machine stays valid |
| Runs.Apply | StateMachine/Core/StateMachine.cs:16-62 | a call never removes hook calls already made and never makes Current null again; Register and Unregister call no hook and leave Current alone |
| Runs.ApplyKeepsInvariant | StateMachine/Core/StateMachine.cs:16-62 | every call, including one that throws, keeps the registry keyed by name and the hooks well nested |
| Runs.RunKeepsInvariant | StateMachine/Core/StateMachine.cs:16-94 | along any sequence of calls the invariant holds, the trace only grows, and once Current is set it stays set |
| Runs.RegisteringDistinctNames | StateMachine/Core/StateMachine.cs:16-25 | registering states whose names are distinct and free adds exactly those states to GetAllStates, with no hook call and Current unchanged |
| Runs.RegisteringIntoNewMachine | StateMachine/Core/StateMachine.cs:16-25 | on a new machine, after registering states with distinct names, GetAllStates is exactly that set and Current is still null |
| Runs.SafeSetOfActiveStateIsRefused | StateMachine/Core/StateMachine.cs:69-71 | a safe Set or Set<T> of the active state returns false and leaves the machine, hooks included, unchanged |
| Runs.UnsafeSetOfActiveStateReenters | StateMachine/Core/StateMachine.cs:68-94 | an unsafe Set of the active state returns true and calls Exit and then Enter on it |
| Runs.RefusedNowAdmittedLater | StateMachine/Core/StateMachine.cs:68-80 | a safe Set refused because Current's CanExit answers false changes nothing; the same Set once CanExit answers true (and the target's CanEnter too) goes ahead, exiting Current and entering the target |
| Runs.LeavingAfterRefusal | StateMachine/Core/StateMachine.cs:68-80 | a run that retries a refused safe Set after Current's CanExit turns true ends with the target as Current, so a state that once refused to exit can still be left |
| Runs.UnregisterKeepsCurrentActive | StateMachine/Core/StateMachine.cs:27 | unregistering the active state removes it from GetAllStates, but it stays Current and IsActiveState still answers true |
| Runs.CurrentNotAlwaysRegistered | StateMachine/Core/StateMachine.cs:27 | after Register(s), Set(s) and Unregister(s), Current is s but s is not among the registered states |
| Runs.CurrentNotAlwaysTheRegisteredInstance | StateMachine/Core/StateMachine.cs:53-61 | after Register(s) and Set(t), where t has s's name, Current is t while the registry still holds s under that name |

## Left out

- The bodies of `Enter` and `Exit`, and how `CanEnter` and `CanExit` are computed. These belong to the caller's state objects. A call to a hook is recorded as an event. What a guard answers at a call is an input of that call.
- Object identity is an `id` number in the state value. Other data a state object holds, and changes made to it through other references, are not modelled.
- Hooks and guards are assumed to return normally and not to call back into the machine. In the source, an `Exit` that throws leaves the old Current in place after Exit was called. An `Enter` that throws leaves the target as Current. A hook that calls `Set` interleaves a second transition with the first one. All of these are partial transitions, which the all-or-nothing contract of `Protocol.SetState` and the well-nested trace of `Runs.RunKeepsInvariant` do not cover.
- A state's `Name` is assumed never to be null. A null name makes `Register`, `Unregister` and `Set` throw `ArgumentNullException` from the dictionary.
- Reflection (`typeof(T).Name`). `Get<T>` and `Set<T>` are modelled as taking the name directly. This relies on the convention that a state's `Name` is its type's name.
- The cast `(T)` in `Get<T>`. It could fail if a state of another type were registered under T's name. `Get<T>` is modelled as the private `Get(name)`.
- Null arguments. A null state passed to `Register`, `Unregister`, `Set` or `IsActiveState(TState)` raises `NullReferenceException` in the source. States are never null here.
- The `IEnumerable` plumbing (`GetEnumerator`) and the live, unordered `Values` view. `GetAllStates` is the set of registry values, and enumeration order is unspecified in the source anyway.
- The `startCapacity` constructor hint, exception messages and `ToString()`. None of them affects behaviour.
- Concurrency. The class has no locking, and calls are modelled one after another.
