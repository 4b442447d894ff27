# Directory facade of an embeddable finite-state-machine engine

The engine governs the lifecycle of application entities. Each kind of
entity has its own machine, which is built from the name of the entity's
state field (`column`) and a list of event transitions. The directory `FSM`
holds one table, `machines`, from a kind's type tag to that kind's machine.
It offers six operations:

- `NewFSM` creates a directory with nothing registered.
- `Register` stores a machine under a tag. The last write wins and the call returns nil.
- `Fire`, `MayFire`, `GetPermittedEvents` and `GetPermittedStates` each look up
  the tag of the entity they are given.
  - If nothing is registered under that tag, they return `InternalError` with zero-valued results.
  - Otherwise they pass the call, with its arguments unchanged, to the stored machine.

Files:

- `fsm_types.dfy` (module `FsmTypes`) holds the shared vocabulary:
  - states, type tags, event transitions, the `Machine` value, errors and options;
  - the `Engine` record, which stands for the per-kind machine's operations.
- `fsm_instance.dfy` (module `FsmInstance`) holds:
  - the class `FSM`, whose `machines` field is a `map` updated in place;
  - `NewFSM` as the class's constructor and `Register` as a method with `modifies this`;
  - the four dispatch operations as functions that read the current table;
  - `Replay`, the table left by a sequence of `Register` calls, and lemmas
    that tie the dispatch results to the registrations that came before.

Some things the directory calls are outside this model. They become
parameters of the dispatch functions:

- `typeOf: I -> TypeTag` stands for the runtime type of an entity.
- `eng: Engine<C, I>` stands for the results of the machine's own `Fire`,
  `MayFire`, `GetPermittedEvents` and `GetPermittedStates`.
- The context value is an opaque `C`.

Two modelling choices:

- The engine's `Fire` changes the entity's state field in place. The model
  returns the entity after the call, in `Fired(instance, err)`. This makes it
  possible to state that an unregistered kind leaves the entity untouched.
- A Go error is `Outcome`. Its `Ok` case stands for `nil`.

## Model

| member | source | states |
|---|---|---|
| `FsmInstance.FSM.constructor` | fsm_instance.go:13-17 | `NewFSM`: the new directory's `machines` table is empty, which is `Replay([])`; no tag is registered |
| `FsmInstance.FSM.Register` | fsm_instance.go:20-23 | returns `Ok` (nil) for any tag, column and event list; afterwards the entry for `tag` is the machine built from `(column, events)`, replacing any earlier one; the key set grows by exactly `tag`; every other entry is unchanged; a table that is `Replay(regs)` becomes `Replay(regs + [this registration])` |
| `FsmInstance.FSM.Fire` | fsm_instance.go:26-33 | unregistered kind: returns `InternalError` and the entity is left as it was (nothing is delegated); registered kind: returns exactly the stored machine's `Fire` result for the same context, entity and event |
| `FsmInstance.FSM.MayFire` | fsm_instance.go:36-43 | unregistered kind: `(false, InternalError)`; registered kind: exactly the stored machine's `MayFire` result for the same context, entity, event and options |
| `FsmInstance.FSM.GetPermittedEvents` | fsm_instance.go:46-53 | unregistered kind: (nil, `InternalError`); registered kind: exactly the stored machine's result for the same context, entity and options |
| `FsmInstance.FSM.GetPermittedStates` | fsm_instance.go:56-63 | unregistered kind: (nil, `InternalError`); registered kind: exactly the stored machine's result for the same context, entity and options |
| `FsmInstance.Replay` | fsm_instance.go:13-22 | the table after `NewFSM` and then a sequence of `Register` calls has exactly the registered tags as keys |
| `FsmInstance.ReplayStep` | fsm_instance.go:21 | each further `Register` call is one map update at its tag, as `Register`'s postcondition says |
| `FsmInstance.ReplayLastWriteWins` | fsm_instance.go:21 | after any sequence of registrations, a tag's entry is the machine built from its last registration's column and events |
| `FsmInstance.ReplayFrame` | fsm_instance.go:21 | registrations of other tags leave a tag's entry, or its absence, as it was |
| `FsmInstance.ReRegisterReplaces` | fsm_instance.go:21 | registering a tag twice in a row gives the same table as the second registration alone; the first machine is discarded |
| `FsmInstance.UnregisteredDispatch` | fsm_instance.go:26-63 | if no registration names the entity's tag, all four calls return `InternalError` with zero-valued results, and `Fire` leaves the entity unchanged |
| `FsmInstance.RegisteredDispatch` | fsm_instance.go:26-63 | if a tag was registered, all four calls return exactly what the machine of the tag's last registration returns for the same arguments |
| `FsmInstance.RegisterOtherKeepsDispatch` | fsm_instance.go:20-63 | routing is local: registering a different tag leaves the entry the four calls look up for an entity (fsm_instance.go:27, 37, 47, 57), or its absence, as it was |
| `FsmInstance.RegisterTwiceThenFire` | fsm_instance.go:13-33 | a caller that runs `NewFSM`, registers one kind twice and then calls `Fire` on an entity of that kind gets exactly the result of the second registration's machine |

The four dispatch operations are functions that only read `machines`, so
none of them can change the table. Only `Register` has a `modifies` clause.

`Register` returns nil unconditionally (fsm_instance.go:22). Any failure
while building the machine, such as duplicate event names, would happen
inside `newFSM`, which is not part of this model.

## Left out

- The transition engine is not part of this model. That covers the `fsm` type, `newFSM`, source-state checks, guard evaluation order, before and after callbacks, committing the new state, and the `UnknownEvent` and `InvalidTransition` errors. Its four operations appear only as the opaque `Engine` record.
- Model limit: a `Machine` is only the `(column, events)` pair it is built from. Two registrations with equal arguments therefore give equal machines. The code allocates a distinct `*fsm` each time. Any state that `*fsm` holds, such as a per-instance lock table, starts afresh on re-registration; the model does not capture that. The difference cannot be seen through the four modelled calls only because the engine is taken to be a function of its arguments.
- Guards and callbacks inside an event transition are opaque handles (`HookRef`). Their behaviour belongs to the engine.
- The per-instance lock registry and `Release` are not part of this model. Their concern is concurrency.
- The runtime type lookup is replaced by the `typeOf` parameter. The Go context value is replaced by an opaque type parameter.
- Concurrent access to the unsynchronized `machines` map is out of scope. The model is sequential.
- Model limit: Go's nil slice is modelled as the empty sequence. A Go caller can tell them apart (`== nil`, or JSON encoding as `null` versus `[]`); the model cannot.
- Variadic options are modelled as a sequence, passed on unchanged.
- The zero value of the exported `FSM` type (`var d FSM` or `&FSM{}`) has a nil `machines` map. `Register` on it panics at fsm_instance.go:21, while the four dispatch calls return `InternalError`. The Dafny `FSM` can only be built by its constructor, so this case is not modelled.
- Model limit: the `Engine` results depend only on the machine and the call's own arguments, never on the directory. Guards and callbacks that call back into the directory (an after-callback that fires another entity) are therefore not covered.
- RegisterOtherKeepsDispatch: states only that the lookup for the entity is unchanged, not that the four calls give the same results. A hook on the entity's machine can call back into the directory. Such a hook may then see the newly registered kind and return a different error.
