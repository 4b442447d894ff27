/** Vocabulary shared by the directory facade and the per-kind transition
    engine. The engine itself is not part of this model: what the facade
    needs of it is collected in the `Engine` record at the end. */
module FsmTypes {

  /** An opaque state label, compared by value. */
  type State = string

  /** The key under which a kind of entity is registered: Go's
      `reflect.Type` of the entity. Only equality matters. */
  datatype TypeTag = TypeTag(name: string)

  /** Opaque identity of a guard or callback function supplied by the
      embedding application. */
  type HookRef = nat

  datatype Option<+T> = None | Some(value: T)

  /** One event definition handed to `Register`. */
  datatype EventTransition = EventTransition(
    name: string,
    from: seq<State>,
    to: State,
    guards: seq<HookRef>,
    before: Option<HookRef>,
    after: Option<HookRef>)

  /** The per-kind machine, as the value built from the `(column, events)`
      pair given at registration. */
  datatype Machine = Machine(column: string, events: seq<EventTransition>)

  /** The error values a facade call can return. Only `InternalError` is
      produced by the facade; the others come from the engine.
      `PropagatedError` is any error a guard or callback returned, passed
      on as it is; `id` stands for that opaque error value. */
  datatype Error =
    | InternalError
    | UnknownEventError(event: string)
    | InvalidTransitionError(event: string, state: State)
    | PropagatedError(id: nat)

  /** A Go `error` result: `Ok` is nil. */
  datatype Outcome = Ok | Fail(error: Error)

  /** The recognised call option. */
  datatype FireOption = SkipGuard(skip: bool)

  /** What a `Fire` call leaves behind: the entity after the call (the
      engine updates its state field in place) and the returned error. */
  datatype Fired<I> = Fired(instance: I, err: Outcome)

  /** The observable results of the engine's operations on one machine,
      taken as given: the facade passes its arguments to these unchanged. */
  datatype Engine<-C, !I> = Engine(
    fire: (Machine, C, I, string) -> Fired<I>,
    mayFire: (Machine, C, I, string, seq<FireOption>) -> (bool, Outcome),
    permittedEvents: (Machine, C, I, seq<FireOption>) -> (seq<string>, Outcome),
    permittedStates: (Machine, C, I, seq<FireOption>) -> (seq<State>, Outcome))
}
