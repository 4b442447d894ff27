/** The directory facade: a table from an entity kind's type tag to the
    machine registered for that kind, and the four calls that route an
    entity to its kind's machine. */
module FsmInstance {
  import opened FsmTypes

  type Table = map<TypeTag, Machine>

  class FSM {
    var machines: Table

    /** NewFSM: a directory with no kind registered. */
    constructor ()
      ensures machines == map[]
      ensures machines == Replay([])
      ensures forall tag :: tag !in machines
    {
      machines := map[];
    }

    /** Stores the machine built from `(column, events)` under `tag`,
        replacing any earlier one; always returns `Ok` (nil). */
    method Register(tag: TypeTag, column: string, events: seq<EventTransition>) returns (err: Outcome)
      modifies this
      ensures err == Ok
      ensures machines == old(machines)[tag := Machine(column, events)]
      ensures tag in machines && machines[tag] == Machine(column, events)
      ensures machines.Keys == old(machines).Keys + {tag}
      ensures forall t :: t in old(machines) && t != tag ==> machines[t] == old(machines)[t]
      ensures forall regs :: old(machines) == Replay(regs) ==>
                machines == Replay(regs + [Registration(tag, column, events)])
    {
      machines := machines[tag := Machine(column, events)];
      err := Ok;
      forall regs | old(machines) == Replay(regs)
        ensures machines == Replay(regs + [Registration(tag, column, events)])
      {
        ReplayStep(regs, Registration(tag, column, events));
      }
    }

    /** Fires `event` on `s` with the machine of `s`'s kind. */
    function Fire<C, I>(typeOf: I -> TypeTag, eng: Engine<C, I>, ctx: C, s: I, event: string): (r: Fired<I>)
      reads this
      ensures typeOf(s) !in machines ==> r.err == Fail(InternalError) && r.instance == s
      ensures typeOf(s) in machines ==> r == eng.fire(machines[typeOf(s)], ctx, s, event)
    {
      var tag := typeOf(s);
      if tag !in machines then Fired(s, Fail(InternalError))
      else eng.fire(machines[tag], ctx, s, event)
    }

    /** Asks the machine of `s`'s kind whether `event` may fire. */
    function MayFire<C, I>(typeOf: I -> TypeTag, eng: Engine<C, I>, ctx: C, s: I, event: string,
                           options: seq<FireOption>): (r: (bool, Outcome))
      reads this
      ensures typeOf(s) !in machines ==> !r.0 && r.1 == Fail(InternalError)
      ensures typeOf(s) in machines ==> r == eng.mayFire(machines[typeOf(s)], ctx, s, event, options)
    {
      var tag := typeOf(s);
      if tag !in machines then (false, Fail(InternalError))
      else eng.mayFire(machines[tag], ctx, s, event, options)
    }

    /** The events the machine of `s`'s kind permits from `s`'s state. */
    function GetPermittedEvents<C, I>(typeOf: I -> TypeTag, eng: Engine<C, I>, ctx: C, s: I,
                                      options: seq<FireOption>): (r: (seq<string>, Outcome))
      reads this
      ensures typeOf(s) !in machines ==> r.0 == [] && r.1 == Fail(InternalError)
      ensures typeOf(s) in machines ==> r == eng.permittedEvents(machines[typeOf(s)], ctx, s, options)
    {
      var tag := typeOf(s);
      if tag !in machines then ([], Fail(InternalError))
      else eng.permittedEvents(machines[tag], ctx, s, options)
    }

    /** The states the machine of `s`'s kind permits from `s`'s state. */
    function GetPermittedStates<C, I>(typeOf: I -> TypeTag, eng: Engine<C, I>, ctx: C, s: I,
                                      options: seq<FireOption>): (r: (seq<State>, Outcome))
      reads this
      ensures typeOf(s) !in machines ==> r.0 == [] && r.1 == Fail(InternalError)
      ensures typeOf(s) in machines ==> r == eng.permittedStates(machines[typeOf(s)], ctx, s, options)
    {
      var tag := typeOf(s);
      if tag !in machines then ([], Fail(InternalError))
      else eng.permittedStates(machines[tag], ctx, s, options)
    }
  }

  /** One `Register` call's arguments. */
  datatype Registration = Registration(tag: TypeTag, column: string, events: seq<EventTransition>)

  /** The table a directory holds after `NewFSM` followed by `Register` for
      each element of `regs` in order: each step is the update that
      `Register`'s postcondition states. */
  function Replay(regs: seq<Registration>): (t: Table)
    ensures forall tag :: tag in t <==> exists i :: 0 <= i < |regs| && regs[i].tag == tag
  {
    if regs == [] then map[]
    else
      var last := regs[|regs| - 1];
      var t := Replay(regs[..|regs| - 1]);
      assert forall i :: 0 <= i < |regs| - 1 ==> regs[..|regs| - 1][i] == regs[i];
      t[last.tag := Machine(last.column, last.events)]
  }

  /** `i` is the last registration of `tag` in `regs`. */
  ghost predicate IsLastFor(regs: seq<Registration>, tag: TypeTag, i: int) {
    && 0 <= i < |regs|
    && regs[i].tag == tag
    && forall j :: i < j < |regs| ==> regs[j].tag != tag
  }

  /** One more `Register` call is one more map update. */
  lemma ReplayStep(regs: seq<Registration>, r: Registration)
    ensures Replay(regs + [r]) == Replay(regs)[r.tag := Machine(r.column, r.events)]
  {
  }

  /** Last write wins: the entry for a tag is the machine of its last
      registration. */
  lemma {:induction false} ReplayLastWriteWins(regs: seq<Registration>, tag: TypeTag, i: int)
    requires IsLastFor(regs, tag, i)
    ensures tag in Replay(regs)
    ensures Replay(regs)[tag] == Machine(regs[i].column, regs[i].events)
  {
    var n := |regs| - 1;
    var prefix := regs[..n];
    assert regs == prefix + [regs[n]];
    ReplayStep(prefix, regs[n]);
    if i < n {
      assert IsLastFor(prefix, tag, i);
      ReplayLastWriteWins(prefix, tag, i);
    }
  }

  /** Registrations of other tags leave a tag's entry, or its absence,
      as it was. */
  lemma {:induction false} ReplayFrame(earlier: seq<Registration>, later: seq<Registration>, tag: TypeTag)
    requires forall j :: 0 <= j < |later| ==> later[j].tag != tag
    ensures tag in Replay(earlier + later) <==> tag in Replay(earlier)
    ensures tag in Replay(earlier) ==> Replay(earlier + later)[tag] == Replay(earlier)[tag]
  {
    if later != [] {
      var n := |later| - 1;
      assert earlier + later == (earlier + later[..n]) + [later[n]];
      ReplayStep(earlier + later[..n], later[n]);
      assert forall j :: 0 <= j < n ==> later[..n][j] == later[j];
      ReplayFrame(earlier, later[..n], tag);
    } else {
      assert earlier + later == earlier;
    }
  }

  /** Re-registering a tag discards the machine it replaces. */
  lemma ReRegisterReplaces(regs: seq<Registration>, a: Registration, b: Registration)
    requires a.tag == b.tag
    ensures Replay(regs + [a, b]) == Replay(regs + [b])
  {
    assert regs + [a, b] == (regs + [a]) + [b];
    ReplayStep(regs + [a], b);
    ReplayStep(regs, a);
    ReplayStep(regs, b);
  }

  /** A directory whose kind was never registered answers every call with
      `InternalError` and zero results, and leaves the entity as it was. */
  lemma UnregisteredDispatch<C, I>(f: FSM, regs: seq<Registration>, typeOf: I -> TypeTag, eng: Engine<C, I>,
                                   ctx: C, s: I, event: string, options: seq<FireOption>)
    requires f.machines == Replay(regs)
    requires forall j :: 0 <= j < |regs| ==> regs[j].tag != typeOf(s)
    ensures f.Fire(typeOf, eng, ctx, s, event) == Fired(s, Fail(InternalError))
    ensures f.MayFire(typeOf, eng, ctx, s, event, options) == (false, Fail(InternalError))
    ensures f.GetPermittedEvents(typeOf, eng, ctx, s, options) == ([], Fail(InternalError))
    ensures f.GetPermittedStates(typeOf, eng, ctx, s, options) == ([], Fail(InternalError))
  {
  }

  /** Once a kind is registered, every call returns exactly what the
      machine of the kind's last registration returns for the same
      arguments. */
  lemma RegisteredDispatch<C, I>(f: FSM, regs: seq<Registration>, i: int, typeOf: I -> TypeTag, eng: Engine<C, I>,
                                 ctx: C, s: I, event: string, options: seq<FireOption>)
    requires f.machines == Replay(regs)
    requires IsLastFor(regs, typeOf(s), i)
    ensures f.Fire(typeOf, eng, ctx, s, event)
            == eng.fire(Machine(regs[i].column, regs[i].events), ctx, s, event)
    ensures f.MayFire(typeOf, eng, ctx, s, event, options)
            == eng.mayFire(Machine(regs[i].column, regs[i].events), ctx, s, event, options)
    ensures f.GetPermittedEvents(typeOf, eng, ctx, s, options)
            == eng.permittedEvents(Machine(regs[i].column, regs[i].events), ctx, s, options)
    ensures f.GetPermittedStates(typeOf, eng, ctx, s, options)
            == eng.permittedStates(Machine(regs[i].column, regs[i].events), ctx, s, options)
  {
    ReplayLastWriteWins(regs, typeOf(s), i);
  }

  /** Routing is local: registering a different kind leaves the entry that
      the four calls look up for `s`, or its absence, as it was. (What the
      engine then returns is outside this model; a guard or callback that
      calls back into the directory can see the other kind's entry.) */
  lemma RegisterOtherKeepsDispatch<I>(f: FSM, g: FSM, tag: TypeTag, column: string, events: seq<EventTransition>,
                                      typeOf: I -> TypeTag, s: I)
    requires g.machines == f.machines[tag := Machine(column, events)]
    requires typeOf(s) != tag
    ensures typeOf(s) in g.machines <==> typeOf(s) in f.machines
    ensures typeOf(s) in f.machines ==> g.machines[typeOf(s)] == f.machines[typeOf(s)]
  {
  }

  /** A caller's view: after `NewFSM` and two registrations of one kind,
      `Fire` on an entity of that kind reaches the machine of the second
      registration with its arguments unchanged. */
  method RegisterTwiceThenFire<C, I>(typeOf: I -> TypeTag, eng: Engine<C, I>, ctx: C, s: I, event: string,
                                     firstColumn: string, firstEvents: seq<EventTransition>,
                                     column: string, events: seq<EventTransition>)
    returns (r: Fired<I>)
    ensures r == eng.fire(Machine(column, events), ctx, s, event)
  {
    var f := new FSM();
    var tag := typeOf(s);
    var err := f.Register(tag, firstColumn, firstEvents);
    assert err == Ok;
    err := f.Register(tag, column, events);
    ghost var regs := [Registration(tag, firstColumn, firstEvents), Registration(tag, column, events)];
    assert [] + regs[..1] == regs[..1] && regs[..1] + [regs[1]] == regs;
    assert f.machines == Replay(regs);
    assert IsLastFor(regs, typeOf(s), 1);
    RegisteredDispatch(f, regs, 1, typeOf, eng, ctx, s, event, []);
    r := f.Fire(typeOf, eng, ctx, s, event);
  }
}
