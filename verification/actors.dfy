/** `ActorBase`: the Ready / Running / Destroyed lifecycle shared by the
    broker, the producers and the caches. `Run` and `Destroy` state it for
    hooks that return normally; `DestroyWith` states it around a
    `DestroyInternal` hook that may throw, which leaves the state as it was.
    The broker's, the producers' and the cache's destroy hooks all throw on
    an actor that never ran (`Broker.Stop`, `Producer.Stop`, `Cache.Stop`).
    The hooks' socket and task work is not modelled otherwise. */
module Actors {
  import opened Wrappers

  datatype ActorState = Ready | Running | Destroyed

  /** A new actor is Ready. */
  const NewActor: ActorState := Ready

  /** `Run`: refused while running or once destroyed; otherwise Running. */
  function Run(s: ActorState): (r: Result<ActorState>)
    ensures r.Ok? <==> s == Ready
    ensures r.Ok? ==> r.value == Running
    ensures r.Err? ==> r.error.InvalidOperation?
  {
    match s
    case Running => Err(InvalidOperation("actor is already running"))
    case Destroyed => Err(InvalidOperation("actor has been destroyed"))
    case Ready => Ok(Running)
  }

  /** `Destroy`: refused once destroyed; otherwise Destroyed. */
  function Destroy(s: ActorState): (r: Result<ActorState>)
    ensures r.Ok? <==> s != Destroyed
    ensures r.Ok? ==> r.value == Destroyed
    ensures r.Err? ==> r.error.InvalidOperation?
  {
    if s == Destroyed then Err(InvalidOperation("actor is already destroyed")) else Ok(Destroyed)
  }

  /** `Destroy` around its hook: `hook` is the exception `DestroyInternal`
      throws, if any. The already-destroyed check comes first, so the hook
      is not reached then; a throwing hook propagates before the state is
      set, so the actor keeps its state. */
  function DestroyWith(s: ActorState, hook: Option<Exception>): (r: Result<ActorState>)
    ensures r.Ok? <==> s != Destroyed && hook.None?
    ensures hook.None? || s == Destroyed ==> r == Destroy(s)
    ensures s != Destroyed && hook.Some? ==> r == Err(hook.value)
  {
    if s == Destroyed then Destroy(s)
    else match hook
      case Some(x) => Err(x)
      case None => Destroy(s)
  }

  datatype Command = RunCommand | DestroyCommand

  /** One lifecycle call; a refused call leaves the state as it was. */
  function Step(s: ActorState, c: Command): ActorState
  {
    var r := match c
      case RunCommand => Run(s)
      case DestroyCommand => Destroy(s);
    if r.Ok? then r.value else s
  }

  function StepAll(s: ActorState, cs: seq<Command>): ActorState
    decreases |cs|
  {
    if |cs| == 0 then s else StepAll(Step(s, cs[0]), cs[1..])
  }

  /** Destroyed is absorbing: no sequence of calls leaves it. */
  lemma {:induction false} DestroyedIsAbsorbing(cs: seq<Command>)
    ensures StepAll(Destroyed, cs) == Destroyed
    decreases |cs|
  {
    if |cs| > 0 {
      DestroyedIsAbsorbing(cs[1..]);
    }
  }

  /** Once an actor has left Ready it never comes back, so `Run` can
      succeed at most once in its life. */
  lemma {:induction false} ReadyOnlyBeforeAnyEffect(s: ActorState, cs: seq<Command>)
    requires s != Ready
    ensures StepAll(s, cs) != Ready
    decreases |cs|
  {
    if |cs| > 0 {
      ReadyOnlyBeforeAnyEffect(Step(s, cs[0]), cs[1..]);
    }
  }
}
