/** `DynamicCache` as a sequential transition system. The heartbeat loop,
    the subscriber socket, the stale timer and the catch-up task become
    inputs applied one at a time; the aggregate store is a map from stream
    id to aggregate. */
module Cache {
  import opened Wrappers
  import opened Text
  import opened Events
  import opened Messages
  import opened Serializer
  import opened Aggregates
  import opened Actors
  import Broker

  /** `DynamicCacheState`. */
  datatype ConnectionState = NotConnected | Connected | Disconnected | Reconnected

  /** One heartbeat round trip, answered (`ok`) or timed out. An answer
      after a loss of the broker is reported as Reconnected first. */
  function HeartbeatStep(s: ConnectionState, ok: bool): (r: ConnectionState)
    ensures ok ==> (r == Reconnected <==> s == Disconnected)
    ensures ok ==> (r == Connected <==> s != Disconnected)
    ensures !ok ==> (r == NotConnected <==> s == NotConnected)
    ensures !ok ==> (r == Disconnected <==> s != NotConnected)
  {
    if ok then
      if s.NotConnected? || s.Reconnected? then Connected
      else if s.Disconnected? then Reconnected
      else s
    else
      if s.Connected? || s.Reconnected? then Disconnected else s
  }

  /** The cache's subscription: the subject prefix it listens to and asks a
      snapshot for. */
  datatype Config = Config(subject: string)

  type Store = map<string, Aggregate>

  /** `new TAggregate { Id = id }`: `DynamicCache` never sets
      `DoStoreEvents`, so its aggregates keep no history. */
  function NewAggregateFor(id: string): (a: Aggregate)
    ensures a.id == id && a.version == -1 && a.typeName == CurrencyPairType
    ensures !a.doStoreEvents && a.appliedEvents == [] && a.pair == DefaultPair
  {
    NewAggregate(CurrencyPairType, id, false)
  }

  /** The aggregate an event of stream `k` is applied to: the stored one, or
      a fresh one. */
  function Base(store: Store, k: string): Aggregate
  {
    if k in store then store[k] else NewAggregateFor(k)
  }

  /** Every aggregate is stored under its own id. */
  predicate KeyedById(store: Store)
  {
    forall k :: k in store ==> store[k].id == k
  }

  /** No stored aggregate keeps a history of applied events. */
  predicate NoHistory(store: Store)
  {
    forall k :: k in store ==> !store[k].doStoreEvents && store[k].appliedEvents == []
  }

  /** `ApplyEvent`: look the stream up, create its aggregate when absent,
      apply the event, store the result. Other aggregates are untouched. */
  function ApplyEvent(store: Store, e: Event): (r: Store)
    ensures r.Keys == store.Keys + {e.eventStreamId}
    ensures forall k :: k in store && k != e.eventStreamId ==> r[k] == store[k]
    ensures e.eventStreamId !in store ==>
      r[e.eventStreamId].id == e.eventStreamId && r[e.eventStreamId].version == 0
    ensures e.eventStreamId in store ==>
      r[e.eventStreamId].version == store[e.eventStreamId].version + 1
    ensures KeyedById(store) ==> KeyedById(r)
    ensures NoHistory(store) ==> NoHistory(r)
  {
    store[e.eventStreamId := Apply(Base(store, e.eventStreamId), e)]
  }

  /** Apply events in order. */
  function ApplyEvents(store: Store, es: seq<Event>): Store
    decreases |es|
  {
    if |es| == 0 then store else ApplyEvent(ApplyEvents(store, es[..|es| - 1]), es[|es| - 1])
  }

  /** The events of stream `k`, in order. */
  function EventsOf(es: seq<Event>, k: string): (r: seq<Event>)
    ensures |r| <= |es|
    ensures forall i :: 0 <= i < |r| ==> r[i].eventStreamId == k
    decreases |es|
  {
    if |es| == 0 then []
    else EventsOf(es[..|es| - 1], k) + (if es[|es| - 1].eventStreamId == k then [es[|es| - 1]] else [])
  }

  /** Applying a sequence of events to the store is, per stream, replaying
      that stream's events on its aggregate: a stream is present afterwards
      exactly when it was before or one of its events came by. */
  lemma {:induction false} ApplyEventsPerStream(store: Store, es: seq<Event>, k: string)
    ensures k in ApplyEvents(store, es) <==> k in store || |EventsOf(es, k)| > 0
    ensures k in ApplyEvents(store, es) ==>
      ApplyEvents(store, es)[k] == ApplyAll(Base(store, k), EventsOf(es, k))
    decreases |es|
  {
    if |es| > 0 {
      var prefix := es[..|es| - 1];
      var e := es[|es| - 1];
      var prev := ApplyEvents(store, prefix);
      ApplyEventsPerStream(store, prefix, k);
      assert ApplyEvents(store, es) == ApplyEvent(prev, e);
      if e.eventStreamId == k {
        assert EventsOf(es, k) == EventsOf(prefix, k) + [e];
        assert Base(prev, k) == ApplyAll(Base(store, k), EventsOf(prefix, k));
        ApplyAllSnoc(Base(store, k), EventsOf(prefix, k), e);
      } else {
        assert EventsOf(es, k) == EventsOf(prefix, k);
      }
    }
  }

  /** The aggregate of a stream that `n > 0` events reached, starting from an
      empty store, has version n - 1 and its own id. */
  lemma RebuiltVersion(es: seq<Event>, k: string)
    requires |EventsOf(es, k)| > 0
    ensures k in ApplyEvents(map[], es)
    ensures ApplyEvents(map[], es)[k].version == |EventsOf(es, k)| - 1
    ensures ApplyEvents(map[], es)[k].id == k
  {
    ApplyEventsPerStream(map[], es, k);
    ApplyAllCounts(NewAggregateFor(k), EventsOf(es, k));
  }

  // ---------------------------------------------------------------------
  // The cache

  datatype DynamicCache = DynamicCache(
    actor: ActorState,
    state: ConnectionState,
    isStaled: bool,
    isSocketActive: bool,
    isCatchingUp: bool,
    buffer: seq<Event>,
    store: Store,
    config: Config)

  /** The constructor: NotConnected, stale, not catching up, nothing stored. */
  function NewCache(config: Config): (r: DynamicCache)
    ensures r.actor == Ready && r.config == config
    ensures r.state == NotConnected && r.isStaled && !r.isCatchingUp
    ensures r.buffer == [] && r.store == map[]
    ensures Invariant(r)
  {
    DynamicCache(Ready, NotConnected, true, false, false, [], map[], config)
  }

  /** `Run`: the actor starts and the first catch-up is requested. */
  function Start(c: DynamicCache): (r: Result<DynamicCache>)
    ensures r.Ok? <==> c.actor == Ready
    ensures r.Ok? ==> r.value == c.(actor := Running, isCatchingUp := true)
  {
    match Run(c.actor)
    case Err(x) => Err(x)
    case Ok(a) => Ok(c.(actor := a, isCatchingUp := true))
  }

  /** `Destroy`. Its hook stops the update poller, which only the work loop
      that `Run` starts ever creates: on a cache that never ran, the hook
      dereferences a null poller and throws, and the lifecycle stays Ready. */
  function Stop(c: DynamicCache): (r: Result<DynamicCache>)
    ensures r.Ok? <==> c.actor == Running
    ensures r.Ok? ==> r.value == c.(actor := Destroyed)
    ensures c.actor == Ready ==> r.Err? && r.error.NullReference?
    ensures c.actor == Destroyed ==> r.Err? && r.error.InvalidOperation?
  {
    match Destroy(c.actor)
    case Err(x) => Err(x)
    case Ok(a) =>
      if c.actor == Ready then Err(NullReference("_cacheUpdatePoller"))
      else Ok(c.(actor := a))
  }

  /** The heartbeat loop's step. Entering Reconnected requests a catch-up. */
  function Heartbeat(c: DynamicCache, ok: bool): (r: DynamicCache)
    ensures r.state == HeartbeatStep(c.state, ok)
    ensures r.isCatchingUp <==> c.isCatchingUp || (ok && c.state == Disconnected)
    ensures r.store == c.store && r.buffer == c.buffer && r.isStaled == c.isStaled
  {
    var s := HeartbeatStep(c.state, ok);
    c.(state := s, isCatchingUp := c.isCatchingUp || s.Reconnected?)
  }

  /** The subscriber socket delivers a frame only when its subject starts
      with the subscribed prefix. */
  predicate Delivers(c: DynamicCache, subject: string)
  {
    StartsWith(subject, c.config.subject)
  }

  /** `OnEventReceived`: while catching up the event is buffered, otherwise
      it is applied at once. */
  function OnEventReceived(c: DynamicCache, e: Event): (r: DynamicCache)
    ensures c.isCatchingUp ==> r.buffer == c.buffer + [e] && r.store == c.store
    ensures !c.isCatchingUp ==> r.buffer == c.buffer && r.store == ApplyEvent(c.store, e)
  {
    if c.isCatchingUp then c.(buffer := c.buffer + [e]) else c.(store := ApplyEvent(c.store, e))
  }

  /** The receive handler: decode the event with the broker's version, hand
      it on, mark the socket active and clear the stale flag. */
  function Receive(c: DynamicCache, frame: Broker.Frame<ProducerMessage>): (r: DynamicCache)
    ensures !Delivers(c, frame.subject) ==> r == c
    ensures Delivers(c, frame.subject) ==>
      && !r.isStaled && r.isSocketActive
      && r.state == c.state && r.isCatchingUp == c.isCatchingUp
      && r.store == OnEventReceived(c, ToEvent(frame.eventId, frame.payload)).store
      && r.buffer == OnEventReceived(c, ToEvent(frame.eventId, frame.payload)).buffer
  {
    if !Delivers(c, frame.subject) then c
    else OnEventReceived(c, ToEvent(frame.eventId, frame.payload)).(isSocketActive := true, isStaled := false)
  }

  /** The stale timer: with no event since the previous tick the cache turns
      stale; the activity flag is cleared on every tick. */
  function Tick(c: DynamicCache): (r: DynamicCache)
    ensures r.isStaled <==> c.isStaled || !c.isSocketActive
    ensures !r.isSocketActive
    ensures r.store == c.store && r.buffer == c.buffer && r.state == c.state && r.isCatchingUp == c.isCatchingUp
  {
    c.(isStaled := c.isStaled || !c.isSocketActive, isSocketActive := false)
  }

  // ---------------------------------------------------------------------
  // Catch-up

  /** The snapshot's events, with the broker's versions. */
  function SnapshotEvents(events: seq<EventMessage<ProducerMessage>>): (r: seq<Event>)
    ensures |r| == |events|
    ensures forall i :: 0 <= i < |events| ==> r[i] == MessageToEvent(events[i])
  {
    if |events| == 0 then [] else SnapshotEvents(events[..|events| - 1]) + [MessageToEvent(events[|events| - 1])]
  }

  /** The "stream.version" ids of the snapshot. */
  function SnapshotKeys(events: seq<EventMessage<ProducerMessage>>): set<string>
  {
    set i | 0 <= i < |events| :: EventIds.Id(events[i].eventId)
  }

  /** The buffered events whose "stream.version" id is not among `keys`, in
      buffer order. */
  function Replay(buffer: seq<Event>, keys: set<string>): (r: seq<Event>)
    ensures |r| <= |buffer|
    decreases |buffer|
  {
    if |buffer| == 0 then []
    else
      var last := buffer[|buffer| - 1];
      Replay(buffer[..|buffer| - 1], keys) + (if EventKey(last) !in keys then [last] else [])
  }

  /** What the replay keeps: buffered events, none of them in `keys`. */
  lemma {:induction false} ReplayMembers(buffer: seq<Event>, keys: set<string>, x: Event)
    requires x in Replay(buffer, keys)
    ensures x in buffer && EventKey(x) !in keys
    decreases |buffer|
  {
    var prefix := buffer[..|buffer| - 1];
    if x in Replay(prefix, keys) {
      ReplayMembers(prefix, keys, x);
    }
  }

  /** What the replay does not drop: every buffered event not in `keys`. */
  lemma {:induction false} ReplayKeeps(buffer: seq<Event>, keys: set<string>, i: int)
    requires 0 <= i < |buffer| && EventKey(buffer[i]) !in keys
    ensures buffer[i] in Replay(buffer, keys)
    decreases |buffer|
  {
    var prefix := buffer[..|buffer| - 1];
    if i < |buffer| - 1 {
      ReplayKeeps(prefix, keys, i);
    }
  }

  /** Everything the catch-up applies, in order: the snapshot, then the
      buffered events the snapshot does not already hold. */
  function CatchUpEvents(reply: StateReply<ProducerMessage>, buffer: seq<Event>): seq<Event>
  {
    SnapshotEvents(reply.events) + Replay(buffer, SnapshotKeys(reply.events))
  }

  /** A catch-up can complete only while one is pending and the broker is
      reachable. */
  predicate CanCatchUp(c: DynamicCache)
  {
    c.isCatchingUp && (c.state.Connected? || c.state.Reconnected?)
  }

  /** `CaughtUpToStateOfTheWorld`, once the snapshot has arrived: rebuild
      the store from nothing with the snapshot and the unseen buffered
      events, then leave catching-up with an empty buffer. */
  function CatchUp(c: DynamicCache, reply: StateReply<ProducerMessage>): (r: DynamicCache)
    ensures !CanCatchUp(c) ==> r == c
    ensures CanCatchUp(c) ==>
      && !r.isCatchingUp && r.buffer == []
      && r.store == ApplyEvents(map[], CatchUpEvents(reply, c.buffer))
      && r.state == c.state && r.isStaled == c.isStaled
  {
    if !CanCatchUp(c) then c
    else c.(store := ApplyEvents(map[], CatchUpEvents(reply, c.buffer)), isCatchingUp := false, buffer := [])
  }

  // ---------------------------------------------------------------------
  // Inputs

  datatype Input =
    | StartInput
    | StopInput
    | HeartbeatInput(ok: bool)
    | DeliveryInput(frame: Broker.Frame<ProducerMessage>)
    | TickInput
    | SnapshotInput(reply: StateReply<ProducerMessage>)

  /** One input. The loops only run while the actor runs; a refused
      `Run`/`Destroy` leaves the cache as it was. */
  function Step(c: DynamicCache, input: Input): (r: DynamicCache)
    ensures c.actor != Running && !input.StartInput? && !input.StopInput? ==> r == c
    ensures r.config == c.config
  {
    match input
    case StartInput => var res := Start(c); if res.Ok? then res.value else c
    case StopInput => var res := Stop(c); if res.Ok? then res.value else c
    case _ =>
      if c.actor != Running then c
      else
        match input
        case HeartbeatInput(ok) => Heartbeat(c, ok)
        case DeliveryInput(frame) => Receive(c, frame)
        case TickInput => Tick(c)
        case SnapshotInput(reply) => CatchUp(c, reply)
  }

  function StepAll(c: DynamicCache, inputs: seq<Input>): DynamicCache
    decreases |inputs|
  {
    if |inputs| == 0 then c else StepAll(Step(c, inputs[0]), inputs[1..])
  }

  /** Inputs in sequence compose. */
  lemma {:induction false} StepAllAppend(c: DynamicCache, xs: seq<Input>, ys: seq<Input>)
    ensures StepAll(c, xs + ys) == StepAll(StepAll(c, xs), ys)
    decreases |xs|
  {
    if |xs| == 0 {
      assert xs + ys == ys;
    } else {
      assert (xs + ys)[0] == xs[0];
      assert (xs + ys)[1..] == xs[1..] + ys;
      StepAllAppend(Step(c, xs[0]), xs[1..], ys);
    }
  }

  // ---------------------------------------------------------------------
  // Invariants of every run

  /** Events are buffered only while a catch-up is pending, and every
      aggregate is stored under its own id. */
  predicate Invariant(c: DynamicCache)
  {
    (!c.isCatchingUp ==> c.buffer == []) && KeyedById(c.store)
  }

  /** Applying any events to a store without history adds none: every
      aggregate the cache creates has `DoStoreEvents` unset, so its
      `AppliedEvents` stays empty however many events it sees. */
  lemma {:induction false} ApplyEventsNoHistory(store: Store, es: seq<Event>)
    requires NoHistory(store)
    ensures NoHistory(ApplyEvents(store, es))
    decreases |es|
  {
    if |es| > 0 {
      ApplyEventsNoHistory(store, es[..|es| - 1]);
    }
  }

  /** Rebuilding from a keyed store keeps it keyed. */
  lemma {:induction false} ApplyEventsKeyed(store: Store, es: seq<Event>)
    requires KeyedById(store)
    ensures KeyedById(ApplyEvents(store, es))
    decreases |es|
  {
    if |es| > 0 {
      ApplyEventsKeyed(store, es[..|es| - 1]);
    }
  }

  lemma StepKeepsInvariant(c: DynamicCache, input: Input)
    requires Invariant(c)
    ensures Invariant(Step(c, input))
  {
    if input.SnapshotInput? && CanCatchUp(c) && c.actor == Running {
      ApplyEventsKeyed(map[], CatchUpEvents(input.reply, c.buffer));
    }
  }

  lemma {:induction false} RunKeepsInvariant(c: DynamicCache, inputs: seq<Input>)
    requires Invariant(c)
    ensures Invariant(StepAll(c, inputs))
    decreases |inputs|
  {
    if |inputs| > 0 {
      StepKeepsInvariant(c, inputs[0]);
      RunKeepsInvariant(Step(c, inputs[0]), inputs[1..]);
    }
  }

  /** A cache that never ran cannot be destroyed: the failed `Destroy`
      throws a null reference and leaves the lifecycle Ready. Once run, the
      cache can be destroyed. */
  lemma StopBeforeRun(config: Config)
    ensures Stop(NewCache(config)) == Err(NullReference("_cacheUpdatePoller"))
    ensures Step(NewCache(config), StopInput).actor == Ready
    ensures Stop(Step(NewCache(config), StartInput)).Ok?
  {
  }

  /** A destroyed cache ignores every input, a second `Destroy` included. */
  lemma {:induction false} DestroyedIsFrozen(c: DynamicCache, inputs: seq<Input>)
    requires c.actor == Destroyed
    ensures StepAll(c, inputs) == c
    decreases |inputs|
  {
    if |inputs| > 0 {
      assert Step(c, inputs[0]) == c;
      DestroyedIsFrozen(c, inputs[1..]);
    }
  }

  // ---------------------------------------------------------------------
  // Staleness

  /** Two ticks with no event in between make a running cache stale. */
  lemma QuietTicksMakeStale(c: DynamicCache)
    requires c.actor == Running
    ensures StepAll(c, [TickInput, TickInput]).isStaled
  {
    assert [TickInput, TickInput][1..] == [TickInput];
  }

  /** A stale cache stays stale until an event reaches it. */
  lemma {:induction false} StaysStaleWithoutDelivery(c: DynamicCache, inputs: seq<Input>)
    requires c.isStaled
    requires forall i :: 0 <= i < |inputs| ==> !inputs[i].DeliveryInput?
    ensures StepAll(c, inputs).isStaled
    decreases |inputs|
  {
    if |inputs| > 0 {
      assert Step(c, inputs[0]).isStaled;
      StaysStaleWithoutDelivery(Step(c, inputs[0]), inputs[1..]);
    }
  }

  /** An event on the subscribed subject clears staleness; one outside it
      changes nothing. */
  lemma DeliveryAndStaleness(c: DynamicCache, frame: Broker.Frame<ProducerMessage>)
    requires c.actor == Running
    ensures Delivers(c, frame.subject) ==> !Step(c, DeliveryInput(frame)).isStaled
    ensures !Delivers(c, frame.subject) ==> Step(c, DeliveryInput(frame)) == c
  {
  }

  // ---------------------------------------------------------------------
  // Scenarios

  /** A broker lost and found again: NotConnected, Connected, Disconnected,
      then Reconnected with a catch-up requested, then Connected. */
  lemma ReconnectionScenario(config: Config)
    ensures var c := StepAll(NewCache(config), [StartInput, HeartbeatInput(true), HeartbeatInput(false), HeartbeatInput(true)]);
      c.state == Reconnected && c.isCatchingUp && c.actor == Running
    ensures StepAll(NewCache(config), [StartInput, HeartbeatInput(true), HeartbeatInput(false), HeartbeatInput(true), HeartbeatInput(true)]).state
      == Connected
  {
    var c0 := NewCache(config);
    var c1 := Step(c0, StartInput);
    var c2 := Step(c1, HeartbeatInput(true));
    var c3 := Step(c2, HeartbeatInput(false));
    var c4 := Step(c3, HeartbeatInput(true));
    assert c2.state == Connected && c3.state == Disconnected && c4.state == Reconnected;
    var xs := [StartInput, HeartbeatInput(true), HeartbeatInput(false), HeartbeatInput(true)];
    StepAllAppend(c0, xs, [HeartbeatInput(true)]);
    assert xs[1..][1..][1..][1..] == [];
    assert StepAll(c0, xs) == c4;
    assert xs + [HeartbeatInput(true)] == [StartInput, HeartbeatInput(true), HeartbeatInput(false), HeartbeatInput(true), HeartbeatInput(true)];
  }

  /** An event that arrives after `Run` but before the snapshot is held
      back, then applied after the snapshot unless the snapshot has it. */
  lemma EarlyEventIsReplayed(config: Config, frame: Broker.Frame<ProducerMessage>, reply: StateReply<ProducerMessage>)
    requires StartsWith(frame.subject, config.subject)
    ensures var c := StepAll(NewCache(config), [StartInput, HeartbeatInput(true), DeliveryInput(frame)]);
      c.buffer == [ToEvent(frame.eventId, frame.payload)] && c.store == map[] && c.isCatchingUp
    ensures var c := StepAll(NewCache(config), [StartInput, HeartbeatInput(true), DeliveryInput(frame), SnapshotInput(reply)]);
      && !c.isCatchingUp && c.buffer == []
      && c.store == ApplyEvents(map[], CatchUpEvents(reply, [ToEvent(frame.eventId, frame.payload)]))
  {
    var c0 := NewCache(config);
    var c1 := Step(c0, StartInput);
    var c2 := Step(c1, HeartbeatInput(true));
    var c3 := Step(c2, DeliveryInput(frame));
    assert c3.buffer == [ToEvent(frame.eventId, frame.payload)];
    var xs := [StartInput, HeartbeatInput(true), DeliveryInput(frame)];
    assert StepAll(c0, xs) == StepAll(c1, xs[1..]);
    assert StepAll(c1, xs[1..]) == StepAll(c2, xs[2..]);
    assert StepAll(c2, xs[2..]) == StepAll(c3, xs[3..]);
    assert xs[3..] == [];
    StepAllAppend(c0, xs, [SnapshotInput(reply)]);
    assert xs + [SnapshotInput(reply)] == [StartInput, HeartbeatInput(true), DeliveryInput(frame), SnapshotInput(reply)];
  }
}
