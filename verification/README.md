# DynamicData.Zmq — a Dafny model of the event-sourcing core

DynamicData.Zmq is an event-sourcing fabric. Producers publish events to a
broker. The broker stamps each event with a per-stream version, logs it, and
rebroadcasts it. Caches rebuild currency-pair aggregates from a snapshot of
the broker's log plus the live feed. This project models the sequential core
under the sockets, threads and JSON, and proves properties of it.

Modules, one file each:

- `Wrappers` (`wrappers.dfy`): `Option`, `Result` and the exceptions the
  source throws (`InvalidOperation`, `CannotApply`, `DuplicateKey`,
  `NullReference`).
- `Seqs` (`seqs.dfy`): order-keeping selections (subsequences), the shape of
  a LINQ `Where`.
- `Text` (`text.dfy`): `Split`/`Join` on a separator, the first token,
  `StartsWith`, and the decimal rendering of integers, proved injective.
- `EventIds` (`event_id.dfy`): `EventId`, its `Id` ("stream.version"),
  `Equals`, `GetHashCode` (32-bit wrap-around) and `ToString`.
- `IdProviders` (`id_provider.dfy`): `InMemoryEventIdProvider`, which keeps
  per-stream counters and the history of issued ids.
- `Events` (`events.dfy`): `EventBase` and the two concrete events,
  `ChangeCcyPairState` and `ChangeCcyPairPrice`, as one closed datatype.
  Each carries its routing properties and its target aggregate type.
- `Messages` (`messages.dfy`): producer messages, logged records, and
  snapshot requests and replies.
- `Serializer` (`serializer.dfy`): `EventSerializer`, which covers the
  subject, the aggregate id, and stamping the subject and version.
- `EventLog` (`event_log.dfy`): `InMemoryEventCache`, a map from stream id to
  a version-sorted record list, with the stream-restricted prefix query.
- `Aggregates` (`aggregates.dfy`): `AggregateBase.Apply` (both overloads)
  and `OnEventApplied`, applied to a `CurrencyPair`.
- `Actors` (`actors.dfy`): the `ActorBase` Ready/Running/Destroyed lifecycle.
- `Broker` (`broker.dfy`): `BrokerageService` as pure step functions for
  publish/relay, state-of-the-world and heartbeat, and its destroy hook.
- `Producer` (`producer.dfy`): `ProducerBase`'s heartbeat machine, the
  guard in front of `Publish`, and its destroy hook.
- `Cache` (`cache.dfy`): `DynamicCache` as a transition system. The
  heartbeat result, a delivered frame, a stale-timer tick and the snapshot's
  arrival are explicit inputs.
- `Reconciliation` (`reconciliation.dfy`): the catch-up guarantees.
  - No loss and no duplication.
  - The count of applied events.
  - Per-stream version order: versions 0 … n-1 without gap.

Notes on the model:

- Payloads are taken as decoded values. A producer message carries the event
  itself, and the log is generic in its payload type.
- Prices are only copied, so they are 64-bit patterns.
- A log's streams are enumerated in first-append order; the source's
  dictionary order is unspecified. What is proved about `GetAllStreams`
  does not depend on that order: its records are those of all streams, and
  picking one stream's records out of it gives back that stream whole, in
  version order.
- A catch-up is one atomic step once the snapshot has arrived.
- The timestamp the id provider reads from the clock is a parameter.
- .NET's string hash is a parameter of `GetHashCode`.
- The cache creates its aggregates with `new TAggregate { Id = … }`. That
  leaves `DoStoreEvents` false, so cache aggregates keep no history. The
  model follows that code. Counts are therefore stated through `Version`
  (applied events minus one), which does not depend on the flag
  (`Cache.ApplyEventsNoHistory` states that the history stays empty). The
  configuration has its own `DoStoreEvents` flag, true by default
  (`DynamicData.Zmq/Cache/DynamicCacheConfiguration.cs:15`), but
  `DynamicCache` never reads it: the flag is not wired into the aggregates
  the cache creates. Several cache tests count `AppliedEvents` on cache
  aggregates as if it were (`DynamicData.Zmq.Tests/TestDynamicData_Cache.cs`
  lines 273, 485-501, 579-607, 666 and 769).
- The `ShouldApplyEvent` test (`DynamicData.Zmq.Tests/TestDynamicData_Cache.cs:782-806`)
  also builds its pair without setting `DoStoreEvents`, yet expects one and
  then two applied events (lines 799 and 806). Under `AggregateBase`
  (`OnEventApplied`, lines 43-47) those counts stay at zero.
  `Aggregates.ApplyEventScenario` states what the code does for the pair as
  the test builds it. `Aggregates.ApplyEventScenarioWithHistory` states the
  counts the test expects, for a pair that keeps its history.
- The broker files a record under its subject's first token
  (`InMemoryEventCache.cs:34`), and the catch-up's filter compares the
  record's "stream.version" with the event's own (`DynamicCache.cs:319`).
  The two agree only when a record's id names its event's stream
  (`Reconciliation.Consistent`), which holds when stream ids have no dot.
  The catch-up lemmas assume it. `Reconciliation.RelayKeepsConsistent`
  shows a broker relaying producer frames of dot-free streams keeps it.
  `Reconciliation.DottedStreamDuplicates` shows a dotted stream id making
  the catch-up apply one event twice.
- A cache's live subscription matches subjects by prefix
  (`DynamicCache.cs:169`), while its snapshot query names one stream by its
  first token (`InMemoryEventCache.cs:100-107`). For a subject with a dot
  the two agree (`EventLog.SubjectQueryMatchesPrefix`). For a dot-free
  subject that is a proper prefix of another stream's name they do not: a
  cache subscribed to "EUR" receives stream "EURO" live but gets none of its
  logged records (`Reconciliation.PrefixSubscriptionMissesSnapshot`).

## Model

| member | source | states |
|---|---|---|
| Actors.Run | DynamicData.Zmq/Shared/ActorBase.cs:42-52 | `Run` succeeds exactly from Ready and ends in Running. While Running or once Destroyed it throws InvalidOperation. |
| Actors.Destroy | DynamicData.Zmq/Shared/ActorBase.cs:29-38 | `Destroy` succeeds exactly when not yet Destroyed and ends in Destroyed. A second `Destroy` throws InvalidOperation. |
| Actors.DestroyWith | DynamicData.Zmq/Shared/ActorBase.cs:29-38 | Around a `DestroyInternal` hook: Destroyed exactly when not yet Destroyed and the hook returns normally. A throwing hook's exception propagates and the state stays; once Destroyed it throws InvalidOperation before the hook. |
| Actors.DestroyedIsAbsorbing | DynamicData.Zmq/Shared/ActorBase.cs:29-52 | No sequence of Run/Destroy calls leaves Destroyed. |
| Actors.ReadyOnlyBeforeAnyEffect | DynamicData.Zmq/Shared/ActorBase.cs:29-52 | Once an actor has left Ready it never returns, so `Run` succeeds at most once. |
| IdProviders.NewProvider | DynamicData.Zmq/Default/InMemoryEventIdProvider.cs:15-19 | A new provider has no counters and no history. |
| IdProviders.Next | DynamicData.Zmq/Default/InMemoryEventIdProvider.cs:21-46 | The first id of a stream has version 0 and each later one the previous + 1. The id carries the stream and subject unchanged. It is appended to the history and only that stream's counter moves. |
| IdProviders.Reset | DynamicData.Zmq/Default/InMemoryEventIdProvider.cs:48-54 | After `Reset` counters and history are empty, so every stream's next version is 0. |
| IdProviders.NextLeavesOtherStreams | DynamicData.Zmq/Default/InMemoryEventIdProvider.cs:25-32 | `Next` on one stream leaves every other stream's next version unchanged. |
| IdProviders.NextPreservesValid | DynamicData.Zmq/Default/InMemoryEventIdProvider.cs:21-46 | Each stream's issued versions in the history stay 0, 1, …, counter: no gap, no reuse. |
| IdProviders.IssuedVersionsContiguous | DynamicData.Zmq/Default/InMemoryEventIdProvider.cs:21-46 | From a fresh provider, any sequence of `Next` calls issues, per stream, exactly 0 … n-1 in issue order. |
| EventIds.NewEventId | DynamicData.Zmq/EventCache/EventId.cs:6-12 | The constructor keeps stream, version, subject and timestamp. |
| EventIds.Id | DynamicData.Zmq/EventCache/EventId.cs:17 | `Id` is the stream, a dot, then the version's decimal digits. |
| EventIds.StreamVersionKeyInjective | DynamicData.Zmq/EventCache/EventId.cs:17 | Two "stream.version" keys are equal exactly when stream and version are equal, even for streams containing dots. |
| EventIds.Equals | DynamicData.Zmq/EventCache/EventId.cs:21-26 | Two ids are equal iff subject, stream and version are equal. The timestamp is ignored. |
| EventIds.EqualsIsEquivalence | DynamicData.Zmq/EventCache/EventId.cs:21-26 | `Equals` is reflexive, symmetric and transitive. |
| EventIds.Wrap32 | DynamicData.Zmq/EventCache/EventId.cs:27-36 | The `unchecked` 32-bit arithmetic of the hash: the result is an Int32 congruent to the exact value modulo 2^32. |
| EventIds.HashCode | DynamicData.Zmq/EventCache/EventId.cs:27-36 | The hash is the Int32 congruent modulo 2^32 to 17·23·23 + 23·hash(Subject) + hash(Id): the `unchecked` arithmetic of the source. |
| EventIds.EqualIdsHashAlike | DynamicData.Zmq/EventCache/EventId.cs:27-36 | Equal ids have equal hash codes, whatever the string hash. |
| EventIds.ToStringNamesVersion | DynamicData.Zmq/EventCache/EventId.cs:38-41 | Two ids print alike exactly when they name the same stream and version. |
| Events.NewEvent | DynamicData.Zmq/Event/EventBase.cs:9-18 | A new event has version -1, no subject, and the given aggregate id as its stream. |
| Events.NewChangeCcyPairState | DynamicData.Zmq.Demo/ChangeCcyPairState.cs:5-11 | The state-change event keeps its stream, state and market, with version -1. |
| Events.NewChangeCcyPairPrice | DynamicData.Zmq.Demo.Shared/ChangeCcyPairPrice.cs:7-14 | The price-change event keeps its stream, market and the four prices, with version -1. |
| Events.EventKey | DynamicData.Zmq/Event/EventBase.cs:28 | An event's `EventId` text is its stream, a dot, then its version's decimal digits. |
| Events.CanApply | DynamicData.Zmq/Event/EventBase.cs:37-40 | Both concrete events accept exactly the `CurrencyPair` runtime type. Any other type, a subclass included, is refused. |
| Events.EventKeyIdentifies | DynamicData.Zmq/Event/EventBase.cs:28 | Two events share an `EventId` string exactly when they share stream and version. |
| Events.ToStringIdentifies | DynamicData.Zmq/Event/EventBase.cs:42-45 | Two events print alike exactly when they share stream and version. |
| Serializer.GetAggregateId | DynamicData.Zmq/Event/EventSerializer.cs:27-30 | The result is a dot-free prefix of the subject, followed in it by a dot or its end. A dot-free subject is returned whole. |
| Serializer.OrderByPosition | DynamicData.Zmq/Event/EventSerializer.cs:74-83 | The routing fields come back as a permutation sorted by position. |
| Serializer.OrderOfSorted | DynamicData.Zmq/Event/EventSerializer.cs:74-83 | Fields already in position order, ties included, are left as they are: the ordering is stable. |
| Serializer.SubjectOf | DynamicData.Zmq/Event/EventSerializer.cs:62-71 | The subject fails exactly when there are no routing properties (unseeded `Aggregate`). Otherwise it starts with the stream and a dot. |
| Serializer.SubjectRoundTrip | DynamicData.Zmq/Event/EventSerializer.cs:62-71 | Splitting a subject at its dots gives back the stream, then the tokens in ascending position order (`*` for null), when none has a dot. |
| Serializer.AggregateIdOfSubject | DynamicData.Zmq/Event/EventSerializer.cs:27-30 | `GetAggregateId(GetSubject(e))` is `e`'s stream when the stream has no dot. |
| Serializer.SubjectOfStateChange | DynamicData.Zmq.Demo/ChangeCcyPairState.cs:7-11 | A state change's subject is stream.state.market, with `*` for a null market. |
| Serializer.SubjectOfPriceChange | DynamicData.Zmq.Demo.Shared/ChangeCcyPairPrice.cs:21-22 | A price change's subject is stream.market, with `*` for a null market. |
| Serializer.SubjectExampleActive | DynamicData.Zmq.Tests/TestDynamicData_Cache.cs:685-688 | The subject of ("test", "FxConnect", Active) is "test.Active.FxConnect". |
| Serializer.SubjectExampleNullMarket | DynamicData.Zmq.Tests/TestDynamicData_Cache.cs:690-693 | The subject of ("test", null, Passive) is "test.Passive.*". |
| Serializer.SubjectExamplePrice | DynamicData.Zmq.Tests/TestDynamicData_Cache.cs:695-705 | A price change of "test" on "market" has the subject "test.market". |
| Serializer.GetSubject | DynamicData.Zmq/Event/EventSerializer.cs:62-71 | Every concrete event has a subject, because each declares a routing property. The subject begins with the event's stream and a dot. |
| Serializer.ToProducerMessage | DynamicData.Zmq/Event/EventSerializer.cs:46-59 | The event is stamped with its subject. The message carries that subject, the stamped event and its type name. |
| Serializer.ToEvent | DynamicData.Zmq/Event/EventSerializer.cs:39-44 | The decoded event takes the id's version and keeps the message event's stream, subject and body. |
| Serializer.MessageToEvent | DynamicData.Zmq/Event/EventSerializer.cs:32-37 | Decoding a logged record gives its id's version, as the two-argument overload does. |
| EventLog.NewLog | DynamicData.Zmq/Default/InMemoryEventCache.cs:23-28 | A new log has no streams and the given provider. |
| EventLog.InsertByVersion | DynamicData.Zmq/Default/InMemoryEventCache.cs:45-49 | Inserting into the sorted list adds exactly the one record (as multisets). |
| EventLog.InsertKeepsSorted | DynamicData.Zmq/Default/InMemoryEventCache.cs:18 | A stream's records stay in strictly ascending version order. |
| EventLog.InsertAboveAppends | DynamicData.Zmq/Default/InMemoryEventCache.cs:45-49 | A version above every present one lands at the end. |
| EventLog.GetStream | DynamicData.Zmq/Default/InMemoryEventCache.cs:80-94 | An unknown stream gives the empty sequence; a known one its records. |
| EventLog.Append | DynamicData.Zmq/Default/InMemoryEventCache.cs:30-54 | The record is filed under the subject's first token, with the provider's next id. The provider advances and the stream entry exists even when the add throws. It throws DuplicateKey exactly when the stream already holds that version. No other stream changes. |
| EventLog.AppendSpec | DynamicData.Zmq/Default/InMemoryEventCache.cs:37-50 | The target stream gains exactly the record with the returned id and the payload. When the add throws, it keeps its records. |
| EventLog.AppendPreservesValid | DynamicData.Zmq/Default/InMemoryEventCache.cs:30-54 | Every stream stays sorted, and each record stays filed under its id's stream. |
| EventLog.AppendAtEnd | DynamicData.Zmq/Default/InMemoryEventCache.cs:30-54 | When the provider is ahead of the stream, the append succeeds and puts the new record last. |
| EventLog.AppendInSync | DynamicData.Zmq/Default/InMemoryEventCache.cs:30-54 | Provider and log stay in step: every append succeeds and the log stays valid. |
| EventLog.AppendContiguous | DynamicData.Zmq/Default/InMemoryEventCache.cs:30-54 | Each stream holds versions 0 … n-1 at indices 0 … n-1. The next append gets version n. |
| EventLog.Clear | DynamicData.Zmq/Default/InMemoryEventCache.cs:56-61 | `Clear` empties every stream and keeps the provider. |
| EventLog.ClearKeepsVersions | DynamicData.Zmq/Default/InMemoryEventCache.cs:56-61 | After `Clear`, a stream that had n records gets version n, not 0. |
| EventLog.ResetIds | DynamicData.Zmq/Default/InMemoryEventIdProvider.cs:48-54 | Resetting the provider keeps the log's streams and rewinds every counter to 0. |
| EventLog.ResetWithoutClearCollides | DynamicData.Zmq/Default/InMemoryEventCache.cs:45-49 | Without a `Clear`, a reset provider's next append to a used stream throws DuplicateKey(0). |
| EventLog.GetAllStreams | DynamicData.Zmq/Default/InMemoryEventCache.cs:63-78 | For a well-formed log, picking out one stream's records from `GetAllStreams` gives that stream back whole, in version order, each record once. A stream not in the log contributes nothing. |
| EventLog.AllStreamsMembers | DynamicData.Zmq/Default/InMemoryEventCache.cs:63-78 | `GetAllStreams` returns exactly the records of all streams. |
| EventLog.WithSubjectPrefix | DynamicData.Zmq/Default/InMemoryEventCache.cs:106-107 | The filter keeps exactly the records whose id subject starts with the query. It keeps them in their order, as a subsequence of the stream. |
| EventLog.GetStreamBySubject | DynamicData.Zmq/Default/InMemoryEventCache.cs:96-119 | "" gives `GetAllStreams` and an unknown first token gives nothing. Otherwise the result is the records of that one stream whose subject starts with the query, as a subsequence of the stream. |
| EventLog.SubjectQueryMatchesPrefix | DynamicData.Zmq/Default/InMemoryEventCache.cs:96-119 | For a query containing a dot, the stream-restricted query equals the prefix match over the whole log. |
| EventLog.BySubjectSorted | DynamicData.Zmq/Default/InMemoryEventCache.cs:96-119 | A non-empty query's result is in strictly ascending version order. |
| Aggregates.NewAggregate | DynamicData.Zmq/Aggregate/AggregateBase.cs:12-17 | A new aggregate has version -1 and no applied events. |
| Aggregates.Mutate | DynamicData.Zmq.Demo/ChangeCcyPairState.cs:13-16 | A state change sets the state and keeps the prices. A price change copies ask, bid, mid and spread and keeps the state (`ChangeCcyPairPrice.cs:24-30`). |
| Aggregates.Apply | DynamicData.Zmq/Aggregate/AggregateBase.cs:36-47 | The event's own mutation runs first. The version goes up by one and the history grows by the event exactly when `DoStoreEvents`. Id and type are unchanged. |
| Aggregates.OnEventApplied | DynamicData.Zmq/Aggregate/AggregateBase.cs:43-47 | The version goes up by one. The history gains the event at its end exactly when `DoStoreEvents`. Nothing else changes. |
| Aggregates.ApplyChecked | DynamicData.Zmq/Aggregate/AggregateBase.cs:27-34 | `Apply(IEvent)` succeeds exactly when the aggregate's runtime type is the event's target type, and then acts as `Apply`. Otherwise it throws "cant apply" before any change. |
| Aggregates.ApplyAllCounts | DynamicData.Zmq/Aggregate/AggregateBase.cs:43-47 | After n applies the version is up by n, and the history has gained exactly those events when stored. |
| Aggregates.NewAggregateVersion | DynamicData.Zmq/Aggregate/AggregateBase.cs:12-47 | A new aggregate after n applies has version n-1. |
| Aggregates.LastPriceWins | DynamicData.Zmq.Tests/TestDynamicData_Cache.cs:666-671 | After a run ending in a price change, the prices are that event's. |
| Aggregates.PricesKeepState | DynamicData.Zmq.Demo.Shared/ChangeCcyPairPrice.cs:24-30 | Price changes never touch the state. |
| Aggregates.ApplyEventScenario | DynamicData.Zmq.Tests/TestDynamicData_Cache.cs:782-806 | For the pair as the test builds it, with `DoStoreEvents` unset: the typed `Apply` gives Passive at version 0, then the checked `Apply(IEvent)` gives Active at version 1. The history stays empty. |
| Aggregates.ApplyEventScenarioWithHistory | DynamicData.Zmq.Tests/TestDynamicData_Cache.cs:782-806 | With history kept, the same two applies leave one event, then both events in order: the counts the test expects. |
| Aggregates.GuardRejectsOtherTypes | DynamicData.Zmq/Event/EventBase.cs:37-40 | An aggregate of any other runtime type refuses both events. |
| Broker.Publish | DynamicData.Zmq/Broker/BrokerageService.cs:122-135 | Each inbound publication is appended once. The frame sent is its subject, the id that append returned, and its payload. |
| Broker.Snapshot | DynamicData.Zmq/Broker/BrokerageService.cs:82-107 | The reply echoes the request's subject and carries `GetStreamBySubject` of it. That is every stream's records for "", and nothing for an unknown stream. Otherwise it is the records of the subject's stream whose subject starts with the request. |
| Broker.Handle | DynamicData.Zmq/Broker/BrokerageService.cs:66-80 | A heartbeat is answered with Response. Only a publication touches the log. |
| Broker.PublishAppendsOnce | DynamicData.Zmq/Broker/BrokerageService.cs:122-135 | With provider and log in step, a publication is always broadcast and lands at the end of its stream. |
| Broker.PublishKeepsRelayed | DynamicData.Zmq/Broker/BrokerageService.cs:122-135 | The frames sent so far are exactly the ids issued, in order, and the log stays contiguous. |
| Broker.RelayFromFresh | DynamicData.Zmq/Broker/BrokerageService.cs:122-135 | From a fresh broker every publication is broadcast, in processing order. |
| Broker.RelayKeepsContent | DynamicData.Zmq/Broker/BrokerageService.cs:127-134 | Frame i carries publication i's subject and payload. |
| Broker.BroadcastVersionsContiguous | DynamicData.Zmq.Tests.E2E/TestDynamicDataE2E_RetrieveEventsSequentially.cs:68-76 | Each stream's broadcast versions are 0, 1, 2, … up to its length. |
| Broker.Stop | DynamicData.Zmq/Broker/BrokerageService.cs:50-64 | `Destroy` succeeds exactly from Running once all three loops have created the poller and the two sockets. Otherwise the hook throws NullReference at the first missing one (the poller before `Run`) and the state stays. Once destroyed it throws InvalidOperation. |
| Broker.StopBeforeRun | DynamicData.Zmq/Broker/BrokerageService.cs:41-64 | Destroying a broker that never ran throws NullReference on the poller. After `Run`, with its loops started, the destroy succeeds. |
| Broker.SnapshotOfStream | DynamicData.Zmq/Broker/BrokerageService.cs:94-99 | A snapshot of a dot-free stream is that whole stream, with version k at index k. |
| Producer.HeartbeatStep | DynamicData.Zmq/Producer/ProducerBase.cs:88-110 | Success moves None or Disconnected to Connected. Failure moves Connected to Disconnected. None stays None until a success. |
| Producer.LastHeartbeatDecides | DynamicData.Zmq/Producer/ProducerBase.cs:88-110 | After any heartbeats, the producer is Connected exactly when the last one was answered. |
| Producer.NoneUntilFirstAnswer | DynamicData.Zmq/Producer/ProducerBase.cs:42-49 | The producer starts in None and stays there exactly while no heartbeat is answered. |
| Producer.NeverBackToNone | DynamicData.Zmq/Producer/ProducerBase.cs:88-110 | Once left, None is never re-entered. |
| Producer.Stop | DynamicData.Zmq/Producer/ProducerBase.cs:51-72 | `Destroy` succeeds exactly from Running. Before `Run` the hook closes a socket that only `Run` creates, so it throws NullReference and the state stays Ready. Once destroyed it throws InvalidOperation. |
| Producer.StopBeforeRun | DynamicData.Zmq/Producer/ProducerBase.cs:51-72 | Destroying a new producer throws NullReference. After `Run` the destroy succeeds. |
| Producer.Publish | DynamicData.Zmq/Producer/ProducerBase.cs:118-126 | Unless Connected, it throws and sends nothing. Otherwise it sends one frame pair: the event's subject, and the message with the stamped event. |
| Cache.HeartbeatStep | DynamicData.Zmq/Cache/DynamicCache.cs:131-155 | Success goes to Reconnected exactly from Disconnected and to Connected otherwise. Failure keeps NotConnected and goes to Disconnected otherwise. |
| Cache.NewAggregateFor | DynamicData.Zmq/Cache/DynamicCache.cs:229-232 | A fresh aggregate has the stream as its id, version -1, `DoStoreEvents` false, no applied events and the default pair. |
| Cache.ApplyEventsNoHistory | DynamicData.Zmq/Cache/DynamicCache.cs:223-244 | Applying any events to a store whose aggregates keep no history leaves them without history. |
| Cache.ApplyEvent | DynamicData.Zmq/Cache/DynamicCache.cs:223-244 | The stream's aggregate is created when absent (version 0 after the event) or advanced by one. No other aggregate changes, every aggregate stays under its own id, and a store without history keeps none. |
| Cache.EventsOf | DynamicData.Zmq/Cache/DynamicCache.cs:223-244 | Every selected event belongs to the stream asked for. |
| Cache.ApplyEventsPerStream | DynamicData.Zmq/Cache/DynamicCache.cs:223-244 | Per stream, applying a sequence of events replays that stream's events on its aggregate. A stream is present exactly when it was before or one of its events came by. |
| Cache.RebuiltVersion | DynamicData.Zmq/Cache/DynamicCache.cs:223-244 | Rebuilt from an empty store, a stream reached by n events has version n-1 and its own id. |
| Cache.Start | DynamicData.Zmq/Cache/DynamicCache.cs:339-374 | `Run` succeeds only from Ready and raises catching-up. |
| Cache.Stop | DynamicData.Zmq/Cache/DynamicCache.cs:376-393 | `Destroy` succeeds exactly from Running. Before `Run`, the hook stops a poller that only the work loop creates, so it throws NullReference and the state stays Ready. Once destroyed, it throws InvalidOperation (`ActorBase.cs:29-38`). |
| Cache.StopBeforeRun | DynamicData.Zmq/Cache/DynamicCache.cs:376-393 | Destroying a cache that never ran throws NullReference and leaves it Ready. After `Run` the destroy succeeds. |
| Cache.Heartbeat | DynamicData.Zmq/Cache/DynamicCache.cs:341-347 | The connection state moves by `HeartbeatStep`. Catching-up is raised exactly on entering Reconnected and is never lowered here. |
| Cache.OnEventReceived | DynamicData.Zmq/Cache/DynamicCache.cs:246-262 | While catching up the event is appended to the buffer and not applied. Otherwise it is applied at once. |
| Cache.Receive | DynamicData.Zmq/Cache/DynamicCache.cs:190-214 | A subject outside the subscription changes nothing. Otherwise the event with the broker's version is handed on, and the cache is marked active and not stale. |
| Cache.Tick | DynamicData.Zmq/Cache/DynamicCache.cs:178-188 | After a tick the cache is stale iff it was, or no event came since the last tick. The activity flag is cleared. |
| Cache.SnapshotEvents | DynamicData.Zmq/Cache/DynamicCache.cs:307-313 | The snapshot's events, in order, each with its record's version. |
| Cache.ReplayMembers | DynamicData.Zmq/Cache/DynamicCache.cs:318-325 | The replay keeps only buffered events whose id is not in the snapshot. |
| Cache.ReplayKeeps | DynamicData.Zmq/Cache/DynamicCache.cs:318-325 | The replay keeps every buffered event whose id is not in the snapshot. |
| Cache.CatchUp | DynamicData.Zmq/Cache/DynamicCache.cs:264-337 | Nothing happens unless catching up and Connected or Reconnected. Otherwise the store is rebuilt from nothing with the snapshot and the unseen buffered events, and catching-up and the buffer are cleared. |
| Cache.Step | DynamicData.Zmq/Cache/DynamicCache.cs:339-374 | Loop inputs do nothing unless the actor runs. The configuration never changes. |
| Cache.NewCache | DynamicData.Zmq/Cache/DynamicCache.cs:43-58 | A new cache is Ready, NotConnected and stale, and not catching up. Its buffer and store are empty, and it satisfies the run invariant. |
| Cache.RunKeepsInvariant | DynamicData.Zmq/Cache/DynamicCache.cs:246-337 | In every run the buffer is empty whenever no catch-up is pending, and every aggregate is stored under its own id. |
| Cache.DestroyedIsFrozen | DynamicData.Zmq/Shared/ActorBase.cs:29-38 | A destroyed cache ignores every input. |
| Cache.QuietTicksMakeStale | DynamicData.Zmq.Tests/TestDynamicData_Cache.cs:311-336 | Two ticks with no event between them make a running cache stale. |
| Cache.StaysStaleWithoutDelivery | DynamicData.Zmq/Cache/DynamicCache.cs:178-214 | A stale cache stays stale until an event reaches it. |
| Cache.DeliveryAndStaleness | DynamicData.Zmq/Cache/DynamicCache.cs:190-214 | A subscribed event clears staleness; an unsubscribed one changes nothing. |
| Cache.ReconnectionScenario | DynamicData.Zmq.Tests/TestDynamicDataE2E.cs:128-137 | The heartbeats true, false, true, true run NotConnected → Connected → Disconnected → Reconnected (catch-up requested) → Connected. |
| Cache.EarlyEventIsReplayed | DynamicData.Zmq/Cache/DynamicCache.cs:246-337 | An event arriving after `Run` and before the snapshot is buffered, not applied. It is replayed after the snapshot. |
| Reconciliation.InSnapshotKeys | DynamicData.Zmq/Cache/DynamicCache.cs:318-320 | For records filed under their event's stream, the "stream.version" filter holds exactly when the snapshot has an event of that stream and version. |
| Reconciliation.CatchUpNoLoss | DynamicData.Zmq/Cache/DynamicCache.cs:307-325 | For a snapshot whose records each name their event's stream: the snapshot is applied first, in order, and every buffered event is applied, from the snapshot or from the buffer. |
| Reconciliation.CatchUpNoDuplication | DynamicData.Zmq/Cache/DynamicCache.cs:307-325 | For a snapshot whose records each name their event's stream, with a duplicate-free snapshot and buffer: no (stream, version) is applied twice. |
| Reconciliation.CatchUpCount | DynamicData.Zmq/Cache/DynamicCache.cs:308-325 | The events applied number the snapshot's plus the unseen buffered ones. That is all of the buffer when the two are disjoint. |
| Reconciliation.ReplayIsUnseen | DynamicData.Zmq/Cache/DynamicCache.cs:318-325 | For a snapshot whose records each name their event's stream, the id-string filter is the (stream, version) filter. |
| Reconciliation.SeenMeansBelow | DynamicData.Zmq/Cache/DynamicCache.cs:318-320 | When the snapshot holds versions 0 … k-1 of a stream, a buffered event of it is in the snapshot iff its version is below k. |
| Reconciliation.ReplayVersions | DynamicData.Zmq/Cache/DynamicCache.cs:318-325 | The replay keeps, in order, exactly the buffered versions from k on. |
| Reconciliation.CatchUpVersions | DynamicData.Zmq/Cache/DynamicCache.cs:307-325 | A snapshot with versions 0 … k-1 and a buffer with j … m-1 (j ≤ k): the catch-up applies 0 … max(k,m)-1 in order, once each. |
| Reconciliation.CatchUpRebuildsStream | DynamicData.Zmq/Cache/DynamicCache.cs:264-337 | After such a catch-up the stream's aggregate has version max(k,m)-1. |
| Reconciliation.RebuildWhilePublishing | DynamicData.Zmq.Tests/TestDynamicData_Cache.cs:273 | 10000 snapshot events plus 100 arriving during the rebuild give an aggregate that has seen 10100 events. |
| Reconciliation.ServedSnapshotConsistent | DynamicData.Zmq/Broker/BrokerageService.cs:94-99 | A snapshot served from a log whose records name their events' streams has the same property. |
| Reconciliation.SnapshotEventsOf | DynamicData.Zmq/Cache/DynamicCache.cs:307-313 | For consistent records, selecting stream s after decoding the snapshot is decoding the records filed under s. |
| Reconciliation.NumberedVersions | DynamicData.Zmq/Default/InMemoryEventCache.cs:45-49 | Records numbered 0 … n-1 decode to versions 0 … n-1. |
| Reconciliation.ServedSnapshotVersions | DynamicData.Zmq/Broker/BrokerageService.cs:94-99 | Take a log numbered as the relay keeps it, with consistent records. The snapshot served for "", or for a dot-free stream by name, holds that stream's versions 0 … n-1 in order. |
| Reconciliation.ServedCatchUpVersions | DynamicData.Zmq/Cache/DynamicCache.cs:264-325 | From such a served snapshot, with buffered versions j … m-1 (j ≤ n), the catch-up applies 0 … max(n, m)-1 in order, once each. |
| Reconciliation.ProducerFramesRouted | DynamicData.Zmq/Producer/ProducerBase.cs:118-126 | A producer frame for an event of a dot-free stream is filed under that stream. |
| Reconciliation.PublishKeepsConsistent | DynamicData.Zmq/Broker/BrokerageService.cs:122-135 | Relaying such a publication keeps every logged record naming its event's stream. |
| Reconciliation.RelayKeepsConsistent | DynamicData.Zmq/Broker/BrokerageService.cs:122-135 | So does relaying any sequence of them. |
| Reconciliation.RelayedCatchUpVersions | DynamicData.Zmq/Cache/DynamicCache.cs:264-325 | End to end: a fresh broker relays routed publications and serves a snapshot, then a cache catches up from it. Each stream comes out as versions 0 … max(n, m)-1, in order. |
| Reconciliation.PrefixSubscriptionMissesSnapshot | DynamicData.Zmq/Cache/DynamicCache.cs:169 | A cache subscribed to "EUR" is delivered the live frame of stream "EURO", which the log holds, but the broker's snapshot for "EUR" is empty (`InMemoryEventCache.cs:100-107`). |
| Reconciliation.DottedStreamDuplicates | DynamicData.Zmq/Cache/DynamicCache.cs:318-320 | An event of stream "A.B" is filed and numbered under "A", so its snapshot id "A.0" never matches its key "A.B.0". The catch-up applies it twice. |

## Left out

- Sockets, pollers, tasks and threads are not modelled (NetMQ, `Task.Run`,
  Rx subjects, `SourceCache`). Each handler is a step on an explicit input.
  The in-memory log's `lock` is taken as making an append atomic.
- Timing is not modelled. Heartbeat and snapshot timeouts, sleeps, `DateTime.Now` and
  the stale `NetMQTimer` become abstract inputs or a timestamp parameter.
- The snapshot request timeout is left out. The source throws a plain
  `Exception("unable to reach broker")` (`DynamicCache.cs:109`) inside the
  external `SourceCache.Edit`, whose effect on the store is that library's
  business.
- Byte/JSON serialization, reflection over `RoutingPosition` and `dynamic`
  dispatch are replaced by a closed event datatype with an ordered list of
  optional routing values. Payloads are opaque.
- Floating point is left out; prices are copied bit patterns.
- The blocking gate `_blockEventConsumption` is not modelled. The window
  between reading the buffer and releasing the gate is not modelled either:
  a catch-up is atomic.
- Only one catch-up task runs at a time. The source may start a second task
  when catching-up is raised again while one is running.
- `Cache.Start`: the heartbeat, work and catch-up loops it starts are the
  other inputs, not part of the step.
- `GetHashCode` depends on the process's string hash, which is a parameter.
- 64-bit overflow of event versions and timestamps is not modelled (`long`
  as unbounded `int`). Nor is 32-bit overflow of an aggregate's `Version`,
  an `int` (`AggregateBase.cs:25`, `IAggregate.cs:10`). The hash's 32-bit wrap-around is modelled.
- `StartsWith` is ordinal character comparison. The source's
  culture-sensitive default is not modelled.
- The source mixes several revisions (namespaces, `EventId` struct
  vs interface, `ProducerState.None`, `AppendToStream` on strings vs bytes).
  One consistent behaviour is modelled.
- Hosting, dependency injection, MVC wiring, configuration classes, demo
  market generators and tests are not modelled. Tests are cited as evidence
  only.
- `CcyPairState`'s member order is assumed: Active first, so it is the
  default.
- Broker.Publish: when the append throws, the relay handler is an `async void`
  lambda (`BrokerageService.cs:122-135`), so the exception goes unobserved.
  The model only states that nothing is sent; what the unobserved exception
  does to the poller is left out.
- Cache.Stop: before throwing, the source's destroy hook has already
  cancelled the token and disposed the subscriptions, the state subject and
  the source cache. The model keeps the cache unchanged. In the source, a
  later `Run` on it would fail on the disposed state subject. The poller is
  created by the work loop on a background task, so a running cache whose
  loop has not got that far also throws; the model assumes it has.
- Actors.Destroy: states the lifecycle for a hook that returns normally.
  The broker's hook (`BrokerageService.cs:50-64`) and the producers' hook
  (`ProducerBase.cs:61-72`) throw NullReference on an actor that never ran;
  `Broker.Stop` and `Producer.Stop` model them through `Actors.DestroyWith`.
- Broker.Stop: the hook cancels the loops' token before it throws, so in
  the source a later `Run` starts loops that stop at once. The model keeps
  only the actor state. Which loops have started is a parameter.
- Producer.Stop: before throwing, the hook has already completed and
  disposed the state subject. The model keeps only the actor state.
- Producer.Publish: `ToProducerMessage` writes the subject into the
  caller's own event object (`EventSerializer.cs:49`). Events are values in
  the model, so that write is visible only in the stamped copy the frame
  carries.
- Reconciliation.CatchUpNoLoss: assumes every snapshot record's id names its
  event's stream (`AllConsistent`). Stream ids with a dot break this; see
  `Reconciliation.DottedStreamDuplicates`.
- Reconciliation.CatchUpNoDuplication: assumes the same, and fails for
  dotted stream ids as `Reconciliation.DottedStreamDuplicates` shows.
- Reconciliation.ReplayIsUnseen: assumes the same. For a dotted stream id,
  the id-string filter keeps events the snapshot already holds.
- Reconciliation.ServedSnapshotVersions: covers the empty subject and a
  dot-free stream name. A longer subject selects part of a stream, whose
  versions may have gaps, so the catch-up's version lemmas do not apply to it.
  A dot-free subject that is a proper prefix of other streams' names
  leaves those streams out of the snapshot although the cache receives
  them live (`Reconciliation.PrefixSubscriptionMissesSnapshot`).
- Aggregates.ApplyEventScenario: the test's counts of applied events do not
  hold for the pair as it builds it; the counts are stated for a pair that
  keeps its history (`Aggregates.ApplyEventScenarioWithHistory`).
