/** The event model: `EventBase` bookkeeping and the two concrete currency-pair
    events, as one closed datatype in place of reflection and `dynamic`
    dispatch. */
module Events {
  import opened Wrappers
  import opened EventIds
  import opened Text

  datatype CcyPairState = Active | Passive

  /** The enum's `ToString`. */
  function StateName(s: CcyPairState): string
  {
    match s
    case Active => "Active"
    case Passive => "Passive"
  }

  /** A price is a `double` that is only ever copied: kept as its 64-bit
      pattern (all-zero bits is +0.0, the field default). */
  type Price = bv64

  /** The domain payload of each concrete event class. `market` is a nullable
      string in the source. */
  datatype EventBody =
    | ChangeCcyPairState(state: CcyPairState, market: Option<string>)
    | ChangeCcyPairPrice(market: Option<string>, ask: Price, bid: Price, mid: Price, spread: Price)

  /** An event: the `EventBase` fields plus its body. `subject` is null until
      the serializer stamps it. */
  datatype Event = Event(eventStreamId: string, subject: Option<string>, version: int, body: EventBody)

  /** The `EventBase(aggregateId)` constructor. */
  function NewEvent(aggregateId: string, body: EventBody): (e: Event)
    ensures e.eventStreamId == aggregateId && e.body == body
    ensures e.version == -1 && e.subject == None
  {
    Event(aggregateId, None, -1, body)
  }

  /** `new ChangeCcyPairState(ccyPairId, market, state)`. */
  function NewChangeCcyPairState(ccyPairId: string, market: Option<string>, state: CcyPairState): (e: Event)
    ensures e.eventStreamId == ccyPairId && e.version == -1
    ensures e.body.ChangeCcyPairState? && e.body.state == state && e.body.market == market
  {
    NewEvent(ccyPairId, ChangeCcyPairState(state, market))
  }

  /** `new ChangeCcyPairPrice(ccyPairId, market, ask, bid, mid, spread)`. */
  function NewChangeCcyPairPrice(ccyPairId: string, market: Option<string>,
                                 ask: Price, bid: Price, mid: Price, spread: Price): (e: Event)
    ensures e.eventStreamId == ccyPairId && e.version == -1
    ensures e.body.ChangeCcyPairPrice? && e.body.market == market
    ensures e.body.ask == ask && e.body.bid == bid && e.body.mid == mid && e.body.spread == spread
  {
    NewEvent(ccyPairId, ChangeCcyPairPrice(market, ask, bid, mid, spread))
  }

  /** `EventBase.EventId`: "stream.version". */
  function EventKey(e: Event): (r: string)
    ensures StartsWith(r, e.eventStreamId + [Separator])
    ensures r[|e.eventStreamId| + 1..] == IntToString(e.version)
  {
    StreamVersionKey(e.eventStreamId, e.version)
  }

  /** Two events share a key exactly when they share stream and version. */
  lemma EventKeyIdentifies(a: Event, b: Event)
    ensures EventKey(a) == EventKey(b) <==> a.eventStreamId == b.eventStreamId && a.version == b.version
  {
    StreamVersionKeyInjective(a.eventStreamId, a.version, b.eventStreamId, b.version);
  }

  /** `EventBase.ToString`. */
  function ToString(e: Event): string
  {
    EventKey(e)
  }

  /** Two events print alike exactly when they share stream and version. */
  lemma ToStringIdentifies(a: Event, b: Event)
    ensures ToString(a) == ToString(b) <==> a.eventStreamId == b.eventStreamId && a.version == b.version
  {
    EventKeyIdentifies(a, b);
  }

  /** The runtime type name of the aggregate type both events target. */
  const CurrencyPairType: string := "CurrencyPair"

  /** `typeof(TAggregate)` of the event's class. */
  function TargetAggregateType(body: EventBody): string
  {
    match body
    case ChangeCcyPairState(_, _) => CurrencyPairType
    case ChangeCcyPairPrice(_, _, _, _, _) => CurrencyPairType
  }

  /** `EventBase.CanApply(type)`: exact type equality, so a subclass of the
      target aggregate type is refused. */
  function CanApply(e: Event, typeName: string): (r: bool)
    ensures r <==> typeName == CurrencyPairType
  {
    typeName == TargetAggregateType(e.body)
  }

  /** The event's runtime class name (`GetType()`), sent as the message type. */
  function EventTypeName(body: EventBody): string
  {
    match body
    case ChangeCcyPairState(_, _) => "ChangeCcyPairState"
    case ChangeCcyPairPrice(_, _, _, _, _) => "ChangeCcyPairPrice"
  }

  /** One property carrying `[RoutingPosition(position)]`, with its value
      already turned into text (`null` stays absent). */
  datatype RoutingField = RoutingField(position: int, value: Option<string>)

  /** The routing properties of each class, in declaration order:
      `State` (0) then `Market` (1); `Market` (0) alone for prices. */
  function RoutingFields(body: EventBody): seq<RoutingField>
  {
    match body
    case ChangeCcyPairState(state, market) =>
      [RoutingField(0, Some(StateName(state))), RoutingField(1, market)]
    case ChangeCcyPairPrice(market, _, _, _, _) =>
      [RoutingField(0, market)]
  }
}
