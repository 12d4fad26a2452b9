/** `AggregateBase` and the demo `CurrencyPair` aggregate: a version counter,
    an optional history of applied events, and the domain fields that the
    events' own `Apply` mutates. */
module Aggregates {
  import opened Wrappers
  import opened Events

  /** The `CurrencyPair` domain fields. */
  datatype CurrencyPair = CurrencyPair(state: CcyPairState, ask: Price, bid: Price, mid: Price, spread: Price)

  /** Field defaults of a fresh `CurrencyPair`: the enum's first member and
      +0.0 prices. */
  const DefaultPair: CurrencyPair := CurrencyPair(Active, 0, 0, 0, 0)

  /** An aggregate: `typeName` is its runtime type (`GetType()`), which the
      type guard compares against the event's target type. */
  datatype Aggregate = Aggregate(
    typeName: string,
    id: string,
    version: int,
    doStoreEvents: bool,
    appliedEvents: seq<Event>,
    pair: CurrencyPair)

  /** `new TAggregate { Id = id }` with the given history flag. */
  function NewAggregate(typeName: string, id: string, doStoreEvents: bool): (a: Aggregate)
    ensures a.typeName == typeName && a.id == id && a.doStoreEvents == doStoreEvents
    ensures a.version == -1 && a.appliedEvents == []
    ensures a.pair == DefaultPair
  {
    Aggregate(typeName, id, -1, doStoreEvents, [], DefaultPair)
  }

  /** The concrete events' own `Apply(CurrencyPair)`: a state change sets the
      state; a price change copies the four prices. Nothing else moves. */
  function Mutate(e: Event, p: CurrencyPair): (r: CurrencyPair)
    ensures e.body.ChangeCcyPairState? ==>
      r.state == e.body.state && r.ask == p.ask && r.bid == p.bid && r.mid == p.mid && r.spread == p.spread
    ensures e.body.ChangeCcyPairPrice? ==>
      r.state == p.state && r.ask == e.body.ask && r.bid == e.body.bid && r.mid == e.body.mid && r.spread == e.body.spread
  {
    match e.body
    case ChangeCcyPairState(state, _) => p.(state := state)
    case ChangeCcyPairPrice(_, ask, bid, mid, spread) => p.(ask := ask, bid := bid, mid := mid, spread := spread)
  }

  /** `OnEventApplied`: record the event when history is kept, and count it.
      The prices, the state, the id and the flag are left alone. */
  function OnEventApplied(a: Aggregate, e: Event): (r: Aggregate)
    ensures r.version == a.version + 1
    ensures |r.appliedEvents| == |a.appliedEvents| + (if a.doStoreEvents then 1 else 0)
    ensures r.appliedEvents[..|a.appliedEvents|] == a.appliedEvents
    ensures a.doStoreEvents ==> r.appliedEvents[|a.appliedEvents|] == e
    ensures r.pair == a.pair && r.id == a.id && r.typeName == a.typeName && r.doStoreEvents == a.doStoreEvents
  {
    a.(appliedEvents := if a.doStoreEvents then a.appliedEvents + [e] else a.appliedEvents,
       version := a.version + 1)
  }

  /** `Apply<TAggregate>(IEvent<TKey, TAggregate>)`: run the event's mutation,
      then record it. The compiler has already matched the event to the
      aggregate type, so there is no runtime guard. */
  function Apply(a: Aggregate, e: Event): (r: Aggregate)
    ensures r.version == a.version + 1
    ensures a.doStoreEvents ==> r.appliedEvents == a.appliedEvents + [e]
    ensures !a.doStoreEvents ==> r.appliedEvents == a.appliedEvents
    ensures r.pair == Mutate(e, a.pair)
    ensures r.id == a.id && r.typeName == a.typeName && r.doStoreEvents == a.doStoreEvents
  {
    OnEventApplied(a.(pair := Mutate(e, a.pair)), e)
  }

  /** `Apply(IEvent)`: refuse, before touching anything, an event whose
      `CanApply` rejects this aggregate's runtime type; otherwise as `Apply`. */
  function ApplyChecked(a: Aggregate, e: Event): (r: Result<Aggregate>)
    ensures r.Ok? <==> CanApply(e, a.typeName)
    ensures r.Ok? ==> r.value == Apply(a, e)
    ensures r.Err? ==> r.error == CannotApply(a.typeName)
  {
    if !CanApply(e, a.typeName) then Err(CannotApply(a.typeName)) else Ok(Apply(a, e))
  }

  /** Apply the events one after another. */
  function ApplyAll(a: Aggregate, es: seq<Event>): Aggregate
    decreases |es|
  {
    if |es| == 0 then a else ApplyAll(Apply(a, es[0]), es[1..])
  }

  /** After n applies the version has moved by n, the id is untouched, and
      the history (when kept) has gained exactly the events, in order. */
  lemma {:induction false} ApplyAllCounts(a: Aggregate, es: seq<Event>)
    ensures ApplyAll(a, es).version == a.version + |es|
    ensures ApplyAll(a, es).id == a.id && ApplyAll(a, es).typeName == a.typeName
    ensures ApplyAll(a, es).doStoreEvents == a.doStoreEvents
    ensures a.doStoreEvents ==> ApplyAll(a, es).appliedEvents == a.appliedEvents + es
    ensures !a.doStoreEvents ==> ApplyAll(a, es).appliedEvents == a.appliedEvents
    decreases |es|
  {
    if |es| > 0 {
      ApplyAllCounts(Apply(a, es[0]), es[1..]);
      assert a.appliedEvents + [es[0]] + es[1..] == a.appliedEvents + es;
    }
  }

  /** Applying one more event after a replay is applying it last. */
  lemma {:induction false} ApplyAllSnoc(a: Aggregate, es: seq<Event>, e: Event)
    ensures ApplyAll(a, es + [e]) == Apply(ApplyAll(a, es), e)
    decreases |es|
  {
    if |es| > 0 {
      ApplyAllSnoc(Apply(a, es[0]), es[1..], e);
      assert (es + [e])[1..] == es[1..] + [e];
    }
  }

  /** A fresh aggregate that has applied n events has version n - 1. */
  lemma NewAggregateVersion(typeName: string, id: string, doStoreEvents: bool, es: seq<Event>)
    ensures ApplyAll(NewAggregate(typeName, id, doStoreEvents), es).version == |es| - 1
  {
    ApplyAllCounts(NewAggregate(typeName, id, doStoreEvents), es);
  }

  predicate IsPrice(e: Event)
  {
    e.body.ChangeCcyPairPrice?
  }

  /** Replaying events ending in a price change leaves the prices of that
      last event, whatever came before. */
  lemma {:induction false} LastPriceWins(a: Aggregate, es: seq<Event>)
    requires |es| > 0 && IsPrice(es[|es| - 1])
    ensures var last := es[|es| - 1].body;
      var p := ApplyAll(a, es).pair;
      p.ask == last.ask && p.bid == last.bid && p.mid == last.mid && p.spread == last.spread
    decreases |es|
  {
    if |es| > 1 {
      LastPriceWins(Apply(a, es[0]), es[1..]);
      assert es[1..][|es[1..]| - 1] == es[|es| - 1];
    }
  }

  /** Price changes never touch the state. */
  lemma {:induction false} PricesKeepState(a: Aggregate, es: seq<Event>)
    requires forall i :: 0 <= i < |es| ==> IsPrice(es[i])
    ensures ApplyAll(a, es).pair.state == a.pair.state
    decreases |es|
  {
    if |es| > 0 {
      PricesKeepState(Apply(a, es[0]), es[1..]);
    }
  }

  /** The source's `ShouldApplyEvent` scenario as its test builds the pair:
      an Active pair goes Passive through the typed `Apply`, then Active
      again through the checked `Apply(IEvent)`, counting one version each
      time. The pair is built without setting `DoStoreEvents`, so nothing
      is kept in its history. */
  lemma ApplyEventScenario(p: CurrencyPair)
    requires p.state == Active
    ensures var a := Aggregate(CurrencyPairType, "EUR/USD", -1, false, [], p);
      var passive := NewChangeCcyPairState("EUR/USD", Some(""), Passive);
      var active := NewChangeCcyPairState("EUR/USD", Some(""), Active);
      var a1 := Apply(a, passive);
      && a1.pair.state == Passive && a1.version == 0 && a1.appliedEvents == []
      && ApplyChecked(a1, active).Ok?
      && var a2 := ApplyChecked(a1, active).value;
      && a2.pair.state == Active && a2.version == 1 && a2.appliedEvents == []
  {
  }

  /** The same scenario on a pair that keeps its history: one, then two
      applied events, in order. */
  lemma ApplyEventScenarioWithHistory(p: CurrencyPair)
    requires p.state == Active
    ensures var a := Aggregate(CurrencyPairType, "EUR/USD", -1, true, [], p);
      var passive := NewChangeCcyPairState("EUR/USD", Some(""), Passive);
      var active := NewChangeCcyPairState("EUR/USD", Some(""), Active);
      var a1 := Apply(a, passive);
      && a1.pair.state == Passive && a1.appliedEvents == [passive]
      && ApplyChecked(a1, active).Ok?
      && var a2 := ApplyChecked(a1, active).value;
      && a2.pair.state == Active && a2.appliedEvents == [passive, active]
  {
  }

  /** The type guard is exact: an aggregate of any other runtime type, a
      subclass included, is refused and left as it was. */
  lemma GuardRejectsOtherTypes(a: Aggregate, e: Event)
    requires a.typeName != CurrencyPairType
    ensures ApplyChecked(a, e) == Err(CannotApply(a.typeName))
  {
  }
}
