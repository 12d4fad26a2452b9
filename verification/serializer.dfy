/** `EventSerializer`: subject routing and the stamping of subject and
    version onto events crossing the wire. */
module Serializer {
  import opened Wrappers
  import opened Text
  import opened EventIds
  import opened Events
  import opened Messages

  /** The wildcard token written for a null routing value. */
  const All: string := "*"

  /** `GetAggregateId`: the subject's text before the first '.', or all of it. */
  function GetAggregateId(subject: string): (r: string)
    ensures StartsWith(subject, r)
    ensures Separator !in r
    ensures |r| < |subject| ==> subject[|r|] == Separator
    ensures Separator !in subject ==> r == subject
  {
    FirstToken(subject, Separator)
  }

  // ---------------------------------------------------------------------
  // Ordering routing fields (`OrderBy(x => x.Position)`)

  predicate SortedByPosition(fs: seq<RoutingField>)
  {
    forall i, j :: 0 <= i < j < |fs| ==> fs[i].position <= fs[j].position
  }

  /** Insert `f` before the first field whose position is not below its own. */
  function InsertByPosition(f: RoutingField, fs: seq<RoutingField>): (r: seq<RoutingField>)
    ensures multiset(r) == multiset(fs) + multiset{f}
  {
    if |fs| == 0 || f.position <= fs[0].position then [f] + fs
    else
      assert fs == [fs[0]] + fs[1..];
      [fs[0]] + InsertByPosition(f, fs[1..])
  }

  lemma {:induction false} InsertKeepsOrder(f: RoutingField, fs: seq<RoutingField>)
    requires SortedByPosition(fs)
    ensures SortedByPosition(InsertByPosition(f, fs))
  {
    if |fs| > 0 && f.position > fs[0].position {
      InsertKeepsOrder(f, fs[1..]);
      var rest := InsertByPosition(f, fs[1..]);
      forall i | 0 <= i < |rest|
        ensures fs[0].position <= rest[i].position
      {
        assert rest[i] in multiset(rest);
        if rest[i] != f {
          assert rest[i] in multiset(fs[1..]);
          var k :| 0 <= k < |fs[1..]| && fs[1..][k] == rest[i];
          assert fs[1..][k] == fs[k + 1];
        }
      }
    }
  }

  /** The routing fields in ascending position order, ties in declaration order. */
  function OrderByPosition(fs: seq<RoutingField>): (r: seq<RoutingField>)
    ensures SortedByPosition(r)
    ensures multiset(r) == multiset(fs)
  {
    if |fs| == 0 then []
    else
      assert fs == [fs[0]] + fs[1..];
      InsertKeepsOrder(fs[0], OrderByPosition(fs[1..]));
      InsertByPosition(fs[0], OrderByPosition(fs[1..]))
  }

  /** Ordering fields that are already in position order changes nothing,
      ties included: the sort is stable. */
  lemma {:induction false} OrderOfSorted(fs: seq<RoutingField>)
    requires SortedByPosition(fs)
    ensures OrderByPosition(fs) == fs
  {
    if |fs| > 0 {
      OrderOfSorted(fs[1..]);
      assert fs == [fs[0]] + fs[1..];
    }
  }

  /** A value's text, or the wildcard for null. */
  function Token(f: RoutingField): string
  {
    match f.value
    case None => All
    case Some(v) => v
  }

  function Tokens(fs: seq<RoutingField>): (r: seq<string>)
    ensures |r| == |fs| && forall i :: 0 <= i < |fs| ==> r[i] == Token(fs[i])
  {
    if |fs| == 0 then [] else [Token(fs[0])] + Tokens(fs[1..])
  }

  /** The subject for an event of stream `streamId` with routing properties
      `fields`: the stream, a dot, then the tokens joined by dots in position
      order. The seedless `Aggregate` throws when there are no routing
      properties. */
  function SubjectOf(streamId: string, fields: seq<RoutingField>): (r: Result<string>)
    ensures r.Err? <==> |fields| == 0
    ensures r.Err? ==> r.error.InvalidOperation?
    ensures r.Ok? ==> StartsWith(r.value, streamId + [Separator])
  {
    var tokens := Tokens(OrderByPosition(fields));
    if |tokens| == 0 then Err(InvalidOperation("Sequence contains no elements"))
    else
      var r := streamId + [Separator] + Join(tokens, Separator);
      assert r[..|streamId| + 1] == streamId + [Separator];
      Ok(r)
  }

  /** `GetSubject(event)`: every concrete event declares at least one
      routing property, so its subject is always defined, and it begins
      with the event's stream and a dot. */
  function GetSubject(e: Event): (r: Result<string>)
    ensures r.Ok?
    ensures StartsWith(r.value, e.eventStreamId + [Separator])
  {
    SubjectOf(e.eventStreamId, RoutingFields(e.body))
  }

  /** Round trip: splitting a subject at its dots gives back the stream and
      the tokens in ascending position order, when none of them has a dot. */
  lemma SubjectRoundTrip(streamId: string, fields: seq<RoutingField>)
    requires |fields| > 0
    requires Separator !in streamId
    requires forall i :: 0 <= i < |fields| ==> Separator !in Token(fields[i])
    ensures SubjectOf(streamId, fields).Ok?
    ensures Split(SubjectOf(streamId, fields).value, Separator)
            == [streamId] + Tokens(OrderByPosition(fields))
  {
    var sorted := OrderByPosition(fields);
    var tokens := Tokens(sorted);
    var xs := [streamId] + tokens;
    forall i | 0 <= i < |sorted|
      ensures Separator !in Token(sorted[i])
    {
      assert sorted[i] in multiset(fields);
    }
    assert Join(xs, Separator) == streamId + [Separator] + Join(tokens, Separator) by {
      assert xs[1..] == tokens;
    }
    SplitJoin(xs, Separator);
  }

  /** Round trip: the aggregate id of an event's subject is its stream id,
      when the stream id has no dot. */
  lemma AggregateIdOfSubject(e: Event)
    requires Separator !in e.eventStreamId
    ensures GetSubject(e).Ok?
    ensures GetAggregateId(GetSubject(e).value) == e.eventStreamId
  {
    var tokens := Tokens(OrderByPosition(RoutingFields(e.body)));
    SplitAfterPiece(e.eventStreamId, Join(tokens, Separator), Separator);
  }

  /** For fields already in position order the subject is the stream, a
      dot and the tokens joined in the given order. */
  lemma SubjectOfSorted(streamId: string, fs: seq<RoutingField>)
    requires |fs| > 0 && SortedByPosition(fs)
    ensures SubjectOf(streamId, fs) == Ok(streamId + [Separator] + Join(Tokens(fs), Separator))
  {
    OrderOfSorted(fs);
  }

  /** The subject of a state change: stream, state, market (or `*`). */
  lemma SubjectOfStateChange(streamId: string, market: Option<string>, state: CcyPairState)
    ensures GetSubject(NewChangeCcyPairState(streamId, market, state))
            == Ok(streamId + [Separator] + (StateName(state) + [Separator]
                  + (if market.Some? then market.value else All)))
  {
    var fs := [RoutingField(0, Some(StateName(state))), RoutingField(1, market)];
    assert RoutingFields(NewChangeCcyPairState(streamId, market, state).body) == fs;
    SubjectOfSorted(streamId, fs);
    JoinTwoTokens(fs);
  }

  lemma JoinTwoTokens(fs: seq<RoutingField>)
    requires |fs| == 2
    ensures Join(Tokens(fs), Separator) == Token(fs[0]) + [Separator] + Token(fs[1])
  {
    assert Tokens(fs) == [Token(fs[0]), Token(fs[1])];
    assert Tokens(fs)[1..] == [Token(fs[1])];
  }

  /** The subject of a price change: stream, market (or `*`). */
  lemma SubjectOfPriceChange(streamId: string, market: Option<string>, ask: Price, bid: Price, mid: Price, spread: Price)
    ensures GetSubject(NewChangeCcyPairPrice(streamId, market, ask, bid, mid, spread))
            == Ok(streamId + [Separator] + (if market.Some? then market.value else All))
  {
    var fs := [RoutingField(0, market)];
    assert RoutingFields(NewChangeCcyPairPrice(streamId, market, ask, bid, mid, spread).body) == fs;
    SubjectOfSorted(streamId, fs);
    assert Tokens(fs) == [Token(fs[0])];
  }

  /** The subjects the source's own tests expect. */
  lemma SubjectExampleActive()
    ensures GetSubject(NewChangeCcyPairState("test", Some("FxConnect"), Active)) == Ok("test.Active.FxConnect")
  {
    SubjectOfStateChange("test", Some("FxConnect"), Active);
    DottedText("test", "Active", "FxConnect", "test.Active.FxConnect");
  }

  lemma SubjectExampleNullMarket()
    ensures GetSubject(NewChangeCcyPairState("test", None, Passive)) == Ok("test.Passive.*")
  {
    SubjectOfStateChange("test", None, Passive);
    DottedText("test", "Passive", All, "test.Passive.*");
  }

  lemma SubjectExamplePrice()
    ensures GetSubject(NewChangeCcyPairPrice("test", Some("market"), 0, 0, 0, 0)) == Ok("test.market")
  {
    SubjectOfPriceChange("test", Some("market"), 0, 0, 0, 0);
    assert "test" + [Separator] + "market" == "test.market";
  }

  /** Spelling out a three-token subject. */
  lemma DottedText(a: string, b: string, c: string, abc: string)
    requires |abc| == |a| + |b| + |c| + 2
    requires abc[..|a|] == a && abc[|a|] == Separator
    requires abc[|a| + 1..|a| + 1 + |b|] == b && abc[|a| + 1 + |b|] == Separator
    requires abc[|a| + |b| + 2..] == c
    ensures a + [Separator] + (b + [Separator] + c) == abc
  {
  }

  /** `ToProducerMessage`: stamp the event's subject and wrap the stamped
      event, with that subject and its type name, into a producer message. */
  function ToProducerMessage(e: Event): (r: Result<(Event, ProducerMessage)>)
    ensures r.Ok? <==> GetSubject(e).Ok?
    ensures r.Ok? ==>
      var (stamped, msg) := r.value;
      && stamped == e.(subject := Some(GetSubject(e).value))
      && msg.subject == GetSubject(e).value
      && msg.event == stamped
      && msg.messageType == EventTypeName(e.body)
  {
    match GetSubject(e)
    case Err(x) => Err(x)
    case Ok(subject) =>
      var stamped := e.(subject := Some(subject));
      Ok((stamped, ProducerMessage(subject, stamped, EventTypeName(stamped.body))))
  }

  /** `ToEvent(eventId, producerMessage)`: decode the event and give it the
      broker-assigned version. */
  function ToEvent(id: EventId, msg: ProducerMessage): (e: Event)
    ensures e.version == id.version
    ensures e.eventStreamId == msg.event.eventStreamId
    ensures e.subject == msg.event.subject && e.body == msg.event.body
  {
    msg.event.(version := id.version)
  }

  /** `ToEvent(eventMessage)`: the same, from a logged record. */
  function MessageToEvent(m: EventMessage<ProducerMessage>): (e: Event)
    ensures e.version == m.eventId.version
    ensures e == ToEvent(m.eventId, m.message)
  {
    ToEvent(m.eventId, m.message)
  }
}
