/** `InMemoryEventCache`: the broker's append-only log, one version-sorted
    record list per stream, with the stream and subject-prefix queries the
    snapshot channel serves. The lock around each insert makes an append one
    atomic step here. */
module EventLog {
  import opened Wrappers
  import opened Text
  import opened EventIds
  import opened IdProviders
  import opened Messages
  import opened Serializer
  import opened Seqs

  /** `order` is the enumeration order of the stream dictionary: streams in
      the order they were first appended to. */
  datatype Log<P> = Log(provider: IdProvider, streams: map<string, seq<EventMessage<P>>>, order: seq<string>)

  /** A new, empty log over the given id provider. */
  function NewLog<P>(provider: IdProvider): (log: Log<P>)
    ensures log.provider == provider && log.streams == map[] && log.order == []
  {
    Log(provider, map[], [])
  }

  // ---------------------------------------------------------------------
  // One stream: a `SortedList` keyed by version

  predicate StrictlySorted<P>(rs: seq<EventMessage<P>>)
  {
    forall i, j :: 0 <= i < j < |rs| ==> rs[i].eventId.version < rs[j].eventId.version
  }

  predicate HasVersion<P>(rs: seq<EventMessage<P>>, v: int)
  {
    exists i :: 0 <= i < |rs| && rs[i].eventId.version == v
  }

  /** `SortedList.Add` of a fresh key: the record goes before the first one
      with a greater version. */
  function InsertByVersion<P>(r: EventMessage<P>, rs: seq<EventMessage<P>>): (out: seq<EventMessage<P>>)
    ensures multiset(out) == multiset(rs) + multiset{r}
  {
    if |rs| == 0 then [r]
    else if r.eventId.version < rs[0].eventId.version then [r] + rs
    else
      assert rs == [rs[0]] + rs[1..];
      [rs[0]] + InsertByVersion(r, rs[1..])
  }

  /** Inserting a version not yet present keeps a stream strictly sorted. */
  lemma {:induction false} InsertKeepsSorted<P>(r: EventMessage<P>, rs: seq<EventMessage<P>>)
    requires StrictlySorted(rs)
    requires !HasVersion(rs, r.eventId.version)
    ensures StrictlySorted(InsertByVersion(r, rs))
  {
    if |rs| > 0 && r.eventId.version >= rs[0].eventId.version {
      assert rs[0].eventId.version != r.eventId.version;
      assert forall i :: 0 <= i < |rs[1..]| ==> rs[1..][i] == rs[i + 1];
      assert !HasVersion(rs[1..], r.eventId.version);
      InsertKeepsSorted(r, rs[1..]);
      var rest := InsertByVersion(r, rs[1..]);
      forall i | 0 <= i < |rest|
        ensures rs[0].eventId.version < rest[i].eventId.version
      {
        assert rest[i] in multiset(rest);
        if rest[i] != r {
          assert rest[i] in multiset(rs[1..]);
          var k :| 0 <= k < |rs[1..]| && rs[1..][k] == rest[i];
          assert rs[1..][k] == rs[k + 1];
        }
      }
    }
  }

  /** A version above every stored one is appended at the end. */
  lemma {:induction false} InsertAboveAppends<P>(r: EventMessage<P>, rs: seq<EventMessage<P>>)
    requires forall i :: 0 <= i < |rs| ==> rs[i].eventId.version < r.eventId.version
    ensures InsertByVersion(r, rs) == rs + [r]
  {
    if |rs| > 0 {
      assert forall i :: 0 <= i < |rs[1..]| ==> rs[1..][i] == rs[i + 1];
      InsertAboveAppends(r, rs[1..]);
      assert rs == [rs[0]] + rs[1..];
    }
  }

  /** `GetStream(streamId)`: the stream's records, or none for an unknown id. */
  function GetStream<P>(log: Log<P>, streamId: string): (r: seq<EventMessage<P>>)
    ensures streamId !in log.streams ==> r == []
    ensures streamId in log.streams ==> r == log.streams[streamId]
  {
    if streamId in log.streams then log.streams[streamId] else []
  }

  /** The stream after `SortedList.Add(rec)`: unchanged when the version is
      already a key (the call throws), else with `rec` inserted. */
  function StreamAfterAdd<P>(stream: seq<EventMessage<P>>, rec: EventMessage<P>): seq<EventMessage<P>>
  {
    if HasVersion(stream, rec.eventId.version) then stream else InsertByVersion(rec, stream)
  }

  /** `ConcurrentDictionary.GetOrAdd` on the enumeration order. */
  function OrderAfterAdd<P>(log: Log<P>, streamId: string): seq<string>
  {
    if streamId in log.streams then log.order else log.order + [streamId]
  }

  /** `AppendToStream(subject, payload)`; `timestamp` stands for the clock read
      by the id provider. The stream is the subject's first token. A version
      already present in the stream makes `SortedList.Add` throw, after the
      provider has advanced and the stream entry exists. */
  function Append<P>(log: Log<P>, subject: string, payload: P, timestamp: int): (r: (Log<P>, Result<EventId>))
    ensures var sid := GetAggregateId(subject);
      var (p', id) := Next(log.provider, sid, subject, timestamp);
      && r.0.provider == p'
      && sid in r.0.streams
      && (r.1.Err? <==> HasVersion(GetStream(log, sid), id.version))
      && (r.1.Ok? ==> r.1.value == id)
      && (r.1.Err? ==> r.1.error == DuplicateKey(id.version))
      && (forall s :: s != sid ==> GetStream(r.0, s) == GetStream(log, s))
  {
    var streamId := GetAggregateId(subject);
    var next := Next(log.provider, streamId, subject, timestamp);
    var stream := GetStream(log, streamId);
    var log' := Log(next.0, log.streams[streamId := StreamAfterAdd(stream, EventMessage(next.1, payload))],
                    OrderAfterAdd(log, streamId));
    (log', if HasVersion(stream, next.1.version) then Err(DuplicateKey(next.1.version)) else Ok(next.1))
  }

  /** What one append does to the target stream: it gains exactly the
      record with the returned id and the given payload, or is left as it
      was when the version is already taken. */
  lemma AppendSpec<P>(log: Log<P>, subject: string, payload: P, timestamp: int)
    ensures var (log', res) := Append(log, subject, payload, timestamp);
      var sid := GetAggregateId(subject);
      var id := Next(log.provider, sid, subject, timestamp).1;
      && (res.Ok? ==> multiset(GetStream(log', sid)) == multiset(GetStream(log, sid)) + multiset{EventMessage(id, payload)})
      && (res.Err? ==> GetStream(log', sid) == GetStream(log, sid))
  {
  }

  /** `Clear`: drop every stream; the id provider keeps its counters. */
  function Clear<P>(log: Log<P>): (r: Log<P>)
    ensures r.provider == log.provider
    ensures forall s :: GetStream(r, s) == []
    ensures GetAllStreams(r) == []
  {
    Log(log.provider, map[], [])
  }

  /** `Reset` on the id provider the log was built with. */
  function ResetIds<P>(log: Log<P>): (r: Log<P>)
    ensures r.streams == log.streams && r.order == log.order
    ensures forall s :: NextVersion(r.provider, s) == 0
  {
    log.(provider := Reset(log.provider))
  }

  function Concat<P>(log: Log<P>, order: seq<string>): seq<EventMessage<P>>
  {
    if |order| == 0 then [] else GetStream(log, order[0]) + Concat(log, order[1..])
  }

  /** `GetAllStreams` (`SelectMany` over the streams): every stream's
      records, stream after stream. Picking out one stream's records gives
      back that stream whole, in version order and each record once. */
  function GetAllStreams<P>(log: Log<P>): (r: seq<EventMessage<P>>)
    ensures Valid(log) ==> forall s :: RecordsOf(r, s) == GetStream(log, s)
  {
    AllStreamsProjection(log);
    Concat(log, log.order)
  }

  /** The records of `rs` whose subject starts with `subject`, in order. */
  function WithSubjectPrefix<P>(rs: seq<EventMessage<P>>, subject: string): (out: seq<EventMessage<P>>)
    ensures |out| <= |rs|
    ensures forall i :: 0 <= i < |out| ==> out[i] in rs && StartsWith(out[i].eventId.subject, subject)
    ensures forall i :: 0 <= i < |rs| && StartsWith(rs[i].eventId.subject, subject) ==> rs[i] in out
    ensures SubsequenceOf(out, rs)
  {
    if |rs| == 0 then []
    else
      var rest := WithSubjectPrefix(rs[1..], subject);
      assert rs == [rs[0]] + rs[1..];
      if StartsWith(rs[0].eventId.subject, subject) then
        assert ([rs[0]] + rest)[1..] == rest;
        [rs[0]] + rest
      else
        SubsequenceCons(rest, rs[1..], rs[0]);
        rest
  }

  /** The filter keeps order: when every record matches, it keeps them all. */
  lemma {:induction false} FilterKeepsAll<P>(rs: seq<EventMessage<P>>, subject: string)
    requires forall k :: 0 <= k < |rs| ==> StartsWith(rs[k].eventId.subject, subject)
    ensures WithSubjectPrefix(rs, subject) == rs
    decreases |rs|
  {
    if |rs| > 0 {
      FilterKeepsAll(rs[1..], subject);
      assert rs == [rs[0]] + rs[1..];
    }
  }

  /** `GetStreamBySubject(subject)`: everything for the empty subject;
      otherwise only the stream named by the subject's first token, and in it
      only the records whose own subject starts with the requested one. */
  function GetStreamBySubject<P>(log: Log<P>, subject: string): (r: seq<EventMessage<P>>)
    ensures subject == "" ==> r == GetAllStreams(log)
    ensures subject != "" && GetAggregateId(subject) !in log.streams ==> r == []
    ensures subject != "" ==> SubsequenceOf(r, GetStream(log, GetAggregateId(subject)))
    ensures subject != "" ==>
      && (forall i :: 0 <= i < |r| ==>
            r[i] in GetStream(log, GetAggregateId(subject)) && StartsWith(r[i].eventId.subject, subject))
      && (var stream := GetStream(log, GetAggregateId(subject));
          forall i :: 0 <= i < |stream| && StartsWith(stream[i].eventId.subject, subject) ==> stream[i] in r)
  {
    if subject == "" then GetAllStreams(log)
    else
      var streamId := GetAggregateId(subject);
      if streamId !in log.streams then [] else WithSubjectPrefix(log.streams[streamId], subject)
  }

  // ---------------------------------------------------------------------
  // Invariants

  /** A record filed under stream `s` carries `s` as its stream, and `s` is
      the first token of its subject. */
  predicate Filed<P>(rec: EventMessage<P>, s: string)
  {
    rec.eventId.eventStream == s && GetAggregateId(rec.eventId.subject) == s
  }

  /** One stream as the log keeps it: sorted by strictly increasing version,
      every record filed under it. */
  ghost predicate StreamOk<P>(rs: seq<EventMessage<P>>, s: string)
  {
    StrictlySorted(rs) && forall k :: 0 <= k < |rs| ==> Filed(rs[k], s)
  }

  /** The structural invariant of the log: `order` lists each stream once,
      and every stream is sorted and filed. */
  ghost predicate Valid<P>(log: Log<P>)
  {
    && (forall i, j :: 0 <= i < j < |log.order| ==> log.order[i] != log.order[j])
    && (forall s :: s in log.streams <==> s in log.order)
    && (forall s :: s in log.streams ==> StreamOk(log.streams[s], s))
  }

  lemma NewLogValid<P>(provider: IdProvider)
    ensures Valid(NewLog<P>(provider))
  {
  }

  /** Adding a record filed under `s` to a well-kept stream keeps it well kept. */
  lemma StreamAfterAddOk<P>(rs: seq<EventMessage<P>>, rec: EventMessage<P>, s: string)
    requires StreamOk(rs, s)
    requires Filed(rec, s)
    ensures StreamOk(StreamAfterAdd(rs, rec), s)
  {
    var out := StreamAfterAdd(rs, rec);
    if !HasVersion(rs, rec.eventId.version) {
      InsertKeepsSorted(rec, rs);
    }
    forall k | 0 <= k < |out|
      ensures Filed(out[k], s)
    {
      assert out[k] in multiset(out);
      if out[k] != rec {
        assert out[k] in multiset(rs);
        var j :| 0 <= j < |rs| && rs[j] == out[k];
      }
    }
  }

  /** Appending keeps the log sorted and filed, whatever the provider says. */
  lemma AppendPreservesValid<P>(log: Log<P>, subject: string, payload: P, timestamp: int)
    requires Valid(log)
    ensures Valid(Append(log, subject, payload, timestamp).0)
  {
    var log' := Append(log, subject, payload, timestamp).0;
    var sid := GetAggregateId(subject);
    var id := Next(log.provider, sid, subject, timestamp).1;
    StreamAfterAddOk(GetStream(log, sid), EventMessage(id, payload), sid);
    assert log'.streams == log.streams[sid := StreamAfterAdd(GetStream(log, sid), EventMessage(id, payload))];
    assert log'.order == OrderAfterAdd(log, sid);
  }

  /** The log agrees with its provider: every stored version is below the
      version the provider will hand out next for that stream. A `Reset` of
      the provider alone breaks this. */
  ghost predicate InSync<P>(log: Log<P>)
  {
    && Valid(log)
    && forall s :: s in log.streams ==> Below(log.streams[s], NextVersion(log.provider, s))
  }

  predicate Below<P>(rs: seq<EventMessage<P>>, v: int)
  {
    forall k :: 0 <= k < |rs| ==> rs[k].eventId.version < v
  }

  /** An append whose stream holds only versions below the provider's next
      one succeeds and lands at the end of that stream. */
  lemma AppendAtEnd<P>(log: Log<P>, subject: string, payload: P, timestamp: int)
    requires Below(GetStream(log, GetAggregateId(subject)), NextVersion(log.provider, GetAggregateId(subject)))
    ensures var (log', res) := Append(log, subject, payload, timestamp);
      var sid := GetAggregateId(subject);
      && res.Ok?
      && res.value == Next(log.provider, sid, subject, timestamp).1
      && log'.streams == log.streams[sid := GetStream(log, sid) + [EventMessage(res.value, payload)]]
      && log'.provider == Next(log.provider, sid, subject, timestamp).0
  {
    var sid := GetAggregateId(subject);
    var next := Next(log.provider, sid, subject, timestamp);
    var stream := GetStream(log, sid);
    assert !HasVersion(stream, next.1.version);
    InsertAboveAppends(EventMessage(next.1, payload), stream);
  }

  /** In sync, an append never fails and lands at the end of its stream:
      the log is append-only. */
  lemma AppendInSync<P>(log: Log<P>, subject: string, payload: P, timestamp: int)
    requires InSync(log)
    ensures var (log', res) := Append(log, subject, payload, timestamp);
      && res.Ok?
      && GetStream(log', GetAggregateId(subject)) == GetStream(log, GetAggregateId(subject)) + [EventMessage(res.value, payload)]
      && InSync(log')
  {
    AppendAtEnd(log, subject, payload, timestamp);
    AppendPreservesValid(log, subject, payload, timestamp);
    AppendKeepsBelow(log, subject, payload, timestamp);
  }

  /** Every stream stays below the provider's next version after an append
      that lands at the end of its stream. */
  lemma AppendKeepsBelow<P>(log: Log<P>, subject: string, payload: P, timestamp: int)
    requires forall s :: s in log.streams ==> Below(log.streams[s], NextVersion(log.provider, s))
    ensures var log' := Append(log, subject, payload, timestamp).0;
      forall s :: s in log'.streams ==> Below(log'.streams[s], NextVersion(log'.provider, s))
  {
    var sid := GetAggregateId(subject);
    var next := Next(log.provider, sid, subject, timestamp);
    var log' := Append(log, subject, payload, timestamp).0;
    assert Below(GetStream(log, sid), NextVersion(log.provider, sid));
    AppendAtEnd(log, subject, payload, timestamp);
    forall s | s in log'.streams
      ensures Below(log'.streams[s], NextVersion(log'.provider, s))
    {
      if s != sid {
        NextLeavesOtherStreams(log.provider, sid, subject, timestamp, s);
        assert log'.streams[s] == log.streams[s];
      } else {
        assert log'.streams[s] == GetStream(log, sid) + [EventMessage(next.1, payload)];
        assert NextVersion(log'.provider, s) == next.1.version + 1;
      }
    }
  }

  /** The log as the broker keeps it when nothing is cleared or reset: every
      stream holds versions 0, 1, …, n-1 in order, and the provider's next
      version for it is n. */
  ghost predicate Contiguous<P>(log: Log<P>)
  {
    && Valid(log)
    && (forall s :: NextVersion(log.provider, s) == |GetStream(log, s)|)
    && (forall s :: s in log.streams ==> Numbered(log.streams[s]))
  }

  /** Record k carries version k. */
  predicate Numbered<P>(rs: seq<EventMessage<P>>)
  {
    forall k :: 0 <= k < |rs| ==> rs[k].eventId.version == k
  }

  lemma NewLogContiguous<P>()
    ensures Contiguous(NewLog<P>(NewProvider()))
  {
  }

  /** Appending to a contiguous log stamps the next version of the stream,
      i.e. its current length, and keeps it contiguous. */
  lemma AppendContiguous<P>(log: Log<P>, subject: string, payload: P, timestamp: int)
    requires Contiguous(log)
    ensures var (log', res) := Append(log, subject, payload, timestamp);
      && res.Ok?
      && res.value.version == |GetStream(log, GetAggregateId(subject))|
      && Contiguous(log')
  {
    var sid := GetAggregateId(subject);
    var stream := GetStream(log, sid);
    assert NextVersion(log.provider, sid) == |stream|;
    assert Numbered(stream) by {
      if sid in log.streams {
        assert Numbered(log.streams[sid]);
      }
    }
    AppendAtEnd(log, subject, payload, timestamp);
    AppendPreservesValid(log, subject, payload, timestamp);
    AppendKeepsCounts(log, subject, payload, timestamp);
    AppendKeepsNumbered(log, subject, payload, timestamp);
  }

  lemma AppendKeepsCounts<P>(log: Log<P>, subject: string, payload: P, timestamp: int)
    requires forall s :: NextVersion(log.provider, s) == |GetStream(log, s)|
    requires Numbered(GetStream(log, GetAggregateId(subject)))
    ensures var log' := Append(log, subject, payload, timestamp).0;
      forall s :: NextVersion(log'.provider, s) == |GetStream(log', s)|
  {
    var sid := GetAggregateId(subject);
    assert NextVersion(log.provider, sid) == |GetStream(log, sid)|;
    AppendAtEnd(log, subject, payload, timestamp);
    var log' := Append(log, subject, payload, timestamp).0;
    forall s
      ensures NextVersion(log'.provider, s) == |GetStream(log', s)|
    {
      assert NextVersion(log.provider, s) == |GetStream(log, s)|;
    }
  }

  lemma AppendKeepsNumbered<P>(log: Log<P>, subject: string, payload: P, timestamp: int)
    requires forall s :: s in log.streams ==> Numbered(log.streams[s])
    requires NextVersion(log.provider, GetAggregateId(subject)) == |GetStream(log, GetAggregateId(subject))|
    ensures var log' := Append(log, subject, payload, timestamp).0;
      forall s :: s in log'.streams ==> Numbered(log'.streams[s])
  {
    var sid := GetAggregateId(subject);
    var stream := GetStream(log, sid);
    assert Numbered(stream);
    AppendAtEnd(log, subject, payload, timestamp);
  }

  /** `Clear` does not rewind the provider: a stream that had n records gets
      version n on its next append, not 0. */
  lemma ClearKeepsVersions<P>(log: Log<P>, subject: string, payload: P, timestamp: int)
    requires Contiguous(log)
    requires |GetStream(log, GetAggregateId(subject))| > 0
    ensures var res := Append(Clear(log), subject, payload, timestamp).1;
      res.Ok? && res.value.version == |GetStream(log, GetAggregateId(subject))| > 0
  {
    var sid := GetAggregateId(subject);
    assert NextVersion(log.provider, sid) == |GetStream(log, sid)|;
  }

  /** Resetting the provider without clearing the log makes the next append
      to a used stream collide with version 0. */
  lemma ResetWithoutClearCollides<P>(log: Log<P>, subject: string, payload: P, timestamp: int)
    requires Contiguous(log)
    requires |GetStream(log, GetAggregateId(subject))| > 0
    ensures Append(ResetIds(log), subject, payload, timestamp).1 == Err(DuplicateKey(0))
  {
    var sid := GetAggregateId(subject);
    assert GetStream(log, sid)[0].eventId.version == 0;
  }

  // ---------------------------------------------------------------------
  // Queries

  lemma {:induction false} ConcatMembers<P>(log: Log<P>, order: seq<string>, x: EventMessage<P>)
    ensures x in Concat(log, order) <==> exists i :: 0 <= i < |order| && x in GetStream(log, order[i])
    decreases |order|
  {
    if |order| > 0 {
      ConcatMembers(log, order[1..], x);
      if x in GetStream(log, order[0]) {
        assert 0 <= 0 < |order| && x in GetStream(log, order[0]);
      }
      if exists i :: 0 <= i < |order| && x in GetStream(log, order[i]) {
        var i :| 0 <= i < |order| && x in GetStream(log, order[i]);
        if i > 0 {
          assert order[1..][i - 1] == order[i];
        }
      }
    }
  }

  /** `GetAllStreams` returns exactly the records of all streams. */
  lemma AllStreamsMembers<P>(log: Log<P>, x: EventMessage<P>)
    requires Valid(log)
    ensures x in GetAllStreams(log) <==> exists s :: s in log.streams && x in log.streams[s]
  {
    ConcatMembers(log, log.order, x);
    if exists s :: s in log.streams && x in log.streams[s] {
      var s :| s in log.streams && x in log.streams[s];
      var i :| 0 <= i < |log.order| && log.order[i] == s;
    }
  }

  /** A filter containing a dot names one stream, so the stream-restricted
      query returns exactly the logged records whose subject starts with it:
      it agrees with the prefix match a live subscription applies. */
  lemma SubjectQueryMatchesPrefix<P>(log: Log<P>, subject: string, x: EventMessage<P>)
    requires Valid(log)
    requires Separator in subject
    ensures x in GetStreamBySubject(log, subject) <==>
      x in GetAllStreams(log) && StartsWith(x.eventId.subject, subject)
  {
    AllStreamsMembers(log, x);
    var sid := GetAggregateId(subject);
    if x in GetAllStreams(log) && StartsWith(x.eventId.subject, subject) {
      var s :| s in log.streams && x in log.streams[s];
      var k :| 0 <= k < |log.streams[s]| && log.streams[s][k] == x;
      assert StreamOk(log.streams[s], s);
      assert Filed(x, s);
      FirstTokenOfExtension(subject, x.eventId.subject, Separator);
    }
  }

  /** The records of `rs` filed under stream `s`, in order. */
  function RecordsOf<P>(rs: seq<EventMessage<P>>, s: string): (r: seq<EventMessage<P>>)
    ensures |r| <= |rs|
    decreases |rs|
  {
    if |rs| == 0 then []
    else RecordsOf(rs[..|rs| - 1], s) + (if rs[|rs| - 1].eventId.eventStream == s then [rs[|rs| - 1]] else [])
  }

  lemma {:induction false} RecordsOfConcat<P>(a: seq<EventMessage<P>>, b: seq<EventMessage<P>>, s: string)
    ensures RecordsOf(a + b, s) == RecordsOf(a, s) + RecordsOf(b, s)
    decreases |b|
  {
    if |b| == 0 {
      assert a + b == a;
    } else {
      var ab := a + b;
      var b' := b[..|b| - 1];
      var last := b[|b| - 1];
      var tail := if last.eventId.eventStream == s then [last] else [];
      RecordsOfConcat(a, b', s);
      assert ab[..|ab| - 1] == a + b';
      assert ab[|ab| - 1] == last;
      assert RecordsOf(ab, s) == RecordsOf(a + b', s) + tail;
      assert RecordsOf(b, s) == RecordsOf(b', s) + tail;
      assert RecordsOf(a, s) + RecordsOf(b', s) + tail == RecordsOf(a, s) + (RecordsOf(b', s) + tail);
    }
  }

  /** Records all filed under `t` are all kept when `t` is asked for, and
      none otherwise. */
  lemma {:induction false} RecordsOfOneStream<P>(rs: seq<EventMessage<P>>, t: string, s: string)
    requires forall k :: 0 <= k < |rs| ==> rs[k].eventId.eventStream == t
    ensures RecordsOf(rs, s) == if t == s then rs else []
    decreases |rs|
  {
    if |rs| > 0 {
      var prefix := rs[..|rs| - 1];
      forall k | 0 <= k < |prefix|
        ensures prefix[k].eventId.eventStream == t
      {
        assert prefix[k] == rs[k];
      }
      RecordsOfOneStream(prefix, t, s);
      assert prefix + [rs[|rs| - 1]] == rs;
    }
  }

  /** Concatenating distinct, well-kept streams and then picking out one
      stream's records gives that stream back. */
  lemma {:induction false} ConcatProjection<P>(log: Log<P>, order: seq<string>, s: string)
    requires forall i, j :: 0 <= i < j < |order| ==> order[i] != order[j]
    requires forall t :: t in log.streams ==> StreamOk(log.streams[t], t)
    ensures RecordsOf(Concat(log, order), s) == if s in order then GetStream(log, s) else []
    decreases |order|
  {
    if |order| > 0 {
      var t, rest := order[0], order[1..];
      forall i, j | 0 <= i < j < |rest|
        ensures rest[i] != rest[j]
      {
        assert rest[i] == order[i + 1] && rest[j] == order[j + 1];
      }
      ConcatProjection(log, rest, s);
      RecordsOfConcat(GetStream(log, t), Concat(log, rest), s);
      forall k | 0 <= k < |GetStream(log, t)|
        ensures GetStream(log, t)[k].eventId.eventStream == t
      {
        assert StreamOk(log.streams[t], t);
        assert Filed(log.streams[t][k], t);
      }
      RecordsOfOneStream(GetStream(log, t), t, s);
      assert Concat(log, order) == GetStream(log, t) + Concat(log, rest);
      if t == s {
        forall j | 0 <= j < |rest|
          ensures rest[j] != s
        {
          assert rest[j] == order[j + 1] && order[0] != order[j + 1];
        }
        assert s !in rest;
      }
      assert s in order <==> s == t || s in rest;
    }
  }

  lemma AllStreamsProjection<P>(log: Log<P>)
    ensures Valid(log) ==> forall s :: RecordsOf(Concat(log, log.order), s) == GetStream(log, s)
  {
    if Valid(log) {
      forall s
        ensures RecordsOf(Concat(log, log.order), s) == GetStream(log, s)
      {
        ConcatProjection(log, log.order, s);
      }
    }
  }

  /** A selection from a version-sorted stream is version-sorted. */
  lemma SubsequenceKeepsSorted<P>(xs: seq<EventMessage<P>>, ys: seq<EventMessage<P>>)
    requires StrictlySorted(ys) && SubsequenceOf(xs, ys)
    ensures StrictlySorted(xs)
  {
    var idx := SubsequenceIndices(xs, ys);
    forall i, j | 0 <= i < j < |xs|
      ensures xs[i].eventId.version < xs[j].eventId.version
    {
      assert idx[i] < idx[j];
    }
  }

  /** A query naming a stream returns its records in ascending version
      order, each once. */
  lemma BySubjectSorted<P>(log: Log<P>, subject: string)
    requires Valid(log) && subject != ""
    ensures StrictlySorted(GetStreamBySubject(log, subject))
  {
    var sid := GetAggregateId(subject);
    if sid in log.streams {
      assert StreamOk(log.streams[sid], sid);
    }
    SubsequenceKeepsSorted(GetStreamBySubject(log, subject), GetStream(log, sid));
  }
}
