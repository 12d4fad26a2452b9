/** What the catch-up step guarantees: after rebuilding from the snapshot
    and the buffered live events, every event is applied, none twice, and
    each stream's versions come in order without a gap. */
module Reconciliation {
  import opened EventIds
  import opened IdProviders
  import opened Events
  import opened Messages
  import opened Serializer
  import Wrappers
  import Text
  import opened Cache
  import EventLog
  import Broker
  import Producer

  /** A logged record whose id names the stream its event belongs to: the
      broker files every record under its subject's first token, which is
      the event's stream when that has no dot. */
  predicate Consistent(m: EventMessage<ProducerMessage>)
  {
    m.eventId.eventStream == m.message.event.eventStreamId
  }

  predicate AllConsistent(events: seq<EventMessage<ProducerMessage>>)
  {
    forall i :: 0 <= i < |events| ==> Consistent(events[i])
  }

  /** Same stream, same version: the identity the "stream.version" id
      stands for. */
  predicate SameEvent(a: Event, b: Event)
  {
    a.eventStreamId == b.eventStreamId && a.version == b.version
  }

  /** No event appears twice. */
  predicate Distinct(es: seq<Event>)
  {
    forall i, j :: 0 <= i < j < |es| ==> !SameEvent(es[i], es[j])
  }

  /** The snapshot holds an event with `e`'s stream and version. */
  predicate InSnapshot(events: seq<EventMessage<ProducerMessage>>, e: Event)
  {
    exists j :: 0 <= j < |events| && SameEvent(SnapshotEvents(events)[j], e)
  }

  /** A consistent record's id is its decoded event's "stream.version" id. */
  lemma KeyOfSnapshotEvent(m: EventMessage<ProducerMessage>)
    requires Consistent(m)
    ensures EventIds.Id(m.eventId) == EventKey(MessageToEvent(m))
  {
  }

  /** The filter of the catch-up is sound and complete: an event's id is
      among the snapshot's ids exactly when the snapshot holds an event with
      its stream and version. */
  lemma InSnapshotKeys(events: seq<EventMessage<ProducerMessage>>, e: Event)
    requires AllConsistent(events)
    ensures EventKey(e) in SnapshotKeys(events) <==> InSnapshot(events, e)
  {
    if EventKey(e) in SnapshotKeys(events) {
      KeyFoundInSnapshot(events, e);
    }
    if exists j :: 0 <= j < |events| && SameEvent(SnapshotEvents(events)[j], e) {
      var j :| 0 <= j < |events| && SameEvent(SnapshotEvents(events)[j], e);
      SnapshotEventKey(events, e, j);
    }
  }

  lemma KeyFoundInSnapshot(events: seq<EventMessage<ProducerMessage>>, e: Event)
    requires AllConsistent(events)
    requires EventKey(e) in SnapshotKeys(events)
    ensures exists j :: 0 <= j < |events| && SameEvent(SnapshotEvents(events)[j], e)
  {
    var j :| 0 <= j < |events| && EventIds.Id(events[j].eventId) == EventKey(e);
    KeyOfSnapshotEvent(events[j]);
    EventKeyIdentifies(SnapshotEvents(events)[j], e);
  }

  lemma SnapshotEventKey(events: seq<EventMessage<ProducerMessage>>, e: Event, j: int)
    requires AllConsistent(events)
    requires 0 <= j < |events| && SameEvent(SnapshotEvents(events)[j], e)
    ensures EventKey(e) in SnapshotKeys(events)
  {
    EventKeyIdentifies(SnapshotEvents(events)[j], e);
    KeyOfSnapshotEvent(events[j]);
    assert EventIds.Id(events[j].eventId) in SnapshotKeys(events);
  }

  /** No loss: the snapshot is applied first and whole, and every buffered
      event is applied, either from the snapshot or from the buffer. */
  lemma CatchUpNoLoss(reply: StateReply<ProducerMessage>, buffer: seq<Event>)
    requires AllConsistent(reply.events)
    ensures var applied := CatchUpEvents(reply, buffer);
      && applied[..|reply.events|] == SnapshotEvents(reply.events)
      && forall i :: 0 <= i < |buffer| ==>
           exists j :: 0 <= j < |applied| && SameEvent(applied[j], buffer[i])
  {
    forall i | 0 <= i < |buffer|
      ensures exists j :: 0 <= j < |CatchUpEvents(reply, buffer)| && SameEvent(CatchUpEvents(reply, buffer)[j], buffer[i])
    {
      BufferedEventApplied(reply, buffer, i);
    }
  }

  lemma BufferedEventApplied(reply: StateReply<ProducerMessage>, buffer: seq<Event>, i: int)
    requires AllConsistent(reply.events)
    requires 0 <= i < |buffer|
    ensures exists j :: 0 <= j < |CatchUpEvents(reply, buffer)| && SameEvent(CatchUpEvents(reply, buffer)[j], buffer[i])
  {
    if EventKey(buffer[i]) in SnapshotKeys(reply.events) {
      AppliedFromSnapshot(reply, buffer, i);
    } else {
      AppliedFromBuffer(reply, buffer, i);
    }
  }

  lemma AppliedFromSnapshot(reply: StateReply<ProducerMessage>, buffer: seq<Event>, i: int)
    requires AllConsistent(reply.events)
    requires 0 <= i < |buffer| && EventKey(buffer[i]) in SnapshotKeys(reply.events)
    ensures exists j :: 0 <= j < |CatchUpEvents(reply, buffer)| && SameEvent(CatchUpEvents(reply, buffer)[j], buffer[i])
  {
    var snap := SnapshotEvents(reply.events);
    var applied := CatchUpEvents(reply, buffer);
    KeyFoundInSnapshot(reply.events, buffer[i]);
    var j :| 0 <= j < |reply.events| && SameEvent(snap[j], buffer[i]);
    assert applied[j] == snap[j];
  }

  lemma AppliedFromBuffer(reply: StateReply<ProducerMessage>, buffer: seq<Event>, i: int)
    requires 0 <= i < |buffer| && EventKey(buffer[i]) !in SnapshotKeys(reply.events)
    ensures exists j :: 0 <= j < |CatchUpEvents(reply, buffer)| && SameEvent(CatchUpEvents(reply, buffer)[j], buffer[i])
  {
    var keys := SnapshotKeys(reply.events);
    var snap, replay := SnapshotEvents(reply.events), Replay(buffer, keys);
    ReplayKeeps(buffer, keys, i);
    var j := InSecondPart(snap, replay, buffer[i]);
    assert CatchUpEvents(reply, buffer) == snap + replay;
    assert SameEvent(CatchUpEvents(reply, buffer)[j], buffer[i]);
  }

  lemma InSecondPart(a: seq<Event>, b: seq<Event>, x: Event) returns (j: int)
    requires x in b
    ensures 0 <= j < |a + b| && (a + b)[j] == x
  {
    var t :| 0 <= t < |b| && b[t] == x;
    j := |a| + t;
  }

  /** The replay of a buffer without repeats has none either. */
  lemma {:induction false} ReplayDistinct(buffer: seq<Event>, keys: set<string>)
    requires Distinct(buffer)
    ensures Distinct(Replay(buffer, keys))
    decreases |buffer|
  {
    if |buffer| > 0 {
      var prefix := buffer[..|buffer| - 1];
      var last := buffer[|buffer| - 1];
      var rest := Replay(prefix, keys);
      ReplayDistinct(prefix, keys);
      if EventKey(last) !in keys {
        forall i | 0 <= i < |rest|
          ensures !SameEvent(rest[i], last)
        {
          ReplayedBeforeLast(buffer, keys, rest[i]);
        }
        assert Replay(buffer, keys) == rest + [last];
      }
    }
  }

  lemma ReplayedBeforeLast(buffer: seq<Event>, keys: set<string>, x: Event)
    requires |buffer| > 0 && Distinct(buffer)
    requires x in Replay(buffer[..|buffer| - 1], keys)
    ensures !SameEvent(x, buffer[|buffer| - 1])
  {
    var prefix := buffer[..|buffer| - 1];
    ReplayMembers(prefix, keys, x);
    var t :| 0 <= t < |prefix| && prefix[t] == x;
    assert buffer[t] == x;
  }

  /** No duplication: when neither the snapshot nor the buffer repeats an
      event, the catch-up applies no event twice. */
  lemma CatchUpNoDuplication(reply: StateReply<ProducerMessage>, buffer: seq<Event>)
    requires AllConsistent(reply.events)
    requires Distinct(SnapshotEvents(reply.events))
    requires Distinct(buffer)
    ensures Distinct(CatchUpEvents(reply, buffer))
  {
    var snap := SnapshotEvents(reply.events);
    var keys := SnapshotKeys(reply.events);
    var replay := Replay(buffer, keys);
    var applied := CatchUpEvents(reply, buffer);
    ReplayDistinct(buffer, keys);
    forall i, j | 0 <= i < j < |applied|
      ensures !SameEvent(applied[i], applied[j])
    {
      if j >= |snap| {
        var y := replay[j - |snap|];
        assert applied[j] == y;
        if i < |snap| {
          ReplayMembers(buffer, keys, y);
          KeyOfSnapshotEvent(reply.events[i]);
          EventKeyIdentifies(snap[i], y);
        } else {
          assert applied[i] == replay[i - |snap|];
        }
      }
    }
  }

  /** A buffered event the snapshot does not already hold is replayed. */
  lemma {:induction false} ReplayAll(buffer: seq<Event>, keys: set<string>)
    requires forall i :: 0 <= i < |buffer| ==> EventKey(buffer[i]) !in keys
    ensures Replay(buffer, keys) == buffer
    decreases |buffer|
  {
    if |buffer| > 0 {
      var prefix, last := buffer[..|buffer| - 1], buffer[|buffer| - 1];
      assert buffer == prefix + [last];
      assert EventKey(last) !in keys;
      forall i | 0 <= i < |prefix|
        ensures EventKey(prefix[i]) !in keys
      {
        assert prefix[i] == buffer[i];
      }
      ReplayAll(prefix, keys);
      ReplayKeepsLast(prefix, last, keys);
    }
  }

  /** An event whose key is not in `keys` is kept at the end of the replay. */
  lemma ReplayKeepsLast(prefix: seq<Event>, last: Event, keys: set<string>)
    requires EventKey(last) !in keys
    ensures Replay(prefix + [last], keys) == Replay(prefix, keys) + [last]
  {
    assert (prefix + [last])[..|prefix|] == prefix;
  }

  /** The number of events applied: the snapshot's plus the buffered ones
      it did not hold — all of the buffer when they are disjoint (the
      source's 10000 + 100). */
  lemma CatchUpCount(reply: StateReply<ProducerMessage>, buffer: seq<Event>)
    ensures |CatchUpEvents(reply, buffer)| == |reply.events| + |Replay(buffer, SnapshotKeys(reply.events))|
    ensures (forall i :: 0 <= i < |buffer| ==> EventKey(buffer[i]) !in SnapshotKeys(reply.events)) ==>
      |CatchUpEvents(reply, buffer)| == |reply.events| + |buffer|
  {
    if forall i :: 0 <= i < |buffer| ==> EventKey(buffer[i]) !in SnapshotKeys(reply.events) {
      ReplayAll(buffer, SnapshotKeys(reply.events));
    }
  }

  // ---------------------------------------------------------------------
  // Version order per stream

  function VersionSeq(es: seq<Event>): (r: seq<int>)
    ensures |r| == |es| && forall i :: 0 <= i < |es| ==> r[i] == es[i].version
  {
    if |es| == 0 then [] else VersionSeq(es[..|es| - 1]) + [es[|es| - 1].version]
  }

  /** The versions of stream `s` among `es`, in order. */
  function Versions(es: seq<Event>, s: string): seq<int>
  {
    VersionSeq(EventsOf(es, s))
  }

  /** `a, a+1, …, b-1`. */
  function Interval(a: int, b: int): (r: seq<int>)
    ensures |r| == (if a < b then b - a else 0)
    ensures forall i :: 0 <= i < |r| ==> r[i] == a + i
    decreases b - a
  {
    if b <= a then [] else Interval(a, b - 1) + [b - 1]
  }

  /** The entries of `vs` that are at least `k`, in order. */
  function AtLeast(vs: seq<int>, k: int): seq<int>
  {
    if |vs| == 0 then []
    else AtLeast(vs[..|vs| - 1], k) + (if vs[|vs| - 1] >= k then [vs[|vs| - 1]] else [])
  }

  lemma {:induction false} EventsOfConcat(a: seq<Event>, b: seq<Event>, s: string)
    ensures EventsOf(a + b, s) == EventsOf(a, s) + EventsOf(b, s)
    decreases |b|
  {
    if |b| == 0 {
      assert a + b == a;
    } else {
      var ab := a + b;
      var b' := b[..|b| - 1];
      var last := b[|b| - 1];
      var tail := if last.eventStreamId == s then [last] else [];
      EventsOfConcat(a, b', s);
      assert ab[..|ab| - 1] == a + b';
      assert ab[|ab| - 1] == last;
      assert EventsOf(ab, s) == EventsOf(a + b', s) + tail;
      assert EventsOf(b, s) == EventsOf(b', s) + tail;
      assert EventsOf(a, s) + EventsOf(b', s) + tail == EventsOf(a, s) + (EventsOf(b', s) + tail);
    }
  }

  lemma {:induction false} EventsOfHas(es: seq<Event>, s: string, i: int)
    requires 0 <= i < |es| && es[i].eventStreamId == s
    ensures es[i] in EventsOf(es, s)
    decreases |es|
  {
    if i < |es| - 1 {
      EventsOfHas(es[..|es| - 1], s, i);
    }
  }

  lemma {:induction false} EventsOfFrom(es: seq<Event>, s: string, x: Event)
    requires x in EventsOf(es, s)
    ensures x in es
    decreases |es|
  {
    if x in EventsOf(es[..|es| - 1], s) {
      EventsOfFrom(es[..|es| - 1], s, x);
    }
  }

  /** The catch-up filter, stated on streams and versions. */
  function ReplayUnseen(buffer: seq<Event>, events: seq<EventMessage<ProducerMessage>>): seq<Event>
  {
    if |buffer| == 0 then []
    else
      var last := buffer[|buffer| - 1];
      ReplayUnseen(buffer[..|buffer| - 1], events) + (if !InSnapshot(events, last) then [last] else [])
  }

  /** Comparing "stream.version" ids is comparing streams and versions. */
  lemma {:induction false} ReplayIsUnseen(buffer: seq<Event>, events: seq<EventMessage<ProducerMessage>>)
    requires AllConsistent(events)
    ensures Replay(buffer, SnapshotKeys(events)) == ReplayUnseen(buffer, events)
    decreases |buffer|
  {
    if |buffer| > 0 {
      ReplayIsUnseen(buffer[..|buffer| - 1], events);
      InSnapshotKeys(events, buffer[|buffer| - 1]);
    }
  }

  /** Within one stream, the snapshot holds exactly the buffered versions
      below `k`, when it holds versions 0 … k-1 of it and the buffer only
      non-negative ones. */
  lemma SeenMeansBelow(events: seq<EventMessage<ProducerMessage>>, buffer: seq<Event>, s: string, k: nat, j: int, m: int, i: int)
    requires Versions(SnapshotEvents(events), s) == Range(k)
    requires 0 <= j && Versions(buffer, s) == Interval(j, m)
    requires 0 <= i < |buffer| && buffer[i].eventStreamId == s
    ensures InSnapshot(events, buffer[i]) <==> buffer[i].version < k
  {
    BufferedVersionNonNegative(buffer, s, j, m, i);
    if InSnapshot(events, buffer[i]) {
      SeenIsBelow(events, s, k, buffer[i]);
    }
    if buffer[i].version < k {
      BelowIsSeen(events, s, k, buffer[i]);
    }
  }

  lemma BufferedVersionNonNegative(buffer: seq<Event>, s: string, j: int, m: int, i: int)
    requires 0 <= j && Versions(buffer, s) == Interval(j, m)
    requires 0 <= i < |buffer| && buffer[i].eventStreamId == s
    ensures buffer[i].version >= 0
  {
    var e := buffer[i];
    EventsOfHas(buffer, s, i);
    var t :| 0 <= t < |EventsOf(buffer, s)| && EventsOf(buffer, s)[t] == e;
    assert Versions(buffer, s)[t] == e.version;
  }

  lemma SeenIsBelow(events: seq<EventMessage<ProducerMessage>>, s: string, k: nat, e: Event)
    requires Versions(SnapshotEvents(events), s) == Range(k)
    requires e.eventStreamId == s && InSnapshot(events, e)
    ensures e.version < k
  {
    var snap := SnapshotEvents(events);
    var jj :| 0 <= jj < |events| && SameEvent(snap[jj], e);
    EventsOfHas(snap, s, jj);
    var u :| 0 <= u < |EventsOf(snap, s)| && EventsOf(snap, s)[u] == snap[jj];
    assert Versions(snap, s)[u] == e.version;
  }

  lemma BelowIsSeen(events: seq<EventMessage<ProducerMessage>>, s: string, k: nat, e: Event)
    requires Versions(SnapshotEvents(events), s) == Range(k)
    requires e.eventStreamId == s && 0 <= e.version < k
    ensures InSnapshot(events, e)
  {
    var snap := SnapshotEvents(events);
    var x := EventsOf(snap, s)[e.version];
    assert Versions(snap, s)[e.version] == x.version;
    EventsOfFrom(snap, s, x);
    var jj :| 0 <= jj < |snap| && snap[jj] == x;
    assert SameEvent(snap[jj], e);
  }

  lemma VersionSeqConcat(x: seq<Event>, y: seq<Event>)
    ensures VersionSeq(x + y) == VersionSeq(x) + VersionSeq(y)
  {
  }

  /** Replaying a buffer whose stream-`s` events are unseen exactly from
      version `k` on keeps exactly those versions, in order. */
  lemma {:induction false} ReplayVersions(buffer: seq<Event>, events: seq<EventMessage<ProducerMessage>>, s: string, k: int)
    requires forall i :: 0 <= i < |buffer| && buffer[i].eventStreamId == s ==>
      (InSnapshot(events, buffer[i]) <==> buffer[i].version < k)
    ensures Versions(ReplayUnseen(buffer, events), s) == AtLeast(Versions(buffer, s), k)
    decreases |buffer|
  {
    if |buffer| > 0 {
      var prefix := buffer[..|buffer| - 1];
      var e := buffer[|buffer| - 1];
      assert forall i :: 0 <= i < |prefix| ==> prefix[i] == buffer[i];
      ReplayVersions(prefix, events, s, k);
      ReplayStep(buffer, events, s, k);
    }
  }

  /** The last buffered event's contribution to `ReplayVersions`. */
  lemma ReplayStep(buffer: seq<Event>, events: seq<EventMessage<ProducerMessage>>, s: string, k: int)
    requires |buffer| > 0
    requires buffer[|buffer| - 1].eventStreamId == s ==>
      (InSnapshot(events, buffer[|buffer| - 1]) <==> buffer[|buffer| - 1].version < k)
    requires Versions(ReplayUnseen(buffer[..|buffer| - 1], events), s)
      == AtLeast(Versions(buffer[..|buffer| - 1], s), k)
    ensures Versions(ReplayUnseen(buffer, events), s) == AtLeast(Versions(buffer, s), k)
  {
    var e := buffer[|buffer| - 1];
    ReplayUnseenLast(buffer, events, s);
    VersionsLast(buffer, s);
    var vs := Versions(buffer, s);
    if e.eventStreamId == s {
      assert vs[..|vs| - 1] == Versions(buffer[..|buffer| - 1], s);
      assert vs[|vs| - 1] == e.version;
      assert AtLeast(vs, k) == AtLeast(Versions(buffer[..|buffer| - 1], s), k)
        + (if e.version >= k then [e.version] else []);
      assert (!InSnapshot(events, e)) == (e.version >= k);
    } else {
      assert vs == Versions(buffer[..|buffer| - 1], s);
    }
  }

  /** What the replay adds to stream `s` for the last buffered event. */
  lemma ReplayUnseenLast(buffer: seq<Event>, events: seq<EventMessage<ProducerMessage>>, s: string)
    requires |buffer| > 0
    ensures var e := buffer[|buffer| - 1];
      Versions(ReplayUnseen(buffer, events), s)
      == Versions(ReplayUnseen(buffer[..|buffer| - 1], events), s)
         + (if e.eventStreamId == s && !InSnapshot(events, e) then [e.version] else [])
  {
    var e := buffer[|buffer| - 1];
    var kept := if !InSnapshot(events, e) then [e] else [];
    var r' := ReplayUnseen(buffer[..|buffer| - 1], events);
    assert ReplayUnseen(buffer, events) == r' + kept;
    EventsOfConcat(r', kept, s);
    VersionSeqConcat(EventsOf(r', s), EventsOf(kept, s));
    EventsOfOne(kept, s);
  }

  lemma EventsOfOne(kept: seq<Event>, s: string)
    requires |kept| <= 1
    ensures EventsOf(kept, s) == if |kept| == 1 && kept[0].eventStreamId == s then kept else []
  {
    if |kept| == 1 {
      assert kept[..0] == [];
    }
  }

  /** What the last event adds to the versions of stream `s`. */
  lemma VersionsLast(es: seq<Event>, s: string)
    requires |es| > 0
    ensures var e := es[|es| - 1];
      Versions(es, s) == Versions(es[..|es| - 1], s) + (if e.eventStreamId == s then [e.version] else [])
  {
    var e := es[|es| - 1];
    if e.eventStreamId == s {
      VersionSeqConcat(EventsOf(es[..|es| - 1], s), [e]);
    }
  }

  lemma {:induction false} AtLeastInterval(j: int, m: int, k: int)
    requires j <= m
    ensures AtLeast(Interval(j, m), k) == Interval(if j < k then k else j, m)
    decreases m - j
  {
    if j < m {
      AtLeastInterval(j, m - 1, k);
      var iv := Interval(j, m);
      var lo := if j < k then k else j;
      assert iv[..|iv| - 1] == Interval(j, m - 1);
      assert iv[|iv| - 1] == m - 1;
      assert AtLeast(iv, k) == AtLeast(Interval(j, m - 1), k) + (if m - 1 >= k then [m - 1] else []);
      if m - 1 >= k {
        assert Interval(lo, m) == Interval(lo, m - 1) + [m - 1];
      } else {
        assert Interval(lo, m) == [] && Interval(lo, m - 1) == [];
      }
    }
  }

  lemma RangeThenInterval(k: nat, m: int)
    ensures Range(k) + Interval(k, m) == Range(if k < m then m else k)
  {
  }

  /** Version order: when the snapshot holds versions 0 … k-1 of stream `s`
      and the buffer holds versions j … m-1 of it with j ≤ k (the
      subscription started before the snapshot was taken), the catch-up
      applies versions 0 … max(k, m)-1 of `s`, in order, each once. */
  lemma CatchUpVersions(reply: StateReply<ProducerMessage>, buffer: seq<Event>, s: string, k: nat, j: int, m: int)
    requires AllConsistent(reply.events)
    requires Versions(SnapshotEvents(reply.events), s) == Range(k)
    requires 0 <= j <= k && j <= m
    requires Versions(buffer, s) == Interval(j, m)
    ensures Versions(CatchUpEvents(reply, buffer), s) == Range(if k < m then m else k)
  {
    var snap := SnapshotEvents(reply.events);
    var replay := ReplayUnseen(buffer, reply.events);
    UnseenVersions(reply.events, buffer, s, k, j, m);
    ReplayIsUnseen(buffer, reply.events);
    assert CatchUpEvents(reply, buffer) == snap + replay;
    EventsOfConcat(snap, replay, s);
    VersionSeqConcat(EventsOf(snap, s), EventsOf(replay, s));
    RangeThenInterval(k, m);
  }

  /** The buffered versions the replay keeps are k … m-1. */
  lemma UnseenVersions(events: seq<EventMessage<ProducerMessage>>, buffer: seq<Event>, s: string, k: nat, j: int, m: int)
    requires Versions(SnapshotEvents(events), s) == Range(k)
    requires 0 <= j <= k && j <= m
    requires Versions(buffer, s) == Interval(j, m)
    ensures Versions(ReplayUnseen(buffer, events), s) == Interval(k, m)
  {
    forall i | 0 <= i < |buffer| && buffer[i].eventStreamId == s
      ensures InSnapshot(events, buffer[i]) <==> buffer[i].version < k
    {
      SeenMeansBelow(events, buffer, s, k, j, m, i);
    }
    ReplayVersions(buffer, events, s, k);
    AtLeastInterval(j, m, k);
  }

  /** After the catch-up, the aggregate of such a stream has seen every
      version up to max(k, m)-1: its version is max(k, m)-1. */
  lemma CatchUpRebuildsStream(c: DynamicCache, reply: StateReply<ProducerMessage>, s: string, k: nat, j: int, m: int)
    requires CanCatchUp(c)
    requires AllConsistent(reply.events)
    requires Versions(SnapshotEvents(reply.events), s) == Range(k)
    requires 0 <= j <= k && j <= m
    requires Versions(c.buffer, s) == Interval(j, m)
    requires 0 < k || 0 < m
    ensures s in CatchUp(c, reply).store
    ensures CatchUp(c, reply).store[s].version == (if k < m then m else k) - 1
  {
    CatchUpVersions(reply, c.buffer, s, k, j, m);
    RebuiltVersion(CatchUpEvents(reply, c.buffer), s);
  }

  /** The source's rebuild-while-publishing run: 10000 events in the
      snapshot, 100 more arriving during the catch-up, one stream. */
  lemma RebuildWhilePublishing(c: DynamicCache, reply: StateReply<ProducerMessage>, s: string)
    requires CanCatchUp(c)
    requires AllConsistent(reply.events)
    requires Versions(SnapshotEvents(reply.events), s) == Range(10000)
    requires Versions(c.buffer, s) == Interval(10000, 10100)
    ensures s in CatchUp(c, reply).store
    ensures CatchUp(c, reply).store[s].version + 1 == 10100
  {
    CatchUpRebuildsStream(c, reply, s, 10000, 10000, 10100);
  }

  // ---------------------------------------------------------------------
  // Snapshots the broker serves

  /** Every record the log holds names its event's stream. */
  ghost predicate LogConsistent(log: EventLog.Log<ProducerMessage>)
  {
    forall s, k :: s in log.streams && 0 <= k < |log.streams[s]| ==> Consistent(log.streams[s][k])
  }

  /** A snapshot served from a consistent log is consistent. */
  lemma ServedSnapshotConsistent(log: EventLog.Log<ProducerMessage>, subject: string)
    requires EventLog.Valid(log) && LogConsistent(log)
    ensures AllConsistent(Broker.Snapshot(log, StateRequest(subject)).events)
  {
    var events := Broker.Snapshot(log, StateRequest(subject)).events;
    forall i | 0 <= i < |events|
      ensures Consistent(events[i])
    {
      var x := events[i];
      if subject == "" {
        EventLog.AllStreamsMembers(log, x);
        var s :| s in log.streams && x in log.streams[s];
        LoggedIsConsistent(log, s, x);
      } else {
        var sid := GetAggregateId(subject);
        assert x in EventLog.GetStream(log, sid);
        LoggedIsConsistent(log, sid, x);
      }
    }
  }

  lemma LoggedIsConsistent(log: EventLog.Log<ProducerMessage>, s: string, x: EventMessage<ProducerMessage>)
    requires LogConsistent(log)
    requires s in log.streams && x in log.streams[s]
    ensures Consistent(x)
  {
    var k :| 0 <= k < |log.streams[s]| && log.streams[s][k] == x;
  }

  lemma SnapshotEventsSnoc(rs: seq<EventMessage<ProducerMessage>>, m: EventMessage<ProducerMessage>)
    ensures SnapshotEvents(rs + [m]) == SnapshotEvents(rs) + [MessageToEvent(m)]
  {
    assert (rs + [m])[..|rs|] == rs;
  }

  /** On consistent records, picking the events of `s` after decoding is
      decoding the records filed under `s`. */
  lemma {:induction false} SnapshotEventsOf(events: seq<EventMessage<ProducerMessage>>, s: string)
    requires AllConsistent(events)
    ensures EventsOf(SnapshotEvents(events), s) == SnapshotEvents(EventLog.RecordsOf(events, s))
    decreases |events|
  {
    if |events| > 0 {
      var prefix, last := events[..|events| - 1], events[|events| - 1];
      forall i | 0 <= i < |prefix|
        ensures Consistent(prefix[i])
      {
        assert prefix[i] == events[i];
      }
      SnapshotEventsOf(prefix, s);
      var xs := SnapshotEvents(events);
      assert xs[..|xs| - 1] == SnapshotEvents(prefix);
      assert xs[|xs| - 1] == MessageToEvent(last);
      if last.eventId.eventStream == s {
        SnapshotEventsSnoc(EventLog.RecordsOf(prefix, s), last);
      }
    }
  }

  /** Decoding records numbered 0 … n-1 gives the versions 0 … n-1. */
  lemma NumberedVersions(rs: seq<EventMessage<ProducerMessage>>)
    requires EventLog.Numbered(rs)
    ensures VersionSeq(SnapshotEvents(rs)) == Range(|rs|)
  {
    var vs := VersionSeq(SnapshotEvents(rs));
    forall k | 0 <= k < |rs|
      ensures vs[k] == k
    {
      assert vs[k] == SnapshotEvents(rs)[k].version;
    }
  }

  /** The snapshot the broker serves for every stream (the empty subject),
      or for a dot-free stream by name, holds that stream's versions
      0 … n-1 in order, n being the length of its history, whenever the log
      is numbered as the relay keeps it and every record names its event's
      stream. */
  lemma ServedSnapshotVersions(log: EventLog.Log<ProducerMessage>, subject: string, s: string)
    requires EventLog.Contiguous(log) && LogConsistent(log)
    requires subject == "" || (subject == s && s != "" && Separator !in s)
    ensures var events := Broker.Snapshot(log, StateRequest(subject)).events;
      && AllConsistent(events)
      && Versions(SnapshotEvents(events), s) == Range(|EventLog.GetStream(log, s)|)
  {
    var events := Broker.Snapshot(log, StateRequest(subject)).events;
    var rs := EventLog.GetStream(log, s);
    ServedSnapshotConsistent(log, subject);
    if subject == "" {
      assert EventLog.RecordsOf(events, s) == rs;
    } else {
      if s in log.streams {
        Broker.SnapshotWholeStream(log, s);
      }
      forall k | 0 <= k < |rs|
        ensures rs[k].eventId.eventStream == s
      {
        assert EventLog.Filed(rs[k], s);
      }
      EventLog.RecordsOfOneStream(rs, s, s);
    }
    SnapshotEventsOf(events, s);
    NumberedVersions(rs);
  }

  /** End to end: a cache that subscribed no later than the snapshot was
      served (its buffer holds versions j … m-1 of `s`, j ≤ n) rebuilds `s`
      from a served snapshot to versions 0 … max(n, m)-1, in order, each
      once. */
  lemma ServedCatchUpVersions(log: EventLog.Log<ProducerMessage>, subject: string, buffer: seq<Event>, s: string, j: int, m: int)
    requires EventLog.Contiguous(log) && LogConsistent(log)
    requires subject == "" || (subject == s && s != "" && Separator !in s)
    requires 0 <= j <= |EventLog.GetStream(log, s)| && j <= m
    requires Versions(buffer, s) == Interval(j, m)
    ensures var n := |EventLog.GetStream(log, s)|;
      Versions(CatchUpEvents(Broker.Snapshot(log, StateRequest(subject)), buffer), s) == Range(if n < m then m else n)
  {
    ServedSnapshotVersions(log, subject, s);
    CatchUpVersions(Broker.Snapshot(log, StateRequest(subject)), buffer, s, |EventLog.GetStream(log, s)|, j, m);
  }

  // ---------------------------------------------------------------------
  // Where consistency comes from

  /** A publication whose subject's first token is its event's stream: the
      broker files it under that stream. */
  predicate Routed(pub: Broker.Publication<ProducerMessage>)
  {
    GetAggregateId(pub.subject) == pub.payload.event.eventStreamId
  }

  /** What a producer sends for an event of a dot-free stream is routed,
      whatever the relay's clock reads. */
  lemma ProducerFramesRouted(state: Producer.ProducerState, e: Event, timestamp: int)
    requires Separator !in e.eventStreamId
    requires Producer.Publish(state, e).Ok?
    ensures var f := Producer.Publish(state, e).value;
      Routed(Broker.Publication(f.subject, f.message, timestamp))
  {
    AggregateIdOfSubject(e);
  }

  /** Relaying a routed publication keeps the log consistent. */
  lemma PublishKeepsConsistent(log: EventLog.Log<ProducerMessage>, pub: Broker.Publication<ProducerMessage>)
    requires LogConsistent(log) && Routed(pub)
    ensures LogConsistent(Broker.Publish(log, pub).0)
  {
    var log' := Broker.Publish(log, pub).0;
    var sid := GetAggregateId(pub.subject);
    var id := Next(log.provider, sid, pub.subject, pub.timestamp).1;
    EventLog.AppendSpec(log, pub.subject, pub.payload, pub.timestamp);
    forall s, k | s in log'.streams && 0 <= k < |log'.streams[s]|
      ensures Consistent(log'.streams[s][k])
    {
      var x := log'.streams[s][k];
      if s != sid {
        assert EventLog.GetStream(log', s) == EventLog.GetStream(log, s);
      } else {
        assert x in multiset(EventLog.GetStream(log', sid));
        if x != EventMessage(id, pub.payload) {
          assert x in multiset(EventLog.GetStream(log, sid));
          var i :| 0 <= i < |log.streams[sid]| && log.streams[sid][i] == x;
        }
      }
    }
  }

  /** Relaying routed publications keeps the log consistent. */
  lemma {:induction false} RelayKeepsConsistent(log: EventLog.Log<ProducerMessage>, pubs: seq<Broker.Publication<ProducerMessage>>)
    requires LogConsistent(log)
    requires forall i :: 0 <= i < |pubs| ==> Routed(pubs[i])
    ensures LogConsistent(Broker.PublishAll(log, pubs).0)
    decreases |pubs|
  {
    if |pubs| > 0 {
      var prefix := pubs[..|pubs| - 1];
      forall i | 0 <= i < |prefix|
        ensures Routed(prefix[i])
      {
        assert prefix[i] == pubs[i];
      }
      RelayKeepsConsistent(log, prefix);
      PublishKeepsConsistent(Broker.PublishAll(log, prefix).0, pubs[|pubs| - 1]);
    }
  }

  /** The whole path: a broker that started empty and relayed routed
      publications serves, for every stream or for a dot-free stream by
      name, a snapshot from which the catch-up applies the stream's
      versions 0 … max(n, m)-1, in order, each once. */
  lemma RelayedCatchUpVersions(pubs: seq<Broker.Publication<ProducerMessage>>, subject: string, buffer: seq<Event>, s: string, j: int, m: int)
    requires forall i :: 0 <= i < |pubs| ==> Routed(pubs[i])
    requires subject == "" || (subject == s && s != "" && Separator !in s)
    requires var log := Broker.PublishAll(EventLog.NewLog(NewProvider()), pubs).0;
      0 <= j <= |EventLog.GetStream(log, s)| && j <= m
    requires Versions(buffer, s) == Interval(j, m)
    ensures var log := Broker.PublishAll(EventLog.NewLog(NewProvider()), pubs).0;
      var n := |EventLog.GetStream(log, s)|;
      Versions(CatchUpEvents(Broker.Snapshot(log, StateRequest(subject)), buffer), s) == Range(if n < m then m else n)
  {
    var empty := EventLog.NewLog<ProducerMessage>(NewProvider());
    var log := Broker.PublishAll(empty, pubs).0;
    Broker.RelayFromFresh(pubs);
    RelayKeepsConsistent(empty, pubs);
    ServedCatchUpVersions(log, subject, buffer, s, j, m);
  }

  // ---------------------------------------------------------------------
  // A stream id with a dot

  /** A stream id with a dot defeats the catch-up's filter. The broker files
      an event of stream "A.B" under "A" and numbers it there, so the
      snapshot's id for it is "A.0" while the live copy's key is "A.B.0":
      the same event, once in the snapshot and once in the buffer, is
      applied twice. */
  lemma DottedStreamDuplicates(body: EventBody)
    ensures var msg := ToProducerMessage(Event("A.B", Wrappers.None, -1, body)).value.1;
      var (log, frame) := Broker.Publish(EventLog.NewLog(NewProvider()), Broker.Publication(msg.subject, msg, 0));
      && frame.Some?
      && var buffered := ToEvent(frame.value.eventId, frame.value.payload);
      && CatchUpEvents(Broker.Snapshot(log, DefaultStateRequest), [buffered]) == [buffered, buffered]
      && !Distinct(CatchUpEvents(Broker.Snapshot(log, DefaultStateRequest), [buffered]))
  {
    var e := Event("A.B", Wrappers.None, -1, body);
    var msg := ToProducerMessage(e).value.1;
    DottedSubjectFiledUnderFirst(e);
    var id := PublishToEmpty(Broker.Publication(msg.subject, msg, 0));
    var (log, frame) := Broker.Publish(EventLog.NewLog(NewProvider()), Broker.Publication(msg.subject, msg, 0));
    var rec := EventMessage(id, msg);
    OneStreamSnapshot(log, GetAggregateId(msg.subject), rec);
    OneRecordReplayed(rec);
  }

  /** The subject of an event of stream "A.B" starts with "A.", so the
      broker files it under "A". */
  lemma DottedSubjectFiledUnderFirst(e: Event)
    requires e.eventStreamId == "A.B"
    ensures GetAggregateId(GetSubject(e).value) == "A"
  {
    var subject := GetSubject(e).value;
    assert subject[..4] == "A.B" + [Separator];
    assert subject[..4][0] == 'A' && subject[..4][1] == Separator;
    FirstTokenOfOneChar(subject);
  }

  lemma FirstTokenOfOneChar(subject: string)
    requires |subject| >= 2 && subject[0] != Separator && subject[1] == Separator
    ensures GetAggregateId(subject) == subject[..1]
  {
    var sid := GetAggregateId(subject);
    assert sid == subject[..|sid|];
  }

  /** The first publication a fresh broker relays becomes version 0 of its
      stream, the only record of the log. */
  lemma PublishToEmpty(pub: Broker.Publication<ProducerMessage>) returns (id: EventId)
    ensures id == EventId(GetAggregateId(pub.subject), 0, pub.subject, pub.timestamp)
    ensures var (log, frame) := Broker.Publish(EventLog.NewLog(NewProvider()), pub);
      && frame == Wrappers.Some(Broker.Frame(pub.subject, id, pub.payload))
      && log.streams == map[GetAggregateId(pub.subject) := [EventMessage(id, pub.payload)]]
      && log.order == [GetAggregateId(pub.subject)]
  {
    id := EventId(GetAggregateId(pub.subject), 0, pub.subject, pub.timestamp);
  }

  /** A log holding one record serves it as the whole snapshot. */
  lemma OneStreamSnapshot(log: EventLog.Log<ProducerMessage>, t: string, rec: EventMessage<ProducerMessage>)
    requires log.streams == map[t := [rec]] && log.order == [t]
    ensures Broker.Snapshot(log, DefaultStateRequest).events == [rec]
  {
    assert log.order[1..] == [];
    assert EventLog.Concat(log, log.order) == [rec] + EventLog.Concat(log, []);
    assert EventLog.GetAllStreams(log) == EventLog.Concat(log, log.order);
  }

  /** One snapshot record whose id names another stream than its event:
      its live copy passes the filter and is applied a second time. */
  lemma OneRecordReplayed(rec: EventMessage<ProducerMessage>)
    requires rec.eventId.eventStream == "A" && rec.message.event.eventStreamId == "A.B"
    ensures var buffered := MessageToEvent(rec);
      && CatchUpEvents(StateReply("", [rec]), [buffered]) == [buffered, buffered]
      && !Distinct(CatchUpEvents(StateReply("", [rec]), [buffered]))
  {
    var buffered := MessageToEvent(rec);
    assert SnapshotEvents([rec]) == [buffered];
    assert SnapshotKeys([rec]) == {EventIds.Id(rec.eventId)};
    StreamVersionKeyInjective("A.B", rec.eventId.version, "A", rec.eventId.version);
    assert Replay([buffered], SnapshotKeys([rec])) == [buffered];
    var applied := CatchUpEvents(StateReply("", [rec]), [buffered]);
    assert SameEvent(applied[0], applied[1]);
  }

  /** A cache subscribed to "EUR" gets the live frames of stream "EURO",
      because its subscription matches subjects by prefix. But a snapshot
      for "EUR" names stream "EUR" only, so none of stream "EURO"'s logged
      records reach that cache. Its "EURO" aggregate is then rebuilt from
      the live tail alone: events published before the catch-up are
      missing. */
  lemma PrefixSubscriptionMissesSnapshot(payload: ProducerMessage)
    ensures var (log, frame) := Broker.Publish(EventLog.NewLog(NewProvider()), Broker.Publication("EURO.x", payload, 0));
      && frame.Some?
      && Delivers(NewCache(Config("EUR")), frame.value.subject)
      && |EventLog.GetStream(log, "EURO")| == 1
      && Broker.Snapshot(log, StateRequest("EUR")).events == []
  {
    FirstTokenAt("EURO.x", 4);
    assert "EURO.x"[..4] == "EURO";
    var id := PublishToEmpty(Broker.Publication("EURO.x", payload, 0));
    assert Text.StartsWith("EURO.x", "EUR") by {
      assert "EURO.x"[..3] == "EUR";
    }
  }

  /** The first token of a subject whose first dot is at index `n`. */
  lemma FirstTokenAt(subject: string, n: nat)
    requires n < |subject| && subject[n] == Separator
    requires forall i :: 0 <= i < n ==> subject[i] != Separator
    ensures GetAggregateId(subject) == subject[..n]
  {
  }
}
