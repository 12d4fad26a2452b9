/** `BrokerageService`: the three broker loops as pure steps over the log.
    The relay appends each inbound publication and rebroadcasts it with its
    id; the state-of-the-world loop answers a snapshot request from the log;
    the heartbeat loop answers every query. */
module Broker {
  import opened Wrappers
  import opened Text
  import opened EventIds
  import opened IdProviders
  import opened Messages
  import opened Serializer
  import opened EventLog
  import Actors

  /** The three frames the relay sends: the subject, the id and the payload. */
  datatype Frame<+P> = Frame(subject: string, eventId: EventId, payload: P)

  /** One publication read from the producers' socket; `timestamp` is the
      clock reading the id provider takes. */
  datatype Publication<+P> = Publication(subject: string, payload: P, timestamp: int)

  /** The relay handler: append, then broadcast the same subject and payload
      with the returned id. When the append throws, this relay step sends
      nothing; what the unobserved exception does beyond that is not modelled. */
  function Publish<P>(log: Log<P>, pub: Publication<P>): (r: (Log<P>, Option<Frame<P>>))
    ensures r.0 == Append(log, pub.subject, pub.payload, pub.timestamp).0
    ensures var res := Append(log, pub.subject, pub.payload, pub.timestamp).1;
      && (r.1.Some? <==> res.Ok?)
      && (r.1.Some? ==> r.1.value == Frame(pub.subject, res.value, pub.payload))
  {
    var (log', res) := Append(log, pub.subject, pub.payload, pub.timestamp);
    match res
    case Ok(id) => (log', Some(Frame(pub.subject, id, pub.payload)))
    case Err(_) => (log', None)
  }

  /** The state-of-the-world handler: one reply echoing the requested subject
      and carrying `GetStreamBySubject` of it, in the log's order. */
  function Snapshot<P>(log: Log<P>, req: StateRequest): (r: StateReply<P>)
    ensures r.subject == req.subject
    ensures r.events == GetStreamBySubject(log, req.subject)
    ensures req.subject == "" ==> r.events == GetAllStreams(log)
    ensures req.subject != "" && GetAggregateId(req.subject) !in log.streams ==> r.events == []
    ensures forall i :: 0 <= i < |r.events| ==> StartsWith(r.events[i].eventId.subject, req.subject)
  {
    StateReply(req.subject, GetStreamBySubject(log, req.subject))
  }

  datatype Inbound<+P> =
    | PublicationIn(pub: Publication<P>)
    | StateRequestIn(request: StateRequest)
    | HeartbeatIn(query: Heartbeat)

  datatype Outbound<+P> =
    | Broadcast(frame: Frame<P>)
    | StateReplyOut(reply: StateReply<P>)
    | HeartbeatOut(response: Heartbeat)
    | Silent

  /** One step of the broker on whichever socket is ready. Only a publication
      touches the log; a heartbeat, whatever it says, is answered with Pong. */
  function Handle<P>(log: Log<P>, input: Inbound<P>): (r: (Log<P>, Outbound<P>))
    ensures !input.PublicationIn? ==> r.0 == log
    ensures input.HeartbeatIn? ==> r.1 == HeartbeatOut(Pong)
    ensures input.StateRequestIn? ==> r.1.StateReplyOut? && r.1.reply.subject == input.request.subject
    ensures input.PublicationIn? ==> r.1.Broadcast? || r.1.Silent?
  {
    match input
    case PublicationIn(pub) =>
      var (log', frame) := Publish(log, pub);
      (log', if frame.Some? then Broadcast(frame.value) else Silent)
    case StateRequestIn(req) => (log, StateReplyOut(Snapshot(log, req)))
    case HeartbeatIn(_) => (log, HeartbeatOut(Pong))
  }

  /** On a log that agrees with its provider, a publication always goes out,
      and its record is appended at the end of its stream, exactly once. */
  lemma PublishAppendsOnce<P>(log: Log<P>, pub: Publication<P>)
    requires InSync(log)
    ensures var (log', frame) := Publish(log, pub);
      var sid := GetAggregateId(pub.subject);
      && frame.Some?
      && frame.value.subject == pub.subject && frame.value.payload == pub.payload
      && frame.value.eventId.eventStream == sid
      && GetStream(log', sid) == GetStream(log, sid) + [EventMessage(frame.value.eventId, pub.payload)]
      && InSync(log')
  {
    AppendInSync(log, pub.subject, pub.payload, pub.timestamp);
  }

  /** The relay over a sequence of publications, in processing order. */
  function PublishAll<P>(log: Log<P>, pubs: seq<Publication<P>>): (Log<P>, seq<Frame<P>>)
    decreases |pubs|
  {
    if |pubs| == 0 then (log, [])
    else
      var (log1, frames) := PublishAll(log, pubs[..|pubs| - 1]);
      var (log2, frame) := Publish(log1, pubs[|pubs| - 1]);
      (log2, if frame.Some? then frames + [frame.value] else frames)
  }

  function FrameIds<P>(frames: seq<Frame<P>>): (r: seq<EventId>)
    ensures |r| == |frames| && forall i :: 0 <= i < |frames| ==> r[i] == frames[i].eventId
  {
    if |frames| == 0 then [] else FrameIds(frames[..|frames| - 1]) + [frames[|frames| - 1].eventId]
  }

  /** What the relay keeps true: the log is contiguous, the provider's
      history is well numbered, and the frames sent so far carry exactly the
      ids the provider issued, in order. */
  ghost predicate Relayed<P>(log: Log<P>, frames: seq<Frame<P>>)
  {
    && Contiguous(log)
    && IdProviders.Valid(log.provider)
    && FrameIds(frames) == log.provider.issued
  }

  lemma PublishKeepsRelayed<P>(log: Log<P>, frames: seq<Frame<P>>, pub: Publication<P>)
    requires Relayed(log, frames)
    ensures var (log', frame) := Publish(log, pub);
      && frame.Some?
      && frame.value.subject == pub.subject && frame.value.payload == pub.payload
      && Relayed(log', frames + [frame.value])
  {
    AppendContiguous(log, pub.subject, pub.payload, pub.timestamp);
    AppendSpec(log, pub.subject, pub.payload, pub.timestamp);
    NextPreservesValid(log.provider, GetAggregateId(pub.subject), pub.subject, pub.timestamp);
    var (log', frame) := Publish(log, pub);
    assert FrameIds(frames + [frame.value]) == FrameIds(frames) + [frame.value.eventId];
  }

  /** Starting from an empty log and a fresh provider, every publication is
      broadcast and the relay invariant holds throughout. */
  lemma {:induction false} RelayFromFresh<P>(pubs: seq<Publication<P>>)
    ensures var (log, frames) := PublishAll(NewLog<P>(NewProvider()), pubs);
      && |frames| == |pubs|
      && Relayed(log, frames)
    decreases |pubs|
  {
    if |pubs| == 0 {
      NewLogContiguous<P>();
    } else {
      var pub := pubs[|pubs| - 1];
      RelayFromFresh(pubs[..|pubs| - 1]);
      var (log1, frames1) := PublishAll(NewLog<P>(NewProvider()), pubs[..|pubs| - 1]);
      PublishKeepsRelayed(log1, frames1, pub);
      var (log2, frame) := Publish(log1, pub);
      assert PublishAll(NewLog<P>(NewProvider()), pubs) == (log2, frames1 + [frame.value]);
    }
  }

  /** From a fresh log, no publication is dropped. */
  lemma RelayAllSent<P>(pubs: seq<Publication<P>>)
    ensures |PublishAll(NewLog<P>(NewProvider()), pubs).1| == |pubs|
  {
    RelayFromFresh(pubs);
  }

  /** From a fresh log, frame i is publication i's subject and payload. */
  lemma {:induction false} RelayKeepsContent<P>(pubs: seq<Publication<P>>)
    ensures var frames := PublishAll(NewLog<P>(NewProvider()), pubs).1;
      && |frames| == |pubs|
      && forall i :: 0 <= i < |pubs| ==>
           frames[i].subject == pubs[i].subject && frames[i].payload == pubs[i].payload
    decreases |pubs|
  {
    RelayAllSent(pubs);
    if |pubs| > 0 {
      var pub := pubs[|pubs| - 1];
      var prefix := pubs[..|pubs| - 1];
      RelayKeepsContent(prefix);
      RelayAllSent(prefix);
      var (log1, frames1) := PublishAll(NewLog<P>(NewProvider()), prefix);
      var frame := Publish(log1, pub).1;
      assert frame.Some?;
      var frames := frames1 + [frame.value];
      assert PublishAll(NewLog<P>(NewProvider()), pubs).1 == frames;
      forall i | 0 <= i < |pubs|
        ensures frames[i].subject == pubs[i].subject && frames[i].payload == pubs[i].payload
      {
        if i < |pubs| - 1 {
          assert prefix[i] == pubs[i];
        }
      }
    }
  }

  /** Broadcast order is processing order, so each stream's broadcast
      versions are 0, 1, 2, … with no gap and no repeat. */
  lemma BroadcastVersionsContiguous<P>(pubs: seq<Publication<P>>, stream: string)
    ensures var (log, frames) := PublishAll(NewLog<P>(NewProvider()), pubs);
      VersionsOf(FrameIds(frames), stream) == Range(|GetStream(log, stream)|)
  {
    RelayFromFresh(pubs);
    var (log, frames) := PublishAll(NewLog<P>(NewProvider()), pubs);
    assert 0 <= NextVersion(log.provider, stream) && VersionsOf(log.provider.issued, stream) == Range(NextVersion(log.provider, stream));
  }

  /** A snapshot served from a contiguous log holds, for the stream the
      request names, the versions 0 … n-1 in order, when the request names
      the stream only. */
  lemma SnapshotOfStream<P>(log: Log<P>, stream: string)
    requires Contiguous(log)
    requires stream != "" && Separator !in stream
    ensures var reply := Snapshot(log, StateRequest(stream));
      && reply.events == GetStream(log, stream)
      && forall k :: 0 <= k < |reply.events| ==> reply.events[k].eventId.version == k
  {
    var reply := Snapshot(log, StateRequest(stream));
    if stream in log.streams {
      SnapshotWholeStream(log, stream);
    }
  }

  /** Every record of stream `s` has a subject starting with `s`, so the
      prefix filter keeps all of them. */
  lemma SnapshotWholeStream<P>(log: Log<P>, stream: string)
    requires EventLog.Valid(log)
    requires stream in log.streams && stream != "" && Separator !in stream
    ensures GetStreamBySubject(log, stream) == log.streams[stream]
  {
    var rs := log.streams[stream];
    forall k | 0 <= k < |rs|
      ensures StartsWith(rs[k].eventId.subject, stream)
    {
      assert Filed(rs[k], stream);
    }
    FilterKeepsAll(rs, stream);
  }

  /** Which objects the broker's loops have created so far. `Run` only
      starts the loops on background tasks: the relay loop creates the
      poller, the heartbeat loop its socket, the state-of-the-world loop
      its socket. Before `Run` none exists. */
  datatype LoopsStarted = LoopsStarted(poller: bool, heartbeatSocket: bool, stateRequestSocket: bool)

  const NoLoops := LoopsStarted(false, false, false)
  const AllLoops := LoopsStarted(true, true, true)

  /** `Destroy`. Its hook stops the poller and closes the two sockets, in
      that order, and throws at the first one not yet created. So it throws
      on a broker that never ran, and also on a running one whose loops have
      not all got that far; the state then stays as it was. */
  function Stop(s: Actors.ActorState, loops: LoopsStarted): (r: Result<Actors.ActorState>)
    ensures r.Ok? <==> s == Actors.Running && loops == AllLoops
    ensures r.Ok? ==> r == Actors.Destroy(s)
    ensures s == Actors.Ready ==> r == Err(NullReference("_poller"))
    ensures s == Actors.Running && !loops.poller ==> r == Err(NullReference("_poller"))
    ensures s != Actors.Destroyed && r.Err? ==> r.error.NullReference?
    ensures s == Actors.Destroyed ==> r.Err? && r.error.InvalidOperation?
  {
    Actors.DestroyWith(s, DestroyHook(if s == Actors.Ready then NoLoops else loops))
  }

  /** What the destroy hook throws, given what exists. */
  function DestroyHook(loops: LoopsStarted): Option<Exception>
  {
    if !loops.poller then Some(NullReference("_poller"))
    else if !loops.heartbeatSocket then Some(NullReference("_heartbeatSocket"))
    else if !loops.stateRequestSocket then Some(NullReference("_stateRequestSocket"))
    else None
  }

  /** Destroying a broker that never ran throws, whatever is assumed about
      its loops, and leaves it Ready; once running with every loop started,
      the destroy goes through. */
  lemma StopBeforeRun(loops: LoopsStarted)
    ensures Stop(Actors.NewActor, loops) == Err(NullReference("_poller"))
    ensures Stop(Actors.Run(Actors.NewActor).value, AllLoops) == Ok(Actors.Destroyed)
  {
  }
}
