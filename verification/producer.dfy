/** `ProducerBase`: the producer's heartbeat-driven connection state, the
    guard in front of `Publish`, and its destroy hook. The socket itself is
    the frame returned. */
module Producer {
  import Wrappers
  import Actors
  import opened Events
  import opened Messages
  import opened Serializer

  /** `ProducerState`; a producer starts in `None`. */
  datatype ProducerState = None | Connected | Disconnected

  const InitialState: ProducerState := None

  /** One heartbeat round trip, answered (`ok`) or timed out. Only a change of
      state is published; repeated results leave the state where it is. */
  function HeartbeatStep(s: ProducerState, ok: bool): (r: ProducerState)
    ensures ok ==> r == Connected
    ensures !ok ==> r != Connected
    ensures !ok ==> (r == None <==> s == None)
  {
    if ok then
      if s.None? || s.Disconnected? then Connected else s
    else
      if s.Connected? then Disconnected else s
  }

  function HeartbeatRun(s: ProducerState, oks: seq<bool>): ProducerState
    decreases |oks|
  {
    if |oks| == 0 then s else HeartbeatRun(HeartbeatStep(s, oks[0]), oks[1..])
  }

  /** After at least one heartbeat the producer is Connected exactly when the
      last heartbeat was answered. */
  lemma {:induction false} LastHeartbeatDecides(s: ProducerState, oks: seq<bool>)
    requires |oks| > 0
    ensures HeartbeatRun(s, oks) == Connected <==> oks[|oks| - 1]
    decreases |oks|
  {
    if |oks| > 1 {
      LastHeartbeatDecides(HeartbeatStep(s, oks[0]), oks[1..]);
      assert oks[1..][|oks[1..]| - 1] == oks[|oks| - 1];
    }
  }

  /** A producer stays in `None` exactly as long as no heartbeat is answered. */
  lemma {:induction false} NoneUntilFirstAnswer(oks: seq<bool>)
    ensures HeartbeatRun(None, oks) == None <==> forall i :: 0 <= i < |oks| ==> !oks[i]
    decreases |oks|
  {
    if |oks| > 0 {
      NoneUntilFirstAnswer(oks[1..]);
      if oks[0] {
        NeverBackToNone(Connected, oks[1..]);
      } else {
        forall i | 1 <= i < |oks| ensures oks[i] == oks[1..][i - 1] { }
      }
    }
  }

  /** Once left, `None` is never re-entered. */
  lemma {:induction false} NeverBackToNone(s: ProducerState, oks: seq<bool>)
    requires s != None
    ensures HeartbeatRun(s, oks) != None
    decreases |oks|
  {
    if |oks| > 0 {
      NeverBackToNone(HeartbeatStep(s, oks[0]), oks[1..]);
    }
  }

  /** The two frames `Publish` sends: the subject, then the message. */
  datatype ProducerFrame = ProducerFrame(subject: string, message: ProducerMessage)

  /** `Publish(event)`: refused unless Connected; otherwise exactly one frame
      pair, whose subject is the event's subject and whose message carries the
      event stamped with it. `ToProducerMessage` writes that subject into the
      caller's own event object; events are values here, so the caller's
      event is unchanged and the stamped copy lives only in the frame. */
  function Publish(s: ProducerState, e: Event): (r: Wrappers.Result<ProducerFrame>)
    ensures r.Ok? <==> s == Connected
    ensures s != Connected ==> r.error.InvalidOperation?
    ensures r.Ok? ==>
      && r.value.subject == GetSubject(e).value
      && r.value.message.subject == r.value.subject
      && r.value.message.event == e.(subject := Wrappers.Some(r.value.subject))
  {
    if !s.Connected? then Wrappers.Err(Wrappers.InvalidOperation("publisher is not connected"))
    else
      var (_, msg) := ToProducerMessage(e).value;
      Wrappers.Ok(ProducerFrame(msg.subject, msg))
  }

  /** `Destroy`. Its hook closes the publisher socket, which only `Run`
      creates: on a producer that never ran, the hook dereferences a null
      socket and throws, and the producer stays Ready. */
  function Stop(s: Actors.ActorState): (r: Wrappers.Result<Actors.ActorState>)
    ensures r.Ok? <==> s == Actors.Running
    ensures r.Ok? ==> r == Actors.Destroy(s)
    ensures s == Actors.Ready ==> r == Wrappers.Err(Wrappers.NullReference("_publisherSocket"))
    ensures s == Actors.Destroyed ==> r.Err? && r.error.InvalidOperation?
  {
    Actors.DestroyWith(s, SocketCloseHook(s))
  }

  /** What the destroy hook throws: `Run` creates the socket synchronously,
      so it is null exactly while the producer is still Ready. */
  function SocketCloseHook(s: Actors.ActorState): Wrappers.Option<Wrappers.Exception>
  {
    if s == Actors.Ready then Wrappers.Some(Wrappers.NullReference("_publisherSocket")) else Wrappers.None
  }

  /** Destroying a new producer throws and leaves it Ready; after `Run`
      the destroy goes through. */
  lemma StopBeforeRun()
    ensures Stop(Actors.NewActor) == Wrappers.Err(Wrappers.NullReference("_publisherSocket"))
    ensures Stop(Actors.Run(Actors.NewActor).value) == Wrappers.Ok(Actors.Destroyed)
  {
  }
}
