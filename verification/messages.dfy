/** The wire records exchanged between producer, broker and cache. A payload
    is the value it encodes: the byte codec is taken to be lossless. */
module Messages {
  import opened Events
  import opened EventIds

  /** `ProducerMessage`: the routing subject, the serialized event and its
      runtime type name. */
  datatype ProducerMessage = ProducerMessage(subject: string, event: Event, messageType: string)

  /** `EventMessage` / `EventCacheItem`: a logged payload with its id. */
  datatype EventMessage<+P> = EventMessage(eventId: EventId, message: P)

  /** `StateRequest`; the default request asks for every stream. */
  datatype StateRequest = StateRequest(subject: string)

  const DefaultStateRequest: StateRequest := StateRequest("")

  /** `StateReply`: the requested subject and the matching history. */
  datatype StateReply<+P> = StateReply(subject: string, events: seq<EventMessage<P>>)

  /** `Heartbeat.Query` and `Heartbeat.Response`. */
  datatype Heartbeat = Ping | Pong
}
