/** The broker-assigned identity of a logged event: stream, per-stream
    version, the subject it was published under and an uninterpreted
    timestamp (DateTime ticks in the source). */
module EventIds {
  import opened Text

  const Separator: char := '.'

  /** Signed 32-bit integers: the result type of `GetHashCode`. */
  type Int32 = x: int | -0x8000_0000 <= x < 0x8000_0000

  datatype EventId = EventId(eventStream: string, version: int, subject: string, timestamp: int)

  /** The "stream.version" text that names one event of one stream; shared by
      `EventId.Id` and `EventBase.EventId`. */
  function StreamVersionKey(stream: string, version: int): string
  {
    stream + [Separator] + IntToString(version)
  }

  /** A "stream.version" key names exactly one (stream, version) pair, even
      when the stream name itself contains dots. */
  lemma StreamVersionKeyInjective(s1: string, v1: int, s2: string, v2: int)
    ensures StreamVersionKey(s1, v1) == StreamVersionKey(s2, v2) <==> s1 == s2 && v1 == v2
  {
    if StreamVersionKey(s1, v1) == StreamVersionKey(s2, v2) {
      SeparatedInjective(s1, IntToString(v1), s2, IntToString(v2), Separator);
      IntToStringInjective(v1, v2);
    }
  }

  /** The constructor keeps every argument. */
  function NewEventId(eventStream: string, version: int, subject: string, timestamp: int): (id: EventId)
    ensures id.eventStream == eventStream && id.version == version
    ensures id.subject == subject && id.timestamp == timestamp
  {
    EventId(eventStream, version, subject, timestamp)
  }

  /** `Id`: the stream, a dot, then the version in decimal. */
  function Id(id: EventId): (r: string)
    ensures StartsWith(r, id.eventStream + [Separator])
    ensures r[|id.eventStream| + 1..] == IntToString(id.version)
  {
    StreamVersionKey(id.eventStream, id.version)
  }

  /** `Equals`: same subject and same `Id`. Since the "stream.version" text
      names one stream and version, that is identity on (subject, stream,
      version); the timestamp plays no part. */
  function Equals(a: EventId, b: EventId): (r: bool)
    ensures r <==> a.subject == b.subject && a.eventStream == b.eventStream && a.version == b.version
  {
    StreamVersionKeyInjective(a.eventStream, a.version, b.eventStream, b.version);
    a.subject == b.subject && Id(a) == Id(b)
  }

  /** `Equals` is an equivalence relation. */
  lemma EqualsIsEquivalence(a: EventId, b: EventId, c: EventId)
    ensures Equals(a, a)
    ensures Equals(a, b) ==> Equals(b, a)
    ensures Equals(a, b) && Equals(b, c) ==> Equals(a, c)
  {
  }

  /** Two's-complement wrap-around of C#'s `unchecked` int arithmetic. */
  function Wrap32(x: int): (r: Int32)
    ensures (r - x) % 0x1_0000_0000 == 0
  {
    (x + 0x8000_0000) % 0x1_0000_0000 - 0x8000_0000
  }

  /** `GetHashCode`: 17, then `* 23 +` the string hashes of `Subject` and
      `Id`, all wrapping at 32 bits. The string hash is a parameter because
      .NET randomises it per process. */
  function HashCode(id: EventId, stringHash: string -> Int32): (r: Int32)
    ensures (r - (17 * 23 * 23 + 23 * stringHash(id.subject) + stringHash(Id(id)))) % 0x1_0000_0000 == 0
  {
    var h := Wrap32(17 * 23 + stringHash(id.subject));
    CongruentScaled(h, 17 * 23 + stringHash(id.subject), 23, stringHash(Id(id)));
    Wrap32(h * 23 + stringHash(Id(id)))
  }

  /** Congruence modulo 2^32 survives `* k + b`. */
  lemma CongruentScaled(x: int, y: int, k: int, b: int)
    requires (x - y) % 0x1_0000_0000 == 0
    ensures ((x * k + b) - (y * k + b)) % 0x1_0000_0000 == 0
  {
    var q := (x - y) / 0x1_0000_0000;
    assert x - y == q * 0x1_0000_0000;
    assert (x * k + b) - (y * k + b) == (x - y) * k;
    assert (x - y) * k == (q * k) * 0x1_0000_0000;
  }

  /** Equal ids hash alike, whatever the string hash. */
  lemma EqualIdsHashAlike(a: EventId, b: EventId, stringHash: string -> Int32)
    requires Equals(a, b)
    ensures HashCode(a, stringHash) == HashCode(b, stringHash)
  {
  }

  /** `ToString` is the `Id`. */
  function ToString(id: EventId): string
  {
    Id(id)
  }

  /** Two ids print alike exactly when they name the same stream and
      version; subject and timestamp do not show. */
  lemma ToStringNamesVersion(a: EventId, b: EventId)
    ensures ToString(a) == ToString(b) <==> a.eventStream == b.eventStream && a.version == b.version
  {
    StreamVersionKeyInjective(a.eventStream, a.version, b.eventStream, b.version);
  }
}
