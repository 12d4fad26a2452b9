/** `InMemoryEventIdProvider`: per-stream version counters plus the history
    of every id handed out. */
module IdProviders {
  import opened EventIds

  /** `counters[s]` is the last version issued for stream `s`. */
  datatype IdProvider = IdProvider(counters: map<string, int>, issued: seq<EventId>)

  function NewProvider(): (p: IdProvider)
    ensures p.counters == map[] && p.issued == []
  {
    IdProvider(map[], [])
  }

  /** The version `Next` will hand out for `stream`. */
  function NextVersion(p: IdProvider, stream: string): int
  {
    if stream in p.counters then p.counters[stream] + 1 else 0
  }

  /** `Next(streamName, subject)`; `timestamp` stands for `DateTime.Now.Ticks`. */
  function Next(p: IdProvider, stream: string, subject: string, timestamp: int): (r: (IdProvider, EventId))
    ensures r.1.eventStream == stream && r.1.subject == subject && r.1.timestamp == timestamp
    ensures stream !in p.counters ==> r.1.version == 0
    ensures stream in p.counters ==> r.1.version == p.counters[stream] + 1
    ensures r.0.counters == p.counters[stream := r.1.version]
    ensures r.0.issued == p.issued + [r.1]
  {
    var version := if stream !in p.counters then 0 else p.counters[stream] + 1;
    var id := EventId(stream, version, subject, timestamp);
    (IdProvider(p.counters[stream := version], p.issued + [id]), id)
  }

  /** `Reset`: forget every counter and the history. */
  function Reset(p: IdProvider): (r: IdProvider)
    ensures r.counters == map[] && r.issued == []
    ensures forall s :: NextVersion(r, s) == 0
  {
    IdProvider(map[], [])
  }

  /** `Next` on one stream leaves the next version of every other stream alone. */
  lemma NextLeavesOtherStreams(p: IdProvider, stream: string, subject: string, timestamp: int, other: string)
    requires other != stream
    ensures NextVersion(Next(p, stream, subject, timestamp).0, other) == NextVersion(p, other)
  {
  }

  /** The issued versions of one stream, in issue order. */
  function VersionsOf(ids: seq<EventId>, stream: string): seq<int>
  {
    if |ids| == 0 then []
    else VersionsOf(ids[..|ids| - 1], stream)
         + (if ids[|ids| - 1].eventStream == stream then [ids[|ids| - 1].version] else [])
  }

  /** `0, 1, …, n-1`. */
  function Range(n: nat): (r: seq<int>)
    ensures |r| == n && forall i :: 0 <= i < n ==> r[i] == i
  {
    if n == 0 then [] else Range(n - 1) + [n - 1]
  }

  /** The provider is consistent with its history: each stream's issued
      versions are 0, 1, 2, … up to its counter. */
  ghost predicate Valid(p: IdProvider)
  {
    forall s :: 0 <= NextVersion(p, s) && VersionsOf(p.issued, s) == Range(NextVersion(p, s))
  }

  lemma NewProviderValid()
    ensures Valid(NewProvider())
  {
  }

  /** `Next` keeps every stream's issued versions contiguous from 0: no gap,
      no reuse. */
  lemma {:induction false} NextPreservesValid(p: IdProvider, stream: string, subject: string, timestamp: int)
    requires Valid(p)
    ensures Valid(Next(p, stream, subject, timestamp).0)
  {
    var (p', id) := Next(p, stream, subject, timestamp);
    forall s
      ensures 0 <= NextVersion(p', s) && VersionsOf(p'.issued, s) == Range(NextVersion(p', s))
    {
      assert p'.issued[..|p'.issued| - 1] == p.issued;
      assert 0 <= NextVersion(p, s) && VersionsOf(p.issued, s) == Range(NextVersion(p, s));
    }
  }

  /** Any run of `Next` calls from a fresh or reset provider hands stream `s`
      the versions 0, 1, 2, … in order. */
  lemma {:induction false} IssuedVersionsContiguous(p: IdProvider, calls: seq<(string, string, int)>)
    requires Valid(p)
    ensures Valid(RunNext(p, calls))
    decreases |calls|
  {
    if |calls| > 0 {
      var (s, subj, t) := calls[0];
      NextPreservesValid(p, s, subj, t);
      IssuedVersionsContiguous(Next(p, s, subj, t).0, calls[1..]);
    }
  }

  /** Issue one id per (stream, subject, timestamp) triple, in order. */
  function RunNext(p: IdProvider, calls: seq<(string, string, int)>): IdProvider
    decreases |calls|
  {
    if |calls| == 0 then p
    else RunNext(Next(p, calls[0].0, calls[0].1, calls[0].2).0, calls[1..])
  }
}
