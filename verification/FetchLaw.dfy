// What a Fetch answers after any run in which operations on a key do not overlap: what was stored
// last, and nothing after an invalidation.

module FetchLaw {
  import opened Wrappers
  import opened Packet
  import opened CacheProtocol
  import opened Resurrection
  import opened PlainMap
  import opened Cache

  // A run after which a Fetch of k overlaps no store or invalidation of k.
  ghost predicate ReadyToFetch(c: Config, h: Digest, redis: map<Key, Bytes>, acts: seq<Action>, k: Key) {
    OrderlyRun(c, h, redis, acts) && c.redis && !c.ttl && Orderly(Run(c, h, Boot(c, redis), acts), StartFetch(k))
  }

  // The answer of a Fetch in which nothing fails.
  ghost function Answer(c: Config, h: Digest, redis: map<Key, Bytes>, acts: seq<Action>, k: Key): Fetched
    requires CanRun(c, h, Boot(c, redis), acts)
  {
    ResultOf(c, h, Run(c, h, Boot(c, redis), acts), k, true, true)
  }

  lemma ShowsWithoutWriters(h: Digest, m: map<Key, Bytes>, s: State, k: Key)
    requires Agrees(h, m, s, k) && Orderly(s, StartFetch(k))
    ensures RedisShows(h, s.redis, m, k) && MemShows(s.mem, m, k) && (k in m ==> Usable(h, m[k]))
  {
    hide Usable, TiersAgree, TasksAgree, RedisShows, MemShows;
    var ph :| TasksAgree(h, m, s, k, ph) && TiersAgree(h, m, s, k, ph);
    ReadersSeePlain(h, m, s, k, ph);
  }

  lemma AnswerShown(c: Config, h: Digest, m: map<Key, Bytes>, s: State, k: Key)
    requires RedisShows(h, s.redis, m, k) && MemShows(s.mem, m, k) && (k in m ==> Usable(h, m[k])) && c.redis
    ensures forall p :: ResultOf(c, h, s, k, true, true) == Hit(p) <==> k in m && m[k] == p
  {
    hide Valid, Usable;
    var found := Found(c, s, k, true, true);
    if found.Some? { UsableIsValid(h, found.value); }
  }

  // Fetch hands out the plain map's entry, and nothing exactly where the map has none.
  lemma FetchAnswersPlainMap(c: Config, h: Digest, redis: map<Key, Bytes>, acts: seq<Action>, k: Key)
    requires ReadyToFetch(c, h, redis, acts, k)
    ensures var m := Plain(h, redis, acts); forall p :: Answer(c, h, redis, acts, k) == Hit(p) <==> k in m && m[k] == p
  {
    hide Run, CanRun, OrderlyRun, Plain, Agrees, Boot, ResultOf, RedisShows, MemShows, Usable;
    var (m, s) := (Plain(h, redis, acts), Run(c, h, Boot(c, redis), acts));
    RunAgrees(c, h, redis, acts, k);
    ShowsWithoutWriters(h, m, s, k);
    AnswerShown(c, h, m, s, k);
  }

  // A response for k is encoded, or an invalidation of k begins.
  predicate Changes(a: Action, k: Key) {
    (a.EncodeStep? && a.task.key == k) || a == StartInvalidate(k)
  }

  ghost predicate NoChangeFrom(acts: seq<Action>, i: nat, k: Key) {
    forall j :: i <= j < |acts| ==> !Changes(acts[j], k)
  }

  // Steps that are no change of k leave the plain map's entry alone.
  lemma {:induction false} PlainStays(c: Config, h: Digest, redis: map<Key, Bytes>, acts: seq<Action>, i: nat, k: Key)
    requires CanRun(c, h, Boot(c, redis), acts) && i <= |acts| && NoChangeFrom(acts, i, k)
    ensures SameAt(Plain(h, redis, acts[..i]), Plain(h, redis, acts), k)
    decreases |acts|
  {
    hide Do, Boot, PacketOf, UsablePart;
    if i == |acts| {
      assert acts[..i] == acts;
    } else {
      assert Front(acts)[..i] == acts[..i];
      PlainStays(c, h, redis, Front(acts), i, k);
      assert !Changes(Last(acts), k);
    }
  }

  // After the last change of k has been the encoding of a response, Fetch hands out its packet, from
  // which body and headers come back exactly, as far as the format can hold them.
  lemma LastResponseIsServed(c: Config, h: Digest, redis: map<Key, Bytes>, acts: seq<Action>, i: nat, k: Key,
                             body: Bytes, headers: Headers, order: seq<Entry>)
    requires ReadyToFetch(c, h, redis, acts, k)
    requires i < |acts| && acts[i] == EncodeStep(Encoding(k, body, headers), order) && NoChangeFrom(acts, i + 1, k)
    ensures Answer(c, h, redis, acts, k) == Hit(PacketOf(h, body, order))
    ensures Decode(h, PacketOf(h, body, order)) == Decoded(body, headers) <==> WithinLimits(body, headers)
  {
    hide Run, CanRun, ResultOf, Boot, PacketOf, Decode, WithinLimits, Plain, Usable;
    RunUpTo(c, h, Boot(c, redis), acts, i);
    PlainStays(c, h, redis, acts, i + 1, k);
    PlainAt(h, redis, acts, i);
    FetchAnswersPlainMap(c, h, redis, acts, k);
    RoundTrip(h, body, headers, order);
  }

  lemma PlainAt(h: Digest, redis: map<Key, Bytes>, acts: seq<Action>, i: nat)
    requires i < |acts|
    ensures Plain(h, redis, acts[..i + 1]) == PlainAfter(h, Plain(h, redis, acts[..i]), acts[i])
  {
    hide PlainAfter, UsablePart;
    assert Front(acts[..i + 1]) == acts[..i] && Last(acts[..i + 1]) == acts[i];
  }

  // After the last change of k has been an invalidation, Fetch hands out nothing.
  lemma NothingAfterInvalidate(c: Config, h: Digest, redis: map<Key, Bytes>, acts: seq<Action>, i: nat, k: Key)
    requires ReadyToFetch(c, h, redis, acts, k)
    requires i < |acts| && acts[i] == StartInvalidate(k) && NoChangeFrom(acts, i + 1, k)
    ensures !Answer(c, h, redis, acts, k).Hit?
  {
    hide Run, CanRun, ResultOf, Boot, Plain, Usable;
    PlainStays(c, h, redis, acts, i + 1, k);
    PlainAt(h, redis, acts, i);
    FetchAnswersPlainMap(c, h, redis, acts, k);
  }

  // With no change of k at all, Fetch hands out what Redis came with, if it can be read.
  lemma RedisAsFound(c: Config, h: Digest, redis: map<Key, Bytes>, acts: seq<Action>, k: Key)
    requires ReadyToFetch(c, h, redis, acts, k) && NoChangeFrom(acts, 0, k)
    ensures forall p :: Answer(c, h, redis, acts, k) == Hit(p) <==> k in redis && redis[k] == p && Usable(h, p)
  {
    hide Run, CanRun, ResultOf, Boot, Usable;
    assert acts[..0] == [];
    PlainStays(c, h, redis, acts, 0, k);
    FetchAnswersPlainMap(c, h, redis, acts, k);
  }
}
