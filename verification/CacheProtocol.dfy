// The two cache tiers of cache/cache.go and every goroutine that reads or writes them, as the
// small steps the scheduler interleaves.

module CacheProtocol {
  import opened Wrappers
  import opened Packet

  type Key = string

  // mem: the in-memory tier is enabled; redis: Redis is; ttl: Redis entries may expire.
  datatype Config = Config(mem: bool, redis: bool, ttl: bool)

  // A goroutine, by what it does next.
  datatype Task =
    | Encoding(key: Key, body: Bytes, headers: Headers)           // `go EncodeSet`
    | Setting(key: Key, packet: Bytes, internalOnly: bool)        // at the top of Set
    | RedisWrite(key: Key, packet: Bytes)                         // the goroutine Set starts
    | MemWrite(key: Key, packet: Bytes, internalOnly: bool)       // the rest of Set
    | MemGet(key: Key)                                            // Fetch, before internal.Get
    | RedisGet(key: Key)                                          // Fetch, before external.GetEx
    | Checking(key: Key, packet: Bytes)                           // Fetch, before FromBytes
    | MemDelete(key: Key)                                         // Invalidate, before internal.Delete
    | RedisDelete(key: Key)                                       // Invalidate, before external.Del

  datatype State = State(mem: map<Key, Bytes>, redis: map<Key, Bytes>, tasks: multiset<Task>)

  datatype Action =
    | StartFetch(key: Key)
    | Respond(key: Key, code: int, body: Bytes, headers: Headers)   // ProcessResponse
    | StartInvalidate(key: Key)
    | Flush                                                         // FlushInternal
    | EncodeStep(task: Task, order: seq<Entry>)                     // an Encoding task, and the map order it meets
    | Step(task: Task, ok: bool)                                    // any other task; ok: the tier did as asked
    | EvictMem(key: Key)                                            // the environment drops an entry
    | ExpireRedis(key: Key)

  // A process that has just started: nothing in memory, nothing under way, and whatever the Redis
  // it attaches to already holds.
  function Boot(c: Config, redis: map<Key, Bytes>): State {
    State(map[], if c.redis then redis else map[], multiset{})
  }

  // The guard of ProcessResponse: 204, or 200 with a body.
  predicate Accepts(code: int, body: Bytes) {
    code == 204 || (|body| > 0 && code == 200)
  }

  ghost predicate Enabled(c: Config, s: State, a: Action) {
    match a
    case EncodeStep(t, order) => t in s.tasks && t.Encoding? && Enumerates(order, t.headers)
    case Step(t, ok) => t in s.tasks && !t.Encoding?
    case ExpireRedis(_) => c.ttl
    case _ => true
  }

  function When(b: bool, t: Task): (ts: multiset<Task>)
    ensures forall t' :: t' in ts <==> b && t' == t
  {
    if b then multiset{t} else multiset{}
  }

  // What a task becomes. Fetch: memory first, then Redis, then the checksum; a hit goes on to
  // refresh the memory tier, a bad value is invalidated, and one that validates but is too short
  // for its size field to be read ends the request there.
  function Next(c: Config, h: Digest, s: State, t: Task, ok: bool): multiset<Task>
    requires !t.Encoding?
  {
    match t
    case Setting(k, p, internalOnly) =>
      When(!internalOnly && c.redis, RedisWrite(k, p)) + When(c.mem, MemWrite(k, p, internalOnly))
    case MemGet(k) =>
      if ok && k in s.mem then When(true, Checking(k, s.mem[k])) else When(ok && c.redis, RedisGet(k))
    case RedisGet(k) => if k in s.redis then When(ok, Checking(k, s.redis[k])) else multiset{}
    case Checking(k, p) => if Valid(h, p) then When(Usable(h, p), Setting(k, p, true)) else Invalidation(c, k)
    case MemDelete(k) => When(ok && c.redis, RedisDelete(k))
    case _ => multiset{}
  }

  function Invalidation(c: Config, k: Key): multiset<Task> {
    When(c.mem, MemDelete(k)) + When(!c.mem && c.redis, RedisDelete(k))
  }

  function Lookup(c: Config, k: Key): multiset<Task> {
    When(c.mem, MemGet(k)) + When(!c.mem && c.redis, RedisGet(k))
  }

  function Added(c: Config, h: Digest, s: State, a: Action): multiset<Task>
    requires a.EncodeStep? ==> a.task.Encoding?
    requires a.Step? ==> !a.task.Encoding?
  {
    match a
    case StartFetch(k) => Lookup(c, k)
    case Respond(k, code, body, headers) => When(Accepts(code, body), Encoding(k, body, headers))
    case StartInvalidate(k) => Invalidation(c, k)
    case EncodeStep(t, order) => When(true, Setting(t.key, PacketOf(h, t.body, order), false))
    case Step(t, ok) => Next(c, h, s, t, ok)
    case _ => multiset{}
  }

  function Removed(a: Action): multiset<Task> {
    if a.EncodeStep? || a.Step? then multiset{a.task} else multiset{}
  }

  function MemAfter(c: Config, mem: map<Key, Bytes>, a: Action): map<Key, Bytes> {
    match a
    case Flush => if c.mem then map[] else mem
    case EvictMem(k) => mem - {k}
    case Step(t, ok) =>
      if ok && t.MemWrite? then mem[t.key := t.packet] else if ok && t.MemDelete? then mem - {t.key} else mem
    case _ => mem
  }

  function RedisAfter(redis: map<Key, Bytes>, a: Action): map<Key, Bytes> {
    match a
    case ExpireRedis(k) => redis - {k}
    case Step(t, ok) =>
      if ok && t.RedisWrite? then redis[t.key := t.packet] else if ok && t.RedisDelete? then redis - {t.key} else redis
    case _ => redis
  }

  lemma TiersOfTask(c: Config, mem: map<Key, Bytes>, redis: map<Key, Bytes>, t: Task, ok: bool)
    ensures MemAfter(c, mem, Step(t, ok)) ==
            if ok && t.MemWrite? then mem[t.key := t.packet] else if ok && t.MemDelete? then mem - {t.key} else mem
    ensures RedisAfter(redis, Step(t, ok)) ==
            if ok && t.RedisWrite? then redis[t.key := t.packet]
            else if ok && t.RedisDelete? then redis - {t.key} else redis
  {
  }

  lemma TiersOfOthers(c: Config, mem: map<Key, Bytes>, redis: map<Key, Bytes>, a: Action)
    requires !a.Step?
    ensures MemAfter(c, mem, a) ==
            if a.Flush? && c.mem then map[] else if a.EvictMem? then mem - {a.key} else mem
    ensures RedisAfter(redis, a) == if a.ExpireRedis? then redis - {a.key} else redis
  {
  }

  function Do(c: Config, h: Digest, s: State, a: Action): (s': State)
    requires Enabled(c, s, a)
    ensures forall t <- s'.tasks :: t in s.tasks || t in Added(c, h, s, a)
  {
    State(MemAfter(c, s.mem, a), RedisAfter(s.redis, a), s.tasks - Removed(a) + Added(c, h, s, a))
  }

  lemma TiersOfDo(c: Config, h: Digest, s: State, a: Action)
    requires Enabled(c, s, a)
    ensures var s' := Do(c, h, s, a); s'.mem == MemAfter(c, s.mem, a) && s'.redis == RedisAfter(s.redis, a)
  {
    hide Added, Enumerates, MemAfter, RedisAfter;
  }

  ghost predicate CanRun(c: Config, h: Digest, s: State, acts: seq<Action>)
    decreases |acts|, 0
  {
    acts == [] ||
    (CanRun(c, h, s, Front(acts)) && Enabled(c, Run(c, h, s, Front(acts)), Last(acts)))
  }

  ghost function Run(c: Config, h: Digest, s: State, acts: seq<Action>): State
    requires CanRun(c, h, s, acts)
    decreases |acts|, 1
  {
    if acts == [] then s else Do(c, h, Run(c, h, s, Front(acts)), Last(acts))
  }

  // ---- Provenance ---------------------------------------------------------------------------

  // acts[i] delivered a response for k with this body and these headers, and it was accepted.
  ghost predicate AcceptedAt(acts: seq<Action>, i: nat, k: Key, body: Bytes, headers: Headers) {
    i < |acts| && acts[i].Respond? && acts[i].key == k && acts[i].body == body && acts[i].headers == headers
    && Accepts(acts[i].code, body)
  }

  // p is what Encode makes, under some map order, of a response accepted for k.
  ghost predicate Produced(h: Digest, acts: seq<Action>, k: Key, p: Bytes) {
    exists i: nat, body, headers, order ::
      AcceptedAt(acts, i, k, body, headers) && Enumerates(order, headers) && p == PacketOf(h, body, order)
  }

  // p is such a packet, or was in Redis under k from the start.
  ghost predicate Known(h: Digest, redis: map<Key, Bytes>, acts: seq<Action>, k: Key, p: Bytes) {
    Produced(h, acts, k, p) || (k in redis && redis[k] == p)
  }

  ghost predicate TaskKnown(h: Digest, redis: map<Key, Bytes>, acts: seq<Action>, t: Task) {
    match t
    case Encoding(k, body, headers) => exists i: nat :: AcceptedAt(acts, i, k, body, headers)
    case Setting(k, p, _) => Known(h, redis, acts, k, p)
    case RedisWrite(k, p) => Known(h, redis, acts, k, p)
    case MemWrite(k, p, _) => Known(h, redis, acts, k, p)
    case Checking(k, p) => Known(h, redis, acts, k, p)
    case _ => true
  }

  // Nothing is stored, about to be stored or about to be served under a key but packets of
  // responses accepted for it and what Redis held for it from the start.
  ghost predicate AllKnown(h: Digest, redis: map<Key, Bytes>, acts: seq<Action>, s: State) {
    && (forall k <- s.mem :: Known(h, redis, acts, k, s.mem[k]))
    && (forall k <- s.redis :: Known(h, redis, acts, k, s.redis[k]))
    && (forall t <- s.tasks :: TaskKnown(h, redis, acts, t))
  }

  lemma ProducedStays(h: Digest, acts: seq<Action>, a: Action, k: Key, p: Bytes)
    requires Produced(h, acts, k, p)
    ensures Produced(h, acts + [a], k, p)
  {
    hide Enumerates, PacketOf;
    var i: nat, body, headers, order :|
      AcceptedAt(acts, i, k, body, headers) && Enumerates(order, headers) && p == PacketOf(h, body, order);
    assert AcceptedAt(acts + [a], i, k, body, headers);
  }

  lemma TaskKnownStays(h: Digest, redis: map<Key, Bytes>, acts: seq<Action>, a: Action, t: Task)
    requires TaskKnown(h, redis, acts, t)
    ensures TaskKnown(h, redis, acts + [a], t)
  {
    hide Produced;
    if t.Encoding? {
      var i: nat :| AcceptedAt(acts, i, t.key, t.body, t.headers);
      assert AcceptedAt(acts + [a], i, t.key, t.body, t.headers);
    } else if t.Setting? || t.RedisWrite? || t.MemWrite? || t.Checking? {
      KnownStays(h, redis, acts, a, t.key, t.packet);
    }
  }

  lemma KnownStays(h: Digest, redis: map<Key, Bytes>, acts: seq<Action>, a: Action, k: Key, p: Bytes)
    requires Known(h, redis, acts, k, p)
    ensures Known(h, redis, acts + [a], k, p)
  {
    hide Produced;
    if Produced(h, acts, k, p) { ProducedStays(h, acts, a, k, p); }
  }

  lemma AllKnownStays(h: Digest, redis: map<Key, Bytes>, acts: seq<Action>, a: Action, s: State)
    requires AllKnown(h, redis, acts, s)
    ensures AllKnown(h, redis, acts + [a], s)
  {
    hide Known, TaskKnown;
    forall k <- s.mem { KnownStays(h, redis, acts, a, k, s.mem[k]); }
    forall k <- s.redis { KnownStays(h, redis, acts, a, k, s.redis[k]); }
    forall t <- s.tasks { TaskKnownStays(h, redis, acts, a, t); }
  }

  lemma EncodedIsKnown(h: Digest, redis: map<Key, Bytes>, acts: seq<Action>, t: Task, order: seq<Entry>)
    requires t.Encoding? && TaskKnown(h, redis, acts, t) && Enumerates(order, t.headers)
    ensures Known(h, redis, acts, t.key, PacketOf(h, t.body, order))
  {
  }

  lemma NextIsKnown(c: Config, h: Digest, redis: map<Key, Bytes>, acts: seq<Action>, s: State, t: Task, ok: bool,
      t': Task)
    requires AllKnown(h, redis, acts, s) && t in s.tasks && !t.Encoding? && t' in Next(c, h, s, t, ok)
    ensures TaskKnown(h, redis, acts, t')
  {
    hide Known, Valid, Usable, When;
    assert TaskKnown(h, redis, acts, t);
  }

  lemma AddedIsKnown(c: Config, h: Digest, redis: map<Key, Bytes>, acts: seq<Action>, s: State, a: Action, t: Task)
    requires AllKnown(h, redis, acts, s) && Enabled(c, s, a) && t in Added(c, h, s, a)
    requires a.Respond? && Accepts(a.code, a.body) ==> exists i: nat :: AcceptedAt(acts, i, a.key, a.body, a.headers)
    ensures TaskKnown(h, redis, acts, t)
  {
    hide Known, PacketOf, Enumerates, Accepts, When, Next;
    if a.Step? {
      NextIsKnown(c, h, redis, acts, s, a.task, a.ok, t);
    } else if a.EncodeStep? {
      assert TaskKnown(h, redis, acts, a.task);
      EncodedIsKnown(h, redis, acts, a.task, a.order);
    }
  }

  lemma TiersAreKnown(c: Config, h: Digest, redis: map<Key, Bytes>, acts: seq<Action>, s: State, a: Action)
    requires AllKnown(h, redis, acts, s) && Enabled(c, s, a)
    ensures forall k <- MemAfter(c, s.mem, a) :: Known(h, redis, acts, k, MemAfter(c, s.mem, a)[k])
    ensures forall k <- RedisAfter(s.redis, a) :: Known(h, redis, acts, k, RedisAfter(s.redis, a)[k])
  {
    hide Known, MemAfter, RedisAfter, Enumerates;
    if a.Step? {
      TiersOfTask(c, s.mem, s.redis, a.task, a.ok);
      assert TaskKnown(h, redis, acts, a.task);
    } else {
      TiersOfOthers(c, s.mem, s.redis, a);
    }
  }

  // The step itself, the log of responses already covering it.
  lemma StepKeepsKnown(c: Config, h: Digest, redis: map<Key, Bytes>, acts: seq<Action>, s: State, a: Action)
    requires AllKnown(h, redis, acts, s) && Enabled(c, s, a)
    requires a.Respond? && Accepts(a.code, a.body) ==> exists i: nat :: AcceptedAt(acts, i, a.key, a.body, a.headers)
    ensures AllKnown(h, redis, acts, Do(c, h, s, a))
  {
    hide Known, TaskKnown, MemAfter, RedisAfter, Added, Accepts;
    TiersAreKnown(c, h, redis, acts, s, a);
    forall t <- Do(c, h, s, a).tasks ensures TaskKnown(h, redis, acts, t) {
      if t in Added(c, h, s, a) { AddedIsKnown(c, h, redis, acts, s, a, t); }
    }
  }

  lemma {:induction false} Provenance(c: Config, h: Digest, redis: map<Key, Bytes>, acts: seq<Action>)
    requires CanRun(c, h, Boot(c, redis), acts)
    ensures AllKnown(h, redis, acts, Run(c, h, Boot(c, redis), acts))
    decreases |acts|
  {
    hide AllKnown, Do, Enabled, Known, Boot;
    if acts == [] {
      BootIsKnown(c, h, redis);
    } else {
      var (before, a) := (Front(acts), Last(acts));
      Provenance(c, h, redis, before);
      assert acts == before + [a];
      AllKnownStays(h, redis, before, a, Run(c, h, Boot(c, redis), before));
      if a.Respond? && Accepts(a.code, a.body) {
        assert AcceptedAt(acts, |before|, a.key, a.body, a.headers);
      }
      StepKeepsKnown(c, h, redis, acts, Run(c, h, Boot(c, redis), before), a);
    }
  }

  lemma BootIsKnown(c: Config, h: Digest, redis: map<Key, Bytes>)
    ensures AllKnown(h, redis, [], Boot(c, redis))
  {
    hide Produced;
  }

  // ---- Which responses count ----------------------------------------------------------------

  // 204 is cached whatever the body, 200 with a body, nothing else.
  lemma RespondStarts(c: Config, h: Digest, s: State, k: Key, code: int, body: Bytes, headers: Headers)
    ensures var s' := Do(c, h, s, Respond(k, code, body, headers));
            && s'.mem == s.mem && s'.redis == s.redis
            && (code == 204 ==> s'.tasks == s.tasks + multiset{Encoding(k, body, headers)})
            && (code == 200 && body != [] ==> s'.tasks == s.tasks + multiset{Encoding(k, body, headers)})
            && (code == 200 && body == [] ==> s'.tasks == s.tasks)
            && (code != 200 && code != 204 ==> s'.tasks == s.tasks)
  {
  }

  // acts[i] delivered for k a 204 response, or a 200 response with a body.
  ghost predicate Delivered(acts: seq<Action>, i: nat, k: Key, body: Bytes, headers: Headers) {
    i < |acts| &&
    (acts[i] == Respond(k, 204, body, headers) || (acts[i] == Respond(k, 200, body, headers) && body != []))
  }

  // p is what a tier holds under k, or what is served for it at the end.
  predicate InUse(h: Digest, s: State, k: Key, p: Bytes) {
    (k in s.mem && s.mem[k] == p) || (k in s.redis && s.redis[k] == p) || (Checking(k, p) in s.tasks && Usable(h, p))
  }

  // Whatever is in a tier or about to be served, unless Redis came with it, is the packet of a 204
  // response delivered for its key, or of a 200 response with a body.
  lemma InUseWasDelivered(c: Config, h: Digest, redis: map<Key, Bytes>, acts: seq<Action>, k: Key, p: Bytes)
    returns (i: nat, body: Bytes, headers: Headers, order: seq<Entry>)
    requires CanRun(c, h, Boot(c, redis), acts) && InUse(h, Run(c, h, Boot(c, redis), acts), k, p)
    requires !(k in redis && redis[k] == p)
    ensures Delivered(acts, i, k, body, headers) && Enumerates(order, headers) && p == PacketOf(h, body, order)
  {
    hide Run, CanRun, Boot, Produced, Usable, Delivered, PacketOf, Enumerates, AcceptedAt;
    Provenance(c, h, redis, acts);
    var s := Run(c, h, Boot(c, redis), acts);
    if Checking(k, p) in s.tasks { assert TaskKnown(h, redis, acts, Checking(k, p)); }
    assert Produced(h, acts, k, p);
    i, body, headers, order := ProducedFrom(h, acts, k, p);
    AcceptedWasDelivered(acts, i, k, body, headers);
  }

  lemma ProducedFrom(h: Digest, acts: seq<Action>, k: Key, p: Bytes)
    returns (i: nat, body: Bytes, headers: Headers, order: seq<Entry>)
    requires Produced(h, acts, k, p)
    ensures AcceptedAt(acts, i, k, body, headers) && Enumerates(order, headers) && p == PacketOf(h, body, order)
  {
    hide AcceptedAt, PacketOf, Enumerates;
    i, body, headers, order :|
      AcceptedAt(acts, i, k, body, headers) && Enumerates(order, headers) && p == PacketOf(h, body, order);
  }

  lemma AcceptedWasDelivered(acts: seq<Action>, i: nat, k: Key, body: Bytes, headers: Headers)
    ensures AcceptedAt(acts, i, k, body, headers) <==> Delivered(acts, i, k, body, headers)
  {
  }

  // Fetch returns the packet to its caller at this step.
  predicate Serves(h: Digest, a: Action, k: Key, p: Bytes) {
    a.Step? && a.task == Checking(k, p) && Usable(h, p)
  }

  // A run up to any of its steps.
  lemma {:induction false} RunUpTo(c: Config, h: Digest, s: State, acts: seq<Action>, i: nat)
    requires CanRun(c, h, s, acts) && i <= |acts|
    ensures CanRun(c, h, s, acts[..i])
    ensures i < |acts| ==> Enabled(c, Run(c, h, s, acts[..i]), acts[i]) && CanRun(c, h, s, acts[..i + 1])
    ensures i < |acts| ==> Run(c, h, s, acts[..i + 1]) == Do(c, h, Run(c, h, s, acts[..i]), acts[i])
    decreases |acts|
  {
    hide Do, Enabled;
    if i < |acts| {
      if i < |acts| - 1 {
        RunUpTo(c, h, s, Front(acts), i);
        assert Front(acts)[..i] == acts[..i] && Front(acts)[..i + 1] == acts[..i + 1];
      } else {
        assert acts[..i] == Front(acts) && acts[..i + 1] == acts;
      }
    } else {
      assert acts[..i] == acts;
    }
  }

  // The rest of a run, from any of its states on.
  lemma {:induction false} RunFrom(c: Config, h: Digest, s: State, acts: seq<Action>, i: nat)
    requires CanRun(c, h, s, acts) && i <= |acts|
    ensures CanRun(c, h, s, acts[..i]) && CanRun(c, h, Run(c, h, s, acts[..i]), acts[i..])
    ensures Run(c, h, Run(c, h, s, acts[..i]), acts[i..]) == Run(c, h, s, acts)
    decreases |acts|
  {
    hide Do, Enabled;
    if i < |acts| {
      RunFrom(c, h, s, Front(acts), i);
      assert Front(acts)[..i] == acts[..i];
      assert acts[i..] == Front(acts)[i..] + [Last(acts)];
      OneMore(c, h, Run(c, h, s, acts[..i]), Front(acts)[i..], Last(acts));
    } else {
      assert acts[..i] == acts && acts[i..] == [];
    }
  }

  // Whatever is served, at any step of any run, validates, and is the packet of a response accepted
  // before for that key or an entry Redis came with.
  lemma ServedIsKnown(c: Config, h: Digest, redis: map<Key, Bytes>, acts: seq<Action>, i: nat, k: Key, p: Bytes)
    requires CanRun(c, h, Boot(c, redis), acts) && i < |acts| && Serves(h, acts[i], k, p)
    ensures Valid(h, p) && Known(h, redis, acts[..i], k, p)
  {
    hide Known, Run, CanRun, Valid, Enumerates, Boot;
    RunUpTo(c, h, Boot(c, redis), acts, i);
    Provenance(c, h, redis, acts[..i]);
    assert TaskKnown(h, redis, acts[..i], acts[i].task);
  }

  // A Fetch of k has found p and is about to check it.
  ghost predicate AtCheck(c: Config, h: Digest, redis: map<Key, Bytes>, acts: seq<Action>, k: Key, p: Bytes) {
    CanRun(c, h, Boot(c, redis), acts) && Checking(k, p) in Run(c, h, Boot(c, redis), acts).tasks
  }

  // Whatever Fetch finds for k, unless Redis came with it, is the packet of a response accepted for
  // k: it is served, the branch that wipes a bad value is not taken, the tile read is in bounds, and
  // within the format's limits body and headers come back exactly.
  lemma EveryHitIsAResponse(c: Config, h: Digest, redis: map<Key, Bytes>, acts: seq<Action>, k: Key, p: Bytes, ok: bool)
    returns (i: nat, body: Bytes, headers: Headers, order: seq<Entry>)
    requires AtCheck(c, h, redis, acts, k, p) && !(k in redis && redis[k] == p)
    ensures Serves(h, Step(Checking(k, p), ok), k, p)
    ensures AcceptedAt(acts, i, k, body, headers) && Enumerates(order, headers) && p == PacketOf(h, body, order)
    ensures TileData(p) == Some(Kept(body))
    ensures WithinLimits(body, headers) ==> Decode(h, p) == Decoded(body, headers)
  {
    hide AtCheck, Produced, AcceptedAt, PacketOf, Enumerates, Usable, TileData, WithinLimits, Decode;
    CheckedIsProduced(c, h, redis, acts, k, p);
    i, body, headers, order := ResponseBehind(h, acts, k, p);
  }

  lemma CheckedIsProduced(c: Config, h: Digest, redis: map<Key, Bytes>, acts: seq<Action>, k: Key, p: Bytes)
    requires AtCheck(c, h, redis, acts, k, p) && !(k in redis && redis[k] == p)
    ensures Produced(h, acts, k, p)
  {
    hide Produced, Run, CanRun, Boot;
    Provenance(c, h, redis, acts);
    assert TaskKnown(h, redis, acts, Checking(k, p));
  }

  lemma ResponseBehind(h: Digest, acts: seq<Action>, k: Key, p: Bytes)
    returns (i: nat, body: Bytes, headers: Headers, order: seq<Entry>)
    requires Produced(h, acts, k, p)
    ensures Usable(h, p)
    ensures AcceptedAt(acts, i, k, body, headers) && Enumerates(order, headers) && p == PacketOf(h, body, order)
    ensures TileData(p) == Some(Kept(body))
    ensures WithinLimits(body, headers) ==> Decode(h, p) == Decoded(body, headers)
  {
    hide PacketOf, Enumerates, Usable, TileData, WithinLimits, Decode, Kept;
    i, body, headers, order :|
      AcceptedAt(acts, i, k, body, headers) && Enumerates(order, headers) && p == PacketOf(h, body, order);
    PacketIsUsable(h, body, order);
    TileDataOfPacket(h, body, order);
    RoundTrip(h, body, headers, order);
  }

  lemma OneMore(c: Config, h: Digest, s: State, acts: seq<Action>, a: Action)
    requires CanRun(c, h, s, acts) && Enabled(c, Run(c, h, s, acts), a)
    ensures CanRun(c, h, s, acts + [a])
    ensures Run(c, h, s, acts + [a]) == Do(c, h, Run(c, h, s, acts), a)
  {
    hide Do, Enabled;
    assert Front(acts + [a]) == acts && Last(acts + [a]) == a;
  }
}
