// The Cache type of cache/cache.go as an object: its tiers, its counters, and the goroutines it
// has started. The outcome of each tier operation (true: no error) is a parameter.

module Cache {
  import opened Wrappers
  import opened Packet
  import opened CacheProtocol

  // ---- What each operation amounts to when nothing interferes -------------------------------

  // Memory first; an error there leaves Redis alone.
  function AfterInvalidate(c: Config, s: State, k: Key, memOk: bool, redisOk: bool): State {
    State(if c.mem && memOk then s.mem - {k} else s.mem,
          if (c.mem ==> memOk) && c.redis && redisOk then s.redis - {k} else s.redis,
          s.tasks)
  }

  // The first value found, memory before Redis.
  function Found(c: Config, s: State, k: Key, memOk: bool, redisOk: bool): Option<Bytes> {
    if c.mem && !memOk then None
    else if c.mem && k in s.mem then Some(s.mem[k])
    else if c.redis && redisOk && k in s.redis then Some(s.redis[k])
    else None
  }

  // A good value is on its way back into memory, a bad one is wiped; one that validates but is too
  // short to read stays where it is.
  function AfterFetch(c: Config, h: Digest, s: State, k: Key, found: Option<Bytes>, delMemOk: bool,
                      delRedisOk: bool): State {
    if found.None? then s
    else if Valid(h, found.value) then
      s.(tasks := s.tasks + When(Usable(h, found.value), Setting(k, found.value, true)))
    else AfterInvalidate(c, s, k, delMemOk, delRedisOk)
  }

  function AfterSet(c: Config, s: State, k: Key, p: Bytes, internalOnly: bool, memOk: bool): State {
    State(if c.mem && memOk then s.mem[k := p] else s.mem,
          s.redis,
          s.tasks + When(!internalOnly && c.redis, RedisWrite(k, p)))
  }

  // What Fetch comes to; Panicked: it reads beyond the packet, and the request ends there.
  datatype Fetched = Hit(tile: Bytes) | Miss | Panicked

  // A Redis error with the memory tier off has Fetch read a nil error.
  function ResultOf(c: Config, h: Digest, s: State, k: Key, memOk: bool, redisOk: bool): Fetched {
    if RedisFails(c, s, k, memOk, redisOk) then (if c.mem then Miss else Panicked)
    else Unwrapped(h, Found(c, s, k, memOk, redisOk))
  }

  predicate RedisFails(c: Config, s: State, k: Key, memOk: bool, redisOk: bool) {
    (c.mem ==> memOk && k !in s.mem) && c.redis && !redisOk
  }

  function Unwrapped(h: Digest, found: Option<Bytes>): Fetched {
    if found.None? || !Valid(h, found.value) then Miss
    else if Usable(h, found.value) then Hit(found.value)
    else Panicked
  }

  class Cache {
    const config: Config
    const digest: Digest
    var internal: map<Key, Bytes>
    var external: map<Key, Bytes>
    var background: multiset<Task>     // goroutines started and not yet run
    var hits: nat
    var misses: nat

    // Memory starts out empty; Redis, when enabled, is the server's as it is found.
    constructor (config: Config, digest: Digest, redis: map<Key, Bytes>)
      ensures this.config == config && this.digest == digest && Now() == Boot(config, redis) && hits == misses == 0
      ensures internal == map[] && background == multiset{} && external == (if config.redis then redis else map[])
    {
      this.config, this.digest := config, digest;
      internal, background, hits, misses := map[], multiset{}, 0, 0;
      external := if config.redis then redis else map[];
    }

    function Now(): State
      reads this
    {
      State(internal, external, background)
    }

    method Invalidate(key: Key, memOk: bool, redisOk: bool) returns (ok: bool)
      modifies this`internal, this`external
      ensures ok <==> (config.mem ==> memOk) && (config.redis ==> redisOk)
      ensures Now() == AfterInvalidate(config, old(Now()), key, memOk, redisOk)
      ensures internal == if config.mem && memOk then old(internal) - {key} else old(internal)
      ensures external ==
              if config.redis && redisOk && (config.mem ==> memOk) then old(external) - {key} else old(external)
    {
      if config.mem {
        if !memOk { return false; }
        internal := internal - {key};
      }
      if config.redis {
        if !redisOk { return false; }
        external := external - {key};
      }
      return true;
    }

    // From memory if the key is there, else from Redis: a value with its checksum in front is handed
    // out and on its way back into memory, any other is wiped.
    method Fetch(key: Key, memOk: bool, redisOk: bool, delMemOk: bool, delRedisOk: bool) returns (fetched: Fetched)
      modifies this
      ensures fetched == ResultOf(config, digest, old(Now()), key, memOk, redisOk)
      ensures Now() == AfterFetch(config, digest, old(Now()), key, Found(config, old(Now()), key, memOk, redisOk),
                                  delMemOk, delRedisOk)
      ensures var inMem := config.mem && memOk && key in old(internal);
              var inRedis := (config.mem ==> memOk) && config.redis && redisOk && key in old(external);
              inMem || inRedis ==>
                var value := if inMem then old(internal)[key] else old(external)[key];
                && hits == old(hits) + 1 && misses == old(misses)
                && ((exists p :: value == digest(p) + p) && |value| >= 36 ==>
                      fetched == Hit(value) && background == old(background) + multiset{Setting(key, value, true)}
                      && internal == old(internal) && external == old(external))
                && ((exists p :: value == digest(p) + p) && |value| < 36 ==>
                      fetched == Panicked && Now() == old(Now()))
                && (!(exists p :: value == digest(p) + p) ==>
                      fetched == Miss && background == old(background)
                      && (config.mem && delMemOk ==> internal == old(internal) - {key})
                      && (config.redis && delRedisOk && (config.mem ==> delMemOk) ==>
                            external == old(external) - {key}))
      ensures var inMem := config.mem && memOk && key in old(internal);
              var inRedis := (config.mem ==> memOk) && config.redis && redisOk && key in old(external);
              var failed := (config.mem && !memOk) || (config.redis && !redisOk);
              !inMem && !inRedis ==>
                && Now() == old(Now()) && hits == old(hits) && misses == old(misses) + (if failed then 0 else 1)
                && fetched == if config.mem || !failed then Miss else Panicked
    {
      hide Valid, Usable, AfterInvalidate, AfterFetch;
      NothingFound(config, digest, Now(), key, delMemOk, delRedisOk);
      var cached: Option<Bytes> := None;
      if config.mem {
        if !memOk { return Miss; }
        if key in internal { cached := Some(internal[key]); }
      }
      if cached.None? && config.redis {
        if !redisOk { return if config.mem then Miss else Panicked; }
        if key !in external {
          misses := misses + 1;
          return Miss;
        }
        cached := Some(external[key]);
      }
      if cached.None? {
        misses := misses + 1;
        return Miss;
      }
      hits := hits + 1;
      fetched := Unwrap(key, cached.value, delMemOk, delRedisOk);
    }

    // The end of Fetch, from packet.FromBytes on.
    method Unwrap(key: Key, cached: Bytes, delMemOk: bool, delRedisOk: bool) returns (fetched: Fetched)
      modifies this`internal, this`external, this`background
      ensures fetched == Unwrapped(digest, Some(cached))
      ensures Now() == AfterFetch(config, digest, old(Now()), key, Some(cached), delMemOk, delRedisOk)
      ensures (exists p :: cached == digest(p) + p) && |cached| >= 36 ==>
                fetched == Hit(cached) && background == old(background) + multiset{Setting(key, cached, true)}
                && internal == old(internal) && external == old(external)
      ensures (exists p :: cached == digest(p) + p) && |cached| < 36 ==> fetched == Panicked && Now() == old(Now())
      ensures !(exists p :: cached == digest(p) + p) ==>
                fetched == Miss && background == old(background)
                && (config.mem && delMemOk ==> internal == old(internal) - {key})
                && (config.redis && delRedisOk && (config.mem ==> delMemOk) ==> external == old(external) - {key})
    {
      hide Valid, AfterInvalidate;
      AddNothing(background);
      var tile := FromBytes(digest, cached);
      if tile.None? {
        var _ := Invalidate(key, delMemOk, delRedisOk);
        return Miss;
      }
      if TileDataSize(tile.value).None? { return Panicked; }
      background := background + multiset{Setting(key, tile.value, true)};
      fetched := Hit(tile.value);
    }

    method Set(key: Key, tile: Bytes, internalOnly: bool, memOk: bool)
      modifies this`internal, this`background
      ensures Now() == AfterSet(config, old(Now()), key, tile, internalOnly, memOk)
      ensures internal == if config.mem && memOk then old(internal)[key := tile] else old(internal)
      ensures config.redis && !internalOnly ==> background == old(background) + multiset{RedisWrite(key, tile)}
      ensures !config.redis || internalOnly ==> background == old(background)
    {
      if !internalOnly && config.redis {
        background := background + multiset{RedisWrite(key, tile)};
      }
      if config.mem && memOk {
        internal := internal[key := tile];
      }
    }

    method EncodeSet(key: Key, tileData: Bytes, headers: Headers, memOk: bool) returns (ghost order: seq<Entry>)
      modifies this`internal, this`background
      ensures Enumerates(order, headers)
      ensures Now() == AfterSet(config, old(Now()), key, PacketOf(digest, tileData, order), false, memOk)
    {
      hide Enumerates, PacketOf;
      var packet;
      packet, order := Encode(digest, tileData, headers);
      Set(key, packet, false, memOk);
    }

    // helpers.ProcessResponse, as far as the cache is concerned. writeOk: the response body could
    // be written out (or did not have to be).
    method ProcessResponse(key: Key, code: int, body: Bytes, headers: Headers, writeOk: bool) returns (ok: bool)
      modifies this`background
      ensures ok <==> Accepts(code, body) && writeOk
      ensures ok <==> writeOk && (code == 204 || (code == 200 && body != []))
      ensures background == if ok then old(background) + multiset{Encoding(key, body, headers)} else old(background)
    {
      if code == 204 || (|body| > 0 && code == 200) {
        if !writeOk { return false; }
        background := background + multiset{Encoding(key, body, headers)};
        ok := true;
      } else {
        ok := false;
      }
    }

    method FlushInternal(memOk: bool) returns (ok: bool)
      modifies this`internal
      ensures ok <==> (config.mem ==> memOk)
      ensures Now() == if memOk then Do(config, digest, old(Now()), Flush) else old(Now())
      ensures internal == if config.mem && memOk then map[] else old(internal)
    {
      if config.mem {
        if memOk { internal := map[]; }
        return memOk;
      }
      return true;
    }
  }

  // ---- Each of them is a run of the protocol ------------------------------------------------

  // acts leads from one state to the other.
  ghost predicate Follows(c: Config, h: Digest, s: State, acts: seq<Action>, s': State) {
    CanRun(c, h, s, acts) && Run(c, h, s, acts) == s'
  }

  // more goes on from acts with steps of one Fetch of k, which met the value found, if any; failed:
  // its Redis read did.
  ghost predicate FetchSteps(acts: seq<Action>, more: seq<Action>, k: Key, found: Option<Bytes>, failed: bool) {
    && (forall a <- acts :: a in more)
    && (found.Some? ==> Step(Checking(k, found.value), true) in more)
    && (failed ==> Step(RedisGet(k), false) in more)
    && (forall a <- more :: a in acts || MayTake(a, k, found, failed))
  }

  predicate MayTake(a: Action, k: Key, found: Option<Bytes>, failed: bool) {
    a.Step? && a.task.key == k &&
    match a.task
    case Checking(_, p) => a.ok && found == Some(p)
    case RedisGet(_) => a.ok || failed
    case MemGet(_) => true
    case MemDelete(_) => true
    case RedisDelete(_) => true
    case _ => false
  }

  lemma OneStepOn(acts: seq<Action>, a: Action, more: seq<Action>, k: Key, found: Option<Bytes>, failed: bool)
    requires MayTake(a, k, found, failed) && FetchSteps(acts + [a], more, k, found, failed)
    ensures FetchSteps(acts, more, k, found, failed)
  {
    hide MayTake;
    assert forall a' <- acts :: a' in acts + [a];
    forall a' <- more ensures a' in acts || MayTake(a', k, found, failed) {
      assert a' in acts + [a] ==> a' in acts || a' == a;
    }
  }

  // The last step, after which nothing is missing.
  lemma LastStep(acts: seq<Action>, a: Action, k: Key, found: Option<Bytes>, failed: bool)
    requires MayTake(a, k, found, failed) && (found.Some? ==> Step(Checking(k, found.value), true) in acts + [a])
    requires failed ==> Step(RedisGet(k), false) in acts + [a]
    ensures FetchSteps(acts, acts + [a], k, found, failed)
  {
    hide MayTake;
  }

  lemma DeletionsLeft(acts: seq<Action>, more: seq<Action>, k: Key, found: Option<Bytes>)
    requires acts <= more && (found.Some? ==> Step(Checking(k, found.value), true) in acts)
    requires forall a <- more[|acts|..] :: a.Step? && (a.task == MemDelete(k) || a.task == RedisDelete(k))
    ensures FetchSteps(acts, more, k, found, false)
  {
    forall a <- more ensures a in acts || MayTake(a, k, found, false) {
      assert more == acts + more[|acts|..];
      assert a in acts || a in more[|acts|..];
    }
  }

  lemma NoStepLeft(acts: seq<Action>, k: Key, found: Option<Bytes>, failed: bool)
    requires found.Some? ==> Step(Checking(k, found.value), true) in acts
    requires failed ==> Step(RedisGet(k), false) in acts
    ensures FetchSteps(acts, acts, k, found, failed)
  {
    hide MayTake;
  }

  lemma FollowsNothing(c: Config, h: Digest, s: State)
    ensures Follows(c, h, s, [], s)
  {
  }

  lemma FollowsOneMore(c: Config, h: Digest, s0: State, acts: seq<Action>, s: State, a: Action, s': State)
    requires Follows(c, h, s0, acts, s) && Enabled(c, s, a) && s' == Do(c, h, s, a)
    ensures Follows(c, h, s0, acts + [a], s')
  {
    hide Do, Enabled;
    OneMore(c, h, s0, acts, a);
  }

  lemma StepTo(c: Config, h: Digest, s: State, t: Task, ok: bool, rest: multiset<Task>)
    requires s.tasks == rest + multiset{t} && !t.Encoding?
    ensures Enabled(c, s, Step(t, ok))
    ensures Do(c, h, s, Step(t, ok)) ==
            State(MemAfter(c, s.mem, Step(t, ok)), RedisAfter(s.redis, Step(t, ok)), rest + Next(c, h, s, t, ok))
  {
    hide Next, MemAfter, RedisAfter, Enumerates;
    assert s.tasks - multiset{t} == rest;
  }

  // Steps of the goroutine that runs alone while `rest` waits.
  lemma FollowsStep(c: Config, h: Digest, s0: State, acts: seq<Action>, s: State, t: Task, ok: bool,
                    rest: multiset<Task>, s': State)
    requires Follows(c, h, s0, acts, s) && s.tasks == rest + multiset{t} && !t.Encoding?
    requires s'.mem == MemAfter(c, s.mem, Step(t, ok)) && s'.redis == RedisAfter(s.redis, Step(t, ok))
    requires s'.tasks == rest + Next(c, h, s, t, ok)
    ensures Follows(c, h, s0, acts + [Step(t, ok)], s')
  {
    hide Follows, Next, MemAfter, RedisAfter, Do, Enabled;
    StepTo(c, h, s, t, ok, rest);
    FollowsOneMore(c, h, s0, acts, s, Step(t, ok), s');
  }

  lemma MemDeleteFacts(c: Config, h: Digest, s: State, k: Key, ok: bool)
    ensures MemAfter(c, s.mem, Step(MemDelete(k), ok)) == (if ok then s.mem - {k} else s.mem)
    ensures RedisAfter(s.redis, Step(MemDelete(k), ok)) == s.redis
    ensures Next(c, h, s, MemDelete(k), ok) == When(ok && c.redis, RedisDelete(k))
  {
    TiersOfTask(c, s.mem, s.redis, MemDelete(k), ok);
    hide Valid, Usable, Invalidation, Lookup, When, MemAfter, RedisAfter;
  }

  lemma RedisDeleteFacts(c: Config, h: Digest, s: State, k: Key, ok: bool)
    ensures MemAfter(c, s.mem, Step(RedisDelete(k), ok)) == s.mem
    ensures RedisAfter(s.redis, Step(RedisDelete(k), ok)) == (if ok then s.redis - {k} else s.redis)
    ensures Next(c, h, s, RedisDelete(k), ok) == multiset{}
  {
    TiersOfTask(c, s.mem, s.redis, RedisDelete(k), ok);
    hide Valid, Usable, Invalidation, Lookup, When, MemAfter, RedisAfter;
  }

  lemma ReadFacts(c: Config, h: Digest, s: State, k: Key, ok: bool)
    ensures var a := Step(RedisGet(k), ok); MemAfter(c, s.mem, a) == s.mem && RedisAfter(s.redis, a) == s.redis
    ensures Next(c, h, s, RedisGet(k), ok) ==
            if ok && k in s.redis then multiset{Checking(k, s.redis[k])} else multiset{}
  {
    TiersOfTask(c, s.mem, s.redis, RedisGet(k), ok);
    hide Valid, Usable, Invalidation, Lookup, MemAfter, RedisAfter;
  }

  lemma DeletionRuns(c: Config, h: Digest, s0: State, acts: seq<Action>, s: State, k: Key, redisOk: bool,
                     rest: multiset<Task>)
    returns (more: seq<Action>)
    requires Follows(c, h, s0, acts, s) && s.tasks == rest + multiset{RedisDelete(k)}
    ensures Follows(c, h, s0, more, State(s.mem, if redisOk then s.redis - {k} else s.redis, rest))
    ensures more == acts + [Step(RedisDelete(k), redisOk)]
  {
    hide Follows, Next, MemAfter, RedisAfter;
    var t := RedisDelete(k);
    RedisDeleteFacts(c, h, s, k, redisOk);
    AddNothing(rest);
    FollowsStep(c, h, s0, acts, s, t, redisOk, rest, State(s.mem, if redisOk then s.redis - {k} else s.redis, rest));
    more := acts + [Step(t, redisOk)];
  }

  lemma InvalidationOf(c: Config, k: Key)
    ensures c.mem ==> Invalidation(c, k) == multiset{MemDelete(k)}
    ensures !c.mem && c.redis ==> Invalidation(c, k) == multiset{RedisDelete(k)}
    ensures !c.mem && !c.redis ==> Invalidation(c, k) == multiset{}
    ensures c.mem ==> Lookup(c, k) == multiset{MemGet(k)}
    ensures !c.mem && c.redis ==> Lookup(c, k) == multiset{RedisGet(k)}
    ensures !c.mem && !c.redis ==> Lookup(c, k) == multiset{}
  {
  }

  lemma AddNothing(ts: multiset<Task>)
    ensures ts + multiset{} == ts
  {
  }

  // The deletions an invalidation has started, carried out.
  lemma InvalidationRuns(c: Config, h: Digest, s0: State, acts: seq<Action>, s: State, k: Key, memOk: bool,
                         redisOk: bool, rest: multiset<Task>)
    returns (more: seq<Action>)
    requires Follows(c, h, s0, acts, s) && s.tasks == rest + Invalidation(c, k)
    ensures Follows(c, h, s0, more, AfterInvalidate(c, s.(tasks := rest), k, memOk, redisOk))
    ensures acts <= more
    ensures forall a <- more[|acts|..] :: a.Step? && (a.task == MemDelete(k) || a.task == RedisDelete(k))
  {
    hide Follows, Invalidation, Lookup, Next, MemAfter, RedisAfter;
    InvalidationOf(c, k);
    AddNothing(rest);
    MemDeleteFacts(c, h, s, k, memOk);
    if c.mem {
      var t := MemDelete(k);
      var s' := State(if memOk then s.mem - {k} else s.mem, s.redis, rest + When(memOk && c.redis, RedisDelete(k)));
      FollowsStep(c, h, s0, acts, s, t, memOk, rest, s');
      more := acts + [Step(t, memOk)];
      if memOk && c.redis { more := DeletionRuns(c, h, s0, more, s', k, redisOk, rest); }
    } else if c.redis {
      more := DeletionRuns(c, h, s0, acts, s, k, redisOk, rest);
    } else {
      more := acts;
    }
  }

  lemma InvalidateIsARun(c: Config, h: Digest, s: State, k: Key, memOk: bool, redisOk: bool) returns (acts: seq<Action>)
    ensures Follows(c, h, s, acts, AfterInvalidate(c, s, k, memOk, redisOk))
  {
    hide Follows, AfterInvalidate, Invalidation;
    FollowsNothing(c, h, s);
    var s' := s.(tasks := s.tasks + Invalidation(c, k));
    FollowsOneMore(c, h, s, [], s, StartInvalidate(k), s');
    acts := InvalidationRuns(c, h, s, [] + [StartInvalidate(k)], s', k, memOk, redisOk, s.tasks);
  }

  // Fetch from its Redis read on.
  lemma RedisReadRuns(c: Config, h: Digest, s0: State, acts: seq<Action>, s: State, k: Key, redisOk: bool,
                      delMemOk: bool, delRedisOk: bool, rest: multiset<Task>) returns (more: seq<Action>)
    requires Follows(c, h, s0, acts, s) && s.tasks == rest + multiset{RedisGet(k)}
    ensures var found := if redisOk && k in s.redis then Some(s.redis[k]) else None;
            && Follows(c, h, s0, more, AfterFetch(c, h, s.(tasks := rest), k, found, delMemOk, delRedisOk))
            && FetchSteps(acts, more, k, found, !redisOk)
  {
    hide Follows, Valid, Next, MemAfter, RedisAfter, FetchSteps;
    var t := RedisGet(k);
    ReadFacts(c, h, s, k, redisOk);
    AddNothing(rest);
    if redisOk && k in s.redis {
      var s' := s.(tasks := rest + multiset{Checking(k, s.redis[k])});
      FollowsStep(c, h, s0, acts, s, t, redisOk, rest, s');
      more := CheckRuns(c, h, s0, acts + [Step(t, redisOk)], s', k, s.redis[k], delMemOk, delRedisOk, rest);
      OneStepOn(acts, Step(t, redisOk), more, k, Some(s.redis[k]), false);
    } else {
      FollowsStep(c, h, s0, acts, s, t, redisOk, rest, s.(tasks := rest));
      more := acts + [Step(t, redisOk)];
      LastStep(acts, Step(t, redisOk), k, None, !redisOk);
    }
  }

  // Fetch from its checksum test on.
  lemma CheckRuns(c: Config, h: Digest, s0: State, acts: seq<Action>, s: State, k: Key, p: Bytes,
                  delMemOk: bool, delRedisOk: bool, rest: multiset<Task>) returns (more: seq<Action>)
    requires Follows(c, h, s0, acts, s) && s.tasks == rest + multiset{Checking(k, p)}
    ensures Follows(c, h, s0, more, AfterFetch(c, h, s.(tasks := rest), k, Some(p), delMemOk, delRedisOk))
    ensures FetchSteps(acts, more, k, Some(p), false)
  {
    hide Follows, FetchSteps, Valid, Usable, AfterInvalidate, Invalidation, MemAfter, RedisAfter;
    var t := Checking(k, p);
    TiersOfTask(c, s.mem, s.redis, t, true);
    var s' := s.(tasks := rest + Next(c, h, s, t, true));
    FollowsStep(c, h, s0, acts, s, t, true, rest, s');
    more := acts + [Step(t, true)];
    if !Valid(h, p) {
      more := InvalidationRuns(c, h, s0, more, s', k, delMemOk, delRedisOk, rest);
    }
    DeletionsLeft(acts + [Step(t, true)], more, k, Some(p));
    OneStepOn(acts, Step(t, true), more, k, Some(p), false);
  }

  lemma FetchRuns(c: Config, h: Digest, s: State, k: Key, memOk: bool, redisOk: bool, delMemOk: bool, delRedisOk: bool)
    returns (acts: seq<Action>)
    ensures Follows(c, h, s, acts, AfterFetch(c, h, s, k, Found(c, s, k, memOk, redisOk), delMemOk, delRedisOk))
    ensures FetchSteps([StartFetch(k)], acts, k, Found(c, s, k, memOk, redisOk), RedisFails(c, s, k, memOk, redisOk))
  {
    hide Follows, FetchSteps, Valid, AfterFetch, Lookup, Invalidation, MayTake;
    FetchStarts(c, h, s, k);
    InvalidationOf(c, k);
    AddNothing(s.tasks);
    var start := s.(tasks := s.tasks + Lookup(c, k));
    acts := [StartFetch(k)];
    if !c.mem && !c.redis {
      NothingFound(c, h, s, k, delMemOk, delRedisOk);
      NoStepLeft(acts, k, None, false);
    } else if !c.mem {
      acts := RedisReadRuns(c, h, s, acts, start, k, redisOk, delMemOk, delRedisOk, s.tasks);
    } else {
      acts := MemReadRuns(c, h, s, acts, start, k, memOk, redisOk, delMemOk, delRedisOk, s.tasks);
    }
  }

  lemma FetchStarts(c: Config, h: Digest, s: State, k: Key)
    ensures Follows(c, h, s, [StartFetch(k)], s.(tasks := s.tasks + Lookup(c, k)))
  {
    hide Follows, Lookup;
    FollowsNothing(c, h, s);
    FollowsOneMore(c, h, s, [], s, StartFetch(k), s.(tasks := s.tasks + Lookup(c, k)));
    assert [] + [StartFetch(k)] == [StartFetch(k)];
  }

  // Where the request ends in a panic: the value validates but is too short to read, or Redis fails
  // with the memory tier off.
  predicate Panics(c: Config, h: Digest, a: Action, k: Key) {
    a.Step? && a.task.key == k &&
    match a.task
    case Checking(_, p) => Valid(h, p) && !Usable(h, p)
    case RedisGet(_) => !a.ok && !c.mem
    case _ => false
  }

  // Fetch is a run of the protocol, and its answer what the run serves: the packet served at some
  // step, a panic exactly if the run has one, else a miss.
  lemma FetchIsARun(c: Config, h: Digest, s: State, k: Key, memOk: bool, redisOk: bool, delMemOk: bool,
                    delRedisOk: bool)
    returns (acts: seq<Action>)
    ensures Follows(c, h, s, acts, AfterFetch(c, h, s, k, Found(c, s, k, memOk, redisOk), delMemOk, delRedisOk))
    ensures forall p :: ResultOf(c, h, s, k, memOk, redisOk) == Hit(p) <==> exists a <- acts :: Serves(h, a, k, p)
    ensures ResultOf(c, h, s, k, memOk, redisOk) == Panicked <==> exists a <- acts :: Panics(c, h, a, k)
  {
    hide Follows, FetchSteps, AfterFetch, Found, RedisFails;
    acts := FetchRuns(c, h, s, k, memOk, redisOk, delMemOk, delRedisOk);
    FoundOrFailed(c, s, k, memOk, redisOk);
    var (found, failed) := (Found(c, s, k, memOk, redisOk), RedisFails(c, s, k, memOk, redisOk));
    AnswerOfSteps(h, [StartFetch(k)], acts, k, found, failed);
    PanicOfSteps(c, h, [StartFetch(k)], acts, k, found, failed);
  }

  lemma FoundOrFailed(c: Config, s: State, k: Key, memOk: bool, redisOk: bool)
    ensures RedisFails(c, s, k, memOk, redisOk) ==> Found(c, s, k, memOk, redisOk).None?
  {
  }

  lemma AnswerOfSteps(h: Digest, acts: seq<Action>, more: seq<Action>, k: Key, found: Option<Bytes>, failed: bool)
    requires FetchSteps(acts, more, k, found, failed) && forall a <- acts :: !a.Step?
    ensures forall p :: Unwrapped(h, found) == Hit(p) <==> exists a <- more :: Serves(h, a, k, p)
  {
    hide Valid;
    forall p ensures Unwrapped(h, found) == Hit(p) <==> exists a <- more :: Serves(h, a, k, p) {
      if Unwrapped(h, found) == Hit(p) { assert Serves(h, Step(Checking(k, p), true), k, p); }
      if exists a <- more :: Serves(h, a, k, p) {
        var a :| a in more && Serves(h, a, k, p);
        assert MayTake(a, k, found, failed);
        UsableIsValid(h, p);
      }
    }
  }

  lemma PanicOfSteps(c: Config, h: Digest, acts: seq<Action>, more: seq<Action>, k: Key, found: Option<Bytes>,
                     failed: bool)
    requires FetchSteps(acts, more, k, found, failed) && forall a <- acts :: !a.Step?
    ensures Unwrapped(h, found) == Panicked || (failed && !c.mem) <==> exists a <- more :: Panics(c, h, a, k)
  {
    hide Valid, Usable;
    if Unwrapped(h, found) == Panicked { assert Panics(c, h, Step(Checking(k, found.value), true), k); }
    if failed && !c.mem { assert Panics(c, h, Step(RedisGet(k), false), k); }
    if exists a <- more :: Panics(c, h, a, k) {
      var a :| a in more && Panics(c, h, a, k);
      assert MayTake(a, k, found, failed);
    }
  }

  lemma NothingFound(c: Config, h: Digest, s: State, k: Key, delMemOk: bool, delRedisOk: bool)
    ensures AfterFetch(c, h, s, k, None, delMemOk, delRedisOk) == s
  {
  }

  // Fetch from its memory read on.
  lemma MemReadRuns(c: Config, h: Digest, s0: State, acts: seq<Action>, s: State, k: Key, memOk: bool, redisOk: bool,
                    delMemOk: bool, delRedisOk: bool, rest: multiset<Task>) returns (more: seq<Action>)
    requires Follows(c, h, s0, acts, s) && s.tasks == rest + multiset{MemGet(k)} && c.mem
    ensures Follows(c, h, s0, more,
                    AfterFetch(c, h, s.(tasks := rest), k, Found(c, s, k, memOk, redisOk), delMemOk, delRedisOk))
    ensures FetchSteps(acts, more, k, Found(c, s, k, memOk, redisOk), RedisFails(c, s, k, memOk, redisOk))
  {
    hide Follows, Valid, AfterFetch, FetchSteps;
    var t := MemGet(k);
    var s' := s.(tasks := rest + Next(c, h, s, t, memOk));
    FollowsStep(c, h, s0, acts, s, t, memOk, rest, s');
    more := acts + [Step(t, memOk)];
    if memOk && k in s.mem {
      more := CheckRuns(c, h, s0, more, s', k, s.mem[k], delMemOk, delRedisOk, rest);
    } else if memOk && c.redis {
      more := RedisReadRuns(c, h, s0, more, s', k, redisOk, delMemOk, delRedisOk, rest);
    } else {
      NothingFound(c, h, s.(tasks := rest), k, delMemOk, delRedisOk);
      assert s'.tasks == rest;
      NoStepLeft(more, k, None, false);
    }
    OneStepOn(acts, Step(t, memOk), more, k, Found(c, s, k, memOk, redisOk), RedisFails(c, s, k, memOk, redisOk));
  }

  // The goroutine that calls Set.
  lemma SetIsARun(c: Config, h: Digest, s: State, k: Key, p: Bytes, internalOnly: bool, memOk: bool)
    returns (acts: seq<Action>)
    ensures Follows(c, h, s.(tasks := s.tasks + multiset{Setting(k, p, internalOnly)}), acts,
        AfterSet(c, s, k, p, internalOnly, memOk))
  {
    FollowsNothing(c, h, s.(tasks := s.tasks + multiset{Setting(k, p, internalOnly)}));
    var start := s.(tasks := s.tasks + multiset{Setting(k, p, internalOnly)});
    acts := SetRuns(c, h, start, [], s, k, p, internalOnly, memOk);
  }

  lemma SetRuns(c: Config, h: Digest, s0: State, acts: seq<Action>, s: State, k: Key, p: Bytes, internalOnly: bool,
                memOk: bool)
    returns (more: seq<Action>)
    requires Follows(c, h, s0, acts, s.(tasks := s.tasks + multiset{Setting(k, p, internalOnly)}))
    ensures Follows(c, h, s0, more, AfterSet(c, s, k, p, internalOnly, memOk))
  {
    hide Follows;
    var t := Setting(k, p, internalOnly);
    var start := s.(tasks := s.tasks + multiset{t});
    var rest := s.tasks + When(!internalOnly && c.redis, RedisWrite(k, p));
    var s' := s.(tasks := s.tasks + Next(c, h, start, t, true));
    FollowsStep(c, h, s0, acts, start, t, true, s.tasks, s');
    more := acts + [Step(t, true)];
    AddNothing(rest);
    if c.mem {
      more := WriteRuns(c, h, s0, more, s', MemWrite(k, p, internalOnly), memOk, rest);
    } else {
      assert s'.tasks == rest;
    }
  }

  lemma WriteRuns(c: Config, h: Digest, s0: State, acts: seq<Action>, s: State, t: Task, ok: bool, rest: multiset<Task>)
    returns (more: seq<Action>)
    requires Follows(c, h, s0, acts, s) && t.MemWrite? && s.tasks == rest + multiset{t}
    ensures Follows(c, h, s0, more, State(if ok then s.mem[t.key := t.packet] else s.mem, s.redis, rest))
  {
    hide Follows, Next, MemAfter, RedisAfter;
    AddNothing(rest);
    TiersOfTask(c, s.mem, s.redis, t, ok);
    NothingAfterWrite(c, h, s, t, ok);
    FollowsStep(c, h, s0, acts, s, t, ok, rest, State(if ok then s.mem[t.key := t.packet] else s.mem, s.redis, rest));
    more := acts + [Step(t, ok)];
  }

  lemma NothingAfterWrite(c: Config, h: Digest, s: State, t: Task, ok: bool)
    requires t.MemWrite?
    ensures Next(c, h, s, t, ok) == multiset{}
  {
  }

  // The goroutine ProcessResponse starts.
  lemma EncodeSetIsARun(c: Config, h: Digest, s: State, k: Key, body: Bytes, headers: Headers, order: seq<Entry>,
                        memOk: bool)
    returns (acts: seq<Action>)
    requires Enumerates(order, headers)
    ensures Follows(c, h, s.(tasks := s.tasks + multiset{Encoding(k, body, headers)}), acts,
                    AfterSet(c, s, k, PacketOf(h, body, order), false, memOk))
  {
    hide Follows, AfterSet, PacketOf, Enumerates;
    var t := Encoding(k, body, headers);
    var start := s.(tasks := s.tasks + multiset{t});
    var p := PacketOf(h, body, order);
    var s' := s.(tasks := s.tasks + multiset{Setting(k, p, false)});
    FollowsNothing(c, h, start);
    assert start.tasks - multiset{t} == s.tasks;
    FollowsOneMore(c, h, start, [], start, EncodeStep(t, order), s');
    acts := SetRuns(c, h, start, [] + [EncodeStep(t, order)], s, k, p, false, memOk);
  }
}
