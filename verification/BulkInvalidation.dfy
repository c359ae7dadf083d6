// The invalidating branch of InvalidateAndPrime (www/handlers/admin/cache.go): every tile below the
// requested one, its cache key, and one Invalidate each.

module BulkInvalidation {
  import opened Wrappers
  import opened Quadtree
  import D = DeepChildren
  import opened Packet
  import opened Template
  import opened CacheKeys
  import opened KeyOrder
  import opened KeySeparation
  import opened CacheProtocol
  import opened Resurrection
  import opened Cache

  // Whether the two tiers did as asked, for one Invalidate.
  datatype Outcome = Outcome(mem: bool, redis: bool)

  // Whether Invalidate got as far as deleting from Redis, and deleted.
  predicate RedisDone(c: Config, o: Outcome) {
    (c.mem ==> o.mem) && o.redis
  }

  // One Invalidate after the other.
  function AfterAll(c: Config, s: State, keys: seq<Key>, outcomes: seq<Outcome>): State
    requires |keys| == |outcomes|
  {
    if keys == [] then s else
      var (n, before) := (|keys| - 1, AfterAll(c, s, keys[..|keys| - 1], outcomes[..|keys| - 1]));
      AfterInvalidate(c, before, keys[n], outcomes[n].mem, outcomes[n].redis)
  }

  function KeysOf(kc: KeyConfig, req: Request, tiles: seq<Tile>): (keys: seq<Key>)
    ensures |keys| == |tiles| && forall i :: 0 <= i < |tiles| ==> keys[i] == CacheKey(kc, req, tiles[i])
  {
    seq(|tiles|, i requires 0 <= i < |tiles| => CacheKey(kc, req, tiles[i]))
  }

  // One key for each tile, each built in an order of its own.
  ghost predicate KeysBuilt(kc: KeyConfig, req: Request, tiles: seq<Tile>, keys: seq<Key>) {
    |keys| == |tiles| && forall i :: 0 <= i < |tiles| ==> IsKeyOf(kc, req, tiles[i], keys[i])
  }

  // What InvalidateAndPrime answers with.
  datatype Answer = Answer(attempted: nat, primed: nat, ok: bool)

  method InvalidateTiles(cache: Cache, kc: KeyConfig, req: Request, tiles: seq<Tile>, outcomes: seq<Outcome>)
    returns (answer: Answer, ghost keys: seq<Key>)
    requires |outcomes| == |tiles|
    modifies cache`internal, cache`external
    ensures KeysBuilt(kc, req, tiles, keys)
    ensures Clean(kc, req) ==> keys == KeysOf(kc, req, tiles)
    ensures cache.Now() == AfterAll(cache.config, old(cache.Now()), keys, outcomes)
    ensures answer == Answer(|tiles|, |tiles|, true)
  {
    hide Clean, AfterInvalidate, KeyInOrder, CacheKey;
    var succeeded := 0;
    keys := [];
    for n := 0 to |tiles|
      invariant succeeded == |keys| == n
      invariant forall i :: 0 <= i < n ==> IsKeyOf(kc, req, tiles[i], keys[i])
      invariant Clean(kc, req) ==> forall i :: 0 <= i < n ==> keys[i] == CacheKey(kc, req, tiles[i])
      invariant cache.Now() == AfterAll(cache.config, old(cache.Now()), keys, outcomes[..n])
    {
      var key, order := BuildCacheKey(kc, req, Some(tiles[n]));
      if key.None? {
        continue;
      }
      var errInv := cache.Invalidate(key.value, outcomes[n].mem, outcomes[n].redis);
      AfterOneMore(cache.config, old(cache.Now()), keys, key.value, outcomes, n);
      succeeded := succeeded + 1;
      keys := keys + [key.value];
    }
    assert outcomes[..|tiles|] == outcomes;
    assert Clean(kc, req) ==> keys == KeysOf(kc, req, tiles);
    answer := Answer(|tiles|, succeeded, succeeded == |tiles|);
  }

  lemma AfterOneMore(c: Config, s: State, keys: seq<Key>, key: Key, outcomes: seq<Outcome>, n: nat)
    requires |keys| == n < |outcomes|
    ensures AfterAll(c, s, keys + [key], outcomes[..n + 1]) ==
            AfterInvalidate(c, AfterAll(c, s, keys, outcomes[..n]), key, outcomes[n].mem, outcomes[n].redis)
  {
    assert (keys + [key])[..n] == keys && outcomes[..n + 1][..n] == outcomes[..n];
  }

  // Some Invalidate of k deleted it from the memory tier; from Redis.
  predicate MemDeleted(c: Config, keys: seq<Key>, outcomes: seq<Outcome>, k: Key)
    requires |keys| == |outcomes|
  {
    c.mem && exists i :: 0 <= i < |keys| && keys[i] == k && outcomes[i].mem
  }

  predicate RedisDeleted(c: Config, keys: seq<Key>, outcomes: seq<Outcome>, k: Key)
    requires |keys| == |outcomes|
  {
    c.redis && exists i :: 0 <= i < |keys| && keys[i] == k && RedisDone(c, outcomes[i])
  }

  predicate SameEntry(m: map<Key, Bytes>, m': map<Key, Bytes>, k: Key) {
    (k in m <==> k in m') && (k in m ==> m[k] == m'[k])
  }

  // Exactly the entries that some Invalidate reached are gone; nothing else changes.
  lemma {:induction false} AfterAllIsExact(c: Config, s: State, keys: seq<Key>, outcomes: seq<Outcome>, k: Key)
    requires |keys| == |outcomes|
    ensures var s' := AfterAll(c, s, keys, outcomes);
            && s'.tasks == s.tasks
            && (if MemDeleted(c, keys, outcomes, k) then k !in s'.mem else SameEntry(s.mem, s'.mem, k))
            && (if RedisDeleted(c, keys, outcomes, k) then k !in s'.redis else SameEntry(s.redis, s'.redis, k))
    decreases |keys|
  {
    if keys != [] {
      var n := |keys| - 1;
      AfterAllIsExact(c, s, keys[..n], outcomes[..n], k);
      assert forall i :: 0 <= i < n ==> keys[..n][i] == keys[i] && outcomes[..n][i] == outcomes[i];
    }
  }

  // The loop is a run of the protocol.
  lemma {:induction false} AfterAllIsARun(c: Config, h: Digest, s: State, keys: seq<Key>,
                                          outcomes: seq<Outcome>) returns (acts: seq<Action>)
    requires |keys| == |outcomes|
    ensures Follows(c, h, s, acts, AfterAll(c, s, keys, outcomes))
    decreases |keys|
  {
    hide Follows, AfterInvalidate;
    FollowsNothing(c, h, s);
    acts := [];
    if keys != [] {
      var n := |keys| - 1;
      var before := AfterAllIsARun(c, h, s, keys[..n], outcomes[..n]);
      var s' := AfterAll(c, s, keys[..n], outcomes[..n]);
      var last := InvalidateIsARun(c, h, s', keys[n], outcomes[n].mem, outcomes[n].redis);
      FollowsBoth(c, h, s, before, s', last, AfterAll(c, s, keys, outcomes));
      acts := before + last;
    }
  }

  lemma {:induction false} FollowsBoth(c: Config, h: Digest, s: State, acts: seq<Action>, s': State,
                                       more: seq<Action>, s'': State)
    requires Follows(c, h, s, acts, s') && Follows(c, h, s', more, s'')
    ensures Follows(c, h, s, acts + more, s'')
    decreases |more|
  {
    hide Follows, Do, Enabled;
    if more == [] {
      assert acts + more == acts;
      FollowsNothingElse(c, h, s', s'');
    } else {
      var (front, a) := (Front(more), Last(more));
      var mid := FollowsUpTo(c, h, s', more, s'');
      FollowsBoth(c, h, s, acts, s', front, mid);
      FollowsOneMore(c, h, s, acts + front, mid, a, s'');
      assert more == front + [a];
      assert acts + more == (acts + front) + [a];
    }
  }

  lemma FollowsNothingElse(c: Config, h: Digest, s: State, s': State)
    requires Follows(c, h, s, [], s')
    ensures s' == s
  {
  }

  lemma FollowsUpTo(c: Config, h: Digest, s: State, acts: seq<Action>, s': State) returns (mid: State)
    requires acts != [] && Follows(c, h, s, acts, s')
    ensures Follows(c, h, s, Front(acts), mid) && Enabled(c, mid, Last(acts)) && s' == Do(c, h, mid, Last(acts))
  {
    hide Do, Enabled;
    mid := Run(c, h, s, Front(acts));
  }

  // ---- What has been invalidated, tile by tile ----------------------------------------------

  predicate AllOk(outcomes: seq<Outcome>) {
    forall o <- outcomes :: o == Outcome(true, true)
  }

  predicate Absent(s: State, k: Key) {
    k !in s.mem && k !in s.redis
  }

  predicate Untouched(s: State, s': State, k: Key) {
    SameEntry(s.mem, s'.mem, k) && SameEntry(s.redis, s'.redis, k)
  }

  lemma ListedKeysOnly(c: Config, s: State, keys: seq<Key>, outcomes: seq<Outcome>, k: Key)
    requires |keys| == |outcomes| && AllOk(outcomes) && TiersRespected(c, s)
    ensures var s' := AfterAll(c, s, keys, outcomes);
            s'.tasks == s.tasks && if k in keys then Absent(s', k) else Untouched(s, s', k)
  {
    AfterAllIsExact(c, s, keys, outcomes, k);
    if k in keys {
      var i :| 0 <= i < |keys| && keys[i] == k;
      assert outcomes[i] in outcomes;
    }
  }

  // For clean requests: any key of a tile is among the keys built exactly when the tile is listed.
  lemma KeyListed(kc: KeyConfig, req: Request, tiles: seq<Tile>, keys: seq<Key>, u: Tile, k: Key)
    requires Clean(kc, req) && GoodTemplate(kc.template) && KeysBuilt(kc, req, tiles, keys) && IsKeyOf(kc, req, u, k)
    ensures k in keys <==> u in tiles
  {
    hide Clean, CacheKey, GoodTemplate, IsKeyOf;
    if u in tiles {
      var i :| 0 <= i < |tiles| && tiles[i] == u;
      CleanKey(kc, req, u, k);
      CleanKey(kc, req, u, keys[i]);
      assert keys[i] in keys;
    }
    if k in keys {
      var i :| 0 <= i < |keys| && keys[i] == k;
      DistinctTilesDistinctKeys(kc, req, tiles[i], u, k);
    }
  }

  // A key of no tile below t.
  ghost predicate ForeignKey(kc: KeyConfig, req: Request, t: Tile, maxZoom: int64, k: Key) {
    forall u: Tile <- Subtree(t, maxZoom) :: !IsKeyOf(kc, req, u, k)
  }

  // Some schedule of DeepChildren returns this list.
  ghost predicate MayReturn(t: Tile, maxZoom: int64, tiles: seq<Tile>) {
    exists schedule ::
      D.CanRun(maxZoom, D.Start(t), schedule) && D.Run(maxZoom, D.Start(t), schedule).caller == D.Returned(tiles)
  }

  // What is to have happened to k, a key of tile u.
  predicate RightFate(t: Tile, maxZoom: int64, missed: multiset<Tile>, s: State, s': State, u: Tile, k: Key) {
    if IsDescendant(t, maxZoom, u) && u !in missed then Absent(s', k) else Untouched(s, s', k)
  }

  // Bulk invalidation of whatever DeepChildren returns, under whatever keys the loop builds, when
  // the request is clean and no tier fails: the keys of exactly the descendants are gone, save at
  // most the one tile the list may miss; every other key keeps its entry in both tiers.
  lemma DescendantsInvalidated(t: Tile, maxZoom: int64, tiles: seq<Tile>, c: Config, s: State, kc: KeyConfig,
                               req: Request, keys: seq<Key>, outcomes: seq<Outcome>) returns (missed: multiset<Tile>)
    requires Fits(t, maxZoom) && MayReturn(t, maxZoom, tiles) && Clean(kc, req) && GoodTemplate(kc.template)
    requires KeysBuilt(kc, req, tiles, keys) && TiersRespected(c, s)
    requires |outcomes| == |keys| && AllOk(outcomes)
    ensures |missed| <= 1 && multiset(tiles) + missed == Subtree(t, maxZoom)
    ensures var s' := AfterAll(c, s, keys, outcomes);
      && s'.tasks == s.tasks
      && (forall u, k :: IsKeyOf(kc, req, u, k) ==> RightFate(t, maxZoom, missed, s, s', u, k))
      && (forall k :: ForeignKey(kc, req, t, maxZoom, k) ==> Untouched(s, s', k))
  {
    hide Subtree, Clean, GoodTemplate, Fits, IsDescendant, AllOk, TiersRespected, Absent, Untouched, IsKeyOf;
    hide D.CanRun, D.Run;
    missed := MissedTiles(t, maxZoom, tiles);
    var s' := AfterAll(c, s, keys, outcomes);
    forall u: Tile, k: Key | IsKeyOf(kc, req, u, k) ensures RightFate(t, maxZoom, missed, s, s', u, k) {
      ListedOrMissed(t, maxZoom, tiles, missed, u);
      KeyListed(kc, req, tiles, keys, u, k);
      ListedKeysOnly(c, s, keys, outcomes, k);
    }
    ListedKeysOnly(c, s, keys, outcomes, "");
    forall k | ForeignKey(kc, req, t, maxZoom, k) ensures Untouched(s, s', k) {
      ListedKeysOnly(c, s, keys, outcomes, k);
      forall i | 0 <= i < |tiles| ensures keys[i] != k { assert tiles[i] in multiset(tiles) + missed; }
    }
  }

  // For other requests the loop can miss: whenever a parameter has a value that is not settled,
  // some template and second parameter make the loop build one key for a tile and delete it, while
  // the entry under another key of the same tile and request stays.
  lemma StaleKeySurvives(a: string, v: string, w: string, t: Tile, c: Config, s: State, o: Outcome)
    returns (kc: KeyConfig, req: Request, key: Key, other: Key)
    requires Admitted(a) && !Settled(a, v) && w != "" && OpenFree(w)
    ensures LawfulTemplate(kc.template) && LawfulParams(req.params)
    ensures KeysBuilt(kc, req, [t], [key]) && IsKeyOf(kc, req, t, other) && key != other
    ensures Untouched(s, AfterAll(c, s, [key], [o]), other)
  {
    hide Settled, LawfulTemplate, KeyInOrder, TwoParams, SameEntry, OpenFree;
    var b, order, order';
    kc, b, req, order, order' := OrderMatters(a, v, w);
    key, other := KeyInOrder(kc, req, t, order), KeyInOrder(kc, req, t, order');
    assert v != "" by { EmptyIsSettled(a); }
    LawfulPair(a, v, b, w, req);
    AfterAllIsExact(c, s, [key], [o], other);
  }

  lemma MissedTiles(t: Tile, maxZoom: int64, tiles: seq<Tile>) returns (missed: multiset<Tile>)
    requires MayReturn(t, maxZoom, tiles)
    ensures |missed| <= 1 && multiset(tiles) + missed == Subtree(t, maxZoom)
  {
    hide D.CanRun, D.Run, Subtree;
    var schedule :|
      D.CanRun(maxZoom, D.Start(t), schedule) && D.Run(maxZoom, D.Start(t), schedule).caller == D.Returned(tiles);
    missed := D.ReturnedList(t, maxZoom, schedule);
  }

  lemma ListedOrMissed(t: Tile, maxZoom: int64, tiles: seq<Tile>, missed: multiset<Tile>, u: Tile)
    requires Fits(t, maxZoom) && multiset(tiles) + missed == Subtree(t, maxZoom)
    ensures u in tiles <==> IsDescendant(t, maxZoom, u) && u !in missed
  {
    hide Subtree, Fits, IsDescendant;
    SubtreeClosedForm(t, maxZoom);
    assert (multiset(tiles) + missed)[u] == ClosedForm(t, maxZoom, u);
    assert u in tiles <==> u in multiset(tiles);
  }

  // With some tier enabled, in every state in which disabled tiers are empty, so in every reachable
  // one: after the loop, a key it invalidated can be served again without a new response exactly
  // when some goroutine carried a good value for it all along.
  lemma ServedAgainIffCarried(c: Config, h: Digest, s: State, keys: seq<Key>, outcomes: seq<Outcome>, k: Key)
    requires TiersRespected(c, s) && (c.mem || c.redis)
    requires |outcomes| == |keys| && AllOk(outcomes) && k in keys
    ensures var s' := AfterAll(c, s, keys, outcomes);
            (exists later :: CanRun(c, h, s', later) && Quiet(later, k) && ServedIn(h, later, k))
            <==> exists t <- s.tasks :: CarriesGood(c, h, t, k)
  {
    hide Run, CanRun, CarriesGood, AllOk, TiersRespected, ServedIn, AfterAll, Usable;
    var s' := AfterAll(c, s, keys, outcomes);
    ListedKeysOnly(c, s, keys, outcomes, k);
    var loop := AfterAllIsARun(c, h, s, keys, outcomes);
    RunKeepsTiers(c, h, s, loop);
    ServedAgainIff(c, h, s', k);
  }

  // ---- Invalidations among other requests ---------------------------------------------------

  // The last step of an Invalidate of k that succeeds.
  predicate Completes(c: Config, a: Action, k: Key) {
    a == Step(if c.redis then RedisDelete(k) else MemDelete(k), true)
  }

  // The step puts an entry for k into memory; it takes the entry out.
  predicate Fills(a: Action, k: Key) {
    a.Step? && a.ok && a.task.MemWrite? && a.task.key == k
  }

  predicate Drops(c: Config, a: Action, k: Key) {
    a == EvictMem(k) || (a.Flush? && c.mem) || a == Step(MemDelete(k), true)
  }

  // Some step puts an entry for k into memory and none takes it out again.
  predicate LastingWrite(c: Config, acts: seq<Action>, k: Key) {
    exists m :: 0 <= m < |acts| && Fills(acts[m], k) && forall l :: m < l < |acts| ==> !Drops(c, acts[l], k)
  }

  lemma {:induction false} MemHoldsIff(c: Config, h: Digest, s: State, acts: seq<Action>, k: Key)
    requires CanRun(c, h, s, acts) && k !in s.mem
    ensures k in Run(c, h, s, acts).mem <==> LastingWrite(c, acts, k)
    decreases |acts|
  {
    hide Do, Enabled, Fills, Drops, LastingWrite;
    NothingWritten(c, k);
    if acts != [] {
      var (before, a) := (Front(acts), Last(acts));
      assert acts == before + [a];
      MemHoldsIff(c, h, s, before, k);
      LastRun(c, h, s, acts);
      hide CanRun, Run;
      MemoryOfStep(c, h, Run(c, h, s, before), a, k);
      LastingWriteOneMore(c, before, a, k);
    }
  }

  lemma LastRun(c: Config, h: Digest, s: State, acts: seq<Action>)
    requires CanRun(c, h, s, acts) && acts != []
    ensures CanRun(c, h, s, Front(acts)) && Enabled(c, Run(c, h, s, Front(acts)), Last(acts))
    ensures Run(c, h, s, acts) == Do(c, h, Run(c, h, s, Front(acts)), Last(acts))
  {
    hide Do, Enabled;
  }

  lemma NothingWritten(c: Config, k: Key)
    ensures !LastingWrite(c, [], k)
  {
  }

  lemma MemoryOfStep(c: Config, h: Digest, s: State, a: Action, k: Key)
    requires Enabled(c, s, a)
    ensures k in Do(c, h, s, a).mem <==> Fills(a, k) || (k in s.mem && !Drops(c, a, k))
  {
    hide Do, Enabled, Fills, Drops, MemAfter;
    TiersOfDo(c, h, s, a);
    MemoryAfter(c, s.mem, s.redis, a, k);
  }

  lemma MemoryAfter(c: Config, mem: map<Key, Bytes>, redis: map<Key, Bytes>, a: Action, k: Key)
    ensures k in MemAfter(c, mem, a) <==> Fills(a, k) || (k in mem && !Drops(c, a, k))
  {
    hide MemAfter, RedisAfter;
    if a.Step? { TiersOfTask(c, mem, redis, a.task, a.ok); } else { TiersOfOthers(c, mem, redis, a); }
  }

  lemma LastingWriteOneMore(c: Config, acts: seq<Action>, a: Action, k: Key)
    ensures LastingWrite(c, acts + [a], k) <==> Fills(a, k) || (LastingWrite(c, acts, k) && !Drops(c, a, k))
  {
    hide Fills, Drops;
    var more := acts + [a];
    assert more[|acts|] == a && forall l :: 0 <= l < |acts| ==> more[l] == acts[l];
    if Fills(a, k) {
      assert Fills(more[|acts|], k);
    } else if LastingWrite(c, acts, k) && !Drops(c, a, k) {
      var m :| 0 <= m < |acts| && Fills(acts[m], k) && forall l :: m < l < |acts| ==> !Drops(c, acts[l], k);
      assert Fills(more[m], k);
    }
  }

  // An Invalidate of k: step i deletes it from memory, if that is enabled, and step j, later or the
  // same, completes it.
  predicate Invalidates(c: Config, acts: seq<Action>, k: Key, i: nat, j: nat) {
    i <= j < |acts| && (c.mem ==> acts[i] == Step(MemDelete(k), true)) && Completes(c, acts[j], k)
  }

  // Between the two, memory was not filled again for good.
  predicate NotRefilled(c: Config, acts: seq<Action>, k: Key, i: nat, j: nat)
    requires i <= j < |acts|
  {
    c.mem ==> !LastingWrite(c, acts[i + 1..j + 1], k)
  }

  // When an Invalidate completes, memory holds k exactly if it was filled again for good since its
  // deletion; so k is gone exactly if it was not, and no goroutine carries a value for it.
  lemma GoneWhenCompletedIff(c: Config, h: Digest, s: State, acts: seq<Action>, k: Key, i: nat, j: nat)
    requires TiersRespected(c, s) && CanRun(c, h, s, acts) && Invalidates(c, acts, k, i, j)
    ensures CanRun(c, h, s, acts[..j + 1])
    ensures var now := Run(c, h, s, acts[..j + 1]);
            && (k !in now.mem <==> NotRefilled(c, acts, k, i, j))
            && (Gone(c, now, k) <==> NotRefilled(c, acts, k, i, j) && forall t <- now.tasks :: !Carries(c, t, k))
  {
    hide CanRun, Run, Carries, TiersRespected, Do, Enabled, LastingWrite;
    RunUpTo(c, h, s, acts, j);
    var now := Run(c, h, s, acts[..j + 1]);
    RunKeepsTiers(c, h, s, acts[..j + 1]);
    DeletedFromRedis(c, h, Run(c, h, s, acts[..j]), acts[j], k);
    TierOff(c, now, k);
    if c.mem {
      RunUpTo(c, h, s, acts, i);
      MemoryOfStep(c, h, Run(c, h, s, acts[..i]), acts[i], k);
      RunFrom(c, h, s, acts[..j + 1], i + 1);
      assert acts[..j + 1][..i + 1] == acts[..i + 1] && acts[..j + 1][i + 1..] == acts[i + 1..j + 1];
      MemHoldsIff(c, h, Run(c, h, s, acts[..i + 1]), acts[i + 1..j + 1], k);
    }
  }

  // Such an Invalidate, with nothing left when it completes and no response for k from then on.
  ghost predicate CompletedAt(c: Config, h: Digest, s: State, acts: seq<Action>, k: Key, i: nat, j: nat)
    requires CanRun(c, h, s, acts)
  {
    Invalidates(c, acts, k, i, j) && NotRefilled(c, acts, k, i, j) && Quiet(acts[j + 1..], k)
    && CanRun(c, h, s, acts[..j + 1]) && forall t <- Run(c, h, s, acts[..j + 1]).tasks :: !Carries(c, t, k)
  }

  // However the invalidations interleave with each other and with any other requests: every key
  // whose Invalidate completed so is gone in the end, and was not served since.
  lemma InterleavedInvalidations(c: Config, h: Digest, s: State, acts: seq<Action>, keys: set<Key>)
    requires TiersRespected(c, s) && CanRun(c, h, s, acts)
    requires forall k <- keys :: exists i: nat, j: nat :: CompletedAt(c, h, s, acts, k, i, j)
    ensures forall k <- keys :: Gone(c, Run(c, h, s, acts), k)
    ensures forall k: Key, i: nat, j: nat :: CompletedAt(c, h, s, acts, k, i, j) ==> !ServedIn(h, acts[j + 1..], k)
  {
    hide CanRun, Run, Carries, TiersRespected, ServedIn, LastingWrite;
    forall k: Key, i: nat, j: nat | CompletedAt(c, h, s, acts, k, i, j)
      ensures Gone(c, Run(c, h, s, acts), k) && !ServedIn(h, acts[j + 1..], k)
    {
      GoneWhenCompletedIff(c, h, s, acts, k, i, j);
      RunFrom(c, h, s, acts, j + 1);
      NoResurrection(c, h, Run(c, h, s, acts[..j + 1]), acts[j + 1..], k);
    }
  }

  lemma DeletedFromRedis(c: Config, h: Digest, s: State, a: Action, k: Key)
    requires Enabled(c, s, a) && Completes(c, a, k)
    ensures c.redis ==> k !in Do(c, h, s, a).redis
  {
    hide Added, Enumerates, MemAfter, RedisAfter;
    TiersOfTask(c, s.mem, s.redis, a.task, a.ok);
  }

  lemma TierOff(c: Config, s: State, k: Key)
    requires TiersRespected(c, s)
    ensures (!c.redis ==> k !in s.redis) && (!c.mem ==> k !in s.mem)
  {
  }

  // That memory must be looked at again when the Invalidate completes is not idle: it deletes from
  // memory first, and a Fetch in between brings the entry back from Redis. In the end the key's
  // Invalidate has succeeded, nothing is pending, and memory still holds the old value.
  lemma FetchBetweenDeletes(c: Config, h: Digest, s: State, k: Key) returns (acts: seq<Action>, e: State)
    requires c.mem && c.redis && s.tasks == multiset{} && k in s.redis && Usable(h, s.redis[k])
    ensures Follows(c, h, s, acts, e) && Quiet(acts, k) && acts != [] && Completes(c, acts[|acts| - 1], k)
    ensures e == State(s.mem[k := s.redis[k]], s.redis - {k}, multiset{})
  {
    hide Follows, Usable;
    var p := s.redis[k];
    var s3 := State(s.mem - {k}, s.redis, s.tasks + multiset{RedisDelete(k)} + multiset{MemGet(k)});
    acts := DeletedFromMemory(c, h, s, k, s3);
    acts := FetchAgain(c, h, s, acts, s3, k, p, s.tasks + multiset{RedisDelete(k)});
    var s4 := State((s.mem - {k})[k := p], s.redis, s.tasks + multiset{RedisDelete(k)});
    e := State(s4.mem, s.redis - {k}, s.tasks);
    acts := DeletedFromRedisToo(c, h, s, acts, s4, k, e);
    assert (s.mem - {k})[k := p] == s.mem[k := p];
  }

  lemma DeletedFromRedisToo(c: Config, h: Digest, s0: State, acts: seq<Action>, s: State, k: Key, e: State)
    returns (more: seq<Action>)
    requires Follows(c, h, s0, acts, s) && Unanswered(acts) && s.tasks == e.tasks + multiset{RedisDelete(k)}
    requires c.redis && e.mem == s.mem && e.redis == s.redis - {k}
    ensures Follows(c, h, s0, more, e) && Quiet(more, k) && more != [] && Completes(c, more[|more| - 1], k)
  {
    hide Follows, Next, MemAfter, RedisAfter;
    RedisDeleteFacts(c, h, s, k, true);
    AddNothing(e.tasks);
    FollowsStep(c, h, s0, acts, s, RedisDelete(k), true, e.tasks, e);
    UnansweredOneMore(acts, RedisDelete(k));
    more := acts + [Step(RedisDelete(k), true)];
  }

  // Up to a Fetch starting between the two deletions.
  lemma DeletedFromMemory(c: Config, h: Digest, s: State, k: Key, s3: State) returns (acts: seq<Action>)
    requires c.mem && c.redis
    requires s3 == State(s.mem - {k}, s.redis, s.tasks + multiset{RedisDelete(k)} + multiset{MemGet(k)})
    ensures Follows(c, h, s, acts, s3) && Unanswered(acts)
  {
    hide Follows, Next, MemAfter, RedisAfter, Do, Enabled;
    var s1 := s.(tasks := s.tasks + multiset{MemDelete(k)});
    FollowsNothing(c, h, s);
    StartsAre(c, h, s, k);
    FollowsOneMore(c, h, s, [], s, StartInvalidate(k), s1);
    acts := [] + [StartInvalidate(k)];
    var s2 := State(s.mem - {k}, s.redis, s.tasks + multiset{RedisDelete(k)});
    MemDeleteFacts(c, h, s1, k, true);
    FollowsStep(c, h, s, acts, s1, MemDelete(k), true, s.tasks, s2);
    acts := acts + [Step(MemDelete(k), true)];
    StartsAre(c, h, s2, k);
    FollowsOneMore(c, h, s, acts, s2, StartFetch(k), s3);
    acts := acts + [StartFetch(k)];
  }

  lemma StartsAre(c: Config, h: Digest, s: State, k: Key)
    requires c.mem
    ensures Enabled(c, s, StartInvalidate(k)) && Enabled(c, s, StartFetch(k))
    ensures Do(c, h, s, StartInvalidate(k)) == s.(tasks := s.tasks + multiset{MemDelete(k)})
    ensures Do(c, h, s, StartFetch(k)) == s.(tasks := s.tasks + multiset{MemGet(k)})
  {
    hide Enumerates, Next, Invalidation, Lookup, PacketOf, Valid;
    InvalidationOf(c, k);
    assert s.tasks - multiset{} == s.tasks;
  }

  // What a Fetch that misses in memory and finds p in Redis goes through.
  function FetchTask(k: Key, p: Bytes, i: nat): Task {
    if i == 0 then MemGet(k)
    else if i == 1 then RedisGet(k)
    else if i == 2 then Checking(k, p)
    else if i == 3 then Setting(k, p, true)
    else MemWrite(k, p, true)
  }

  // Such a Fetch, while `rest` waits.
  lemma FetchAgain(c: Config, h: Digest, s0: State, acts: seq<Action>, s: State, k: Key, p: Bytes, rest: multiset<Task>)
    returns (more: seq<Action>)
    requires c.mem && c.redis && k !in s.mem && k in s.redis && s.redis[k] == p && Usable(h, p)
    requires Follows(c, h, s0, acts, s) && s.tasks == rest + multiset{MemGet(k)} && Unanswered(acts)
    ensures Follows(c, h, s0, more, State(s.mem[k := p], s.redis, rest)) && Unanswered(more)
  {
    assert FetchTask(k, p, 0) == MemGet(k) && FetchTask(k, p, 4) == MemWrite(k, p, true);
    hide Follows, Usable, Next, MemAfter, RedisAfter, FetchTask, Unanswered;
    assert s == s.(tasks := rest + multiset{FetchTask(k, p, 0)});
    more := acts;
    for i := 0 to 4
      invariant Follows(c, h, s0, more, s.(tasks := rest + multiset{FetchTask(k, p, i)})) && Unanswered(more)
    {
      FetchMoves(c, h, s0, more, s, k, p, rest, i);
      UnansweredOneMore(more, FetchTask(k, p, i));
      more := more + [Step(FetchTask(k, p, i), true)];
    }
    WriteMoves(c, h, s0, more, s, k, p, rest);
    UnansweredOneMore(more, MemWrite(k, p, true));
    more := more + [Step(MemWrite(k, p, true), true)];
  }

  predicate Unanswered(acts: seq<Action>) {
    forall a <- acts :: !a.Respond?
  }

  lemma UnansweredOneMore(acts: seq<Action>, t: Task)
    requires Unanswered(acts)
    ensures Unanswered(acts + [Step(t, true)])
  {
  }

  lemma WriteMoves(c: Config, h: Digest, s0: State, acts: seq<Action>, s: State, k: Key, p: Bytes, rest: multiset<Task>)
    requires Follows(c, h, s0, acts, s.(tasks := rest + multiset{MemWrite(k, p, true)}))
    ensures Follows(c, h, s0, acts + [Step(MemWrite(k, p, true), true)], State(s.mem[k := p], s.redis, rest))
  {
    hide Follows, Next, MemAfter, RedisAfter;
    var s' := s.(tasks := rest + multiset{MemWrite(k, p, true)});
    AddNothing(rest);
    WriteStep(c, h, s', k, p);
    FollowsStep(c, h, s0, acts, s', MemWrite(k, p, true), true, rest, State(s.mem[k := p], s.redis, rest));
  }

  lemma FetchMoves(c: Config, h: Digest, s0: State, acts: seq<Action>, s: State, k: Key, p: Bytes,
      rest: multiset<Task>, i: nat)
    requires c.mem && c.redis && k !in s.mem && k in s.redis && s.redis[k] == p && Usable(h, p) && i < 4
    requires Follows(c, h, s0, acts, s.(tasks := rest + multiset{FetchTask(k, p, i)}))
    ensures Follows(c, h, s0, acts + [Step(FetchTask(k, p, i), true)],
        s.(tasks := rest + multiset{FetchTask(k, p, i + 1)}))
  {
    FetchReads(k, p, i);
    hide Follows, Usable, Next, MemAfter, RedisAfter, FetchTask;
    var (t, s') := (FetchTask(k, p, i), s.(tasks := rest + multiset{FetchTask(k, p, i)}));
    FetchNext(c, h, s', k, p, i);
    TiersUntouched(c, s, t);
    FollowsStep(c, h, s0, acts, s', t, true, rest, s.(tasks := rest + multiset{FetchTask(k, p, i + 1)}));
  }

  predicate Reads(t: Task) {
    !t.Encoding? && !t.MemWrite? && !t.RedisWrite? && !t.MemDelete? && !t.RedisDelete?
  }

  lemma FetchReads(k: Key, p: Bytes, i: nat)
    requires i < 4
    ensures Reads(FetchTask(k, p, i))
  {
  }

  lemma TiersUntouched(c: Config, s: State, t: Task)
    requires Reads(t)
    ensures MemAfter(c, s.mem, Step(t, true)) == s.mem && RedisAfter(s.redis, Step(t, true)) == s.redis
  {
  }

  lemma FetchNext(c: Config, h: Digest, s: State, k: Key, p: Bytes, i: nat)
    requires c.mem && c.redis && k !in s.mem && k in s.redis && s.redis[k] == p && Usable(h, p) && i < 4
    ensures var t := FetchTask(k, p, i); !t.Encoding? && Next(c, h, s, t, true) == multiset{FetchTask(k, p, i + 1)}
  {
    assert Valid(h, p);
    hide Valid, Usable, When;
    WhenIs(true, FetchTask(k, p, i + 1));
    if i == 3 { WhenIs(false, RedisWrite(k, p)); }
  }

  lemma WhenIs(b: bool, t: Task)
    ensures When(b, t) == if b then multiset{t} else multiset{}
  {
  }

  lemma WriteStep(c: Config, h: Digest, s: State, k: Key, p: Bytes)
    ensures Next(c, h, s, MemWrite(k, p, true), true) == multiset{}
    ensures var a := Step(MemWrite(k, p, true), true);
            MemAfter(c, s.mem, a) == s.mem[k := p] && RedisAfter(s.redis, a) == s.redis
  {
    hide Valid, Usable;
  }
}
