// What it takes for an invalidated key to be served again.

module Resurrection {
  import opened Wrappers
  import opened Packet
  import opened CacheProtocol

  // A goroutine that holds, or will produce, a value for k that can still reach a tier or a
  // caller. (Refreshing the memory tier does nothing when there is none.)
  predicate Carries(c: Config, t: Task, k: Key) {
    t.key == k && match t
      case Setting(_, _, internalOnly) => c.mem || !internalOnly
      case Encoding(_, _, _) => true
      case RedisWrite(_, _) => true
      case MemWrite(_, _, _) => true
      case Checking(_, _) => true
      case _ => false
  }

  // k is in neither tier and no goroutine carries a value for it.
  ghost predicate Gone(c: Config, s: State, k: Key) {
    k !in s.mem && k !in s.redis && forall t <- s.tasks :: !Carries(c, t, k)
  }

  predicate Delivers(a: Action, k: Key) {
    a.Respond? && a.key == k && Accepts(a.code, a.body)
  }

  // No response for k is accepted along the way.
  ghost predicate Quiet(acts: seq<Action>, k: Key) {
    forall a <- acts :: !Delivers(a, k)
  }

  ghost predicate ServedIn(h: Digest, acts: seq<Action>, k: Key) {
    exists a <- acts :: a.Step? && a.task.Checking? && Serves(h, a, k, a.task.packet)
  }

  lemma NothingNewCarried(c: Config, h: Digest, s: State, a: Action, k: Key)
    requires Gone(c, s, k) && Enabled(c, s, a) && !Delivers(a, k)
    ensures forall t <- Added(c, h, s, a) :: !Carries(c, t, k)
  {
    hide When, PacketOf, Enumerates, Accepts, Next;
    if a.Step? { NextCarriesNothingNew(c, h, s, a.task, a.ok, k); }
  }

  lemma NextCarriesNothingNew(c: Config, h: Digest, s: State, t: Task, ok: bool, k: Key)
    requires Gone(c, s, k) && t in s.tasks && !t.Encoding?
    ensures forall t' <- Next(c, h, s, t, ok) :: !Carries(c, t', k)
  {
    hide Valid, When;
  }

  lemma StepKeepsGone(c: Config, h: Digest, s: State, a: Action, k: Key)
    requires Gone(c, s, k) && Enabled(c, s, a) && !Delivers(a, k)
    ensures Gone(c, Do(c, h, s, a), k)
    ensures a.Step? ==> !(a.task.Checking? && a.task.key == k)
  {
    hide Added, Enumerates, Accepts, MemAfter, RedisAfter;
    NothingNewCarried(c, h, s, a, k);
    NothingNewStored(c, s, a, k);
  }

  lemma NothingNewStored(c: Config, s: State, a: Action, k: Key)
    requires Gone(c, s, k) && Enabled(c, s, a)
    ensures k !in MemAfter(c, s.mem, a) && k !in RedisAfter(s.redis, a)
  {
    hide Enumerates, MemAfter, RedisAfter;
    if a.Step? {
      TiersOfTask(c, s.mem, s.redis, a.task, a.ok);
      assert !Carries(c, a.task, k);
    } else {
      TiersOfOthers(c, s.mem, s.redis, a);
    }
  }

  // Once gone, k stays out of both tiers and every Fetch of it misses, until a response for k is
  // accepted - although Fetch itself writes entries back in the background.
  lemma {:induction false} NoResurrection(c: Config, h: Digest, s: State, acts: seq<Action>, k: Key)
    requires Gone(c, s, k) && CanRun(c, h, s, acts) && Quiet(acts, k)
    ensures Gone(c, Run(c, h, s, acts), k) && !ServedIn(h, acts, k)
    decreases |acts|
  {
    hide Gone, Do, Enabled, Delivers;
    if acts != [] {
      var (before, a) := (Front(acts), Last(acts));
      assert acts == before + [a];
      NoResurrection(c, h, s, before, k);
      StepKeepsGone(c, h, Run(c, h, s, before), a, k);
    }
  }

  // ---- When nothing good is left ------------------------------------------------------------

  predicate CarriesGood(c: Config, h: Digest, t: Task, k: Key) {
    Carries(c, t, k) && (t.Encoding? || Usable(h, t.packet))
  }

  // A tier holds a packet for k that can be served.
  predicate GoodStored(h: Digest, s: State, k: Key) {
    (k in s.mem && Usable(h, s.mem[k])) || (k in s.redis && Usable(h, s.redis[k]))
  }

  ghost predicate Revivable(c: Config, h: Digest, s: State, k: Key) {
    GoodStored(h, s, k) || exists t <- s.tasks :: CarriesGood(c, h, t, k)
  }

  lemma NextCarriesNothingGood(c: Config, h: Digest, s: State, t: Task, ok: bool, k: Key)
    requires !Revivable(c, h, s, k) && t in s.tasks && !t.Encoding?
    ensures forall t' <- Next(c, h, s, t, ok) :: !CarriesGood(c, h, t', k)
  {
    hide Valid, Usable, When;
    assert !CarriesGood(c, h, t, k);
  }

  lemma NothingGoodAdded(c: Config, h: Digest, s: State, a: Action, k: Key)
    requires !Revivable(c, h, s, k) && Enabled(c, s, a) && !Delivers(a, k)
    ensures forall t <- Added(c, h, s, a) :: !CarriesGood(c, h, t, k)
  {
    hide When, PacketOf, Enumerates, Accepts, Next, Usable;
    if a.Step? {
      NextCarriesNothingGood(c, h, s, a.task, a.ok, k);
    } else if a.EncodeStep? {
      assert !CarriesGood(c, h, a.task, k);
    }
  }

  lemma NothingGoodStored(c: Config, h: Digest, s: State, a: Action, k: Key)
    requires !Revivable(c, h, s, k) && Enabled(c, s, a)
    ensures k in MemAfter(c, s.mem, a) ==> !Usable(h, MemAfter(c, s.mem, a)[k])
    ensures k in RedisAfter(s.redis, a) ==> !Usable(h, RedisAfter(s.redis, a)[k])
  {
    hide Usable, Enumerates, MemAfter, RedisAfter;
    if a.Step? {
      TiersOfTask(c, s.mem, s.redis, a.task, a.ok);
      assert !CarriesGood(c, h, a.task, k);
    } else {
      TiersOfOthers(c, s.mem, s.redis, a);
    }
  }

  lemma StepRevivesNothing(c: Config, h: Digest, s: State, a: Action, k: Key)
    requires !Revivable(c, h, s, k) && Enabled(c, s, a) && !Delivers(a, k)
    ensures !Revivable(c, h, Do(c, h, s, a), k)
    ensures a.Step? && a.task.Checking? ==> !Serves(h, a, k, a.task.packet)
  {
    hide Added, Enumerates, Accepts, MemAfter, RedisAfter, CarriesGood, Usable;
    NothingGoodAdded(c, h, s, a, k);
    NothingGoodStored(c, h, s, a, k);
    if a.Step? { CheckingCarries(c, h, a.task, k); }
  }

  lemma CheckingCarries(c: Config, h: Digest, t: Task, k: Key)
    ensures t.Checking? && t.key == k && Usable(h, t.packet) ==> CarriesGood(c, h, t, k)
  {
  }

  // With nothing good left, k is never served until a response for it is accepted.
  lemma {:induction false} NothingToServe(c: Config, h: Digest, s: State, acts: seq<Action>, k: Key)
    requires !Revivable(c, h, s, k) && CanRun(c, h, s, acts) && Quiet(acts, k)
    ensures !Revivable(c, h, Run(c, h, s, acts), k) && !ServedIn(h, acts, k)
    decreases |acts|
  {
    hide Revivable, Do, Enabled, Delivers, Usable;
    if acts != [] {
      var (before, a) := (Front(acts), Last(acts));
      assert acts == before + [a];
      NothingToServe(c, h, s, before, k);
      StepRevivesNothing(c, h, Run(c, h, s, before), a, k);
    }
  }

  // ---- The converse: whatever good is left can be served again ------------------------------

  // A disabled tier is never filled and nothing is ever started for it.
  ghost predicate TiersRespected(c: Config, s: State) {
    && (!c.mem ==> s.mem == map[])
    && (!c.redis ==> s.redis == map[])
    && (forall t <- s.tasks :: (t.MemWrite? ==> c.mem) && (t.RedisWrite? ==> c.redis))
  }

  lemma AddedRespectsTiers(c: Config, h: Digest, s: State, a: Action)
    requires Enabled(c, s, a)
    ensures forall t <- Added(c, h, s, a) :: (t.MemWrite? ==> c.mem) && (t.RedisWrite? ==> c.redis)
  {
    hide When, PacketOf, Enumerates, Accepts, Next;
    if a.Step? { NextRespectsTiers(c, h, s, a.task, a.ok); }
  }

  lemma NextRespectsTiers(c: Config, h: Digest, s: State, t: Task, ok: bool)
    requires !t.Encoding?
    ensures forall t' <- Next(c, h, s, t, ok) :: (t'.MemWrite? ==> c.mem) && (t'.RedisWrite? ==> c.redis)
  {
    hide Valid, When;
  }

  lemma StepKeepsTiers(c: Config, h: Digest, s: State, a: Action)
    requires TiersRespected(c, s) && Enabled(c, s, a)
    ensures TiersRespected(c, Do(c, h, s, a))
  {
    hide Added, Enumerates;
    AddedRespectsTiers(c, h, s, a);
  }

  lemma EncodeEffect(c: Config, h: Digest, s: State, t: Task, order: seq<Entry>)
    requires Enabled(c, s, EncodeStep(t, order))
    ensures var s' := Do(c, h, s, EncodeStep(t, order));
            s'.mem == s.mem && s'.redis == s.redis && Setting(t.key, PacketOf(h, t.body, order), false) in s'.tasks
  {
    hide PacketOf, Enumerates;
  }

  lemma {:induction false} RunKeepsTiers(c: Config, h: Digest, s: State, acts: seq<Action>)
    requires TiersRespected(c, s) && CanRun(c, h, s, acts)
    ensures TiersRespected(c, Run(c, h, s, acts))
    decreases |acts|
  {
    if acts != [] {
      hide TiersRespected, Do, Enabled;
      RunKeepsTiers(c, h, s, Front(acts));
      StepKeepsTiers(c, h, Run(c, h, s, Front(acts)), Last(acts));
    }
  }

  // A schedule from s with no response delivered, ending in state e.
  ghost predicate Reaches(c: Config, h: Digest, s: State, acts: seq<Action>, e: State) {
    CanRun(c, h, s, acts) && Run(c, h, s, acts) == e && forall a <- acts :: !a.Respond?
  }

  lemma ReachesOneMore(c: Config, h: Digest, s: State, acts: seq<Action>, e: State, a: Action)
    requires Reaches(c, h, s, acts, e) && Enabled(c, e, a) && !a.Respond?
    ensures Reaches(c, h, s, acts + [a], Do(c, h, e, a))
  {
    hide Do, Enabled;
    OneMore(c, h, s, acts, a);
  }

  // A pending check of a good packet serves it.
  lemma ServeChecked(c: Config, h: Digest, s: State, acts: seq<Action>, e: State, k: Key, p: Bytes)
    returns (more: seq<Action>)
    requires Reaches(c, h, s, acts, e) && Checking(k, p) in e.tasks && Usable(h, p)
    ensures CanRun(c, h, s, more) && (forall a <- more :: !a.Respond?) && ServedIn(h, more, k)
  {
    hide Do;
    var a := Step(Checking(k, p), true);
    ReachesOneMore(c, h, s, acts, e, a);
    more := acts + [a];
    assert a in more && Serves(h, a, k, p);
  }

  lemma StartEffect(c: Config, h: Digest, e: State, k: Key)
    requires c.mem || c.redis
    ensures Enabled(c, e, StartFetch(k))
    ensures var e' := Do(c, h, e, StartFetch(k));
            e'.mem == e.mem && e'.redis == e.redis && (if c.mem then MemGet(k) else RedisGet(k)) in e'.tasks
  {
    hide Enumerates;
  }

  lemma MemGetEffect(c: Config, h: Digest, e: State, k: Key)
    requires MemGet(k) in e.tasks && (k in e.mem || c.redis)
    ensures Enabled(c, e, Step(MemGet(k), true))
    ensures var e' := Do(c, h, e, Step(MemGet(k), true));
            && e'.mem == e.mem && e'.redis == e.redis
            && (if k in e.mem then Checking(k, e.mem[k]) else RedisGet(k)) in e'.tasks
  {
    hide Enumerates;
  }

  lemma RedisGetEffect(c: Config, h: Digest, e: State, k: Key)
    requires RedisGet(k) in e.tasks && k in e.redis
    ensures Enabled(c, e, Step(RedisGet(k), true))
    ensures Checking(k, e.redis[k]) in Do(c, h, e, Step(RedisGet(k), true)).tasks
  {
    hide Enumerates;
  }

  // A good value in a tier can be fetched, once a bad one in front of it has been evicted.
  lemma ServeStored(c: Config, h: Digest, s: State, acts: seq<Action>, e: State, k: Key) returns (more: seq<Action>)
    requires Reaches(c, h, s, acts, e) && TiersRespected(c, e) && GoodStored(h, e, k)
    ensures CanRun(c, h, s, more) && (forall a <- more :: !a.Respond?) && ServedIn(h, more, k)
  {
    hide Usable, Run, CanRun, Reaches;
    if k in e.mem && !Usable(h, e.mem[k]) {
      var evict := EvictMem(k);
      ReachesOneMore(c, h, s, acts, e, evict);
      StepKeepsTiers(c, h, e, evict);
      more := ServeFound(c, h, s, acts + [evict], Do(c, h, e, evict), k);
    } else {
      more := ServeFound(c, h, s, acts, e, k);
    }
  }

  lemma ServeFound(c: Config, h: Digest, s: State, acts: seq<Action>, e: State, k: Key) returns (more: seq<Action>)
    requires Reaches(c, h, s, acts, e) && TiersRespected(c, e) && GoodStored(h, e, k)
    requires k in e.mem ==> Usable(h, e.mem[k])
    ensures CanRun(c, h, s, more) && (forall a <- more :: !a.Respond?) && ServedIn(h, more, k)
  {
    hide Usable, Run, CanRun, Reaches, Do, Enabled;
    var start := StartFetch(k);
    StartEffect(c, h, e, k);
    ReachesOneMore(c, h, s, acts, e, start);
    var (acts', e') := (acts + [start], Do(c, h, e, start));
    if c.mem {
      var get := Step(MemGet(k), true);
      MemGetEffect(c, h, e', k);
      ReachesOneMore(c, h, s, acts', e', get);
      acts', e' := acts' + [get], Do(c, h, e', get);
      if k in e.mem {
        more := ServeChecked(c, h, s, acts', e', k, e.mem[k]);
        return;
      }
    }
    var get := Step(RedisGet(k), true);
    RedisGetEffect(c, h, e', k);
    ReachesOneMore(c, h, s, acts', e', get);
    more := ServeChecked(c, h, s, acts' + [get], Do(c, h, e', get), k, e.redis[k]);
  }

  // A pending write of a good packet can be carried out and then fetched.
  lemma ServeWritten(c: Config, h: Digest, s: State, acts: seq<Action>, e: State, t: Task) returns (more: seq<Action>)
    requires Reaches(c, h, s, acts, e) && TiersRespected(c, e) && t in e.tasks && (t.MemWrite? || t.RedisWrite?)
    requires Usable(h, t.packet)
    ensures CanRun(c, h, s, more) && (forall a <- more :: !a.Respond?) && ServedIn(h, more, t.key)
  {
    hide Usable, Enumerates, PacketOf, Run, CanRun, Reaches, TiersRespected;
    var write := Step(t, true);
    ReachesOneMore(c, h, s, acts, e, write);
    StepKeepsTiers(c, h, e, write);
    more := ServeStored(c, h, s, acts + [write], Do(c, h, e, write), t.key);
  }

  lemma SetEffect(c: Config, h: Digest, e: State, t: Task)
    requires t in e.tasks && t.Setting? && (c.mem || (c.redis && !t.internalOnly))
    ensures Enabled(c, e, Step(t, true))
    ensures var e' := Do(c, h, e, Step(t, true));
            && e'.mem == e.mem && e'.redis == e.redis
            && (if c.mem then MemWrite(t.key, t.packet, t.internalOnly) else RedisWrite(t.key, t.packet)) in e'.tasks
  {
    hide Enumerates, Next, Valid;
    NextOfSet(c, h, e, t);
  }

  lemma NextOfSet(c: Config, h: Digest, s: State, t: Task)
    requires t.Setting? && (c.mem || (c.redis && !t.internalOnly))
    ensures (if c.mem then MemWrite(t.key, t.packet, t.internalOnly) else RedisWrite(t.key, t.packet)) in Next(c, h,
        s, t, true)
  {
    hide Valid;
  }

  // So can a pending Set that has a tier to write to.
  lemma ServeSet(c: Config, h: Digest, s: State, acts: seq<Action>, e: State, t: Task) returns (more: seq<Action>)
    requires Reaches(c, h, s, acts, e) && TiersRespected(c, e) && t in e.tasks && t.Setting?
    requires (c.mem || (c.redis && !t.internalOnly)) && Usable(h, t.packet)
    ensures CanRun(c, h, s, more) && (forall a <- more :: !a.Respond?) && ServedIn(h, more, t.key)
  {
    hide Usable, Run, CanRun, Reaches, TiersRespected, Do, Enabled;
    var setNow := Step(t, true);
    SetEffect(c, h, e, t);
    ReachesOneMore(c, h, s, acts, e, setNow);
    StepKeepsTiers(c, h, e, setNow);
    var write := if c.mem then MemWrite(t.key, t.packet, t.internalOnly) else RedisWrite(t.key, t.packet);
    more := ServeWritten(c, h, s, acts + [setNow], Do(c, h, e, setNow), write);
  }

  // And so can a pending EncodeSet.
  lemma ServeEncoded(c: Config, h: Digest, s: State, t: Task) returns (more: seq<Action>)
    requires TiersRespected(c, s) && t in s.tasks && t.Encoding? && (c.mem || c.redis)
    ensures CanRun(c, h, s, more) && (forall a <- more :: !a.Respond?) && ServedIn(h, more, t.key)
  {
    hide Usable, Enumerates, PacketOf, TiersRespected, Do, Reaches, CanRun, Run, ServedIn;
    var order := SomeOrder(t.headers);
    var encode := EncodeStep(t, order);
    EmptyReaches(c, h, s);
    EncodeEffect(c, h, s, t, order);
    ReachesOneMore(c, h, s, [], s, encode);
    StepKeepsTiers(c, h, s, encode);
    PacketIsUsable(h, t.body, order);
    more := ServeSet(c, h, s, [] + [encode], Do(c, h, s, encode), Setting(t.key, PacketOf(h, t.body, order), false));
  }

  // Every map can be ranged over.
  lemma SomeOrder(m: Headers) returns (order: seq<Entry>)
    ensures Enumerates(order, m)
  {
    var rest := m.Keys;
    order := [];
    NothingEnumerated(m);
    while rest != {}
      invariant rest <= m.Keys && Enumerates(order, m - rest)
    {
      var key :| key in rest;
      EnumerateOneMore(order, m, rest, key);
      order := order + [Entry(key, m[key])];
      rest := rest - {key};
    }
    assert m - rest == m;
  }

  // k can be served again without a new response exactly when a tier holds, or some goroutine
  // carries, a good value for it. Any state will do in which disabled tiers are empty.
  lemma ServedAgainIff(c: Config, h: Digest, s: State, k: Key)
    requires TiersRespected(c, s) && (c.mem || c.redis)
    ensures (exists acts :: CanRun(c, h, s, acts) && Quiet(acts, k) && ServedIn(h, acts, k)) <==> Revivable(c, h, s, k)
  {
    hide Run, CanRun, TiersRespected, ServedIn, Revivable;
    if Revivable(c, h, s, k) {
      var acts := ServeAgain(c, h, s, k);
    } else {
      forall acts | CanRun(c, h, s, acts) && Quiet(acts, k) ensures !ServedIn(h, acts, k) {
        NothingToServe(c, h, s, acts, k);
      }
    }
  }

  lemma ServeAgain(c: Config, h: Digest, s: State, k: Key) returns (acts: seq<Action>)
    requires TiersRespected(c, s) && (c.mem || c.redis) && Revivable(c, h, s, k)
    ensures CanRun(c, h, s, acts) && Quiet(acts, k) && ServedIn(h, acts, k)
  {
    hide Run, CanRun, TiersRespected, ServedIn, Enumerates, PacketOf, Usable, GoodStored;
    EmptyReaches(c, h, s);
    if GoodStored(h, s, k) {
      acts := ServeStored(c, h, s, [], s, k);
    } else {
      var t :| t in s.tasks && CarriesGood(c, h, t, k);
      if t.Encoding? {
        acts := ServeEncoded(c, h, s, t);
      } else if t.Setting? {
        acts := ServeSet(c, h, s, [], s, t);
      } else if t.Checking? {
        acts := ServeChecked(c, h, s, [], s, k, t.packet);
      } else {
        acts := ServeWritten(c, h, s, [], s, t);
      }
    }
  }

  lemma EmptyReaches(c: Config, h: Digest, s: State)
    ensures Reaches(c, h, s, [], s)
  {
  }

  lemma BootRespectsTiers(c: Config, redis: map<Key, Bytes>)
    ensures TiersRespected(c, Boot(c, redis))
  {
  }

  lemma KnownIsUsable(h: Digest, redis: map<Key, Bytes>, acts: seq<Action>, k: Key, p: Bytes)
    requires Known(h, redis, acts, k, p) && (k in redis ==> Usable(h, redis[k]))
    ensures Usable(h, p)
  {
    hide Usable, PacketOf, Enumerates;
    if Produced(h, acts, k, p) {
      var i: nat, body, headers, order :|
        AcceptedAt(acts, i, k, body, headers) && Enumerates(order, headers) && p == PacketOf(h, body, order);
      PacketIsUsable(h, body, order);
    }
  }

  // In a run of this process nothing but good values is made: unless Redis came with a bad one,
  // whatever is left of k is good.
  lemma LeftIsGood(c: Config, h: Digest, redis: map<Key, Bytes>, acts: seq<Action>, s: State, k: Key)
    requires AllKnown(h, redis, acts, s) && (k in redis ==> Usable(h, redis[k]))
    ensures Revivable(c, h, s, k) <==> !Gone(c, s, k)
  {
    hide Usable, Known;
    if k in s.mem { KnownIsUsable(h, redis, acts, k, s.mem[k]); }
    if k in s.redis { KnownIsUsable(h, redis, acts, k, s.redis[k]); }
    forall t <- s.tasks | Carries(c, t, k) ensures CarriesGood(c, h, t, k) {
      assert TaskKnown(h, redis, acts, t);
      if !t.Encoding? { KnownIsUsable(h, redis, acts, k, t.packet); }
    }
  }

  // So in every state reached from any Redis whose entry for k, if any, is good: k can be served
  // again without a new response exactly when it is not gone. A pending refresh of an earlier hit
  // is enough to bring an invalidated key back.
  lemma ServedAgainUnlessGone(c: Config, h: Digest, redis: map<Key, Bytes>, past: seq<Action>, k: Key)
    requires CanRun(c, h, Boot(c, redis), past) && (c.mem || c.redis) && (k in redis ==> Usable(h, redis[k]))
    ensures var s := Run(c, h, Boot(c, redis), past);
            (exists acts :: CanRun(c, h, s, acts) && Quiet(acts, k) && ServedIn(h, acts, k)) <==> !Gone(c, s, k)
  {
    hide Run, CanRun, TiersRespected, ServedIn, Revivable, AllKnown, Boot, Gone, Usable;
    var s := Run(c, h, Boot(c, redis), past);
    BootRespectsTiers(c, redis);
    RunKeepsTiers(c, h, Boot(c, redis), past);
    Provenance(c, h, redis, past);
    LeftIsGood(c, h, redis, past, s, k);
    ServedAgainIff(c, h, s, k);
  }
}
