// The two tiers seen as one plain map.
//
// With Redis enabled and no TTL, and tier operations that succeed, operations on one key that do
// not overlap (readers with readers may) see a single map, whatever happens on other keys, in
// background goroutines and to the memory tier, and whatever Redis holds from the start: an entry
// that cannot be served is no entry of the plain map, and may be wiped by the fetches that meet it.

module PlainMap {
  import opened Wrappers
  import opened Packet
  import opened CacheProtocol
  import opened Resurrection

  // The plain map the client operations amount to: a store takes effect when the response is
  // encoded, an invalidation when it is called.
  function PlainAfter(h: Digest, m: map<Key, Bytes>, a: Action): map<Key, Bytes> {
    match a
    case EncodeStep(Encoding(k, body, _), order) => m[k := PacketOf(h, body, order)]
    case StartInvalidate(k) => m - {k}
    case _ => m
  }

  // The entries of a tier that can be served.
  function UsablePart(h: Digest, tier: map<Key, Bytes>): map<Key, Bytes> {
    map k | k in tier && Usable(h, tier[k]) :: tier[k]
  }

  function Plain(h: Digest, redis: map<Key, Bytes>, acts: seq<Action>): map<Key, Bytes> {
    if acts == [] then UsablePart(h, redis) else PlainAfter(h, Plain(h, redis, Front(acts)), Last(acts))
  }

  // Goroutines of a store or an invalidation.
  predicate Writer(t: Task) {
    match t
    case Encoding(_, _, _) => true
    case Setting(_, _, internalOnly) => !internalOnly
    case RedisWrite(_, _) => true
    case MemWrite(_, _, internalOnly) => !internalOnly
    case MemDelete(_) => true
    case RedisDelete(_) => true
    case _ => false
  }

  // The step succeeds, a store or invalidation starts when nothing is under way for its key, and
  // a fetch when no store or invalidation is.
  ghost predicate Orderly(s: State, a: Action) {
    match a
    case Respond(k, code, body, _) => Accepts(code, body) ==> forall t <- s.tasks :: t.key != k
    case StartInvalidate(k) => forall t <- s.tasks :: t.key != k
    case StartFetch(k) => forall t <- s.tasks :: t.key == k ==> !Writer(t)
    case Step(_, ok) => ok
    case _ => true
  }

  ghost predicate OrderlyRun(c: Config, h: Digest, redis: map<Key, Bytes>, acts: seq<Action>): (orderly: bool)
    ensures orderly ==> CanRun(c, h, Boot(c, redis), acts)
    decreases |acts|
  {
    CanRun(c, h, Boot(c, redis), acts) &&
    (acts != [] ==> OrderlyRun(c, h, redis, Front(acts)) && Orderly(Run(c, h, Boot(c, redis), Front(acts)), Last(acts)))
  }

  // ---- What holds for one key ---------------------------------------------------------------

  predicate TaskAgrees(h: Digest, m: map<Key, Bytes>, t: Task) {
    match t
    case Setting(k, p, _) => k in m && m[k] == p
    case RedisWrite(k, p) => k in m && m[k] == p
    case MemWrite(k, p, _) => k in m && m[k] == p
    case Checking(k, p) => if Usable(h, p) then k in m && m[k] == p else k !in m
    case MemDelete(k) => k !in m
    case RedisDelete(k) => k !in m
    case _ => true
  }

  // A goroutine that has yet to bring the tier up to date.
  predicate RedisBehind(t: Task) {
    (t.Setting? && !t.internalOnly) || t.RedisWrite? || t.MemDelete? || t.RedisDelete?
  }

  predicate MemBehind(t: Task) {
    (t.Setting? && !t.internalOnly) || (t.MemWrite? && !t.internalOnly) || t.MemDelete?
  }

  predicate SameAt(m: map<Key, Bytes>, m': map<Key, Bytes>, k: Key) {
    (k in m <==> k in m') && (k in m ==> m[k] == m'[k])
  }

  // What Redis has to serve for k is what the plain map has.
  predicate RedisShows(h: Digest, redis: map<Key, Bytes>, m: map<Key, Bytes>, k: Key) {
    if k in redis && Usable(h, redis[k]) then k in m && m[k] == redis[k] else k !in m
  }

  predicate MemShows(mem: map<Key, Bytes>, m: map<Key, Bytes>, k: Key) {
    k in mem ==> k in m && mem[k] == m[k]
  }

  // What goes on for a key: one response waiting to be encoded, a store or an invalidation, or
  // nothing but fetches - and, when the plain map has no entry, the wiping of a bad one.
  datatype Phase = Storing(waiting: Task) | Writing | Reading

  predicate Wipes(t: Task) {
    t.MemDelete? || t.RedisDelete?
  }

  predicate Fits(h: Digest, m: map<Key, Bytes>, ph: Phase, t: Task) {
    match ph
    case Storing(waiting) => t == waiting && t.Encoding?
    case Writing => Writer(t) && !t.Encoding? && TaskAgrees(h, m, t)
    case Reading => (!Writer(t) || Wipes(t)) && TaskAgrees(h, m, t)
  }

  ghost predicate TasksAgree(h: Digest, m: map<Key, Bytes>, s: State, k: Key, ph: Phase) {
    && (forall t <- s.tasks :: t.key == k ==> Fits(h, m, ph, t))
    && (ph.Storing? ==> ph.waiting.key == k && s.tasks[ph.waiting] == 1)
  }

  ghost predicate RedisUpToDate(s: State, k: Key) {
    forall t <- s.tasks :: t.key == k ==> !RedisBehind(t)
  }

  ghost predicate MemUpToDate(s: State, k: Key) {
    forall t <- s.tasks :: t.key == k ==> !MemBehind(t)
  }

  // While a store or an invalidation is under way, a tier shows the plain map once nobody is behind.
  ghost predicate TiersAgree(h: Digest, m: map<Key, Bytes>, s: State, k: Key, ph: Phase) {
    && (!ph.Writing? || RedisUpToDate(s, k) ==> RedisShows(h, s.redis, m, k))
    && (!ph.Writing? || MemUpToDate(s, k) ==> MemShows(s.mem, m, k))
  }

  ghost predicate Agrees(h: Digest, m: map<Key, Bytes>, s: State, k: Key) {
    (k in m ==> Usable(h, m[k])) && exists ph :: TasksAgree(h, m, s, k, ph) && TiersAgree(h, m, s, k, ph)
  }

  function KeyOf(a: Action): Option<Key> {
    if a.Flush? then None else if a.Step? || a.EncodeStep? then Some(a.task.key) else Some(a.key)
  }

  lemma AddedKeys(c: Config, h: Digest, s: State, a: Action)
    requires Enabled(c, s, a)
    ensures forall t <- Added(c, h, s, a) :: KeyOf(a) == Some(t.key)
  {
    hide When, PacketOf, Enumerates, Accepts, Next;
    if a.Step? { NextKeys(c, h, s, a.task, a.ok); }
  }

  lemma NextKeys(c: Config, h: Digest, s: State, t: Task, ok: bool)
    requires !t.Encoding?
    ensures forall t' <- Next(c, h, s, t, ok) :: t'.key == t.key
  {
    hide When, Valid;
  }

  // s' differs from s at most on other keys.
  ghost predicate SameFor(s: State, s': State, k: Key) {
    SameAt(s.mem, s'.mem, k) && SameAt(s.redis, s'.redis, k) && forall t: Task :: t.key == k ==>
        s'.tasks[t] == s.tasks[t]
  }

  lemma OtherKeysSame(c: Config, h: Digest, s: State, a: Action, k: Key)
    requires Enabled(c, s, a) && KeyOf(a) != Some(k) && !a.Flush?
    ensures SameFor(s, Do(c, h, s, a), k)
  {
    hide Added, Enumerates, MemAfter, RedisAfter;
    OtherTasksSame(c, h, s, a, k);
    OtherEntriesSame(c, s.mem, s.redis, a, k);
  }

  lemma OtherEntriesSame(c: Config, mem: map<Key, Bytes>, redis: map<Key, Bytes>, a: Action, k: Key)
    requires KeyOf(a) != Some(k) && !a.Flush?
    ensures SameAt(mem, MemAfter(c, mem, a), k) && SameAt(redis, RedisAfter(redis, a), k)
  {
  }

  lemma OtherTasksSame(c: Config, h: Digest, s: State, a: Action, k: Key)
    requires Enabled(c, s, a) && KeyOf(a) != Some(k)
    ensures forall t: Task :: t.key == k ==> Do(c, h, s, a).tasks[t] == s.tasks[t]
  {
    hide Added, Enumerates, MemAfter, RedisAfter;
    AddedKeys(c, h, s, a);
    forall t: Task | t.key == k ensures Do(c, h, s, a).tasks[t] == s.tasks[t] {
      assert t !in Added(c, h, s, a) && t !in Removed(a);
    }
  }

  lemma TasksAgreeFor(h: Digest, m: map<Key, Bytes>, m': map<Key, Bytes>, s: State, s': State, k: Key, ph: Phase)
    requires SameAt(m, m', k) && SameFor(s, s', k) && TasksAgree(h, m, s, k, ph)
    ensures TasksAgree(h, m', s', k, ph)
  {
    hide Usable;
    forall t | t in s'.tasks && t.key == k ensures Fits(h, m', ph, t) {
      assert t in s.tasks && Fits(h, m, ph, t);
    }
  }

  lemma TiersAgreeFor(h: Digest, m: map<Key, Bytes>, m': map<Key, Bytes>, s: State, s': State, k: Key, ph: Phase)
    requires SameAt(m, m', k) && SameFor(s, s', k) && TiersAgree(h, m, s, k, ph)
    ensures TiersAgree(h, m', s', k, ph)
  {
    hide RedisBehind, MemBehind, RedisShows, MemShows;
    ShowsSame(h, m, m', s, s', k);
    assert forall t <- s.tasks :: t.key == k ==> t in s'.tasks;
  }

  lemma ShowsSame(h: Digest, m: map<Key, Bytes>, m': map<Key, Bytes>, s: State, s': State, k: Key)
    requires SameAt(m, m', k) && SameAt(s.mem, s'.mem, k) && SameAt(s.redis, s'.redis, k)
    ensures RedisShows(h, s.redis, m, k) ==> RedisShows(h, s'.redis, m', k)
    ensures MemShows(s.mem, m, k) ==> MemShows(s'.mem, m', k)
  {
    hide Usable;
  }

  // Other keys do not notice.
  lemma OtherKeys(c: Config, h: Digest, m: map<Key, Bytes>, s: State, a: Action, k: Key)
    requires Enabled(c, s, a) && KeyOf(a) != Some(k) && !a.Flush? && Agrees(h, m, s, k)
    ensures Agrees(h, PlainAfter(h, m, a), Do(c, h, s, a), k)
  {
    hide Usable, Do, Enabled, TiersAgree, TasksAgree, SameFor;
    var (m', s') := (PlainAfter(h, m, a), Do(c, h, s, a));
    OtherKeysSame(c, h, s, a, k);
    var ph :| TasksAgree(h, m, s, k, ph) && TiersAgree(h, m, s, k, ph);
    TasksAgreeFor(h, m, m', s, s', k, ph);
    TiersAgreeFor(h, m, m', s, s', k, ph);
  }

  // Dropping memory entries goes unnoticed.
  lemma DropsUnnoticed(c: Config, h: Digest, m: map<Key, Bytes>, s: State, a: Action, k: Key)
    requires (a.Flush? || a.EvictMem?) && Agrees(h, m, s, k)
    ensures Agrees(h, PlainAfter(h, m, a), Do(c, h, s, a), k)
  {
    hide Usable, TasksAgree, TiersAgree, Do;
    var ph :| TasksAgree(h, m, s, k, ph) && TiersAgree(h, m, s, k, ph);
    DropEffect(c, h, s, a);
    SmallerMemory(h, m, s, Do(c, h, s, a), k, ph);
  }

  lemma DropEffect(c: Config, h: Digest, s: State, a: Action)
    requires a.Flush? || a.EvictMem?
    ensures var s' := Do(c, h, s, a);
            s'.tasks == s.tasks && s'.redis == s.redis && forall k <- s'.mem :: k in s.mem && s'.mem[k] == s.mem[k]
  {
    hide Enumerates;
  }

  lemma SmallerMemory(h: Digest, m: map<Key, Bytes>, s: State, s': State, k: Key, ph: Phase)
    requires TasksAgree(h, m, s, k, ph) && TiersAgree(h, m, s, k, ph)
    requires s'.tasks == s.tasks && s'.redis == s.redis && forall k <- s'.mem :: k in s.mem && s'.mem[k] == s.mem[k]
    ensures TasksAgree(h, m, s', k, ph) && TiersAgree(h, m, s', k, ph)
  {
    hide Usable, Fits, RedisBehind, MemBehind, RedisShows;
  }

  // With no writer about, both tiers show the plain map.
  lemma ReadersSeePlain(h: Digest, m: map<Key, Bytes>, s: State, k: Key, ph: Phase)
    requires TiersAgree(h, m, s, k, ph) && (ph.Writing? ==> forall t <- s.tasks :: t.key == k ==> !Writer(t))
    ensures RedisShows(h, s.redis, m, k) && MemShows(s.mem, m, k)
  {
    hide RedisShows, MemShows;
  }

  // A response starts when no goroutine works on its key, and changes nothing yet.
  lemma RespondAgrees(c: Config, h: Digest, m: map<Key, Bytes>, s: State, a: Action)
    requires a.Respond? && Accepts(a.code, a.body) && (forall t <- s.tasks :: t.key != a.key) && Agrees(h, m, s, a.key)
    ensures Agrees(h, m, Do(c, h, s, a), a.key)
  {
    hide Usable, Accepts, TaskAgrees, RedisShows, MemShows, Writer;
    var (s', t) := (Do(c, h, s, a), Encoding(a.key, a.body, a.headers));
    var ph :| TasksAgree(h, m, s, a.key, ph) && TiersAgree(h, m, s, a.key, ph);
    ReadersSeePlain(h, m, s, a.key, ph);
    assert s'.tasks == s.tasks + multiset{t};
    assert TasksAgree(h, m, s', a.key, Storing(t)) && TiersAgree(h, m, s', a.key, Storing(t));
  }

  lemma InvalidationTasks(c: Config, h: Digest, s: State, k: Key, t: Task)
    requires c.redis && (forall t <- s.tasks :: t.key != k) && t in Do(c, h, s, StartInvalidate(k)).tasks && t.key == k
    ensures t == if c.mem then MemDelete(k) else RedisDelete(k)
  {
    hide When;
  }

  lemma InvalidationStarted(c: Config, h: Digest, s: State, k: Key)
    requires c.redis
    ensures (if c.mem then MemDelete(k) else RedisDelete(k)) in Do(c, h, s, StartInvalidate(k)).tasks
  {
    hide When;
  }

  // So does an invalidation, and from its start on the key is out of the plain map.
  lemma InvalidateAgrees(c: Config, h: Digest, m: map<Key, Bytes>, s: State, k: Key)
    requires (forall t <- s.tasks :: t.key != k) && c.redis && TiersRespected(c, s)
    ensures Agrees(h, m - {k}, Do(c, h, s, StartInvalidate(k)), k)
  {
    hide Usable, Do, TasksAgree, TiersAgree;
    InvalidateTasks(c, h, m, s, k);
    InvalidateTiers(c, h, m, s, k);
  }

  lemma InvalidateTasks(c: Config, h: Digest, m: map<Key, Bytes>, s: State, k: Key)
    requires (forall t <- s.tasks :: t.key != k) && c.redis
    ensures TasksAgree(h, m - {k}, Do(c, h, s, StartInvalidate(k)), k, Writing)
  {
    hide Usable, Do;
    var s' := Do(c, h, s, StartInvalidate(k));
    forall t | t in s'.tasks && t.key == k ensures Fits(h, m - {k}, Writing, t) { InvalidationTasks(c, h, s, k, t); }
  }

  lemma InvalidateTiers(c: Config, h: Digest, m: map<Key, Bytes>, s: State, k: Key)
    requires c.redis && TiersRespected(c, s)
    ensures TiersAgree(h, m - {k}, Do(c, h, s, StartInvalidate(k)), k, Writing)
  {
    hide Usable, Added, MemAfter, RedisAfter, RedisShows;
    InvalidationStarted(c, h, s, k);
    TiersOfOthers(c, s.mem, s.redis, StartInvalidate(k));
  }

  // A fetch starts when no writer works on its key.
  lemma FetchAgrees(c: Config, h: Digest, m: map<Key, Bytes>, s: State, k: Key)
    requires Orderly(s, StartFetch(k)) && Agrees(h, m, s, k)
    ensures Agrees(h, m, Do(c, h, s, StartFetch(k)), k)
  {
    hide Usable, RedisShows, MemShows, TasksAgree;
    var ph :| TasksAgree(h, m, s, k, ph) && TiersAgree(h, m, s, k, ph);
    ReadersSeePlain(h, m, s, k, ph);
    FetchTasks(c, h, m, s, k, ph);
    assert TiersAgree(h, m, Do(c, h, s, StartFetch(k)), k, Reading);
  }

  lemma FetchTasks(c: Config, h: Digest, m: map<Key, Bytes>, s: State, k: Key, ph: Phase)
    requires Orderly(s, StartFetch(k)) && TasksAgree(h, m, s, k, ph)
    ensures TasksAgree(h, m, Do(c, h, s, StartFetch(k)), k, Reading)
  {
    hide TaskAgrees, Writer, When;
    forall t | t in s.tasks && t.key == k ensures Fits(h, m, Reading, t) {
      assert Fits(h, m, ph, t);
      EncodingWrites(t);
    }
    LookupFits(c, h, m, k);
  }

  lemma EncodingWrites(t: Task)
    ensures t.Encoding? ==> Writer(t)
  {
  }

  lemma LookupFits(c: Config, h: Digest, m: map<Key, Bytes>, k: Key)
    ensures forall t <- Lookup(c, k) :: Fits(h, m, Reading, t)
  {
    hide When;
  }

  lemma EncodeTasks(c: Config, h: Digest, m: map<Key, Bytes>, s: State, t: Task, order: seq<Entry>, ph: Phase)
    requires Enabled(c, s, EncodeStep(t, order)) && TasksAgree(h, m, s, t.key, ph)
    ensures var s' := Do(c, h, s, EncodeStep(t, order));
            var p := PacketOf(h, t.body, order);
            && TasksAgree(h, m[t.key := p], s', t.key, Writing)
            && Setting(t.key, p, false) in s'.tasks
  {
    hide Usable, PacketOf, Enumerates, TaskAgrees;
    var (s', p) := (Do(c, h, s, EncodeStep(t, order)), PacketOf(h, t.body, order));
    OnlyTask(h, m, s, t, t.key, ph);
    assert Fits(h, m[t.key := p], Writing, Setting(t.key, p, false)) by { FreshSetFits(h, m, t.key, p); }
    forall t' | t' in s'.tasks && t'.key == t.key ensures t' == Setting(t.key, p, false) {}
  }

  lemma FreshSetFits(h: Digest, m: map<Key, Bytes>, k: Key, p: Bytes)
    ensures Fits(h, m[k := p], Writing, Setting(k, p, false))
  {
  }

  // The one task waiting for its key turns into a Set of the new value.
  lemma EncodeAgrees(c: Config, h: Digest, m: map<Key, Bytes>, s: State, t: Task, order: seq<Entry>)
    requires Enabled(c, s, EncodeStep(t, order)) && Agrees(h, m, s, t.key)
    ensures Agrees(h, PlainAfter(h, m, EncodeStep(t, order)), Do(c, h, s, EncodeStep(t, order)), t.key)
  {
    hide Usable, PacketOf, Enumerates, TasksAgree, RedisShows, MemShows, Do;
    var ph :| TasksAgree(h, m, s, t.key, ph) && TiersAgree(h, m, s, t.key, ph);
    EncodeTasks(c, h, m, s, t, order, ph);
    PacketIsUsable(h, t.body, order);
    var p := PacketOf(h, t.body, order);
    var now := Setting(t.key, p, false);
    assert RedisBehind(now) && MemBehind(now);
    assert TiersAgree(h, m[t.key := p], Do(c, h, s, EncodeStep(t, order)), t.key, Writing);
  }

  lemma OnlyTask(h: Digest, m: map<Key, Bytes>, s: State, t: Task, k: Key, ph: Phase)
    requires TasksAgree(h, m, s, k, ph) && t in s.tasks && t.key == k && t.Encoding?
    ensures forall t' <- s.tasks - multiset{t} :: t'.key != k
  {
    assert Fits(h, m, ph, t);
    forall t' | t' in s.tasks - multiset{t} ensures t'.key != k {
      assert t' in s.tasks && (t' == t ==> s.tasks[t] >= 2);
      assert t'.key == k ==> Fits(h, m, ph, t');
    }
  }

  // What a task becomes fits as the task did: fetches see the plain map's value, or meet a bad one
  // where the map has none; writers carry the map's value.
  lemma NextFits(c: Config, h: Digest, m: map<Key, Bytes>, s: State, t: Task, ph: Phase)
    requires !t.Encoding? && Fits(h, m, ph, t) && c.redis
    requires t.key in m ==> Usable(h, m[t.key])
    requires ph.Reading? ==> RedisShows(h, s.redis, m, t.key) && MemShows(s.mem, m, t.key)
    ensures forall t' <- Next(c, h, s, t, true) :: Fits(h, m, ph, t')
  {
    hide Fits, Next;
    if t.Checking? {
      CheckFits(c, h, m, s, t, ph);
    } else if t.MemGet? || t.RedisGet? {
      ReadFits(c, h, m, s, t, ph);
    } else {
      WriteFits(c, h, m, s, t, ph);
    }
  }

  // A good value is the map's and is written back; a bad one is wiped where the map has none.
  lemma CheckFits(c: Config, h: Digest, m: map<Key, Bytes>, s: State, t: Task, ph: Phase)
    requires t.Checking? && Fits(h, m, ph, t)
    ensures forall t' <- Next(c, h, s, t, true) :: Fits(h, m, ph, t')
  {
    hide Valid, When;
    UsableIsValid(h, t.packet);
    hide Usable;
  }

  lemma ReadFits(c: Config, h: Digest, m: map<Key, Bytes>, s: State, t: Task, ph: Phase)
    requires (t.MemGet? || t.RedisGet?) && Fits(h, m, ph, t) && (t.key in m ==> Usable(h, m[t.key]))
    requires ph.Reading? ==> RedisShows(h, s.redis, m, t.key) && MemShows(s.mem, m, t.key)
    ensures forall t' <- Next(c, h, s, t, true) :: Fits(h, m, ph, t')
  {
    hide Valid, Usable, When;
  }

  lemma WriteFits(c: Config, h: Digest, m: map<Key, Bytes>, s: State, t: Task, ph: Phase)
    requires (t.Setting? || t.RedisWrite? || t.MemWrite? || t.MemDelete? || t.RedisDelete?) && Fits(h, m, ph, t)
    ensures forall t' <- Next(c, h, s, t, true) :: Fits(h, m, ph, t')
  {
    hide Valid, Usable, When;
  }

  lemma StepTasks(c: Config, h: Digest, m: map<Key, Bytes>, s: State, t: Task, ph: Phase)
    requires Enabled(c, s, Step(t, true)) && c.redis && (t.key in m ==> Usable(h, m[t.key]))
    requires TasksAgree(h, m, s, t.key, ph) && TiersAgree(h, m, s, t.key, ph)
    ensures TasksAgree(h, m, Do(c, h, s, Step(t, true)), t.key, ph)
  {
    hide Usable, Next, TiersAgree, Enumerates, MemAfter, RedisAfter;
    assert Fits(h, m, ph, t);
    if ph.Reading? { ReadersSeePlain(h, m, s, t.key, ph); }
    NextFits(c, h, m, s, t, ph);
  }

  lemma StillPending(c: Config, h: Digest, s: State, t: Task, t': Task)
    requires Enabled(c, s, Step(t, true)) && t' in s.tasks && t' != t
    ensures t' in Do(c, h, s, Step(t, true)).tasks
  {
    hide Next, Enumerates;
  }

  // A Set or an invalidation that has yet to reach a tier leaves the goroutine that will.
  lemma Handover(c: Config, h: Digest, s: State, t: Task)
    requires Enabled(c, s, Step(t, true)) && c.redis
    ensures var tasks := Do(c, h, s, Step(t, true)).tasks;
            && (t.Setting? && !t.internalOnly ==> RedisWrite(t.key, t.packet) in tasks)
            && (t.Setting? && !t.internalOnly && c.mem ==> MemWrite(t.key, t.packet, false) in tasks)
            && (t.MemDelete? ==> RedisDelete(t.key) in tasks)
  {
    hide Valid, Enumerates;
  }

  // After the step of a task that is not behind, whoever was behind still is.
  lemma NobodyWasBehind(c: Config, h: Digest, s: State, t: Task, behind: Task -> bool)
    requires Enabled(c, s, Step(t, true)) && !behind(t)
    requires forall t' <- Do(c, h, s, Step(t, true)).tasks :: t'.key == t.key ==> !behind(t')
    ensures forall t' <- s.tasks :: t'.key == t.key ==> !behind(t')
  {
    hide Next, MemAfter, RedisAfter, Enumerates;
    forall t' | t' in s.tasks && t'.key == t.key ensures !behind(t') {
      if t' != t { StillPending(c, h, s, t, t'); }
    }
  }

  lemma StepRedis(c: Config, h: Digest, m: map<Key, Bytes>, s: State, t: Task)
    requires Enabled(c, s, Step(t, true)) && c.redis && TaskAgrees(h, m, t) && TiersAgree(h, m, s, t.key, Writing)
    requires t.key in m ==> Usable(h, m[t.key])
    requires RedisUpToDate(Do(c, h, s, Step(t, true)), t.key)
    ensures RedisShows(h, Do(c, h, s, Step(t, true)).redis, m, t.key)
  {
    hide Next, Added, MemAfter, RedisAfter, MemBehind, Enumerates, Usable;
    TiersOfTask(c, s.mem, s.redis, t, true);
    if RedisBehind(t) {
      Handover(c, h, s, t);
    } else {
      NobodyWasBehind(c, h, s, t, RedisBehind);
    }
  }

  lemma StepMem(c: Config, h: Digest, m: map<Key, Bytes>, s: State, t: Task)
    requires Enabled(c, s, Step(t, true)) && c.redis && TaskAgrees(h, m, t) && TiersAgree(h, m, s, t.key, Writing)
    requires (!c.mem ==> s.mem == map[]) && (!c.mem ==> !t.MemWrite?)
    requires MemUpToDate(Do(c, h, s, Step(t, true)), t.key)
    ensures MemShows(Do(c, h, s, Step(t, true)).mem, m, t.key)
  {
    hide Next, Added, MemAfter, RedisAfter, RedisBehind, Enumerates, Usable;
    MemOfStep(c, s.mem, t);
    if t.MemWrite? || t.MemDelete? {
    } else if MemBehind(t) {
      Handover(c, h, s, t);
    } else {
      NobodyWasBehind(c, h, s, t, MemBehind);
    }
  }

  // While only fetches work on the key, each step leaves both tiers showing the plain map: they
  // write its value back, or wipe an entry it does not have.
  lemma ReaderStep(c: Config, h: Digest, m: map<Key, Bytes>, s: State, t: Task)
    requires Fits(h, m, Reading, t) && RedisShows(h, s.redis, m, t.key) && MemShows(s.mem, m, t.key)
    ensures RedisShows(h, RedisAfter(s.redis, Step(t, true)), m, t.key)
    ensures MemShows(MemAfter(c, s.mem, Step(t, true)), m, t.key)
  {
    hide Usable;
    ReaderKinds(h, m, t);
    hide Fits;
    MemOfStep(c, s.mem, t);
  }

  lemma ReaderKinds(h: Digest, m: map<Key, Bytes>, t: Task)
    requires Fits(h, m, Reading, t)
    ensures !t.RedisWrite? && (t.MemWrite? ==> t.key in m && m[t.key] == t.packet) && (Wipes(t) ==> t.key !in m)
  {
    hide Usable;
  }

  lemma MemOfStep(c: Config, mem: map<Key, Bytes>, t: Task)
    ensures MemAfter(c, mem, Step(t, true)) ==
            if t.MemWrite? then mem[t.key := t.packet] else if t.MemDelete? then mem - {t.key} else mem
  {
  }

  lemma TaskStepAgrees(c: Config, h: Digest, m: map<Key, Bytes>, s: State, t: Task)
    requires Enabled(c, s, Step(t, true)) && c.redis && Agrees(h, m, s, t.key) && TiersRespected(c, s)
    ensures Agrees(h, m, Do(c, h, s, Step(t, true)), t.key)
  {
    hide Usable, TasksAgree, Do, Enumerates, TiersAgree;
    var ph :| TasksAgree(h, m, s, t.key, ph) && TiersAgree(h, m, s, t.key, ph);
    StepTasks(c, h, m, s, t, ph);
    TaskFits(h, m, s, t, ph);
    StepTiers(c, h, m, s, t, ph);
  }

  lemma StepTiers(c: Config, h: Digest, m: map<Key, Bytes>, s: State, t: Task, ph: Phase)
    requires Enabled(c, s, Step(t, true)) && c.redis && Fits(h, m, ph, t) && !t.Encoding? && TiersRespected(c, s)
    requires TiersAgree(h, m, s, t.key, ph) && (t.key in m ==> Usable(h, m[t.key]))
    ensures TiersAgree(h, m, Do(c, h, s, Step(t, true)), t.key, ph)
  {
    hide Do, Enumerates, RedisBehind, MemBehind, TaskAgrees, RedisShows, MemShows, MemAfter, RedisAfter, Usable;
    if ph.Writing? {
      WriterTiers(c, h, m, s, t);
    } else {
      ReaderStep(c, h, m, s, t);
      TiersOfStep(c, h, s, t);
    }
  }

  lemma WriterTiers(c: Config, h: Digest, m: map<Key, Bytes>, s: State, t: Task)
    requires Enabled(c, s, Step(t, true)) && c.redis && TaskAgrees(h, m, t) && TiersRespected(c, s)
    requires TiersAgree(h, m, s, t.key, Writing) && (t.key in m ==> Usable(h, m[t.key]))
    ensures TiersAgree(h, m, Do(c, h, s, Step(t, true)), t.key, Writing)
  {
    hide Do, Enumerates, RedisUpToDate, MemUpToDate, TaskAgrees, RedisShows, MemShows, Usable;
    var s' := Do(c, h, s, Step(t, true));
    if RedisUpToDate(s', t.key) { StepRedis(c, h, m, s, t); }
    if MemUpToDate(s', t.key) { WriterMem(c, h, m, s, t); }
  }

  lemma WriterMem(c: Config, h: Digest, m: map<Key, Bytes>, s: State, t: Task)
    requires Enabled(c, s, Step(t, true)) && c.redis && TaskAgrees(h, m, t) && TiersRespected(c, s)
    requires TiersAgree(h, m, s, t.key, Writing)
    requires MemUpToDate(Do(c, h, s, Step(t, true)), t.key)
    ensures MemShows(Do(c, h, s, Step(t, true)).mem, m, t.key)
  {
    hide Do, Enumerates, MemBehind, TaskAgrees, MemShows, TiersAgree;
    StepMem(c, h, m, s, t);
  }

  lemma TiersOfStep(c: Config, h: Digest, s: State, t: Task)
    requires Enabled(c, s, Step(t, true))
    ensures var s' := Do(c, h, s, Step(t, true));
            s'.mem == MemAfter(c, s.mem, Step(t, true)) && s'.redis == RedisAfter(s.redis, Step(t, true))
  {
    hide Added, Enumerates, MemAfter, RedisAfter;
  }

  lemma TaskFits(h: Digest, m: map<Key, Bytes>, s: State, t: Task, ph: Phase)
    requires TasksAgree(h, m, s, t.key, ph) && t in s.tasks
    ensures Fits(h, m, ph, t)
  {
  }

  lemma RejectedResponse(c: Config, h: Digest, s: State, a: Action)
    requires a.Respond? && !Accepts(a.code, a.body)
    ensures Do(c, h, s, a) == s
  {
  }

  lemma StepAgrees(c: Config, h: Digest, m: map<Key, Bytes>, s: State, a: Action, k: Key)
    requires Enabled(c, s, a) && Orderly(s, a) && c.redis && !c.ttl
    requires Agrees(h, m, s, k) && TiersRespected(c, s)
    ensures Agrees(h, PlainAfter(h, m, a), Do(c, h, s, a), k)
  {
    hide Agrees, Do, TiersRespected;
    if a.Flush? || a.EvictMem? {
      DropsUnnoticed(c, h, m, s, a, k);
    } else if KeyOf(a) != Some(k) {
      OtherKeys(c, h, m, s, a, k);
    } else if a.StartFetch? {
      FetchAgrees(c, h, m, s, k);
    } else if a.Respond? {
      if Accepts(a.code, a.body) { RespondAgrees(c, h, m, s, a); } else { RejectedResponse(c, h, s, a); }
    } else if a.StartInvalidate? {
      InvalidateAgrees(c, h, m, s, k);
    } else if a.EncodeStep? {
      EncodeAgrees(c, h, m, s, a.task, a.order);
    } else {
      TaskStepAgrees(c, h, m, s, a.task);
    }
  }

  lemma BootAgrees(c: Config, h: Digest, redis: map<Key, Bytes>, k: Key)
    requires c.redis
    ensures Agrees(h, UsablePart(h, redis), Boot(c, redis), k)
  {
    hide Usable;
    var (m, s) := (UsablePart(h, redis), Boot(c, redis));
    assert TasksAgree(h, m, s, k, Reading) && TiersAgree(h, m, s, k, Reading);
  }

  lemma {:induction false} RunAgrees(c: Config, h: Digest, redis: map<Key, Bytes>, acts: seq<Action>, k: Key)
    requires OrderlyRun(c, h, redis, acts) && c.redis && !c.ttl
    ensures Agrees(h, Plain(h, redis, acts), Run(c, h, Boot(c, redis), acts), k)
    decreases |acts|
  {
    hide Agrees, Do, Enabled, Orderly, PlainAfter, TiersRespected, UsablePart, Boot;
    if acts == [] {
      BootAgrees(c, h, redis, k);
    } else {
      RunAgrees(c, h, redis, Front(acts), k);
      BootRespectsTiers(c, redis);
      RunKeepsTiers(c, h, Boot(c, redis), Front(acts));
      StepAgrees(c, h, Plain(h, redis, Front(acts)), Run(c, h, Boot(c, redis), Front(acts)), Last(acts), k);
    }
  }

  ghost predicate FetchSees(h: Digest, m: map<Key, Bytes>, s: State, k: Key) {
    && (MemGet(k) in s.tasks ==> MemShows(s.mem, m, k))
    && (RedisGet(k) in s.tasks ==> RedisShows(h, s.redis, m, k))
    && (forall p :: Checking(k, p) in s.tasks ==> if Usable(h, p) then k in m && p == m[k] else k !in m)
  }

  lemma AgreesForFetch(h: Digest, m: map<Key, Bytes>, s: State, k: Key)
    requires Agrees(h, m, s, k)
    ensures FetchSees(h, m, s, k)
  {
    hide Usable, TiersAgree, RedisShows, MemShows;
    var ph :| TasksAgree(h, m, s, k, ph) && TiersAgree(h, m, s, k, ph);
    if ph.Reading? { ReadersSeePlain(h, m, s, k, ph); }
    assert MemGet(k) in s.tasks ==> Fits(h, m, ph, MemGet(k));
    assert RedisGet(k) in s.tasks ==> Fits(h, m, ph, RedisGet(k));
    forall p | Checking(k, p) in s.tasks ensures if Usable(h, p) then k in m && p == m[k] else k !in m {
      assert Fits(h, m, ph, Checking(k, p));
    }
  }

  // What a Fetch of k observes at each of its steps is the plain map's value: a memory entry is it,
  // Redis has something to serve exactly when the map does, and what is served is the map's value.
  lemma FetchSeesPlainMap(c: Config, h: Digest, redis: map<Key, Bytes>, acts: seq<Action>, k: Key)
    requires OrderlyRun(c, h, redis, acts) && c.redis && !c.ttl
    ensures FetchSees(h, Plain(h, redis, acts), Run(c, h, Boot(c, redis), acts), k)
  {
    hide Run, CanRun, OrderlyRun, Plain, Agrees, FetchSees, Boot;
    RunAgrees(c, h, redis, acts, k);
    AgreesForFetch(h, Plain(h, redis, acts), Run(c, h, Boot(c, redis), acts), k);
  }

  lemma AgreesAtRest(h: Digest, m: map<Key, Bytes>, s: State, k: Key)
    requires Agrees(h, m, s, k) && s.tasks == multiset{}
    ensures RedisShows(h, s.redis, m, k) && MemShows(s.mem, m, k)
  {
    hide Usable, TasksAgree, RedisBehind, MemBehind;
  }

  // Whenever nothing is pending, the plain map is what Redis has to serve, and the memory tier is
  // part of it.
  lemma TiersAtRest(c: Config, h: Digest, redis: map<Key, Bytes>, acts: seq<Action>)
    requires OrderlyRun(c, h, redis, acts) && c.redis && !c.ttl
    requires Run(c, h, Boot(c, redis), acts).tasks == multiset{}
    ensures var (s, m) := (Run(c, h, Boot(c, redis), acts), Plain(h, redis, acts));
            m == UsablePart(h, s.redis) && forall k <- s.mem :: k in m && s.mem[k] == m[k]
  {
    hide Run, CanRun, OrderlyRun, Plain, Agrees, Boot, UsablePart, RedisShows, MemShows;
    var (s, m) := (Run(c, h, Boot(c, redis), acts), Plain(h, redis, acts));
    forall k: Key ensures RedisShows(h, s.redis, m, k) && MemShows(s.mem, m, k) {
      RunAgrees(c, h, redis, acts, k);
      AgreesAtRest(h, m, s, k);
    }
    SamePart(h, s.redis, m);
    Submap(s.mem, m);
  }

  lemma Submap(mem: map<Key, Bytes>, m: map<Key, Bytes>)
    requires forall k: Key :: MemShows(mem, m, k)
    ensures forall k <- mem :: k in m && mem[k] == m[k]
  {
    forall k <- mem ensures k in m && mem[k] == m[k] { assert MemShows(mem, m, k); }
  }

  lemma SamePart(h: Digest, redis: map<Key, Bytes>, m: map<Key, Bytes>)
    requires forall k: Key :: RedisShows(h, redis, m, k)
    ensures m == UsablePart(h, redis)
  {
    hide Usable;
    forall k: Key ensures k in m <==> k in UsablePart(h, redis) ensures k in m ==> m[k] == UsablePart(h, redis)[k] {
      assert RedisShows(h, redis, m, k);
    }
  }
}
