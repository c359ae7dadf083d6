// The worker pool and what its workers do to the cache, taken together: what the answer of a
// priming request says about the cache writes it has started (www/handlers/admin/cache.go).

module PrimingJob {
  import opened Wrappers
  import opened Quadtree
  import opened Accounts
  import opened CacheKeys
  import opened CacheProtocol
  import P = PrimingPool
  import opened TileWorker

  // replies[i] is what the surroundings answer at step i; it decides what working comes to.
  predicate Answered(acts: seq<P.Action>, replies: seq<Reply>) {
    |acts| == |replies| && forall i :: 0 <= i < |acts| && acts[i].Work? ==> acts[i].outcome == OutcomeOf(replies[i])
  }

  predicate Succeeds(a: P.Action) {
    a.Work? && a.outcome.Success?
  }

  // keys[i] is what the worker of step i builds for its tile (TileWorker.WorkOn).
  ghost predicate Keyed(kc: KeyConfig, req: Request, p: P.Pool, s: P.State, acts: seq<P.Action>, keys: seq<Key>)
    requires P.CanRun(p, s, acts) && |acts| == |keys|
    decreases |acts|
  {
    acts == [] ||
    ((Succeeds(acts[0]) ==> RightKey(kc, req, s.workers[acts[0].w].tile, keys[0]))
     && Keyed(kc, req, p, P.Do(p, s, acts[0]), acts[1..], keys[1..]))
  }

  // The cache writes started along a run: at each step of work, what TileWorker.WorkOn starts.
  function Writes(acts: seq<P.Action>, replies: seq<Reply>, keys: seq<Key>): multiset<Task>
    requires |acts| == |replies| == |keys|
  {
    if acts == [] then multiset{} else
      (if acts[0].Work? then WriteOf(keys[0], replies[0]) else multiset{}) + Writes(acts[1..], replies[1..], keys[1..])
  }

  // A tile worked on with success, the reply it got and the key built for it.
  datatype Job = Job(tile: Tile, reply: Reply, key: Key)

  // The successes of a run, in order.
  function Jobs(p: P.Pool, s: P.State, acts: seq<P.Action>, replies: seq<Reply>, keys: seq<Key>): seq<Job>
    requires P.CanRun(p, s, acts) && |acts| == |replies| == |keys|
    decreases |acts|
  {
    if acts == [] then [] else
      var rest := Jobs(p, P.Do(p, s, acts[0]), acts[1..], replies[1..], keys[1..]);
      if Succeeds(acts[0]) then [Job(s.workers[acts[0].w].tile, replies[0], keys[0])] + rest else rest
  }

  function TilesOf(jobs: seq<Job>): (tiles: seq<Tile>)
    ensures |tiles| == |jobs| && forall i :: 0 <= i < |jobs| ==> tiles[i] == jobs[i].tile
  {
    if jobs == [] then [] else [jobs[0].tile] + TilesOf(jobs[1..])
  }

  // ---- Successes and primed tiles -----------------------------------------------------------

  function OnTheWay(w: P.Worker): Load {
    Load(0, if w.Sending? then multiset{w.tile} else multiset{}, 0)
  }

  // Tiles primed or about to be reported so.
  function Done(s: P.State): multiset<Tile> {
    s.primed + Total(OnTheWay, s.workers).debt
  }

  function Gained(s: P.State, a: P.Action): multiset<Tile>
    requires a.Work? ==> a.w < |s.workers| && s.workers[a.w].Working?
  {
    if Succeeds(a) then multiset{s.workers[a.w].tile} else multiset{}
  }

  // Worker w becomes w'; the tiles it gives up are primed, those it takes on are on the way.
  lemma MoveKeeps(s: P.State, s': P.State, w: nat, w': P.Worker, paid: multiset<Tile>, got: multiset<Tile>)
    requires w < |s.workers| && s'.workers == s.workers[w := w'] && s'.primed == s.primed + paid
    requires OnTheWay(s.workers[w]).debt + got == OnTheWay(w').debt + paid
    ensures Done(s') == Done(s) + got
  {
    hide Total, OnTheWay;
    TotalExchange(OnTheWay, s.workers, w, w', paid, got);
    var (before, after) := (Total(OnTheWay, s.workers).debt, Total(OnTheWay, s'.workers).debt);
    assert (s.primed + paid) + after == s.primed + (after + paid);
  }

  lemma WorkGains(p: P.Pool, s: P.State, a: P.Action)
    requires P.Enabled(p, s, a) && a.Work?
    ensures Done(P.Do(p, s, a)) == Done(s) + Gained(s, a)
  {
    hide Done;
    var s' := P.Do(p, s, a);
    assert s.primed + multiset{} == s.primed;
    MoveKeeps(s, s', a.w, s'.workers[a.w], multiset{}, Gained(s, a));
  }

  lemma SendKeeps(p: P.Pool, s: P.State, w: nat)
    requires P.Enabled(p, s, P.SendSuccess(w))
    ensures Done(P.Do(p, s, P.SendSuccess(w))) == Done(s) + multiset{}
  {
    hide Done;
    MoveKeeps(s, P.Do(p, s, P.SendSuccess(w)), w, P.Receiving, multiset{s.workers[w].tile}, multiset{});
  }

  lemma OtherStepsKeep(p: P.Pool, s: P.State, a: P.Action)
    requires P.Enabled(p, s, a) && !a.Work? && !a.SendSuccess?
    ensures Done(P.Do(p, s, a)) == Done(s) + multiset{}
  {
    hide Total;
    var s' := P.Do(p, s, a);
    assert s.primed + multiset{} == s.primed;
    if a.Spawn? {
      TotalAppend(OnTheWay, s.workers, P.Receiving);
      assert Total(OnTheWay, s'.workers).debt == Total(OnTheWay, s.workers).debt;
    } else if a.Take? || a.Leave? || a.Done? {
      MoveKeeps(s, s', a.w, s'.workers[a.w], multiset{}, multiset{});
    }
  }

  lemma StepGains(p: P.Pool, s: P.State, a: P.Action)
    requires P.Enabled(p, s, a)
    ensures Done(P.Do(p, s, a)) == Done(s) + Gained(s, a)
  {
    hide Done, P.Do;
    if a.Work? {
      WorkGains(p, s, a);
    } else if a.SendSuccess? {
      SendKeeps(p, s, a.w);
    } else {
      OtherStepsKeep(p, s, a);
    }
  }

  lemma {:induction false} JobsAreDone(p: P.Pool, s: P.State, acts: seq<P.Action>,
                                       replies: seq<Reply>, keys: seq<Key>)
    requires P.CanRun(p, s, acts) && |acts| == |replies| == |keys|
    ensures Done(P.Run(p, s, acts)) == Done(s) + multiset(TilesOf(Jobs(p, s, acts, replies, keys)))
    decreases |acts|
  {
    hide Done, P.Do, TilesOf;
    if acts == [] {
      assert TilesOf([]) == [];
    } else {
      assert P.Enabled(p, s, acts[0]);
      var s' := P.Do(p, s, acts[0]);
      StepGains(p, s, acts[0]);
      JobsAreDone(p, s', acts[1..], replies[1..], keys[1..]);
      var rest := Jobs(p, s', acts[1..], replies[1..], keys[1..]);
      if Succeeds(acts[0]) { TilesOfMore(Job(s.workers[acts[0].w].tile, replies[0], keys[0]), rest); }
    }
  }

  lemma TilesOfMore(job: Job, rest: seq<Job>)
    ensures multiset(TilesOf([job] + rest)) == multiset{job.tile} + multiset(TilesOf(rest))
  {
    assert ([job] + rest)[1..] == rest;
  }

  // ---- Successes and cache writes -----------------------------------------------------------

  function WriteFor(job: Job): Task {
    Encoding(job.key, job.reply.body, job.reply.headers)
  }

  // The job's key belongs to its tile and its reply was accepted.
  ghost predicate Sound(kc: KeyConfig, req: Request, job: Job) {
    RightKey(kc, req, job.tile, job.key) && Accepts(job.reply.code, job.reply.body)
  }

  // The writes are those of the jobs, one each, and each is for the job's own tile.
  ghost predicate Matches(kc: KeyConfig, req: Request, jobs: seq<Job>, writes: multiset<Task>) {
    && |writes| == |jobs|
    && (forall job <- jobs :: WriteFor(job) in writes && Sound(kc, req, job))
    && (forall t <- writes :: exists job <- jobs :: t == WriteFor(job))
  }

  lemma NothingMatches(kc: KeyConfig, req: Request)
    ensures Matches(kc, req, [], multiset{})
  {
  }

  lemma OneMoreMatches(kc: KeyConfig, req: Request, job: Job, jobs: seq<Job>, writes: multiset<Task>)
    requires Matches(kc, req, jobs, writes) && Sound(kc, req, job)
    ensures Matches(kc, req, [job] + jobs, multiset{WriteFor(job)} + writes)
  {
    hide WriteFor, Sound;
    forall t <- multiset{WriteFor(job)} + writes ensures exists j <- [job] + jobs :: t == WriteFor(j) {
      if t in writes {
        var j :| j in jobs && t == WriteFor(j);
        assert j in [job] + jobs;
      } else {
        assert job in [job] + jobs && t == WriteFor(job);
      }
    }
  }

  // The writes a run starts match its successes.
  lemma {:induction false} WritesOfJobs(kc: KeyConfig, req: Request, p: P.Pool, s: P.State, acts: seq<P.Action>,
                                        replies: seq<Reply>, keys: seq<Key>)
    requires P.CanRun(p, s, acts) && Answered(acts, replies) && |keys| == |acts| && Keyed(kc, req, p, s, acts, keys)
    ensures Matches(kc, req, Jobs(p, s, acts, replies, keys), Writes(acts, replies, keys))
    decreases |acts|
  {
    hide P.Do, P.Run, RightKey, WriteOf, WriteFor, Sound, Matches;
    if acts == [] {
      NothingMatches(kc, req);
    } else {
      assert P.Enabled(p, s, acts[0]) && Answered(acts[1..], replies[1..]);
      var s' := P.Do(p, s, acts[0]);
      WritesOfJobs(kc, req, p, s', acts[1..], replies[1..], keys[1..]);
      var jobs := Jobs(p, s', acts[1..], replies[1..], keys[1..]);
      var writes := Writes(acts[1..], replies[1..], keys[1..]);
      WriteOfReply(keys[0], replies[0]);
      assert multiset{} + writes == writes;
      if Succeeds(acts[0]) {
        var job := Job(s.workers[acts[0].w].tile, replies[0], keys[0]);
        SoundJob(kc, req, job);
        OneMoreMatches(kc, req, job, jobs, writes);
      }
    }
  }

  lemma SoundJob(kc: KeyConfig, req: Request, job: Job)
    requires OutcomeOf(job.reply).Success? && RightKey(kc, req, job.tile, job.key)
    ensures Sound(kc, req, job) && WriteOf(job.key, job.reply) == multiset{WriteFor(job)}
  {
    hide RightKey, Accepts;
  }

  lemma WriteOfReply(key: Key, r: Reply)
    ensures !OutcomeOf(r).Success? ==> WriteOf(key, r) == multiset{}
  {
    hide Accepts;
  }

  // ---- The answer ---------------------------------------------------------------------------

  // Some accepted response is being written to the cache under a key of u's own.
  ghost predicate BeingWritten(kc: KeyConfig, req: Request, writes: multiset<Task>, u: Tile) {
    exists k: Key, r: Reply ::
      RightKey(kc, req, u, k) && Accepts(r.code, r.body) && Encoding(k, r.body, r.headers) in writes
  }

  // t is such a write for one of the tiles.
  ghost predicate WriteForOneOf(kc: KeyConfig, req: Request, tiles: multiset<Tile>, t: Task) {
    exists u, k: Key, r: Reply ::
      u in tiles && RightKey(kc, req, u, k) && Accepts(r.code, r.body) && t == Encoding(k, r.body, r.headers)
  }

  // The answer counts the cache writes the workers have started, one for each tile primed and under
  // a key of that tile, and no others. When it says "ok", the tiles worked on with success are
  // exactly the listed ones, each as often as it is listed, and each is being written.
  lemma OkMeansAllWritten(p: P.Pool, acts: seq<P.Action>, replies: seq<Reply>, keys: seq<Key>,
                          kc: KeyConfig, req: Request)
    requires p.numWorkers >= 1 && P.CanRun(p, P.Start(p), acts) && Answered(acts, replies)
    requires |keys| == |acts| && Keyed(kc, req, p, P.Start(p), acts, keys)
    requires P.Run(p, P.Start(p), acts).main.Returned?
    ensures var (s, writes) := (P.Run(p, P.Start(p), acts), Writes(acts, replies, keys));
            var tiles := multiset(TilesOf(Jobs(p, P.Start(p), acts, replies, keys)));
            && s.main.succeeded == |writes| && tiles == s.primed
            && (forall t <- writes :: WriteForOneOf(kc, req, s.primed, t))
            && (P.Ok(p, s) ==> tiles == multiset(p.tiles))
            && (P.Ok(p, s) ==> forall u <- p.tiles :: BeingWritten(kc, req, writes, u))
  {
    hide P.Run, P.CanRun, Writes, Keyed, Jobs, TilesOf, Matches, WriteForOneOf, BeingWritten, P.AllFinished, Done;
    var s := P.Run(p, P.Start(p), acts);
    var (jobs, writes) := (Jobs(p, P.Start(p), acts, replies, keys), Writes(acts, replies, keys));
    var failed := P.TheAnswer(p, acts);
    JobsAreDone(p, P.Start(p), acts, replies, keys);
    NothingOnTheWay(s);
    NothingDoneYet(p);
    WritesOfJobs(kc, req, p, P.Start(p), acts, replies, keys);
    assert |multiset(TilesOf(jobs))| == |jobs|;
    WritesForTiles(kc, req, jobs, writes);
    assert P.Ok(p, s) ==> forall u <- p.tiles :: u in multiset(p.tiles);
  }

  lemma NothingDoneYet(p: P.Pool)
    ensures Done(P.Start(p)) == multiset{}
  {
  }

  lemma WritesForTiles(kc: KeyConfig, req: Request, jobs: seq<Job>, writes: multiset<Task>)
    requires Matches(kc, req, jobs, writes)
    ensures |writes| == |jobs|
    ensures forall t <- writes :: WriteForOneOf(kc, req, multiset(TilesOf(jobs)), t)
    ensures forall u <- multiset(TilesOf(jobs)) :: BeingWritten(kc, req, writes, u)
  {
    hide Sound, WriteFor, WriteForOneOf, BeingWritten;
    forall t <- writes ensures WriteForOneOf(kc, req, multiset(TilesOf(jobs)), t) {
      var job :| job in jobs && t == WriteFor(job);
      WriteHasTile(kc, req, jobs, job);
    }
    forall u <- multiset(TilesOf(jobs)) ensures BeingWritten(kc, req, writes, u) {
      assert u in TilesOf(jobs);
      var i :| 0 <= i < |jobs| && TilesOf(jobs)[i] == u;
      assert jobs[i] in jobs;
      TileIsWritten(kc, req, jobs[i], writes);
    }
  }

  lemma WriteHasTile(kc: KeyConfig, req: Request, jobs: seq<Job>, job: Job)
    requires job in jobs && Sound(kc, req, job)
    ensures WriteForOneOf(kc, req, multiset(TilesOf(jobs)), WriteFor(job))
  {
    hide RightKey, Accepts, TilesOf;
    JobIsPrimed(jobs, job);
    assert job.tile in multiset(TilesOf(jobs)) && RightKey(kc, req, job.tile, job.key);
  }

  lemma TileIsWritten(kc: KeyConfig, req: Request, job: Job, writes: multiset<Task>)
    requires Sound(kc, req, job) && WriteFor(job) in writes
    ensures BeingWritten(kc, req, writes, job.tile)
  {
    hide RightKey, Accepts;
    assert RightKey(kc, req, job.tile, job.key) && Accepts(job.reply.code, job.reply.body);
  }

  lemma JobIsPrimed(jobs: seq<Job>, job: Job)
    requires job in jobs
    ensures job.tile in multiset(TilesOf(jobs))
  {
    var i :| 0 <= i < |jobs| && jobs[i] == job;
    assert TilesOf(jobs)[i] in TilesOf(jobs);
  }

  lemma NothingOnTheWay(s: P.State)
    requires P.AllFinished(s)
    ensures Done(s) == s.primed
  {
    hide Total;
    TotalOfIdle(OnTheWay, s.workers);
  }
}
