// The priming branch of InvalidateAndPrime and its tileWorkers (www/handlers/admin/cache.go), as
// the small steps its goroutines take over two buffered channels and a WaitGroup.

module PrimingPool {
  import opened Wrappers
  import opened Quadtree
  import opened Accounts

  // Where a tileWorker stands.
  datatype Worker =
    | Receiving                            // at `range payload.jobs`
    | Working(tile: Tile)                  // building URL and key, fetching, processing
    | Sending(tile: Tile)                  // before `payload.successes <- true`
    | Exiting(failed: Option<Tile>)        // before the deferred Done; Some: returned early, on this tile
    | Finished(failed: Option<Tile>)

  // Where InvalidateAndPrime itself stands.
  datatype Main =
    Starting | Submitting(next: nat) | Waiting | Closing | Counting(succeeded: nat) | Returned(succeeded: nat)

  // Both channels have room for one entry per tile.
  datatype Pool = Pool(numWorkers: nat, tiles: seq<Tile>)

  // primed and skipped record what became of the tiles; no goroutine reads them.
  datatype State = State(
    workers: seq<Worker>,
    counter: int,
    jobs: seq<Tile>,
    jobsClosed: bool,
    successes: nat,
    successesClosed: bool,
    main: Main,
    primed: multiset<Tile>,
    skipped: multiset<Tile>)

  // What working on a tile comes to: a success, a `continue`, or the `return` after a failed
  // ProcessResponse.
  datatype Outcome = Success | Skip | Fail

  datatype Action =
    | Spawn                          // go tileWorker(...)
    | Submit                         // jobs <- tileJob
    | CloseJobs
    | Take(w: nat)
    | Leave(w: nat)                  // the range over the closed, empty channel is over
    | Work(w: nat, outcome: Outcome)
    | SendSuccess(w: nat)
    | Done(w: nat)
    | WaitReturns
    | CloseSuccesses
    | Count                          // one turn of `range successes`
    | Answer

  function Start(p: Pool): State {
    State([], p.numWorkers, [], false, 0, false, Starting, multiset{}, multiset{})
  }

  predicate Enabled(p: Pool, s: State, a: Action) {
    match a
    case Spawn => s.main.Starting?
    case Submit => s.main.Submitting? && s.main.next < |p.tiles| && |s.jobs| < |p.tiles| && !s.jobsClosed
    case CloseJobs => s.main.Submitting? && s.main.next == |p.tiles|
    case Take(w) => w < |s.workers| && s.workers[w].Receiving? && s.jobs != []
    case Leave(w) => w < |s.workers| && s.workers[w].Receiving? && s.jobs == [] && s.jobsClosed
    case Work(w, _) => w < |s.workers| && s.workers[w].Working?
    case SendSuccess(w) => w < |s.workers| && s.workers[w].Sending? && s.successes < |p.tiles| && !s.successesClosed
    case Done(w) => w < |s.workers| && s.workers[w].Exiting?
    case WaitReturns => s.main.Waiting? && s.counter == 0
    case CloseSuccesses => s.main.Closing?
    case Count => s.main.Counting? && s.successes > 0
    case Answer => s.main.Counting? && s.successes == 0 && s.successesClosed
  }

  function AfterWork(t: Tile, o: Outcome): Worker {
    match o case Success => Sending(t) case Skip => Receiving case Fail => Exiting(Some(t))
  }

  function Do(p: Pool, s: State, a: Action): State
    requires Enabled(p, s, a)
  {
    match a
    case Spawn =>
      var ws := s.workers + [Receiving];
      s.(workers := ws, main := if |ws| >= p.numWorkers then Submitting(0) else Starting)
    case Submit => s.(jobs := s.jobs + [p.tiles[s.main.next]], main := Submitting(s.main.next + 1))
    case CloseJobs => s.(jobsClosed := true, main := Waiting)
    case Take(w) => s.(workers := s.workers[w := Working(s.jobs[0])], jobs := s.jobs[1..])
    case Leave(w) => s.(workers := s.workers[w := Exiting(None)])
    case Work(w, o) =>
      var t := s.workers[w].tile;
      s.(workers := s.workers[w := AfterWork(t, o)], skipped := s.skipped + if o.Skip? then multiset{t} else multiset{})
    case SendSuccess(w) =>
      s.(workers := s.workers[w := Receiving], successes := s.successes + 1,
         primed := s.primed + multiset{s.workers[w].tile})
    case Done(w) => s.(workers := s.workers[w := Finished(s.workers[w].failed)], counter := s.counter - 1)
    case WaitReturns => s.(main := Closing)
    case CloseSuccesses => s.(successesClosed := true, main := Counting(0))
    case Count => s.(successes := s.successes - 1, main := Counting(s.main.succeeded + 1))
    case Answer => s.(main := Returned(s.main.succeeded))
  }

  predicate CanRun(p: Pool, s: State, acts: seq<Action>)
    decreases |acts|
  {
    acts == [] || (Enabled(p, s, acts[0]) && CanRun(p, Do(p, s, acts[0]), acts[1..]))
  }

  function Run(p: Pool, s: State, acts: seq<Action>): State
    requires CanRun(p, s, acts)
    decreases |acts|
  {
    if acts == [] then s else Run(p, Do(p, s, acts[0]), acts[1..])
  }

  // ---- Accounts -----------------------------------------------------------------------------

  function InHand(o: Option<Tile>): multiset<Tile> {
    if o.Some? then multiset{o.value} else multiset{}
  }

  // The WaitGroup unit a worker holds, the tile it works on or failed on, and its steps. A tile
  // skipped or failed costs fewer steps than a primed one; the difference stays on its account.
  function LoadOf(w: Worker): Load {
    match w
    case Receiving => Load(1, multiset{}, 2)
    case Working(t) => Load(1, multiset{t}, 5)
    case Sending(t) => Load(1, multiset{t}, 4)
    case Exiting(f) => Load(1, InHand(f), 1 + 3 * |InHand(f)|)
    case Finished(f) => Load(0, InHand(f), 3 * |InHand(f)|)
  }

  function Tally(s: State): Load {
    Total(LoadOf, s.workers)
  }

  // How many tiles have been submitted.
  function Submitted(p: Pool, s: State): nat {
    match s.main case Starting => 0 case Submitting(i) => i case _ => |p.tiles|
  }

  function Counted(m: Main): nat {
    match m case Counting(n) => n case Returned(n) => n case _ => 0
  }

  function MainSteps(m: Main): nat {
    match m case Waiting => 3 case Closing => 2 case Counting(_) => 1 case Returned(_) => 0 case _ => 4
  }

  function StepsLeft(p: Pool, s: State, tally: Load): int {
    3 * (p.numWorkers - |s.workers|) + 5 * (|p.tiles| - Submitted(p, s)) + 4 * |s.jobs| + tally.steps
    + s.successes + 2 * |s.skipped| + MainSteps(s.main)
  }

  // Everything submitted that has not left the jobs channel, or is on a worker's account, or is
  // primed or skipped.
  function Accounted(s: State, tally: Load): multiset<Tile> {
    multiset(s.jobs) + tally.debt + s.primed + s.skipped
  }

  ghost predicate AllFinished(s: State) {
    forall w <- s.workers :: w.Finished?
  }

  // A worker that did not return early.
  predicate LeftInOrder(w: Worker) {
    (w.Exiting? || w.Finished?) && w.failed.None?
  }

  // Channel and WaitGroup bookkeeping of the main goroutine.
  predicate MainInv(p: Pool, s: State) {
    && (if s.main.Starting? then |s.workers| < p.numWorkers && s.jobs == [] else |s.workers| == p.numWorkers)
    && Submitted(p, s) <= |p.tiles|
    && (s.jobsClosed <==> !s.main.Starting? && !s.main.Submitting?)
    && (s.successesClosed <==> s.main.Counting? || s.main.Returned?)
    && |s.primed| == s.successes + Counted(s.main)
    && (s.main.Returned? ==> s.successes == 0)
  }

  ghost predicate WorkersInv(s: State) {
    && (s.main.Closing? || s.main.Counting? || s.main.Returned? ==> AllFinished(s))
    && ((exists w <- s.workers :: LeftInOrder(w)) ==> s.jobsClosed && s.jobs == [])
  }

  ghost predicate Inv(p: Pool, s: State) {
    && MainInv(p, s) && WorkersInv(s)
    && s.counter == p.numWorkers - |s.workers| + Tally(s).held
    && Accounted(s, Tally(s)) == multiset(p.tiles[..Submitted(p, s)])
  }

  function Remaining(p: Pool, s: State): int {
    StepsLeft(p, s, Tally(s))
  }

  // ---- Each step ----------------------------------------------------------------------------

  // s' is s one step further: the invariants hold again and one step less is left.
  ghost predicate Advances(p: Pool, s: State, s': State) {
    Inv(p, s') && Remaining(p, s') == Remaining(p, s) - 1
  }

  // Worker w becomes w', giving up the tiles `paid` and taking on the tiles `got`.
  lemma MoveAdvances(p: Pool, s: State, s': State, w: nat, w': Worker, paid: multiset<Tile>, got: multiset<Tile>)
    requires Inv(p, s) && w < |s.workers| && s'.workers == s.workers[w := w'] && s'.main == s.main
    requires MainInv(p, s') && s'.jobsClosed == s.jobsClosed && (s.jobs == [] ==> s'.jobs == [])
    requires !s.workers[w].Finished? && (LeftInOrder(w') ==>
        LeftInOrder(s.workers[w]) || (s.jobsClosed && s.jobs == []))
    requires LoadOf(s.workers[w]).debt + got == LoadOf(w').debt + paid
    requires s'.counter - s.counter == LoadOf(w').held - LoadOf(s.workers[w]).held
    requires multiset(s'.jobs) + got == multiset(s.jobs) && s'.primed + s'.skipped == s.primed + s.skipped + paid
    requires LoadOf(w').steps + 4 * |s'.jobs| + s'.successes + 2 * |s'.skipped|
          == LoadOf(s.workers[w]).steps + 4 * |s.jobs| + s.successes + 2 * |s.skipped| - 1
    ensures Advances(p, s, s')
  {
    hide MainInv, WorkersInv, LeftInOrder, Total, LoadOf;
    WorkersKept(s, s', w, w');
    TotalExchange(LoadOf, s.workers, w, w', paid, got);
    var (before, after) := (Tally(s).debt, Tally(s').debt);
    Regroup(multiset(s.jobs), multiset(s'.jobs), before, after, s.primed, s.skipped, s'.primed, s'.skipped, paid, got);
  }

  lemma WorkersKept(s: State, s': State, w: nat, w': Worker)
    requires WorkersInv(s) && w < |s.workers| && s'.workers == s.workers[w := w'] && s'.main == s.main
    requires s'.jobsClosed == s.jobsClosed && (s.jobs == [] ==> s'.jobs == [])
    requires !s.workers[w].Finished? && (LeftInOrder(w') ==>
        LeftInOrder(s.workers[w]) || (s.jobsClosed && s.jobs == []))
    ensures WorkersInv(s')
  {
    assert s.workers[w] in s.workers;
    forall x | x in s'.workers && LeftInOrder(x) ensures s'.jobsClosed && s'.jobs == [] {
      assert x in s.workers || x == w';
    }
  }

  lemma Regroup(jobs: multiset<Tile>, jobs': multiset<Tile>, debt: multiset<Tile>, debt': multiset<Tile>,
                primed: multiset<Tile>, skipped: multiset<Tile>, primed': multiset<Tile>, skipped': multiset<Tile>,
                paid: multiset<Tile>, got: multiset<Tile>)
    requires jobs' + got == jobs && primed' + skipped' == primed + skipped + paid && debt + got == debt' + paid
    ensures jobs' + debt' + primed' + skipped' == jobs + debt + primed + skipped
  {
    assert jobs' + debt' + primed' + skipped' == jobs' + debt' + (primed' + skipped');
    assert jobs' + debt' + (primed + skipped + paid) == jobs' + (debt' + paid) + (primed + skipped);
    assert jobs' + (debt + got) + (primed + skipped) == (jobs' + got) + debt + (primed + skipped);
    assert jobs + debt + (primed + skipped) == jobs + debt + primed + skipped;
  }

  lemma TakeAdvances(p: Pool, s: State, w: nat)
    requires Inv(p, s) && Enabled(p, s, Take(w))
    ensures Advances(p, s, Do(p, s, Take(w)))
  {
    hide Advances, Accounted, Tally, StepsLeft;
    var t := s.jobs[0];
    assert s.jobs == [t] + s.jobs[1..];
    MoveAdvances(p, s, Do(p, s, Take(w)), w, Working(t), multiset{}, multiset{t});
  }

  lemma LeaveAdvances(p: Pool, s: State, w: nat)
    requires Inv(p, s) && Enabled(p, s, Leave(w))
    ensures Advances(p, s, Do(p, s, Leave(w)))
  {
    hide Advances, Accounted, Tally, StepsLeft;
    MoveAdvances(p, s, Do(p, s, Leave(w)), w, Exiting(None), multiset{}, multiset{});
  }

  lemma WorkAdvances(p: Pool, s: State, w: nat, o: Outcome)
    requires Inv(p, s) && Enabled(p, s, Work(w, o))
    ensures Advances(p, s, Do(p, s, Work(w, o)))
  {
    hide Advances, Accounted, Tally, StepsLeft;
    var t := s.workers[w].tile;
    MoveAdvances(p, s, Do(p, s, Work(w, o)), w, AfterWork(t, o), if o.Skip? then multiset{t} else multiset{},
        multiset{});
  }

  lemma SendAdvances(p: Pool, s: State, w: nat)
    requires Inv(p, s) && Enabled(p, s, SendSuccess(w))
    ensures Advances(p, s, Do(p, s, SendSuccess(w)))
  {
    hide Advances, Accounted, Tally, StepsLeft;
    MoveAdvances(p, s, Do(p, s, SendSuccess(w)), w, Receiving, multiset{s.workers[w].tile}, multiset{});
  }

  lemma DoneAdvances(p: Pool, s: State, w: nat)
    requires Inv(p, s) && Enabled(p, s, Done(w))
    ensures Advances(p, s, Do(p, s, Done(w)))
  {
    hide Advances, Accounted, Tally, StepsLeft;
    MoveAdvances(p, s, Do(p, s, Done(w)), w, Finished(s.workers[w].failed), multiset{}, multiset{});
  }

  lemma SpawnAdvances(p: Pool, s: State)
    requires Inv(p, s) && Enabled(p, s, Spawn)
    ensures Advances(p, s, Do(p, s, Spawn))
  {
    hide Total;
    TotalAppend(LoadOf, s.workers, Receiving);
    var (t, t') := (Tally(s), Tally(Do(p, s, Spawn)));
    assert t'.debt == t.debt;
  }

  lemma SubmitAdvances(p: Pool, s: State)
    requires Inv(p, s) && Enabled(p, s, Submit)
    ensures Advances(p, s, Do(p, s, Submit))
  {
    hide Total;
    var i := s.main.next;
    assert p.tiles[..i + 1] == p.tiles[..i] + [p.tiles[i]];
    var s' := Do(p, s, Submit);
    assert multiset(s'.jobs) == multiset(s.jobs) + multiset{p.tiles[i]};
    assert Accounted(s', Tally(s)) == Accounted(s, Tally(s)) + multiset{p.tiles[i]};
  }

  lemma MainAdvances(p: Pool, s: State, a: Action)
    requires Inv(p, s) && Enabled(p, s, a)
    requires a.CloseJobs? || a.WaitReturns? || a.CloseSuccesses? || a.Count? || a.Answer?
    ensures Advances(p, s, Do(p, s, a))
  {
    hide Accounted, Tally, WorkersInv;
    var s' := Do(p, s, a);
    assert s'.workers == s.workers && Tally(s') == Tally(s) by { SameTally(s, s'); }
    assert Accounted(s', Tally(s)) == Accounted(s, Tally(s)) by { SameAccounts(s, s'); }
    assert p.tiles[..|p.tiles|] == p.tiles;
    MainKeepsWorkers(p, s, a);
  }

  lemma SameTally(s: State, s': State)
    requires s'.workers == s.workers
    ensures Tally(s') == Tally(s)
  {
  }

  lemma SameAccounts(s: State, s': State)
    requires s'.jobs == s.jobs && s'.primed == s.primed && s'.skipped == s.skipped
    ensures Accounted(s', Tally(s)) == Accounted(s, Tally(s))
  {
  }

  lemma MainKeepsWorkers(p: Pool, s: State, a: Action)
    requires Inv(p, s) && Enabled(p, s, a)
    requires a.CloseJobs? || a.WaitReturns? || a.CloseSuccesses? || a.Count? || a.Answer?
    ensures WorkersInv(Do(p, s, a))
  {
    hide Accounted, Total, LoadOf, LeftInOrder;
    if a.WaitReturns? { CounterIsZeroWhenIdle(s.workers); }
  }

  lemma CounterIsZeroWhenIdle(ws: seq<Worker>)
    ensures Total(LoadOf, ws).held == 0 ==> forall w <- ws :: w.Finished?
  {
    hide Total;
    if w :| w in ws && !w.Finished? {
      var i :| 0 <= i < |ws| && ws[i] == w;
      TotalCovers(LoadOf, ws, i);
    }
  }

  lemma StepAdvances(p: Pool, s: State, a: Action)
    requires Inv(p, s) && Enabled(p, s, a)
    ensures Advances(p, s, Do(p, s, a))
  {
    hide Inv, Advances, Do, Remaining;
    match a
    case Spawn => SpawnAdvances(p, s);
    case Submit => SubmitAdvances(p, s);
    case Take(w) => TakeAdvances(p, s, w);
    case Leave(w) => LeaveAdvances(p, s, w);
    case Work(w, o) => WorkAdvances(p, s, w, o);
    case SendSuccess(w) => SendAdvances(p, s, w);
    case Done(w) => DoneAdvances(p, s, w);
    case _ => MainAdvances(p, s, a);
  }

  // ---- Every run ----------------------------------------------------------------------------

  lemma StartHoldsInv(p: Pool)
    requires p.numWorkers >= 1
    ensures Inv(p, Start(p)) && Remaining(p, Start(p)) == 3 * p.numWorkers + 5 * |p.tiles| + 4
  {
  }

  lemma {:induction false} RunKeepsInv(p: Pool, s: State, acts: seq<Action>)
    requires Inv(p, s) && CanRun(p, s, acts)
    ensures Inv(p, Run(p, s, acts)) && Remaining(p, Run(p, s, acts)) == Remaining(p, s) - |acts|
    decreases |acts|
  {
    hide Inv, Do, Enabled, Remaining;
    if acts != [] {
      StepAdvances(p, s, acts[0]);
      RunKeepsInv(p, Do(p, s, acts[0]), acts[1..]);
    }
  }

  // The tiles on workers' accounts: being worked on, or the one an early return was about.
  function OnWorkers(s: State): multiset<Tile> {
    Tally(s).debt
  }

  // Conservation over every interleaving: submitted tiles are queued, with a worker, primed or
  // skipped, each exactly once, and the success messages are as many as the primed tiles.
  lemma Conservation(p: Pool, acts: seq<Action>)
    requires p.numWorkers >= 1 && CanRun(p, Start(p), acts)
    ensures var s := Run(p, Start(p), acts);
            && Submitted(p, s) <= |p.tiles|
            && multiset(s.jobs) + OnWorkers(s) + s.primed + s.skipped == multiset(p.tiles[..Submitted(p, s)])
            && |s.primed| == s.successes + Counted(s.main)
            && s.counter == p.numWorkers - |s.workers| + Tally(s).held
  {
    hide Tally, Remaining;
    StartHoldsInv(p);
    RunKeepsInv(p, Start(p), acts);
  }

  // No send can block or meet a closed channel: wherever a goroutine is about to send, it can.
  lemma SendsNeverBlock(p: Pool, acts: seq<Action>)
    requires p.numWorkers >= 1 && CanRun(p, Start(p), acts)
    ensures var s := Run(p, Start(p), acts);
            && (s.main.Submitting? && s.main.next < |p.tiles| ==> Enabled(p, s, Submit))
            && (forall w: nat :: w < |s.workers| && s.workers[w].Sending? ==> Enabled(p, s, SendSuccess(w)))
  {
    hide Run, CanRun, Remaining;
    StartHoldsInv(p);
    RunKeepsInv(p, Start(p), acts);
    var s := Run(p, Start(p), acts);
    forall w: nat | w < |s.workers| && s.workers[w].Sending? ensures Enabled(p, s, SendSuccess(w)) {
      RoomForSuccess(p, s, w);
    }
    if s.main.Submitting? && s.main.next < |p.tiles| { RoomForJob(p, s); }
  }

  lemma RoomForJob(p: Pool, s: State)
    requires Inv(p, s) && s.main.Submitting? && s.main.next < |p.tiles|
    ensures Enabled(p, s, Submit)
  {
    hide Tally, WorkersInv;
    assert |Accounted(s, Tally(s))| == s.main.next;
    assert |Accounted(s, Tally(s))| == |s.jobs| + |Tally(s).debt| + |s.primed| + |s.skipped|;
  }

  lemma RoomForSuccess(p: Pool, s: State, w: nat)
    requires Inv(p, s) && w < |s.workers| && s.workers[w].Sending?
    ensures Enabled(p, s, SendSuccess(w))
  {
    hide Total;
    assert s.workers[w] in s.workers;
    TotalCovers(LoadOf, s.workers, w);
    var debt := Tally(s).debt;
    assert s.workers[w].tile in debt;
    assert |Accounted(s, Tally(s))| == Submitted(p, s);
    assert |Accounted(s, Tally(s))| == |s.jobs| + |debt| + |s.primed| + |s.skipped|;
    assert |debt| > 0;
  }

  // Some goroutine can always move until the answer is given.
  lemma NoDeadlock(p: Pool, s: State) returns (a: Action)
    requires Inv(p, s) && !s.main.Returned?
    ensures Enabled(p, s, a)
  {
    hide Total;
    if s.main.Starting? {
      a := Spawn;
    } else if s.main.Submitting? {
      a := if s.main.next < |p.tiles| then Submit else CloseJobs;
      if s.main.next < |p.tiles| { RoomForJob(p, s); }
    } else if !AllFinished(s) {
      var x :| x in s.workers && !x.Finished?;
      var w: nat :| w < |s.workers| && s.workers[w] == x;
      if x.Sending? { RoomForSuccess(p, s, w); }
      a := match x
        case Receiving => if s.jobs != [] then Take(w) else Leave(w)
        case Working(_) => Work(w, Success)
        case Sending(_) => SendSuccess(w)
        case _ => Done(w);
    } else {
      WhenFinished(s.workers);
      a := match s.main
        case Waiting => WaitReturns
        case Closing => CloseSuccesses
        case _ => if s.successes > 0 then Count else Answer;
    }
  }

  // When all workers have ended: what is on their accounts are the tiles they returned early on.
  lemma {:induction false} WhenFinished(ws: seq<Worker>)
    requires forall w <- ws :: w.Finished?
    ensures var total := Total(LoadOf, ws); total.held == 0 && total.steps == 3 * |total.debt| && |total.debt| <= |ws|
    ensures |Total(LoadOf, ws).debt| == |ws| <==> forall w <- ws :: w.failed.Some?
  {
    if ws != [] {
      assert ws == [ws[0]] + ws[1..];
      assert ws[0] in ws;
      WhenFinished(ws[1..]);
      EndedWorker(ws[0], Total(LoadOf, ws[1..]));
      assert (forall w <- ws :: w.failed.Some?) <==> ws[0].failed.Some? && forall w <- ws[1..] :: w.failed.Some?;
    }
  }

  lemma EndedWorker(w: Worker, rest: Load)
    requires w.Finished?
    ensures var total := Plus(LoadOf(w), rest);
      && total.held == rest.held && total.steps == rest.steps + 3 * (|total.debt| - |rest.debt|)
      && |total.debt| == |rest.debt| + if w.failed.Some? then 1 else 0
  {
  }

  lemma NothingAfterTheAnswer(p: Pool, s: State, a: Action)
    requires Inv(p, s) && s.main.Returned?
    ensures !Enabled(p, s, a)
  {
    hide Tally, Accounted;
    forall w: nat | w < |s.workers| ensures s.workers[w].Finished? { assert s.workers[w] in s.workers; }
  }

  lemma RemainingIsNonNegative(p: Pool, s: State)
    requires Inv(p, s)
    ensures Remaining(p, s) >= 0
  {
    hide Total, Accounted, WorkersInv;
    TotalSolvent(LoadOf, s.workers, 0);
  }

  // No schedule deadlocks and none runs forever, whatever the outcomes: a schedule cannot be
  // continued exactly when the answer is given.
  lemma EveryScheduleEnds(p: Pool, acts: seq<Action>)
    requires p.numWorkers >= 1 && CanRun(p, Start(p), acts)
    ensures |acts| <= 3 * p.numWorkers + 5 * |p.tiles| + 4
    ensures Run(p, Start(p), acts).main.Returned? <==> forall a :: !Enabled(p, Run(p, Start(p), acts), a)
  {
    hide Run, CanRun, Inv, Enabled, Remaining;
    StartHoldsInv(p);
    RunKeepsInv(p, Start(p), acts);
    var s := Run(p, Start(p), acts);
    RemainingIsNonNegative(p, s);
    if s.main.Returned? {
      forall a ensures !Enabled(p, s, a) { NothingAfterTheAnswer(p, s, a); }
    } else {
      var a := NoDeadlock(p, s);
    }
  }

  // The status of the answer.
  predicate Ok(p: Pool, s: State)
    requires s.main.Returned?
  {
    s.main.succeeded == |p.tiles|
  }

  // The answer counts the tiles primed, and is "ok" exactly when every listed tile was. Each other
  // tile was skipped, failed - at most one per worker - or never taken from the queue, and the last
  // only when every worker has returned early. All this fixes the number of steps taken.
  lemma TheAnswer(p: Pool, acts: seq<Action>) returns (failed: multiset<Tile>)
    requires p.numWorkers >= 1 && CanRun(p, Start(p), acts) && Run(p, Start(p), acts).main.Returned?
    ensures var s := Run(p, Start(p), acts);
            && multiset(p.tiles) == s.primed + s.skipped + failed + multiset(s.jobs)
            && s.main.succeeded == |s.primed|
            && (Ok(p, s) <==> s.primed == multiset(p.tiles))
            && |failed| <= p.numWorkers && (s.jobs != [] ==> |failed| == p.numWorkers)
            && |acts| + 2 * |s.skipped| + 3 * |failed| + 4 * |s.jobs| == 3 * p.numWorkers + 5 * |p.tiles| + 4
            && AllFinished(s) && s.successes == 0
  {
    hide Run, CanRun, Total, LoadOf;
    StartHoldsInv(p);
    RunKeepsInv(p, Start(p), acts);
    var s := Run(p, Start(p), acts);
    failed := OnWorkers(s);
    WhenFinished(s.workers);
    assert p.tiles[..|p.tiles|] == p.tiles;
    Shares(multiset(p.tiles), multiset(s.jobs), failed, s.primed, s.skipped);
  }

  lemma Shares(all: multiset<Tile>, jobs: multiset<Tile>, failed: multiset<Tile>, primed: multiset<Tile>,
               skipped: multiset<Tile>)
    requires jobs + failed + primed + skipped == all
    ensures all == primed + skipped + failed + jobs
    ensures |primed| == |all| <==> primed == all
  {
    assert |all| == |jobs| + |failed| + |primed| + |skipped|;
    if |primed| == |all| {
      assert |jobs| == 0 && |failed| == 0 && |skipped| == 0;
      assert jobs == multiset{} && failed == multiset{} && skipped == multiset{};
    }
  }
}
