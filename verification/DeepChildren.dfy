// DeepChildren (tile/tile.go) as the small steps its goroutines take: one goroutine per tile, an
// unbuffered channel, a WaitGroup counter, a collector that is never joined, and the caller.

module DeepChildren {
  import opened Wrappers
  import opened Quadtree
  import opened Accounts

  type ChildIndex = i: nat | i < 4

  // Where a deepChildrenImpl goroutine stands.
  datatype Worker =
    | Sending(tile: Tile)                // before `tileChan <- tile`
    | Sent(tile: Tile)                   // before the zoom test
    | Spawning(tile: Tile, next: ChildIndex)   // wg.Add(4) done, children[..next] started
    | Returning                          // before the deferred wg.Done()
    | Finished

  // Where DeepChildren itself stands.
  datatype Caller = Waiting | Closing | Reading | Returned(tiles: seq<Tile>)

  datatype State = State(
    workers: seq<Worker>,
    counter: int,              // the WaitGroup
    hand: Option<Tile>,        // received by the collector, not yet appended
    tiles: seq<Tile>,
    closed: bool,
    collecting: bool,          // the collector is still ranging over the channel
    caller: Caller)

  // One step of the scheduler.
  datatype Action =
    | Send(w: nat)             // rendezvous: the worker sends, the collector receives
    | Branch(w: nat)           // return at maxZoom, or wg.Add(4)
    | Spawn(w: nat)            // start the next child
    | Done(w: nat)             // deferred wg.Done()
    | Append                   // tiles = append(tiles, tile)
    | WaitReturns
    | Close
    | Return
    | CollectorEnds            // range over the closed channel is over

  function Start(t: Tile): State {
    State([Sending(t)], 1, None, [], false, true, Waiting)
  }

  predicate Enabled(s: State, a: Action) {
    match a
    case Send(w) => w < |s.workers| && s.workers[w].Sending? && !s.closed && s.collecting && s.hand.None?
    case Branch(w) => w < |s.workers| && s.workers[w].Sent?
    case Spawn(w) => w < |s.workers| && s.workers[w].Spawning?
    case Done(w) => w < |s.workers| && s.workers[w].Returning?
    case Append => s.hand.Some?
    case WaitReturns => s.caller.Waiting? && s.counter == 0
    case Close => s.caller.Closing?
    case Return => s.caller.Reading?
    case CollectorEnds => s.closed && s.collecting && s.hand.None?
  }

  function Do(maxZoom: int64, s: State, a: Action): State
    requires Enabled(s, a)
  {
    match a
    case Send(w) =>
      var tile := s.workers[w].tile;
      s.(workers := s.workers[w := Sent(tile)], hand := Some(tile))
    case Branch(w) =>
      var tile := s.workers[w].tile;
      if tile.zoom >= maxZoom then
        s.(workers := s.workers[w := Returning])
      else
        s.(workers := s.workers[w := Spawning(tile, 0)], counter := s.counter + 4)
    case Spawn(w) =>
      var Spawning(tile, i) := s.workers[w];
      var parent := if i == 3 then Returning else Spawning(tile, i + 1);
      s.(workers := s.workers[w := parent] + [Sending(Children(tile)[i])])
    case Done(w) => s.(workers := s.workers[w := Finished], counter := s.counter - 1)
    case Append => s.(tiles := s.tiles + [s.hand.value], hand := None)
    case WaitReturns => s.(caller := Closing)
    case Close => s.(closed := true, caller := Reading)
    case Return => s.(caller := Returned(s.tiles))
    case CollectorEnds => s.(collecting := false)
  }

  // acts is a schedule the program can follow from s.
  predicate CanRun(maxZoom: int64, s: State, acts: seq<Action>)
    decreases |acts|
  {
    acts == [] || (Enabled(s, acts[0]) && CanRun(maxZoom, Do(maxZoom, s, acts[0]), acts[1..]))
  }

  function Run(maxZoom: int64, s: State, acts: seq<Action>): State
    requires CanRun(maxZoom, s, acts)
    decreases |acts|
  {
    if acts == [] then s else Run(maxZoom, Do(maxZoom, s, acts[0]), acts[1..])
  }

  // ---- What a worker still owes -------------------------------------------------------------

  // The subtrees of the children from number i on.
  function StillToStart(t: Tile, i: ChildIndex, maxZoom: int64): multiset<Tile>
    decreases 4 - i
  {
    var child := Subtree(Children(t)[i], maxZoom);
    if i == 3 then child else child + StillToStart(t, i + 1, maxZoom)
  }

  lemma SubtreeIsRootAndRest(t: Tile, maxZoom: int64)
    requires t.zoom < maxZoom
    ensures Subtree(t, maxZoom) == multiset{t} + StillToStart(t, 0, maxZoom)
  {
    hide Children;
    var c := Children(t);
    assert StillToStart(t, 2, maxZoom) == Subtree(c[2], maxZoom) + Subtree(c[3], maxZoom);
    assert StillToStart(t, 0, maxZoom) == Subtree(c[0], maxZoom)
        + (Subtree(c[1], maxZoom) + StillToStart(t, 2, maxZoom));
  }

  // Steps are counted relative to five per tile owed: its send, append, branch, done and start.
  function LoadOf(maxZoom: int64, w: Worker): Load {
    match w
    case Sending(t) => Load(1, Subtree(t, maxZoom), -1)
    case Sent(t) => Load(1, Subtree(t, maxZoom) - multiset{t}, 2)
    case Spawning(t, i) => Load(5 - i, StillToStart(t, i, maxZoom), 1)
    case Returning => Load(1, multiset{}, 1)
    case Finished => NOTHING
  }

  function Loads(maxZoom: int64): Worker -> Load {
    w => LoadOf(maxZoom, w)
  }

  function InHand(s: State): multiset<Tile> {
    if s.hand.Some? then multiset{s.hand.value} else multiset{}
  }

  // Sent and kept, sent and in the collector's hand, or still owed by a live worker.
  function Accounted(tally: Load, s: State): multiset<Tile> {
    multiset(s.tiles) + InHand(s) + tally.debt
  }

  // Scheduler steps left until every goroutine has ended.
  function StepsLeft(tally: Load, s: State): int {
    5 * |tally.debt| + tally.steps + |InHand(s)|
    + (match s.caller case Waiting => 3 case Closing => 2 case Reading => 1 case Returned(_) => 0)
    + (if s.collecting then 1 else 0)
  }

  // ---- One worker's step --------------------------------------------------------------------

  lemma SendPays(maxZoom: int64, t: Tile)
    ensures LoadOf(maxZoom, Sending(t)).debt == multiset{t} + LoadOf(maxZoom, Sent(t)).debt
  {
  }

  lemma BranchPays(maxZoom: int64, t: Tile)
    ensures LoadOf(maxZoom, Sent(t)).debt ==
            if t.zoom >= maxZoom then multiset{} else LoadOf(maxZoom, Spawning(t, 0)).debt
  {
    if t.zoom < maxZoom {
      SubtreeIsRootAndRest(t, maxZoom);
    }
  }

  lemma SpawnPays(maxZoom: int64, t: Tile, i: ChildIndex)
    ensures LoadOf(maxZoom, Spawning(t, i)).debt ==
            LoadOf(maxZoom, if i == 3 then Returning else Spawning(t, i + 1)).debt
            + LoadOf(maxZoom, Sending(Children(t)[i])).debt
  {
    hide Subtree, Children;
  }

  // What each step does to the counter, the tiles accounted for and the steps left, for any
  // way of loading workers under which sends, branches and spawns pay for themselves.
  predicate Pays(maxZoom: int64, load: Worker -> Load, w: Worker) {
    match w
    case Sending(t) =>
      load(w) == Load(1, multiset{t} + load(Sent(t)).debt, -1) && load(Sent(t)).held == 1 && load(Sent(t)).steps == 2
    case Sent(t) =>
      var next := if t.zoom >= maxZoom then Returning else Spawning(t, 0);
      load(w) == Load(1, load(next).debt, 2)
      && load(next).steps == 1 && load(next).held == if t.zoom >= maxZoom then 1 else 5
    case Spawning(t, i) =>
      var parent := if i == 3 then Returning else Spawning(t, i + 1);
      var child := Sending(Children(t)[i]);
      load(w) == Load(5 - i, load(parent).debt + load(child).debt, 1)
      && load(parent).held == 4 - i && load(parent).steps == 1 && load(child).held == 1 && load(child).steps == -1
    case Returning => load(w) == Load(1, multiset{}, 1) && load(Finished) == NOTHING
    case Finished => load(w) == NOTHING
  }

  lemma LoadsPay(maxZoom: int64, w: Worker)
    ensures Pays(maxZoom, Loads(maxZoom), w)
  {
    hide Subtree, StillToStart, Children;
    match w
    case Sending(t) => SendPays(maxZoom, t);
    case Sent(t) => BranchPays(maxZoom, t);
    case Spawning(t, i) => SpawnPays(maxZoom, t, i);
    case _ =>
  }

  // Replacing worker w, whose load splits into the new worker's and `paid`.
  lemma Replaced(load: Worker -> Load, ws: seq<Worker>, w: nat, w': Worker, paid: multiset<Tile>)
    requires w < |ws| && load(ws[w]).debt == load(w').debt + paid
    ensures var (before, after) := (Total(load, ws), Total(load, ws[w := w']));
            && before.debt == after.debt + paid
            && after.held - before.held == load(w').held - load(ws[w]).held
            && after.steps - before.steps == load(w').steps - load(ws[w]).steps
  {
    TotalExchange(load, ws, w, w', paid, multiset{});
  }

  // The accounts of s' are those of s with one scheduler step taken.
  predicate Balanced(load: Worker -> Load, s: State, s': State) {
    var (before, after) := (Total(load, s.workers), Total(load, s'.workers));
    && s'.counter - s.counter == after.held - before.held
    && Accounted(after, s') == Accounted(before, s)
    && StepsLeft(after, s') == StepsLeft(before, s) - 1
  }

  // Worker w becomes w' and whatever it paid, if anything, is now in the collector's hand.
  lemma MoveBalances(load: Worker -> Load, s: State, s': State, w: nat, w': Worker, paid: multiset<Tile>)
    requires w < |s.workers| && s'.workers == s.workers[w := w']
    requires s'.tiles == s.tiles && s'.caller == s.caller && s'.collecting == s.collecting
    requires InHand(s') == InHand(s) + paid && load(s.workers[w]).debt == load(w').debt + paid
    requires s'.counter - s.counter == load(w').held - load(s.workers[w]).held
    requires load(w').steps == load(s.workers[w]).steps - 1 + 4 * |paid|
    ensures Balanced(load, s, s')
  {
    hide Total;
    Replaced(load, s.workers, w, w', paid);
    var (before, after) := (Total(load, s.workers), Total(load, s'.workers));
    assert |before.debt| == |after.debt| + |paid|;
    assert InHand(s') + after.debt == InHand(s) + before.debt;
  }

  lemma SendBalances(maxZoom: int64, load: Worker -> Load, s: State, w: nat)
    requires Enabled(s, Send(w)) && Pays(maxZoom, load, s.workers[w])
    ensures Balanced(load, s, Do(maxZoom, s, Send(w)))
  {
    hide Balanced, Children;
    var t := s.workers[w].tile;
    MoveBalances(load, s, Do(maxZoom, s, Send(w)), w, Sent(t), multiset{t});
  }

  lemma BranchBalances(maxZoom: int64, load: Worker -> Load, s: State, w: nat)
    requires Enabled(s, Branch(w)) && Pays(maxZoom, load, s.workers[w])
    ensures Balanced(load, s, Do(maxZoom, s, Branch(w)))
  {
    hide Balanced, Children;
    var s' := Do(maxZoom, s, Branch(w));
    MoveBalances(load, s, s', w, s'.workers[w], multiset{});
  }

  lemma DoneBalances(maxZoom: int64, load: Worker -> Load, s: State, w: nat)
    requires Enabled(s, Done(w)) && load(Returning) == Load(1, multiset{}, 1) && load(Finished) == NOTHING
    ensures Balanced(load, s, Do(maxZoom, s, Done(w)))
  {
    hide Balanced, Children;
    MoveBalances(load, s, Do(maxZoom, s, Done(w)), w, Finished, multiset{});
  }

  // Worker w becomes `parent` and starts `child`, its load split between the two.
  lemma ForkBalances(load: Worker -> Load, s: State, s': State, w: nat, parent: Worker, child: Worker)
    requires w < |s.workers| && s' == s.(workers := s.workers[w := parent] + [child])
    requires load(s.workers[w]).debt == load(parent).debt + load(child).debt
    requires load(s.workers[w]).held == load(parent).held + load(child).held
    requires load(s.workers[w]).steps - 1 == load(parent).steps + load(child).steps
    ensures Balanced(load, s, s')
  {
    hide Total;
    Replaced(load, s.workers, w, parent, load(child).debt);
    TotalAppend(load, s.workers[w := parent], child);
    assert Total(load, s'.workers).debt == Total(load, s.workers).debt;
  }

  lemma SpawnBalances(maxZoom: int64, load: Worker -> Load, s: State, w: nat)
    requires Enabled(s, Spawn(w)) && Pays(maxZoom, load, s.workers[w])
    ensures Balanced(load, s, Do(maxZoom, s, Spawn(w)))
  {
    hide Balanced, Children;
    var Spawning(t, i) := s.workers[w];
    var parent := if i == 3 then Returning else Spawning(t, i + 1);
    ForkBalances(load, s, Do(maxZoom, s, Spawn(w)), w, parent, Sending(Children(t)[i]));
  }

  lemma AppendBalances(maxZoom: int64, load: Worker -> Load, s: State)
    requires s.hand.Some?
    ensures Balanced(load, s, Do(maxZoom, s, Append))
  {
    hide Total;
    var s' := Do(maxZoom, s, Append);
    assert multiset(s'.tiles) + InHand(s') == multiset(s.tiles) + InHand(s);
  }

  lemma CallerBalances(maxZoom: int64, load: Worker -> Load, s: State, a: Action)
    requires Enabled(s, a) && (a.WaitReturns? || a.Close? || a.Return? || a.CollectorEnds?)
    ensures Balanced(load, s, Do(maxZoom, s, a))
  {
    hide Total;
    var s' := Do(maxZoom, s, a);
    assert s'.workers == s.workers && InHand(s') == InHand(s);
  }

  lemma StepBalances(maxZoom: int64, s: State, a: Action)
    requires Enabled(s, a)
    ensures Balanced(Loads(maxZoom), s, Do(maxZoom, s, a))
  {
    hide Balanced, Pays, Children, Do, Subtree, Total;
    var load := Loads(maxZoom);
    if {
      case a.Send? => LoadsPay(maxZoom, s.workers[a.w]); SendBalances(maxZoom, load, s, a.w);
      case a.Branch? => LoadsPay(maxZoom, s.workers[a.w]); BranchBalances(maxZoom, load, s, a.w);
      case a.Spawn? => LoadsPay(maxZoom, s.workers[a.w]); SpawnBalances(maxZoom, load, s, a.w);
      case a.Done? => DoneBalances(maxZoom, load, s, a.w);
      case a.Append? => AppendBalances(maxZoom, load, s);
      case a.WaitReturns? || a.Close? || a.Return? || a.CollectorEnds? => CallerBalances(maxZoom, load, s, a);
    }
  }

  // ---- What every interleaving keeps --------------------------------------------------------

  function Tally(maxZoom: int64, s: State): Load {
    Total(Loads(maxZoom), s.workers)
  }

  // Every tile sent or owed.
  function Tiles(maxZoom: int64, s: State): multiset<Tile> {
    Accounted(Tally(maxZoom, s), s)
  }

  // Scheduler steps from s to the end of the last goroutine.
  function Remaining(maxZoom: int64, s: State): int {
    StepsLeft(Tally(maxZoom, s), s)
  }

  ghost predicate AllFinished(s: State) {
    forall i :: 0 <= i < |s.workers| ==> s.workers[i].Finished?
  }

  ghost predicate Inv(maxZoom: int64, root: multiset<Tile>, s: State) {
    && s.counter == Tally(maxZoom, s).held
    && Tiles(maxZoom, s) == root
    && (!s.caller.Waiting? ==> AllFinished(s))
    && (s.closed <==> s.caller.Reading? || s.caller.Returned?)
    && (!s.collecting ==> s.closed && s.hand.None?)
    && (s.caller.Returned? ==>
          s.caller.tiles <= s.tiles && |s.tiles| + |InHand(s)| <= |s.caller.tiles| + 1)
  }

  lemma StartHoldsInv(t: Tile, maxZoom: int64)
    ensures Inv(maxZoom, Subtree(t, maxZoom), Start(t))
    ensures Remaining(maxZoom, Start(t)) == 5 * |Subtree(t, maxZoom)| + 3
  {
    hide Subtree;
    var load := Loads(maxZoom);
    assert [Sending(t)][1..] == [];
    assert Total(load, [Sending(t)]) == load(Sending(t));
  }

  // The counter is zero exactly when every goroutine that was started, or promised by wg.Add,
  // has ended.
  lemma CounterIsZeroWhenIdle(maxZoom: int64, ws: seq<Worker>)
    ensures Total(Loads(maxZoom), ws).held == 0 <==> forall i :: 0 <= i < |ws| ==> ws[i].Finished?
    ensures (forall i :: 0 <= i < |ws| ==> ws[i].Finished?) ==> Total(Loads(maxZoom), ws) == NOTHING
  {
    hide Subtree, StillToStart, Total;
    var load := Loads(maxZoom);
    if forall i :: 0 <= i < |ws| ==> ws[i].Finished? {
      TotalOfIdle(load, ws);
    } else {
      var i :| 0 <= i < |ws| && !ws[i].Finished?;
      TotalCovers(load, ws, i);
    }
  }

  lemma StepKeepsInv(maxZoom: int64, root: multiset<Tile>, s: State, a: Action)
    requires Inv(maxZoom, root, s) && Enabled(s, a)
    ensures Inv(maxZoom, root, Do(maxZoom, s, a))
    ensures Remaining(maxZoom, Do(maxZoom, s, a)) == Remaining(maxZoom, s) - 1
  {
    hide Accounted, StepsLeft, Total, LoadOf, Children;
    StepBalances(maxZoom, s, a);
    if a.WaitReturns? { CounterIsZeroWhenIdle(maxZoom, s.workers); }
  }

  lemma {:induction false} RunKeepsInv(maxZoom: int64, root: multiset<Tile>, s: State, acts: seq<Action>)
    requires Inv(maxZoom, root, s) && CanRun(maxZoom, s, acts)
    ensures var s' := Run(maxZoom, s, acts);
            Inv(maxZoom, root, s') && Remaining(maxZoom, s') == Remaining(maxZoom, s) - |acts|
    decreases |acts|
  {
    hide Inv, Do, Enabled, Remaining;
    if acts != [] {
      StepKeepsInv(maxZoom, root, s, acts[0]);
      RunKeepsInv(maxZoom, root, Do(maxZoom, s, acts[0]), acts[1..]);
    }
  }

  // ---- Main results -------------------------------------------------------------------------

  // Conservation over every interleaving: the counter is what live and promised goroutines hold,
  // and sent plus owed is the whole enumeration. The run's length is fixed in advance.
  lemma Conservation(t: Tile, maxZoom: int64, acts: seq<Action>)
    requires CanRun(maxZoom, Start(t), acts)
    ensures var s := Run(maxZoom, Start(t), acts);
            && s.counter == Tally(maxZoom, s).held
            && multiset(s.tiles) + InHand(s) + Tally(maxZoom, s).debt == Subtree(t, maxZoom)
            && |acts| + Remaining(maxZoom, s) == 5 * |Subtree(t, maxZoom)| + 3
  {
    hide Subtree, Tally, Remaining;
    StartHoldsInv(t, maxZoom);
    RunKeepsInv(maxZoom, Subtree(t, maxZoom), Start(t), acts);
  }

  // wg.Wait returns only when every goroutine has ended and every tile was sent exactly once,
  // and from then on no goroutine is left that could send on the closed channel.
  lemma WaitReturnsWhenAllSent(t: Tile, maxZoom: int64, acts: seq<Action>)
    requires CanRun(maxZoom, Start(t), acts)
    ensures var s := Run(maxZoom, Start(t), acts);
            && s.counter >= 0
            && (s.counter == 0 <==> AllFinished(s))
            && (Enabled(s, WaitReturns) || !s.caller.Waiting? ==>
                  AllFinished(s) && multiset(s.tiles) + InHand(s) == Subtree(t, maxZoom))
  {
    hide Subtree, Total, Remaining, LoadOf;
    StartHoldsInv(t, maxZoom);
    RunKeepsInv(maxZoom, Subtree(t, maxZoom), Start(t), acts);
    var s := Run(maxZoom, Start(t), acts);
    CounterIsZeroWhenIdle(maxZoom, s.workers);
    HeldIsNonNegative(maxZoom, s.workers);
  }

  lemma HeldIsNonNegative(maxZoom: int64, ws: seq<Worker>)
    ensures Total(Loads(maxZoom), ws).held >= 0
  {
    hide Subtree, StillToStart, Total;
    TotalHeldNonNegative(Loads(maxZoom), ws);
  }

  predicate Ended(s: State) {
    s.caller.Returned? && !s.collecting
  }

  // Some goroutine can always move until all have ended.
  lemma NoDeadlock(maxZoom: int64, root: multiset<Tile>, s: State) returns (a: Action)
    requires Inv(maxZoom, root, s) && !Ended(s)
    ensures Enabled(s, a)
  {
    hide Subtree, Total, LoadOf, Accounted;
    CounterIsZeroWhenIdle(maxZoom, s.workers);
    if s.hand.Some? {
      a := Append;
    } else if !AllFinished(s) {
      var i :| 0 <= i < |s.workers| && !s.workers[i].Finished?;
      if s.workers[i].Sending? {
        a := Send(i);
      } else if s.workers[i].Sent? {
        a := Branch(i);
      } else if s.workers[i].Spawning? {
        a := Spawn(i);
      } else {
        a := Done(i);
      }
    } else {
      a := match s.caller
        case Waiting => WaitReturns
        case Closing => Close
        case Reading => Return
        case _ => CollectorEnds;
    }
  }

  lemma NothingAfterTheEnd(maxZoom: int64, root: multiset<Tile>, s: State)
    requires Inv(maxZoom, root, s) && Ended(s)
    ensures Remaining(maxZoom, s) == 0 && forall a :: !Enabled(s, a)
  {
    hide Subtree, Total, LoadOf;
    CounterIsZeroWhenIdle(maxZoom, s.workers);
  }

  lemma RemainingIsNonNegative(maxZoom: int64, s: State)
    ensures Remaining(maxZoom, s) >= 0
  {
    hide Subtree, StillToStart, Total;
    TotalSolvent(Loads(maxZoom), s.workers, 5);
  }

  lemma RunThenStep(maxZoom: int64, s: State, acts: seq<Action>, a: Action)
    requires CanRun(maxZoom, s, acts) && Enabled(Run(maxZoom, s, acts), a)
    ensures CanRun(maxZoom, s, acts + [a])
    ensures Run(maxZoom, s, acts + [a]) == Do(maxZoom, Run(maxZoom, s, acts), a)
    decreases |acts|
  {
    hide Do, Enabled;
    if acts != [] {
      RunThenStep(maxZoom, Do(maxZoom, s, acts[0]), acts[1..], a);
      assert (acts + [a])[1..] == acts[1..] + [a];
    } else {
      assert ([] + [a])[1..] == [];
    }
  }

  // No schedule deadlocks and none runs forever: a schedule cannot be continued exactly when
  // every goroutine has ended, which is after exactly five steps a tile and three more.
  lemma EveryScheduleEnds(t: Tile, maxZoom: int64, acts: seq<Action>)
    requires CanRun(maxZoom, Start(t), acts)
    ensures var s := Run(maxZoom, Start(t), acts);
            && |acts| <= 5 * |Subtree(t, maxZoom)| + 3
            && (Ended(s) <==> forall a :: !Enabled(s, a))
            && (Ended(s) <==> |acts| == 5 * |Subtree(t, maxZoom)| + 3)
  {
    hide Subtree, Remaining, Tally, Do, Enabled, Inv, Ended;
    var s := Run(maxZoom, Start(t), acts);
    var root := Subtree(t, maxZoom);
    StartHoldsInv(t, maxZoom);
    RunKeepsInv(maxZoom, root, Start(t), acts);
    RemainingIsNonNegative(maxZoom, s);
    if Ended(s) {
      NothingAfterTheEnd(maxZoom, root, s);
    } else {
      var a := NoDeadlock(maxZoom, root, s);
      StepKeepsInv(maxZoom, root, s, a);
      RemainingIsNonNegative(maxZoom, Do(maxZoom, s, a));
    }
  }

  // The list DeepChildren returns, with the tile still in the collector's hand if there is one,
  // is the whole enumeration; what the collector goes on to hold is the list plus that tile.
  lemma ReturnedList(t: Tile, maxZoom: int64, acts: seq<Action>) returns (missed: multiset<Tile>)
    requires CanRun(maxZoom, Start(t), acts) && Run(maxZoom, Start(t), acts).caller.Returned?
    ensures var s := Run(maxZoom, Start(t), acts);
            && multiset(s.caller.tiles) + missed == Subtree(t, maxZoom) && |missed| <= 1
            && s.caller.tiles <= s.tiles
            && (s.hand.None? ==> multiset(s.tiles) == Subtree(t, maxZoom))
            && (s.hand.Some? ==> missed == multiset{s.hand.value})
  {
    hide Subtree, Total, LoadOf, Run, CanRun;
    var s := Run(maxZoom, Start(t), acts);
    StartHoldsInv(t, maxZoom);
    RunKeepsInv(maxZoom, Subtree(t, maxZoom), Start(t), acts);
    CounterIsZeroWhenIdle(maxZoom, s.workers);
    var r := s.caller.tiles;
    assert s.tiles == r + s.tiles[|r|..];
    missed := multiset(s.tiles[|r|..]) + InHand(s);
  }

  // The promised "list of all tiles" is returned exactly when the collector's hand is empty at
  // the moment the caller reads the list.
  lemma CompleteIffHandEmpty(t: Tile, maxZoom: int64, acts: seq<Action>)
    requires CanRun(maxZoom, Start(t), acts) && Enabled(Run(maxZoom, Start(t), acts), Return)
    ensures var s := Run(maxZoom, Start(t), acts);
            var s' := Do(maxZoom, s, Return);
            multiset(s'.caller.tiles) == Subtree(t, maxZoom) <==> s.hand.None?
  {
    hide Subtree, Total, LoadOf, Run, CanRun;
    var s := Run(maxZoom, Start(t), acts);
    StartHoldsInv(t, maxZoom);
    RunKeepsInv(maxZoom, Subtree(t, maxZoom), Start(t), acts);
    CounterIsZeroWhenIdle(maxZoom, s.workers);
    assert |multiset(s.tiles)| + |InHand(s)| == |Subtree(t, maxZoom)|;
  }

  lemma StepFirst(maxZoom: int64, s: State, a: Action, rest: seq<Action>)
    requires Enabled(s, a) && CanRun(maxZoom, Do(maxZoom, s, a), rest)
    ensures CanRun(maxZoom, s, [a] + rest) && Run(maxZoom, s, [a] + rest) == Run(maxZoom, Do(maxZoom, s, a), rest)
  {
    hide Do, Enabled;
    assert ([a] + rest)[1..] == rest;
  }

  // A worker other than those about to send.
  predicate Busy(w: Worker) {
    !w.Sending? && !w.Finished?
  }

  function BusyAction(s: State, i: nat): (a: Action)
    requires i < |s.workers| && Busy(s.workers[i])
    ensures Enabled(s, a)
  {
    if s.workers[i].Sent? then Branch(i) else if s.workers[i].Spawning? then Spawn(i) else Done(i)
  }

  // Schedules the program up to the point where the caller reads the list, appending the last
  // tile or not as asked. Worker k is one that has yet to send, if the hand is empty.
  lemma Schedule(maxZoom: int64, root: multiset<Tile>, s: State, lose: bool, k: nat) returns (acts: seq<Action>)
    requires Inv(maxZoom, root, s) && s.caller.Waiting?
    requires lose && s.hand.None? ==> k < |s.workers| && s.workers[k].Sending?
    ensures CanRun(maxZoom, s, acts)
    ensures var s' := Run(maxZoom, s, acts); s'.caller.Reading? && (s'.hand.Some? <==> lose)
    decreases Remaining(maxZoom, s)
  {
    hide Subtree, Tiles, Remaining, Run, CanRun, Children, Total, LoadOf;
    RemainingIsNonNegative(maxZoom, s);
    CounterIsZeroWhenIdle(maxZoom, s.workers);
    var a: Action;
    var k' := k;
    if i :| 0 <= i < |s.workers| && Busy(s.workers[i]) {
      a := BusyAction(s, i);
    } else if i :| 0 <= i < |s.workers| && s.workers[i].Sending? {
      a := if s.hand.None? then Send(i) else Append;
      k' := i;
    } else if s.hand.Some? && !lose {
      a := Append;
    } else {
      a := WaitReturns;
      var s' := Do(maxZoom, s, a);
      EmptyRun(maxZoom, Do(maxZoom, s', Close));
      StepFirst(maxZoom, s', Close, []);
      StepFirst(maxZoom, s, a, [Close] + []);
      return [a] + ([Close] + []);
    }
    StepKeepsInv(maxZoom, root, s, a);
    var rest := Schedule(maxZoom, root, Do(maxZoom, s, a), lose, k');
    StepFirst(maxZoom, s, a, rest);
    acts := [a] + rest;
  }

  lemma EmptyRun(maxZoom: int64, s: State)
    ensures CanRun(maxZoom, s, []) && Run(maxZoom, s, []) == s
  {
  }

  // For every tile and zoom there is a schedule that returns the whole list, and one that
  // returns without the tile sent last.
  lemma BothOutcomesHappen(t: Tile, maxZoom: int64, lose: bool) returns (acts: seq<Action>)
    ensures CanRun(maxZoom, Start(t), acts)
    ensures var s := Run(maxZoom, Start(t), acts);
            && s.caller.Returned?
            && (multiset(s.caller.tiles) == Subtree(t, maxZoom) <==> !lose)
  {
    hide Subtree, Inv, Run, CanRun;
    StartHoldsInv(t, maxZoom);
    var before := Schedule(maxZoom, Subtree(t, maxZoom), Start(t), lose, 0);
    CompleteIffHandEmpty(t, maxZoom, before);
    RunThenStep(maxZoom, Start(t), before, Return);
    acts := before + [Return];
  }
}
