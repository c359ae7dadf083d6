// DeepIntersect (tile/tile.go): the tiles down to zoom 16 that meet a geometry, sent by one
// goroutine per tile. Whoever receives them is taken to be always ready.

module DeepIntersect {
  import opened Quadtree
  import opened Accounts

  // Tiles from which the test for zoom 16 is reached.
  type Upper = t: Tile | t.zoom <= 16 witness Tile(0, 0, 0)

  // Whether the geometry meets a tile's box.
  type Test = Tile -> bool

  function Child(t: Upper, i: nat): (c: Upper)
    requires t.zoom < 16 && i < 4
    ensures c.zoom == t.zoom + 1
  {
    Children(t)[i]
  }

  // ---- What is sent -------------------------------------------------------------------------

  function Emitted(hit: Test, t: Upper): multiset<Tile>
    decreases 16 - t.zoom, 6
  {
    if !hit(t) then multiset{}
    else if t.zoom == 16 then multiset{t}
    else multiset{t} + EmittedFrom(hit, t, 0)
  }

  // By the children from number i on.
  function EmittedFrom(hit: Test, t: Upper, i: nat): multiset<Tile>
    requires t.zoom < 16 && i <= 4
    decreases 16 - t.zoom, 5 - i
  {
    if i == 4 then multiset{} else Emitted(hit, Child(t, i)) + EmittedFrom(hit, t, i + 1)
  }

  // The steps taken for t: test, send, zoom test, four starts, and the end.
  function Steps(hit: Test, t: Upper): nat
    decreases 16 - t.zoom, 6
  {
    if !hit(t) then 2
    else if t.zoom == 16 then 4
    else 4 + StepsFrom(hit, t, 0)
  }

  function StepsFrom(hit: Test, t: Upper, i: nat): nat
    requires t.zoom < 16 && i <= 4
    decreases 16 - t.zoom, 5 - i
  {
    if i == 4 then 0 else 1 + Steps(hit, Child(t, i)) + StepsFrom(hit, t, i + 1)
  }

  // ---- The goroutines -----------------------------------------------------------------------

  datatype Worker =
    | Testing(tile: Upper)                 // before geometry.Intersects
    | Sending(tile: Upper)                 // before `tileChan <- tile`
    | Sent(tile: Upper)                    // before the zoom test
    | Spawning(tile: Upper, next: nat)     // wg.Add(4) done, children[..next] started
    | Returning                            // before the deferred wg.Done()
    | Finished

  datatype State = State(workers: seq<Worker>, counter: int, received: seq<Tile>)

  datatype Action = Test(w: nat) | Send(w: nat) | Branch(w: nat) | Spawn(w: nat) | Done(w: nat)

  // The caller has added one to the WaitGroup.
  function Start(t: Upper): State {
    State([Testing(t)], 1, [])
  }

  predicate Enabled(s: State, a: Action) {
    a.w < |s.workers| && var worker := s.workers[a.w];
      match a
      case Test(_) => worker.Testing?
      case Send(_) => worker.Sending?
      case Branch(_) => worker.Sent?
      case Spawn(_) => worker.Spawning? && worker.tile.zoom < 16 && worker.next < 4
      case Done(_) => worker.Returning?
  }

  function Do(hit: Test, s: State, a: Action): State
    requires Enabled(s, a)
  {
    var worker := s.workers[a.w];
    match a
    case Test(w) => s.(workers := s.workers[w := if hit(worker.tile) then Sending(worker.tile) else Returning])
    case Send(w) => s.(workers := s.workers[w := Sent(worker.tile)], received := s.received + [worker.tile])
    case Branch(w) =>
      if worker.tile.zoom == 16 then s.(workers := s.workers[w := Returning])
      else s.(workers := s.workers[w := Spawning(worker.tile, 0)], counter := s.counter + 4)
    case Spawn(w) =>
      var Spawning(tile, i) := worker;
      s.(workers := s.workers[w := AfterSpawn(tile, i)] + [Testing(Child(tile, i))])
    case Done(w) => s.(workers := s.workers[w := Finished], counter := s.counter - 1)
  }

  predicate CanRun(hit: Test, s: State, acts: seq<Action>)
    decreases |acts|
  {
    acts == [] || (Enabled(s, acts[0]) && CanRun(hit, Do(hit, s, acts[0]), acts[1..]))
  }

  function Run(hit: Test, s: State, acts: seq<Action>): State
    requires CanRun(hit, s, acts)
    decreases |acts|
  {
    if acts == [] then s else Run(hit, Do(hit, s, acts[0]), acts[1..])
  }

  // ---- What every interleaving keeps --------------------------------------------------------

  predicate WellPlaced(w: Worker) {
    w.Spawning? ==> w.tile.zoom < 16 && w.next < 4
  }

  function LoadOf(hit: Test, w: Worker): Load {
    match w
    case Testing(t) => Load(1, Emitted(hit, t), Steps(hit, t))
    case Sending(t) =>
      if t.zoom == 16 then Load(1, multiset{t}, 3)
      else Load(1, multiset{t} + EmittedFrom(hit, t, 0), 3 + StepsFrom(hit, t, 0))
    case Sent(t) =>
      if t.zoom == 16 then Load(1, multiset{}, 2) else Load(1, EmittedFrom(hit, t, 0), 2 + StepsFrom(hit, t, 0))
    case Spawning(t, i) =>
      if t.zoom < 16 && i < 4 then Load(5 - i, EmittedFrom(hit, t, i), 1 + StepsFrom(hit, t, i)) else NOTHING
    case Returning => Load(1, multiset{}, 1)
    case Finished => NOTHING
  }

  function Loads(hit: Test): Worker -> Load {
    w => LoadOf(hit, w)
  }

  function Tally(hit: Test, s: State): Load {
    Total(Loads(hit), s.workers)
  }

  ghost predicate Inv(hit: Test, root: multiset<Tile>, s: State) {
    && s.counter == Tally(hit, s).held
    && multiset(s.received) + Tally(hit, s).debt == root
    && forall w <- s.workers :: WellPlaced(w)
  }

  // s' is s one step further.
  ghost predicate Advances(hit: Test, root: multiset<Tile>, s: State, s': State) {
    Inv(hit, root, s') && Tally(hit, s').steps == Tally(hit, s).steps - 1
  }

  // Worker w becomes w' and what it paid, if anything, has been received.
  lemma MoveAdvances(hit: Test, root: multiset<Tile>, s: State, s': State, w: nat, w': Worker, paid: multiset<Tile>)
    requires Inv(hit, root, s) && w < |s.workers| && s'.workers == s.workers[w := w'] && WellPlaced(w')
    requires multiset(s'.received) == multiset(s.received) + paid
    requires LoadOf(hit, s.workers[w]).debt == LoadOf(hit, w').debt + paid
    requires s'.counter - s.counter == LoadOf(hit, w').held - LoadOf(hit, s.workers[w]).held
    requires LoadOf(hit, w').steps == LoadOf(hit, s.workers[w]).steps - 1
    ensures Advances(hit, root, s, s')
  {
    hide Total, LoadOf, WellPlaced;
    TotalExchange(Loads(hit), s.workers, w, w', paid, multiset{});
    var (before, after) := (Tally(hit, s).debt, Tally(hit, s').debt);
    assert before + multiset{} == before;
    assert multiset(s.received) + (paid + after) == (multiset(s.received) + paid) + after;
    forall x <- s'.workers ensures WellPlaced(x) { assert x == w' || x in s.workers; }
  }

  function AfterSpawn(t: Upper, i: nat): Worker {
    if i == 3 then Returning else Spawning(t, i + 1)
  }

  // Starting child i splits the account between the parent and the child.
  lemma SpawnPays(hit: Test, t: Upper, i: nat)
    requires t.zoom < 16 && i < 4
    ensures var (all, parent, child) :=
              (LoadOf(hit, Spawning(t, i)), LoadOf(hit, AfterSpawn(t, i)), LoadOf(hit, Testing(Child(t, i))));
            && all.debt == parent.debt + child.debt && all.held == parent.held + child.held
            && all.steps - 1 == parent.steps + child.steps
  {
    hide Emitted, Steps, Child;
    assert EmittedFrom(hit, t, 4) == multiset{} && StepsFrom(hit, t, 4) == 0;
    assert Emitted(hit, Child(t, i)) + multiset{} == Emitted(hit, Child(t, i));
  }

  lemma SpawnAdvances(hit: Test, root: multiset<Tile>, s: State, w: nat)
    requires Inv(hit, root, s) && Enabled(s, Spawn(w))
    ensures Advances(hit, root, s, Do(hit, s, Spawn(w)))
  {
    var Spawning(t, i) := s.workers[w];
    SpawnPays(hit, t, i);
    ForkAdvances(hit, root, s, Do(hit, s, Spawn(w)), w, AfterSpawn(t, i), Testing(Child(t, i)));
  }

  // Worker w becomes `parent` and starts `child`, its account split between the two.
  lemma ForkAdvances(hit: Test, root: multiset<Tile>, s: State, s': State, w: nat, parent: Worker, child: Worker)
    requires Inv(hit, root, s) && w < |s.workers| && s' == s.(workers := s.workers[w := parent] + [child])
    requires WellPlaced(parent) && WellPlaced(child)
    requires LoadOf(hit, s.workers[w]).debt == LoadOf(hit, parent).debt + LoadOf(hit, child).debt
    requires LoadOf(hit, s.workers[w]).held == LoadOf(hit, parent).held + LoadOf(hit, child).held
    requires LoadOf(hit, s.workers[w]).steps - 1 == LoadOf(hit, parent).steps + LoadOf(hit, child).steps
    ensures Advances(hit, root, s, s')
  {
    hide Total, LoadOf, WellPlaced;
    var load := Loads(hit);
    TotalExchange(load, s.workers, w, parent, load(child).debt, multiset{});
    TotalAppend(load, s.workers[w := parent], child);
    assert Tally(hit, s).debt + multiset{} == Tally(hit, s).debt;
    forall x <- s'.workers ensures WellPlaced(x) { assert x == parent || x == child || x in s.workers; }
  }

  lemma TestPays(hit: Test, t: Upper)
    ensures var (all, rest) := (LoadOf(hit, Testing(t)), LoadOf(hit, if hit(t) then Sending(t) else Returning));
            all == Load(1, rest.debt, rest.steps + 1) && rest.held == 1
  {
    hide EmittedFrom, StepsFrom;
  }

  lemma SendPays(hit: Test, t: Upper)
    ensures var (all, rest) := (LoadOf(hit, Sending(t)), LoadOf(hit, Sent(t)));
            all == Load(1, rest.debt + multiset{t}, rest.steps + 1) && rest.held == 1
  {
    hide EmittedFrom, StepsFrom;
  }

  // What a worker becomes, other than by starting a child, and what it pays for that.
  lemma WorkerPays(hit: Test, s: State, a: Action)
    requires Enabled(s, a) && !a.Spawn?
    ensures var (worker, s') := (s.workers[a.w], Do(hit, s, a));
            var (all, rest) := (LoadOf(hit, worker), LoadOf(hit, s'.workers[a.w]));
            && all.debt == rest.debt + (if a.Send? then multiset{worker.tile} else multiset{})
            && s'.counter - s.counter == rest.held - all.held && rest.steps == all.steps - 1
            && WellPlaced(s'.workers[a.w])
  {
    hide Emitted, Steps, EmittedFrom, StepsFrom, Child;
    if a.Test? {
      TestPays(hit, s.workers[a.w].tile);
    } else if a.Send? {
      SendPays(hit, s.workers[a.w].tile);
    }
  }

  lemma StepAdvances(hit: Test, root: multiset<Tile>, s: State, a: Action)
    requires Inv(hit, root, s) && Enabled(s, a)
    ensures Advances(hit, root, s, Do(hit, s, a))
  {
    hide Advances, Total, Inv, LoadOf, WellPlaced;
    if a.Spawn? {
      SpawnAdvances(hit, root, s, a.w);
    } else {
      WorkerPays(hit, s, a);
      var s' := Do(hit, s, a);
      var paid := if a.Send? then multiset{s.workers[a.w].tile} else multiset{};
      MoveAdvances(hit, root, s, s', a.w, s'.workers[a.w], paid);
    }
  }

  lemma {:induction false} RunKeepsInv(hit: Test, root: multiset<Tile>, s: State, acts: seq<Action>)
    requires Inv(hit, root, s) && CanRun(hit, s, acts)
    ensures var s' := Run(hit, s, acts); Inv(hit, root, s') && Tally(hit, s').steps == Tally(hit, s).steps - |acts|
    decreases |acts|
  {
    hide Inv, Do, Enabled, Tally;
    if acts != [] {
      StepAdvances(hit, root, s, acts[0]);
      RunKeepsInv(hit, root, Do(hit, s, acts[0]), acts[1..]);
    }
  }

  lemma StartHoldsInv(hit: Test, t: Upper)
    ensures Inv(hit, Emitted(hit, t), Start(t)) && Tally(hit, Start(t)).steps == Steps(hit, t)
  {
    hide Emitted, Steps;
    var load := Loads(hit);
    assert [Testing(t)][1..] == [];
    assert Total(load, [Testing(t)]) == load(Testing(t));
  }

  ghost predicate AllFinished(s: State) {
    forall w <- s.workers :: w.Finished?
  }

  lemma CounterIsZeroWhenIdle(hit: Test, s: State)
    requires forall w <- s.workers :: WellPlaced(w)
    ensures Tally(hit, s).held >= 0 && (Tally(hit, s).held == 0 <==> AllFinished(s))
    ensures AllFinished(s) ==> Tally(hit, s) == NOTHING
  {
    hide Total, Emitted, EmittedFrom, Steps, StepsFrom;
    var load := Loads(hit);
    TotalHeldNonNegative(load, s.workers);
    if AllFinished(s) {
      TotalOfIdle(load, s.workers);
    } else {
      var x :| x in s.workers && !x.Finished?;
      var i :| 0 <= i < |s.workers| && s.workers[i] == x;
      TotalCovers(load, s.workers, i);
    }
  }

  lemma StepsAreNonNegative(hit: Test, s: State)
    ensures Tally(hit, s).steps >= 0
  {
    hide Total, Emitted, EmittedFrom, Steps, StepsFrom;
    TotalSolvent(Loads(hit), s.workers, 0);
  }

  // Over every interleaving: what was received and what live goroutines still owe make up the
  // enumeration; the counter is zero exactly when all goroutines have ended, which is when the
  // schedule cannot be continued, after a number of steps fixed in advance - and then every tile
  // of the enumeration has been received.
  lemma EveryScheduleEnds(hit: Test, t: Upper, acts: seq<Action>)
    requires CanRun(hit, Start(t), acts)
    ensures var s := Run(hit, Start(t), acts);
            && multiset(s.received) + Tally(hit, s).debt == Emitted(hit, t)
            && |acts| <= Steps(hit, t)
            && (s.counter == 0 <==> AllFinished(s))
            && (AllFinished(s) <==> forall a :: !Enabled(s, a))
            && (AllFinished(s) <==> |acts| == Steps(hit, t))
            && (AllFinished(s) ==> multiset(s.received) == Emitted(hit, t))
  {
    hide Emitted, Steps, Total, LoadOf, Run, CanRun;
    StartHoldsInv(hit, t);
    RunKeepsInv(hit, Emitted(hit, t), Start(t), acts);
    var s := Run(hit, Start(t), acts);
    CounterIsZeroWhenIdle(hit, s);
    StepsAreNonNegative(hit, s);
    if AllFinished(s) {
      forall a ensures !Enabled(s, a) { assert a.w < |s.workers| ==> s.workers[a.w] in s.workers; }
    } else {
      var x :| x in s.workers && !x.Finished?;
      var w: nat :| w < |s.workers| && s.workers[w] == x;
      var a := match x
        case Testing(_) => Test(w) case Sending(_) => Send(w) case Sent(_) => Branch(w)
        case Spawning(_, _) => Spawn(w) case _ => Done(w);
      assert Enabled(s, a);
      StepAdvances(hit, Emitted(hit, t), s, a);
      StepsAreNonNegative(hit, Do(hit, s, a));
    }
  }

  // ---- What the enumeration is --------------------------------------------------------------

  function One(b: bool): nat {
    if b then 1 else 0
  }

  function Below(hit: Test, t: Upper, u: Tile): nat
    requires t.zoom < 16
  {
    Emitted(hit, Child(t, 0))[u] + Emitted(hit, Child(t, 1))[u]
    + Emitted(hit, Child(t, 2))[u] + Emitted(hit, Child(t, 3))[u]
  }

  lemma EmittedCount(hit: Test, t: Upper, u: Tile)
    ensures Emitted(hit, t)[u] == if !hit(t) then 0 else One(u == t) + if t.zoom == 16 then 0 else Below(hit, t, u)
  {
    hide Child;
    if hit(t) && t.zoom < 16 {
      EmittedFromCount(hit, t, u);
    }
    assert multiset{t}[u] == One(u == t);
  }

  lemma EmittedFromCount(hit: Test, t: Upper, u: Tile)
    requires t.zoom < 16
    ensures EmittedFrom(hit, t, 0)[u] == Below(hit, t, u)
  {
    hide Child, Emitted;
    assert EmittedFrom(hit, t, 4) == multiset{};
    assert EmittedFrom(hit, t, 2) == Emitted(hit, Child(t, 2)) + (Emitted(hit, Child(t, 3)) + multiset{});
    assert EmittedFrom(hit, t, 0) == Emitted(hit, Child(t, 0)) + (Emitted(hit, Child(t, 1)) + EmittedFrom(hit, t, 2));
  }

  function SubtreeBelow(t: Upper, u: Tile): nat
    requires t.zoom < 16
  {
    Subtree(Child(t, 0), 16)[u] + Subtree(Child(t, 1), 16)[u]
    + Subtree(Child(t, 2), 16)[u] + Subtree(Child(t, 3), 16)[u]
  }

  lemma CountBelow(t: Upper, u: Tile)
    ensures Subtree(t, 16)[u] == One(u == t) + if t.zoom == 16 then 0 else SubtreeBelow(t, u)
  {
    hide Subtree;
    SubtreeCount(t, 16, u);
  }

  // Nothing is sent but descendants that meet the geometry, none too often.
  lemma {:induction false} EmittedWithin(hit: Test, t: Upper, u: Tile)
    ensures Emitted(hit, t)[u] <= if hit(u) then Subtree(t, 16)[u] else 0
    decreases 16 - t.zoom
  {
    hide Emitted, Subtree, Child;
    EmittedCount(hit, t, u);
    CountBelow(t, u);
    if t.zoom < 16 {
      EmittedWithin(hit, Child(t, 0), u);
      EmittedWithin(hit, Child(t, 1), u);
      EmittedWithin(hit, Child(t, 2), u);
      EmittedWithin(hit, Child(t, 3), u);
    }
  }

  // Below t, a geometry that meets a child's box meets the parent's.
  ghost predicate Monotone(hit: Test, t: Upper) {
    forall v: Upper, i: nat :: v in Subtree(t, 16) && v.zoom < 16 && i < 4 && hit(Child(v, i)) ==> hit(v)
  }

  lemma InChild(t: Upper, i: nat, u: Tile)
    requires t.zoom < 16 && i < 4 && u in Subtree(Child(t, i), 16)
    ensures u in Subtree(t, 16)
  {
    hide Subtree, Child;
    CountBelow(t, u);
  }

  lemma MonotoneBelow(hit: Test, t: Upper, i: nat)
    requires Monotone(hit, t) && t.zoom < 16 && i < 4
    ensures Monotone(hit, Child(t, i)) && (hit(Child(t, i)) ==> hit(t))
  {
    hide Subtree, Child;
    forall v: Upper, j: nat | v in Subtree(Child(t, i), 16) && v.zoom < 16 && j < 4 && hit(Child(v, j)) ensures hit(v) {
      InChild(t, i, v);
    }
    assert t in Subtree(t, 16);
  }

  lemma {:induction false} NothingBelow(hit: Test, t: Upper, u: Tile)
    requires Monotone(hit, t) && !hit(t) && u in Subtree(t, 16)
    ensures !hit(u)
    decreases 16 - t.zoom
  {
    hide Subtree, Child, Monotone;
    CountBelow(t, u);
    if u != t {
      var i: nat :| i < 4 && u in Subtree(Child(t, i), 16);
      MonotoneBelow(hit, t, i);
      NothingBelow(hit, Child(t, i), u);
    }
  }

  lemma {:induction false} EmittedIsFiltered(hit: Test, t: Upper, u: Tile)
    requires Monotone(hit, t)
    ensures Emitted(hit, t)[u] == if hit(u) then Subtree(t, 16)[u] else 0
    decreases 16 - t.zoom
  {
    hide Emitted, Subtree, Child, Monotone;
    EmittedCount(hit, t, u);
    CountBelow(t, u);
    if !hit(t) {
      if u in Subtree(t, 16) { NothingBelow(hit, t, u); }
    } else if t.zoom < 16 {
      FilteredBelow(hit, t, u, 0);
      FilteredBelow(hit, t, u, 1);
      FilteredBelow(hit, t, u, 2);
      FilteredBelow(hit, t, u, 3);
    }
  }

  lemma {:induction false} FilteredBelow(hit: Test, t: Upper, u: Tile, i: nat)
    requires Monotone(hit, t) && t.zoom < 16 && i < 4
    ensures Emitted(hit, Child(t, i))[u] == if hit(u) then Subtree(Child(t, i), 16)[u] else 0
    decreases 16 - t.zoom, 0
  {
    MonotoneBelow(hit, t, i);
    EmittedIsFiltered(hit, Child(t, i), u);
  }

  // A tile whose parent is passed over is sent too rarely.
  lemma {:induction false} Lost(hit: Test, t: Upper, v: Upper, i: nat)
    requires v in Subtree(t, 16) && v.zoom < 16 && i < 4 && !hit(v)
    ensures Emitted(hit, t)[Child(v, i)] < Subtree(t, 16)[Child(v, i)]
    decreases 16 - t.zoom
  {
    hide Emitted, Subtree, Child;
    var w := Child(v, i);
    EmittedCount(hit, t, w);
    CountBelow(t, w);
    CountBelow(t, v);
    if v == t {
      assert w in Subtree(w, 16);
      InChild(t, i, w);
    } else {
      var j: nat :| j < 4 && v in Subtree(Child(t, j), 16);
      Lost(hit, Child(t, j), v, i);
      SumIsLess(hit, t, w, j);
    }
  }

  lemma SumIsLess(hit: Test, t: Upper, w: Tile, j: nat)
    requires t.zoom < 16 && j < 4 && Emitted(hit, Child(t, j))[w] < Subtree(Child(t, j), 16)[w]
    ensures Below(hit, t, w) < SubtreeBelow(t, w)
  {
    hide Emitted, Subtree, Child;
    EmittedWithin(hit, Child(t, 0), w);
    EmittedWithin(hit, Child(t, 1), w);
    EmittedWithin(hit, Child(t, 2), w);
    EmittedWithin(hit, Child(t, 3), w);
  }

  // Exactly the descendants down to zoom 16 that meet the geometry are sent, each as often as it
  // is a descendant, precisely for tests that are monotone below t.
  lemma FilteredIffMonotone(hit: Test, t: Upper)
    ensures (forall u: Tile :: Emitted(hit, t)[u] == if hit(u) then Subtree(t, 16)[u] else 0) <==> Monotone(hit, t)
  {
    hide Emitted, Subtree, Child;
    if Monotone(hit, t) {
      forall u: Tile ensures Emitted(hit, t)[u] == if hit(u) then Subtree(t, 16)[u] else 0 {
        EmittedIsFiltered(hit, t, u);
      }
    } else {
      var v: Upper, i: nat :| v in Subtree(t, 16) && v.zoom < 16 && i < 4 && hit(Child(v, i)) && !hit(v);
      Lost(hit, t, v, i);
    }
  }
}
