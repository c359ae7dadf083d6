// Bookkeeping over a sequence of goroutines: what each one accounts for, and the total.

module Accounts {
  import opened Quadtree

  // held: WaitGroup units still to be given back.
  // debt: tiles still to be dealt with.
  // steps: scheduler steps still to be taken (relative to some charge per tile of debt).
  datatype Load = Load(held: int, debt: multiset<Tile>, steps: int)

  const NOTHING := Load(0, multiset{}, 0)

  function Plus(a: Load, b: Load): Load {
    Load(a.held + b.held, a.debt + b.debt, a.steps + b.steps)
  }

  function Total<W>(load: W -> Load, ws: seq<W>): Load {
    if ws == [] then NOTHING else Plus(load(ws[0]), Total(load, ws[1..]))
  }

  lemma {:induction false} TotalUpdate<W>(load: W -> Load, ws: seq<W>, i: nat, w: W)
    requires i < |ws|
    ensures Plus(Total(load, ws[i := w]), load(ws[i])) == Plus(Total(load, ws), load(w))
  {
    if i > 0 {
      TotalUpdate(load, ws[1..], i - 1, w);
      assert ws[i := w][1..] == ws[1..][i - 1 := w];
      Rearrange(load(ws[0]), Total(load, ws[i := w][1..]), load(ws[i]), Total(load, ws[1..]), load(w));
    } else {
      assert ws[i := w][1..] == ws[1..];
    }
  }

  lemma Rearrange(a: Load, b: Load, c: Load, d: Load, e: Load)
    requires Plus(b, c) == Plus(d, e)
    ensures Plus(Plus(a, b), c) == Plus(Plus(a, d), e)
  {
    assert a.debt + b.debt + c.debt == a.debt + (b.debt + c.debt);
    assert a.debt + d.debt + e.debt == a.debt + (d.debt + e.debt);
  }

  lemma Cancel(a: multiset<Tile>, b: multiset<Tile>, c: multiset<Tile>)
    requires a + c == b + c
    ensures a == b
  {
    forall t: Tile ensures a[t] == b[t] {
      assert (a + c)[t] == (b + c)[t];
    }
  }

  // Goroutine i becomes w, giving up the tiles `paid` and taking on the tiles `got`.
  lemma TotalExchange<W>(load: W -> Load, ws: seq<W>, i: nat, w: W, paid: multiset<Tile>, got: multiset<Tile>)
    requires i < |ws| && load(ws[i]).debt + got == load(w).debt + paid
    ensures var (before, after) := (Total(load, ws), Total(load, ws[i := w]));
            && before.debt + got == after.debt + paid
            && after.held - before.held == load(w).held - load(ws[i]).held
            && after.steps - before.steps == load(w).steps - load(ws[i]).steps
  {
    TotalUpdate(load, ws, i, w);
    var (before, after) := (Total(load, ws), Total(load, ws[i := w]));
    var d := load(ws[i]).debt;
    assert (before.debt + got) + d == before.debt + (d + got);
    assert before.debt + (load(w).debt + paid) == (before.debt + load(w).debt) + paid;
    assert (after.debt + paid) + d == (after.debt + d) + paid;
    Cancel(before.debt + got, after.debt + paid, d);
  }

  lemma {:induction false} TotalAppend<W>(load: W -> Load, ws: seq<W>, w: W)
    ensures Total(load, ws + [w]) == Plus(Total(load, ws), load(w))
  {
    if ws != [] {
      TotalAppend(load, ws[1..], w);
      assert (ws + [w])[1..] == ws[1..] + [w];
    } else {
      assert ([] + [w])[1..] == [];
    }
  }

  // The total at least covers each goroutine when none of them holds a negative amount.
  lemma {:induction false} TotalCovers<W>(load: W -> Load, ws: seq<W>, i: nat)
    requires forall w <- ws :: load(w).held >= 0
    requires i < |ws|
    ensures load(ws[i]).held <= Total(load, ws).held && load(ws[i]).debt <= Total(load, ws).debt
  {
    if i > 0 {
      TotalCovers(load, ws[1..], i - 1);
    } else {
      TotalHeldNonNegative(load, ws[1..]);
    }
  }

  lemma {:induction false} TotalHeldNonNegative<W>(load: W -> Load, ws: seq<W>)
    requires forall w <- ws :: load(w).held >= 0
    ensures Total(load, ws).held >= 0
  {
    if ws != [] { TotalHeldNonNegative(load, ws[1..]); }
  }

  lemma {:induction false} TotalOfIdle<W>(load: W -> Load, ws: seq<W>)
    requires forall w <- ws :: load(w) == NOTHING
    ensures Total(load, ws) == NOTHING
  {
    if ws != [] { TotalOfIdle(load, ws[1..]); }
  }

  // Charging c steps per tile of debt, the load is not overdrawn.
  predicate Solvent(l: Load, c: nat) {
    c * |l.debt| + l.steps >= 0
  }

  lemma PlusSolvent(a: Load, b: Load, c: nat)
    requires Solvent(a, c) && Solvent(b, c)
    ensures Solvent(Plus(a, b), c)
  {
    var (m, n) := (|a.debt|, |b.debt|);
    assert |a.debt + b.debt| == m + n;
    assert c * (m + n) == c * m + c * n;
  }

  lemma {:induction false} TotalSolvent<W>(load: W -> Load, ws: seq<W>, c: nat)
    requires forall w <- ws :: Solvent(load(w), c)
    ensures Solvent(Total(load, ws), c)
  {
    if ws == [] {
      assert Solvent(NOTHING, c);
    } else {
      hide Solvent, Plus;
      TotalSolvent(load, ws[1..], c);
      PlusSolvent(load(ws[0]), Total(load, ws[1..]), c);
    }
  }
}
