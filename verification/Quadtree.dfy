// The tile pyramid of tile/tile.go: a tile, its four children, and everything below it.

module Quadtree {
  const TWO_63: int := 0x8000_0000_0000_0000
  const TWO_64: int := 0x1_0000_0000_0000_0000

  // Go's int on a 64-bit target.
  type int64 = i: int | -TWO_63 <= i < TWO_63

  // Two's-complement wrap-around of an int64 result.
  function Wrap(n: int): (r: int64)
    ensures (n - r) % TWO_64 == 0
    ensures -TWO_63 <= n < TWO_63 ==> r == n
  {
    (n + TWO_63) % TWO_64 - TWO_63
  }

  function Pow2(k: nat): (p: nat)
    ensures p >= 1
  {
    if k == 0 then 1 else 2 * Pow2(k - 1)
  }

  datatype Tile = Tile(x: int64, y: int64, zoom: int64)

  // The four children, in the order of the array literal.
  function Children(t: Tile): (c: seq<Tile>)
    ensures |c| == 4
  {
    [ Tile(Wrap(2 * t.x), Wrap(2 * t.y), Wrap(t.zoom + 1)),
      Tile(Wrap(2 * t.x + 1), Wrap(2 * t.y), Wrap(t.zoom + 1)),
      Tile(Wrap(2 * t.x), Wrap(2 * t.y + 1), Wrap(t.zoom + 1)),
      Tile(Wrap(2 * t.x + 1), Wrap(2 * t.y + 1), Wrap(t.zoom + 1)) ]
  }

  // Levels below t that the enumeration descends.
  function Depth(t: Tile, maxZoom: int64): nat {
    if t.zoom < maxZoom then maxZoom - t.zoom else 0
  }

  // Everything the goroutine started for t sends, together with all its descendants' sends.
  function Subtree(t: Tile, maxZoom: int64): (s: multiset<Tile>)
    ensures t in s
    decreases Depth(t, maxZoom)
  {
    if t.zoom >= maxZoom then
      multiset{t}
    else
      var c := Children(t);
      multiset{t} + Subtree(c[0], maxZoom) + Subtree(c[1], maxZoom) + Subtree(c[2], maxZoom) + Subtree(c[3], maxZoom)
  }

  // Distance of a, around the ring of 2^64 values, from the first coordinate k levels below b.
  function Offset(a: int64, b: int, k: nat): nat {
    (a - b * Pow2(k)) % TWO_64
  }

  // How often a coordinate value a occurs in the row of 2^k coordinates k levels below b.
  // Up to 64 levels the row has no repetition even where it wraps around; below that every
  // int64 occurs equally often.
  function Occurrences(a: int64, b: int64, k: nat): nat {
    if k > 64 then Pow2(k - 64)
    else if Offset(a, b, k) < Pow2(k) then 1
    else 0
  }

  lemma ModShift(n: int, q: int, m: int)
    requires m > 0
    ensures (n + q * m) % m == n % m
  {
    var d := n / m;
    assert n + q * m == (d + q) * m + n % m;
    DivModUnique(n + q * m, m, d + q, n % m);
  }

  lemma DivModUnique(n: int, m: int, q: int, r: int)
    requires 0 <= r < m && n == q * m + r
    ensures n / m == q && n % m == r
  {
    var q' := n / m;
    QuotientUnique(m, q, r, q', n - q' * m);
  }

  lemma QuotientUnique(m: int, q: int, r: int, q': int, r': int)
    requires 0 <= r < m && 0 <= r' < m && q * m + r == q' * m + r'
    ensures q == q'
  {
    var d := q - q';
    assert d * m == r' - r;
    if d > 0 {
      AtLeast(d, m);
    } else if d < 0 {
      AtLeast(-d, m);
    }
  }

  lemma AtLeast(d: int, m: int)
    requires d > 0 && m > 0
    ensures d * m >= m
  {
  }

  // Wrapping a coordinate does not change the row below it.
  lemma WrapRow(a: int64, n: int, k: nat)
    ensures Offset(a, Wrap(n), k) == Offset(a, n, k)
  {
    var q := (n - Wrap(n)) / TWO_64;
    assert n == Wrap(n) + q * TWO_64;
    assert a - Wrap(n) * Pow2(k) == a - n * Pow2(k) + (q * Pow2(k)) * TWO_64;
    ModShift(a - n * Pow2(k), q * Pow2(k), TWO_64);
  }

  lemma Pow2Mono(a: nat, b: nat)
    requires a <= b
    ensures Pow2(a) <= Pow2(b)
  {
    if a < b { Pow2Mono(a, b - 1); }
  }

  lemma {:induction false} Pow2At64()
    ensures Pow2(63) == TWO_63 && Pow2(64) == TWO_64
  {
    assert Pow2(8) == 0x100;
    assert Pow2(16) == 0x1_0000;
    assert Pow2(24) == 0x100_0000;
    assert Pow2(32) == 0x1_0000_0000;
    assert Pow2(40) == 0x100_0000_0000;
    assert Pow2(48) == 0x1_0000_0000_0000;
    assert Pow2(56) == 0x100_0000_0000_0000;
  }

  lemma RingStep(n: int, h: int)
    requires 0 <= h <= TWO_64
    ensures (n - h) % TWO_64 == if n % TWO_64 < h then n % TWO_64 - h + TWO_64 else n % TWO_64 - h
  {
  }

  // The stretch of 2^k coordinates below b is the stretch below 2b followed by the one below 2b+1.
  lemma OffsetHalves(a: int64, b: int, k: nat)
    requires 0 < k <= 64
    ensures Offset(a, 2 * b, k - 1) == Offset(a, b, k)
    ensures Offset(a, 2 * b + 1, k - 1) ==
            if Offset(a, b, k) < Pow2(k - 1) then Offset(a, b, k) - Pow2(k - 1) + TWO_64
            else Offset(a, b, k) - Pow2(k - 1)
  {
    var h := Pow2(k - 1);
    Pow2Mono(k - 1, 64);
    Pow2At64();
    assert b * Pow2(k) == (2 * b) * h;
    var n := a - (2 * b) * h;
    assert a - (2 * b + 1) * h == n - h;
    RingStep(n, h);
  }

  // A row is the row of the left child followed by the row of the right child.
  lemma {:induction false} RowSplits(a: int64, b: int64, k: nat)
    requires k > 0
    ensures Occurrences(a, b, k) == Occurrences(a, Wrap(2 * b), k - 1) + Occurrences(a, Wrap(2 * b + 1), k - 1)
  {
    Pow2At64();
    if k <= 64 {
      Pow2Mono(k, 64);
      WrapRow(a, 2 * b, k - 1);
      WrapRow(a, 2 * b + 1, k - 1);
      OffsetHalves(a, b, k);
    }
  }

  lemma FourProducts(xl: nat, xr: nat, yt: nat, yb: nat)
    ensures (xl + xr) * (yt + yb) == xl * yt + xr * yt + xl * yb + xr * yb
  {
  }

  function ExpectedCount(t: Tile, depth: nat, u: Tile): nat {
    if t.zoom <= u.zoom <= t.zoom + depth
    then Occurrences(u.x, t.x, u.zoom - t.zoom) * Occurrences(u.y, t.y, u.zoom - t.zoom)
    else 0
  }

  // The enumeration below t holds every tile exactly as often as its two coordinates occur.
  lemma {:induction false} SubtreeIsExact(t: Tile, maxZoom: int64, u: Tile)
    ensures Subtree(t, maxZoom)[u] == ExpectedCount(t, Depth(t, maxZoom), u)
    decreases Depth(t, maxZoom)
  {
    hide Subtree;
    SubtreeCount(t, maxZoom, u);
    if t.zoom < maxZoom {
      var c := Children(t);
      SubtreeIsExact(c[0], maxZoom, u);
      SubtreeIsExact(c[1], maxZoom, u);
      SubtreeIsExact(c[2], maxZoom, u);
      SubtreeIsExact(c[3], maxZoom, u);
      ChildrenCounts(t, Depth(t, maxZoom), u);
    }
  }

  lemma SubtreeCount(t: Tile, maxZoom: int64, u: Tile)
    ensures var c := Children(t);
            Subtree(t, maxZoom)[u] == (if u == t then 1 else 0) +
              (if t.zoom >= maxZoom then 0
               else Subtree(c[0], maxZoom)[u] + Subtree(c[1], maxZoom)[u]
                    + Subtree(c[2], maxZoom)[u] + Subtree(c[3], maxZoom)[u])
  {
    assert multiset{t}[u] == if u == t then 1 else 0;
  }

  lemma ChildrenCounts(t: Tile, depth: nat, u: Tile)
    requires depth > 0 && t.zoom + depth < TWO_63
    ensures var c := Children(t);
            ExpectedCount(t, depth, u) == (if u == t then 1 else 0)
              + ExpectedCount(c[0], depth - 1, u) + ExpectedCount(c[1], depth - 1, u)
              + ExpectedCount(c[2], depth - 1, u) + ExpectedCount(c[3], depth - 1, u)
  {
    var c := Children(t);
    if t.zoom < u.zoom <= t.zoom + depth {
      var k := u.zoom - t.zoom;
      RowSplits(u.x, t.x, k);
      RowSplits(u.y, t.y, k);
      FourProducts(Occurrences(u.x, c[0].x, k - 1), Occurrences(u.x, c[1].x, k - 1),
                   Occurrences(u.y, c[0].y, k - 1), Occurrences(u.y, c[2].y, k - 1));
    }
  }

  // No coordinate of the deepest row leaves the int64 range.
  predicate RowFits(b: int64, d: nat) {
    -TWO_63 <= b * Pow2(d) && (b + 1) * Pow2(d) <= TWO_63
  }

  predicate Fits(t: Tile, maxZoom: int64) {
    RowFits(t.x, Depth(t, maxZoom)) && RowFits(t.y, Depth(t, maxZoom))
  }

  // u lies under t in the unbounded pyramid and is no deeper than maxZoom.
  predicate IsDescendant(t: Tile, maxZoom: int64, u: Tile) {
    && t.zoom <= u.zoom <= t.zoom + Depth(t, maxZoom)
    && u.x / Pow2(u.zoom - t.zoom) == t.x
    && u.y / Pow2(u.zoom - t.zoom) == t.y
  }

  lemma MulMono(a: int, b: int, p: int)
    requires a <= b && p >= 0
    ensures a * p <= b * p
  {
  }

  lemma DivByRow(a: int, b: int, p: int)
    requires p > 0
    ensures a / p == b <==> b * p <= a < (b + 1) * p
  {
    var q, r := a / p, a % p;
    assert a == q * p + r;
    assert (b + 1) * p == b * p + p;
    if b * p <= a < (b + 1) * p { DivModUnique(a, p, b, a - b * p); }
  }

  lemma Pow2Splits(a: nat, b: nat)
    ensures Pow2(a + b) == Pow2(a) * Pow2(b)
  {
    if a > 0 { Pow2Splits(a - 1, b); }
  }

  // Shallower rows fit when the deepest one does.
  lemma RowFitsUpwards(b: int64, k: nat, d: nat)
    requires k <= d && RowFits(b, d)
    ensures RowFits(b, k)
    decreases d
  {
    if k < d {
      var h := Pow2(d - 1);
      assert b * Pow2(d) == 2 * (b * h);
      assert (b + 1) * Pow2(d) == 2 * ((b + 1) * h);
      RowFitsUpwards(b, k, d - 1);
    }
  }

  lemma LongRowsOverflow(b: int64, k: nat)
    ensures k >= 64 ==> !RowFits(b, k)
  {
    Pow2At64();
    assert !RowFits(b, 64);
    if k >= 64 && RowFits(b, k) { RowFitsUpwards(b, 64, k); }
  }

  // In a row that fits, a coordinate occurs once or not at all, and division finds its ancestor.
  lemma FittingRow(a: int64, b: int64, k: nat)
    requires RowFits(b, k) && k < 64
    ensures Occurrences(a, b, k) == if a / Pow2(k) == b then 1 else 0
  {
    var p := Pow2(k);
    DivByRow(a, b, p);
    var n := a - b * p;
    assert (b + 1) * p == b * p + p;
    assert n % TWO_64 == if n < 0 then n + TWO_64 else n;
  }

  // The right end of a row that does not fit (or its left end, where the row begins too low) is
  // enumerated, yet division misses its ancestor.
  lemma OverflowingRow(b: int64, d: nat) returns (a: int64)
    requires d <= 64 && !RowFits(b, d)
    ensures Occurrences(a, b, d) == 1 && a / Pow2(d) != b
  {
    var p := Pow2(d);
    Pow2At64();
    Pow2Mono(d, 64);
    assert (b + 1) * p == b * p + p;
    var edge := if b * p < -TWO_63 then 0 else p - 1;
    a := Wrap(b * p + edge);
    WrapOffset(b * p, edge);
    DivByRow(a, b, p);
  }

  // n plus a small edge wraps to a value edge steps around the ring from n; if that value lies in
  // the stretch from n on, nothing was wrapped.
  lemma WrapOffset(n: int, edge: nat)
    requires edge < TWO_64
    ensures (Wrap(n + edge) - n) % TWO_64 == edge
    ensures n <= Wrap(n + edge) < n + TWO_64 ==> Wrap(n + edge) == n + edge
  {
    var a := Wrap(n + edge);
    var q := (n + edge - a) / TWO_64;
    assert a - n == edge + (-q) * TWO_64;
    ModShift(edge, -q, TWO_64);
  }

  lemma OccurrencesOfFirst(b: int64, k: nat) returns (a: int64)
    ensures Occurrences(a, b, k) >= 1
  {
    a := Wrap(b * Pow2(k));
    WrapOffset(b * Pow2(k), 0);
  }

  function ClosedForm(t: Tile, maxZoom: int64, u: Tile): nat {
    if IsDescendant(t, maxZoom, u) then 1 else 0
  }

  lemma ExpectedIsClosedForm(t: Tile, maxZoom: int64, u: Tile)
    requires Fits(t, maxZoom)
    ensures ExpectedCount(t, Depth(t, maxZoom), u) == ClosedForm(t, maxZoom, u)
  {
    var d := Depth(t, maxZoom);
    if t.zoom <= u.zoom <= t.zoom + d {
      var k := u.zoom - t.zoom;
      RowFitsUpwards(t.x, k, d);
      RowFitsUpwards(t.y, k, d);
      LongRowsOverflow(t.x, k);
      FittingRow(u.x, t.x, k);
      FittingRow(u.y, t.y, k);
    }
  }

  lemma SomeTileDeviates(t: Tile, maxZoom: int64) returns (u: Tile)
    requires !Fits(t, maxZoom)
    ensures ExpectedCount(t, Depth(t, maxZoom), u) != ClosedForm(t, maxZoom, u)
  {
    var d := Depth(t, maxZoom);
    if d > 64 {
      u := CopiesBelow64(t, maxZoom);
    } else if !RowFits(t.x, d) {
      var x := OverflowingRow(t.x, d);
      var y := OccurrencesOfFirst(t.y, d);
      u := Tile(x, y, t.zoom + d);
    } else {
      var x := OccurrencesOfFirst(t.x, d);
      var y := OverflowingRow(t.y, d);
      u := Tile(x, y, t.zoom + d);
    }
  }

  lemma CopiesBelow64(t: Tile, maxZoom: int64) returns (u: Tile)
    requires Depth(t, maxZoom) > 64
    ensures ExpectedCount(t, Depth(t, maxZoom), u) > 1
  {
    u := Tile(0, 0, t.zoom + 65);
    assert Pow2(1) == 2;
  }

  // The closed form: each descendant once, nothing else, exactly when no coordinate wraps.
  lemma {:induction false} SubtreeClosedForm(t: Tile, maxZoom: int64)
    ensures (forall u: Tile :: Subtree(t, maxZoom)[u] == ClosedForm(t, maxZoom, u)) <==> Fits(t, maxZoom)
  {
    forall u: Tile ensures Subtree(t, maxZoom)[u] == ExpectedCount(t, Depth(t, maxZoom), u) {
      SubtreeIsExact(t, maxZoom, u);
    }
    if Fits(t, maxZoom) {
      forall u: Tile { ExpectedIsClosedForm(t, maxZoom, u); }
    } else {
      var u := SomeTileDeviates(t, maxZoom);
    }
  }

  // No tile is enumerated twice, wrapping or not, exactly down to 64 levels.
  lemma {:induction false} NoDuplicates(t: Tile, maxZoom: int64)
    ensures (forall u: Tile :: Subtree(t, maxZoom)[u] <= 1) <==> Depth(t, maxZoom) <= 64
  {
    forall u: Tile ensures Subtree(t, maxZoom)[u] == ExpectedCount(t, Depth(t, maxZoom), u) {
      SubtreeIsExact(t, maxZoom, u);
    }
    if Depth(t, maxZoom) > 64 {
      var u := CopiesBelow64(t, maxZoom);
      assert Subtree(t, maxZoom)[u] > 1;
    } else {
      forall u: Tile { AtMostOneExpected(t, Depth(t, maxZoom), u); }
    }
  }

  lemma AtMostOneExpected(t: Tile, depth: nat, u: Tile)
    requires depth <= 64
    ensures ExpectedCount(t, depth, u) <= 1
  {
  }

  function TreeSize(depth: nat): nat {
    if depth == 0 then 1 else 1 + 4 * TreeSize(depth - 1)
  }

  lemma {:induction false} TreeSizeClosedForm(depth: nat)
    ensures 3 * TreeSize(depth) + 1 == Pow2(2 * (depth + 1))
  {
    if depth == 0 {
      assert Pow2(1) == 2;
    } else {
      TreeSizeClosedForm(depth - 1);
      assert Pow2(2 * depth + 1) == 2 * Pow2(2 * depth);
    }
  }

  lemma SizeStep(t: Tile, maxZoom: int64)
    requires t.zoom < maxZoom
    ensures var c := Children(t);
            |Subtree(t, maxZoom)| == 1 + |Subtree(c[0], maxZoom)| + |Subtree(c[1], maxZoom)|
                                       + |Subtree(c[2], maxZoom)| + |Subtree(c[3], maxZoom)|
  {
  }

  lemma LeafSize(t: Tile, maxZoom: int64)
    requires t.zoom >= maxZoom
    ensures |Subtree(t, maxZoom)| == 1
  {
  }

  lemma ChildDepth(t: Tile, maxZoom: int64, i: nat)
    requires t.zoom < maxZoom && i < 4
    ensures Depth(Children(t)[i], maxZoom) == Depth(t, maxZoom) - 1
  {
  }

  lemma {:induction false} SubtreeHasTreeSize(t: Tile, maxZoom: int64, size: nat)
    requires size == TreeSize(Depth(t, maxZoom))
    ensures |Subtree(t, maxZoom)| == size
    decreases Depth(t, maxZoom)
  {
    hide Subtree, Children;
    if t.zoom < maxZoom {
      SizeStep(t, maxZoom);
      var n := TreeSize(Depth(t, maxZoom) - 1);
      ChildDepth(t, maxZoom, 0);
      SubtreeHasTreeSize(Children(t)[0], maxZoom, n);
      ChildDepth(t, maxZoom, 1);
      SubtreeHasTreeSize(Children(t)[1], maxZoom, n);
      ChildDepth(t, maxZoom, 2);
      SubtreeHasTreeSize(Children(t)[2], maxZoom, n);
      ChildDepth(t, maxZoom, 3);
      SubtreeHasTreeSize(Children(t)[3], maxZoom, n);
    } else {
      LeafSize(t, maxZoom);
    }
  }

  // (4^(d+1) - 1) / 3 sends, whether or not coordinates wrap.
  lemma {:induction false} SubtreeSize(t: Tile, maxZoom: int64)
    ensures 3 * |Subtree(t, maxZoom)| + 1 == Pow2(2 * (Depth(t, maxZoom) + 1))
    ensures t.zoom <= maxZoom ==> 3 * |Subtree(t, maxZoom)| + 1 == Pow2(2 * (maxZoom - t.zoom + 1))
    ensures t.zoom >= maxZoom ==> |Subtree(t, maxZoom)| == 1
  {
    hide Subtree;
    assert Pow2(2) == 4 by { assert Pow2(1) == 2; }
    SubtreeHasTreeSize(t, maxZoom, TreeSize(Depth(t, maxZoom)));
    TreeSizeClosedForm(Depth(t, maxZoom));
  }

  // A tile of the map: 0 <= x, y < 2^zoom.
  predicate OnMap(t: Tile) {
    0 <= t.zoom && 0 <= t.x < Pow2(t.zoom) && 0 <= t.y < Pow2(t.zoom)
  }

  lemma OnMapRow(b: int64, zoom: nat, k: nat)
    requires 0 <= b < Pow2(zoom) && zoom + k <= 63
    ensures RowFits(b, k)
    ensures 0 <= b * Pow2(k) && (b + 1) * Pow2(k) <= Pow2(zoom + k)
  {
    Pow2At64();
    Pow2Splits(zoom, k);
    Pow2Mono(zoom + k, 63);
    MulMono(b + 1, Pow2(zoom), Pow2(k));
    MulMono(0, b, Pow2(k));
  }

  lemma DescendantOnMap(t: Tile, maxZoom: int64, u: Tile)
    requires OnMap(t) && t.zoom <= 63 && maxZoom <= 63 && IsDescendant(t, maxZoom, u)
    ensures OnMap(u)
  {
    var k := u.zoom - t.zoom;
    OnMapRow(t.x, t.zoom, k);
    OnMapRow(t.y, t.zoom, k);
    DivByRow(u.x, t.x, Pow2(k));
    DivByRow(u.y, t.y, Pow2(k));
  }

  // From a tile of the map down to zoom 63 nothing wraps, and every tile listed is on the map.
  lemma {:induction false} DescendantsStayOnMap(t: Tile, maxZoom: int64)
    requires OnMap(t) && t.zoom <= 63 && maxZoom <= 63
    ensures Fits(t, maxZoom)
    ensures forall u: Tile <- Subtree(t, maxZoom) :: OnMap(u)
  {
    OnMapRow(t.x, t.zoom, Depth(t, maxZoom));
    OnMapRow(t.y, t.zoom, Depth(t, maxZoom));
    SubtreeClosedForm(t, maxZoom);
    forall u: Tile | IsDescendant(t, maxZoom, u) ensures OnMap(u) { DescendantOnMap(t, maxZoom, u); }
  }

  // The enumeration on the map: the tile itself, and each tile of a deeper level down to maxZoom whose
  // coordinates divide down to its own; each once.
  lemma MapSubtree(t: Tile, maxZoom: int64, u: Tile)
    requires OnMap(t) && t.zoom <= 63 && maxZoom <= 63
    ensures Subtree(t, maxZoom)[u] ==
            if u == t then 1
            else if t.zoom < u.zoom <= maxZoom
                    && u.x / Pow2(u.zoom - t.zoom) == t.x && u.y / Pow2(u.zoom - t.zoom) == t.y then 1
            else 0
  {
    hide Subtree, Fits, Pow2;
    DescendantsStayOnMap(t, maxZoom);
    SubtreeClosedForm(t, maxZoom);
    assert Subtree(t, maxZoom)[u] == ClosedForm(t, maxZoom, u);
    NoLevel();
  }

  lemma NoLevel()
    ensures Pow2(0) == 1
  {
  }
}
