// The bounding box of a tile (tile/tile.go), over the reals: where a tile lies on the map, how its
// children share it out, and what DeepIntersect makes of the box the code passes on.

module TileBox {
  import opened Quadtree
  import opened DeepIntersect

  // A latitude for every fraction of the way down the map: atan(sinh(pi * (1 - 2f))) in degrees,
  // of which only its strict decrease is used.
  type Latitude = real -> real

  ghost predicate Decreasing(lat: Latitude) {
    forall f, g :: f < g ==> lat(g) < lat(f)
  }

  // n / 2^zoom: how far along the map the edge number n is.
  function Fraction(n: int, zoom: int): real {
    if zoom >= 0 then n as real / Pow2(zoom) as real else n as real * Pow2(-zoom) as real
  }

  function Longitude(fraction: real): real {
    fraction * 360.0 - 180.0
  }

  datatype Corner = Corner(lat: real, lon: real)

  function GetCorner(lat: Latitude, x: int, y: int, zoom: int): Corner {
    Corner(lat(Fraction(y, zoom)), Longitude(Fraction(x, zoom)))
  }

  // geos.Bounds: the point (x, y) is in when both coordinates are within the limits.
  datatype Bounds = Bounds(minX: real, minY: real, maxX: real, maxY: real)

  predicate Inside(b: Bounds, x: real, y: real) {
    b.minX <= x <= b.maxX && b.minY <= y <= b.maxY
  }

  // The four arguments as the code passes them: north-west latitude and longitude, then south-east.
  function BoundsOf(lat: Latitude, t: Tile): Bounds {
    var nw := GetCorner(lat, t.x, t.y, t.zoom);
    var se := GetCorner(lat, t.x + 1, t.y + 1, t.zoom);
    Bounds(nw.lat, nw.lon, se.lat, se.lon)
  }

  // Those four as geos.NewBounds takes them: west, south, east, north.
  function InOrder(b: Bounds): Bounds {
    Bounds(b.minY, b.maxX, b.maxY, b.minX)
  }

  // The box of the tile as it is meant, its corners in that order. The code does not build it.
  function Box(lat: Latitude, t: Tile): Bounds {
    InOrder(BoundsOf(lat, t))
  }

  // A geometry, as the set of its points.
  type Geometry = (real, real) -> bool

  ghost predicate Intersects(g: Geometry, b: Bounds) {
    exists x, y :: g(x, y) && Inside(b, x, y)
  }

  // ---- The map ------------------------------------------------------------------------------

  // The map runs from -180 degrees to 180, and down all fractions of its height.
  lemma TheMap(lat: Latitude, zoom: nat)
    ensures GetCorner(lat, 0, 0, zoom) == Corner(lat(0.0), -180.0)
    ensures GetCorner(lat, Pow2(zoom), 0, zoom) == Corner(lat(0.0), 180.0)
    ensures GetCorner(lat, 0, Pow2(zoom), zoom) == Corner(lat(1.0), -180.0)
    ensures GetCorner(lat, Pow2(zoom), Pow2(zoom), zoom) == Corner(lat(1.0), 180.0)
  {
    assert Pow2(zoom) as real / Pow2(zoom) as real == 1.0;
    assert 0 as real / Pow2(zoom) as real == 0.0;
  }

  // Which of n equal parts of the unit interval a fraction lies in.
  lemma PartOf(f: real, n: nat) returns (i: nat)
    requires 0.0 <= f <= 1.0 && n > 0
    ensures i < n && i as real / n as real <= f <= (i + 1) as real / n as real
  {
    var at := f * n as real;
    FractionOf(f, n);
    i := if f < 1.0 then at.Floor else n - 1;
    Parts(f, n, i);
  }

  lemma FractionOf(f: real, n: nat)
    requires 0.0 <= f <= 1.0 && n > 0
    ensures 0.0 <= f * n as real <= n as real && (f < 1.0 ==> f * n as real < n as real)
  {
  }

  lemma Parts(f: real, n: nat, i: nat)
    requires n > 0 && i as real <= f * n as real <= (i + 1) as real
    ensures i as real / n as real <= f <= (i + 1) as real / n as real
  {
    Scale(i as real / n as real, f, n as real);
    Scale(f, (i + 1) as real / n as real, n as real);
  }

  // At every level, every point of the map lies in the box of a tile of the map.
  lemma EveryPointHasATile(lat: Latitude, zoom: nat, lon: real, f: real) returns (t: Tile)
    requires Decreasing(lat) && zoom <= 63 && -180.0 <= lon <= 180.0 && 0.0 <= f <= 1.0
    ensures OnMap(t) && t.zoom == zoom && Inside(Box(lat, t), lon, lat(f))
  {
    Pow2Mono(zoom, 63);
    Pow2At64();
    var g := (lon + 180.0) / 360.0;
    var x := PartOf(g, Pow2(zoom));
    var y := PartOf(f, Pow2(zoom));
    t := Tile(x, y, zoom);
    assert lon == Longitude(g);
    NotIncreasing(lat, Fraction(y, zoom), f);
    NotIncreasing(lat, f, Fraction(y + 1, zoom));
  }

  lemma NotIncreasing(lat: Latitude, f: real, g: real)
    requires Decreasing(lat) && f <= g
    ensures lat(g) <= lat(f)
  {
  }

  // ---- The children share out the parent's box ----------------------------------------------

  lemma CrossMultiply(a: int, b: int, p: int, q: int)
    requires p > 0 && q > 0
    ensures a as real / p as real <= b as real / q as real <==> a * q <= b * p
  {
    var (x, y) := (a as real / p as real, b as real / q as real);
    assert a as real == x * p as real && b as real == y * q as real;
    assert (a * q) as real == x * (p as real * q as real);
    assert (b * p) as real == y * (p as real * q as real);
    Scale(x, y, p as real * q as real);
  }

  lemma Scale(x: real, y: real, m: real)
    requires m > 0.0
    ensures x <= y <==> x * m <= y * m
  {
  }

  // Edges one level down: the even ones are the parent's edges, the odd ones lie between.
  lemma FractionsBelow(n: int, zoom: nat)
    ensures Fraction(2 * n, zoom + 1) == Fraction(n, zoom)
    ensures Fraction(n, zoom) < Fraction(2 * n + 1, zoom + 1) < Fraction(n + 1, zoom)
    ensures Fraction(2 * n + 2, zoom + 1) == Fraction(n + 1, zoom)
  {
    var p := Pow2(zoom);
    CrossMultiply(2 * n, n, 2 * p, p);
    CrossMultiply(n, 2 * n, p, 2 * p);
    CrossMultiply(2 * n + 1, n, 2 * p, p);
    CrossMultiply(n + 1, 2 * n + 1, p, 2 * p);
    CrossMultiply(2 * n + 2, n + 1, 2 * p, p);
    CrossMultiply(n + 1, 2 * n + 2, p, 2 * p);
  }

  // Above zoom 16 no child coordinate of a tile of the map wraps.
  lemma ChildOnMap(t: Upper, i: nat)
    requires OnMap(t) && t.zoom < 16 && i < 4
    ensures Child(t, i).x == 2 * t.x + i % 2 && Child(t, i).y == 2 * t.y + i / 2
    ensures OnMap(Child(t, i))
  {
    Pow2Mono(t.zoom + 1, 16);
    assert Pow2(8) == 0x100;
    assert Pow2(16) == 0x1_0000;
    assert Pow2(t.zoom + 1) == 2 * Pow2(t.zoom);
  }

  // A child's box runs from an edge of the parent's to the middle line or from there to the other.
  lemma ChildBox(lat: Latitude, t: Upper, i: nat)
    requires OnMap(t) && t.zoom < 16 && i < 4
    ensures var (west, mid, east) :=
              (Fraction(t.x, t.zoom), Fraction(2 * t.x + 1, t.zoom + 1), Fraction(t.x + 1, t.zoom));
            var (north, half, south) :=
              (Fraction(t.y, t.zoom), Fraction(2 * t.y + 1, t.zoom + 1), Fraction(t.y + 1, t.zoom));
            && west < mid < east && north < half < south
            && Box(lat, t) == Bounds(Longitude(west), lat(south), Longitude(east), lat(north))
            && Box(lat, Child(t, i)) ==
               Bounds(Longitude(if i % 2 == 0 then west else mid), lat(if i / 2 == 0 then half else south),
                      Longitude(if i % 2 == 0 then mid else east), lat(if i / 2 == 0 then north else half))
  {
    ChildOnMap(t, i);
    FractionsBelow(t.x, t.zoom);
    FractionsBelow(t.y, t.zoom);
    hide Fraction, OnMap, Child;
  }

  // With the corners in the intended order: a point lies in a tile's box exactly when it lies in
  // the box of one of its children.
  lemma ChildrenShareBox(lat: Latitude, t: Upper, x: real, y: real)
    requires Decreasing(lat) && OnMap(t) && t.zoom < 16
    ensures Inside(Box(lat, t), x, y) <==> exists i: nat :: i < 4 && Inside(Box(lat, Child(t, i)), x, y)
  {
    hide Fraction, OnMap, Child, Box;
    ChildBox(lat, t, 0);
    ChildBox(lat, t, 1);
    ChildBox(lat, t, 2);
    ChildBox(lat, t, 3);
  }

  // Every point of b is in b'.
  predicate Within(b: Bounds, b': Bounds) {
    b'.minX <= b.minX && b.maxX <= b'.maxX && b'.minY <= b.minY && b.maxY <= b'.maxY
  }

  // No corner of b lies outside those of b', both as the code passes them.
  predicate CornersWithin(b: Bounds, b': Bounds) {
    Within(InOrder(b), InOrder(b'))
  }

  // The north-west and south-east corners of a child, as the code computes them, lie within those
  // of its parent.
  lemma ChildWithin(lat: Latitude, t: Upper, i: nat)
    requires Decreasing(lat) && OnMap(t) && t.zoom < 16 && i < 4
    ensures CornersWithin(BoundsOf(lat, Child(t, i)), BoundsOf(lat, t))
  {
    ChildBox(lat, t, i);
    hide Fraction, OnMap, Child, BoundsOf;
  }

  // ---- DeepIntersect on the bounds the code passes ------------------------------------------

  function OnBounds(lat: Latitude, test: Bounds -> bool): Test {
    (t: Tile) => test(BoundsOf(lat, t))
  }

  // For any test at all on those bounds: exactly the passing descendants down to zoom 16 are sent,
  // each as often as it is a descendant, precisely if no child passes whose parent does not.
  lemma AsCodedIffMonotone(lat: Latitude, test: Bounds -> bool, t: Upper)
    ensures (forall u: Tile :: Emitted(OnBounds(lat, test), t)[u] ==
                               if test(BoundsOf(lat, u)) then Subtree(t, 16)[u] else 0)
            <==> Monotone(OnBounds(lat, test), t)
  {
    hide Emitted, Subtree, BoundsOf, Monotone;
    FilteredIffMonotone(OnBounds(lat, test), t);
  }

  // A test that is passed with corners further out when it is passed with corners further in.
  ghost predicate Grows(test: Bounds -> bool) {
    forall b, b' :: CornersWithin(b, b') && test(b) ==> test(b')
  }

  lemma GrowingIsMonotone(lat: Latitude, test: Bounds -> bool, t: Upper)
    requires Decreasing(lat) && Grows(test) && OnMap(t)
    ensures Monotone(OnBounds(lat, test), t)
  {
    var hit := OnBounds(lat, test);
    DescendantsStayOnMap(t, 16);
    hide Subtree, Child, BoundsOf, OnMap, CornersWithin;
    forall v: Upper, i: nat | v in Subtree(t, 16) && v.zoom < 16 && i < 4 && hit(Child(v, i)) ensures hit(v) {
      assert OnMap(v);
      ChildWithin(lat, v, i);
    }
  }

  // From a tile of the map, for any such test on the bounds the code passes: exactly the
  // descendants down to zoom 16 that pass are sent, each once.
  lemma ExactlyThePassing(lat: Latitude, test: Bounds -> bool, t: Upper, u: Tile)
    requires Decreasing(lat) && Grows(test) && OnMap(t)
    ensures Emitted(OnBounds(lat, test), t)[u] == if IsDescendant(t, 16, u) && test(BoundsOf(lat, u)) then 1 else 0
  {
    hide Subtree, Emitted, BoundsOf, Fits;
    DescendantsStayOnMap(t, 16);
    SubtreeClosedForm(t, 16);
    GrowingIsMonotone(lat, test, t);
    EmittedIsFiltered(OnBounds(lat, test), t, u);
    assert ClosedForm(t, 16, u) == if IsDescendant(t, 16, u) then 1 else 0;
  }

  // The test as it is meant: the geometry meets the box with its corners in order.
  ghost function Intended(g: Geometry): Bounds -> bool {
    (b: Bounds) => Intersects(g, InOrder(b))
  }

  lemma IntendedGrows(g: Geometry)
    ensures Grows(Intended(g))
  {
    forall b, b' | CornersWithin(b, b') && Intersects(g, InOrder(b)) ensures Intersects(g, InOrder(b')) {
      var x, y :| g(x, y) && Inside(InOrder(b), x, y);
      assert Inside(InOrder(b'), x, y);
    }
  }

  // With it, the tiles sent would be the descendants whose box meets the geometry.
  lemma IntendedIsExact(lat: Latitude, g: Geometry, t: Upper, u: Tile)
    requires Decreasing(lat) && OnMap(t)
    ensures Emitted(OnBounds(lat, Intended(g)), t)[u] ==
            if IsDescendant(t, 16, u) && Intersects(g, Box(lat, u)) then 1 else 0
  {
    hide Emitted, BoundsOf, Grows, Intersects;
    IntendedGrows(g);
    ExactlyThePassing(lat, Intended(g), t, u);
  }

  // The test as the code makes it: the geometry meets the bounds just as they are passed.
  ghost function AsCoded(g: Geometry): Bounds -> bool {
    (b: Bounds) => Intersects(g, b)
  }

  // Those bounds have no points, so no geometry meets them and nothing at all is sent.
  lemma AsCodedNothingIsSent(lat: Latitude, g: Geometry, t: Upper)
    requires Decreasing(lat)
    ensures Emitted(OnBounds(lat, AsCoded(g)), t) == multiset{}
    ensures forall x, y :: !Inside(BoundsOf(lat, t), x, y)
  {
    FractionsGrow(t.y, t.zoom);
    assert BoundsOf(lat, t).minX > BoundsOf(lat, t).maxX;
    assert !OnBounds(lat, AsCoded(g))(t);
  }

  lemma FractionsGrow(n: int, zoom: int)
    ensures Fraction(n, zoom) < Fraction(n + 1, zoom)
  {
    if zoom >= 0 { FractionsBelow(n, zoom); }
  }

  // What is sent is what was meant exactly when the geometry does not meet the first tile's box, so
  // that there was nothing to send.
  lemma AsIntendedIff(lat: Latitude, g: Geometry, t: Upper)
    requires Decreasing(lat)
    ensures Emitted(OnBounds(lat, AsCoded(g)), t) == Emitted(OnBounds(lat, Intended(g)), t)
            <==> !Intersects(g, Box(lat, t))
  {
    hide EmittedFrom, Intersects, BoundsOf;
    AsCodedNothingIsSent(lat, g, t);
    if Intersects(g, Box(lat, t)) { assert t in Emitted(OnBounds(lat, Intended(g)), t); }
  }
}
