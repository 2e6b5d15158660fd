/**
 * The point grid and the bounded-degree neighbour lists of the point-network
 * animation (src/components/LinesAnimation.tsx: initPoints, updateConnections,
 * getDistance).
 *
 * A point is identified by its index in the `points` array, which is how the
 * source tells points apart (`p1 !== p2` compares object identity).  The
 * neighbour lists (`closest`) are kept as one `seq<nat>` of indices per point.
 */
module PointNetwork {
  import opened Wrappers

  /** A point lists at most this many neighbours ("max 3 lines per node"). */
  const MaxNeighbours: nat := 3
  /** The viewport is cut into this many cells along each axis. */
  const GridDivisions: nat := 12

  datatype Position = Position(x: real, y: real)

  /** A node: current position, drift anchor, and the line and label opacities. */
  datatype Point = Point(pos: Position, origin: Position, active: real, labelActive: real)

  /** The two `Math.random()` draws that place a point inside its cell. */
  datatype Jitter = Jitter(dx: real, dy: real)

  /** One entry of the `distances`/`candidates` arrays: a point and its squared distance. */
  datatype Candidate = Candidate(point: nat, distance: real)

  function Min(a: int, b: int): int { if a < b then a else b }

  /** getDistance: the SQUARED Euclidean distance (no square root is taken). */
  function Distance(a: Position, b: Position): (d: real)
    ensures d >= 0.0
  {
    (a.x - b.x) * (a.x - b.x) + (a.y - b.y) * (a.y - b.y)
  }

  lemma DistanceSymmetric(a: Position, b: Position)
    ensures Distance(a, b) == Distance(b, a)
  {
    assert (a.x - b.x) * (a.x - b.x) == (b.x - a.x) * (b.x - a.x);
    assert (a.y - b.y) * (a.y - b.y) == (b.y - a.y) * (b.y - a.y);
  }

  // ---------------------------------------------------------------------------
  // The grid (initPoints, first half)
  // ---------------------------------------------------------------------------

  /** The loop variable of `for (x = 0; ...; x += g)` after c steps. */
  function CellStart(c: nat, g: real): real
  {
    if c == 0 then 0.0 else CellStart(c - 1, g) + g
  }

  /** Without rounding, c steps of g add up to c * g. */
  lemma {:induction false} CellStartProduct(c: nat, g: real)
    ensures CellStart(c, g) == (c as real) * g
  {
    if c > 0 {
      CellStartProduct(c - 1, g);
      assert ((c - 1) as real) * g + g == (c as real) * g;
    }
  }

  /** The loop `for (x = 0; x < size; x += size / 12)` runs for exactly 12 steps
      when size > 0 and for none when size == 0 (exact arithmetic). */
  lemma GridSteps(c: nat, size: real)
    requires size >= 0.0 && c <= GridDivisions
    ensures CellStart(c, size / 12.0) < size <==> c < GridDivisions && size > 0.0
  {
    var g := size / 12.0;
    CellStartProduct(c, g);
    assert size == 12.0 * g;
    if c < GridDivisions {
      assert (c as real) <= 11.0;
      assert (c as real) * g <= 11.0 * g;
    } else {
      assert (c as real) * g == 12.0 * g;
    }
  }

  /** The point lies in cell (col, row) of a grid whose cells are gx by gy. */
  predicate InCell(p: Point, col: nat, row: nat, gx: real, gy: real)
  {
    && CellStart(col, gx) <= p.pos.x < CellStart(col, gx) + gx
    && CellStart(row, gy) <= p.pos.y < CellStart(row, gy) + gy
  }

  /** A freshly placed point: at rest on its own origin, inactive. */
  predicate Fresh(p: Point)
  {
    p.origin == p.pos && p.active == 0.0 && p.labelActive == 0.0
  }

  /** A jittered coordinate `start + r * size` stays inside [start, start + size). */
  lemma JitterInside(start: real, r: real, size: real)
    requires size > 0.0 && 0.0 <= r < 1.0
    ensures start <= start + r * size < start + size
  {
    assert r * size < 1.0 * size;
  }

  /** Every point so far sits, fresh, in the cell its index names. */
  predicate Placed(pts: seq<Point>, gx: real, gy: real)
  {
    forall k :: 0 <= k < |pts| ==> InCell(pts[k], k / GridDivisions, k % GridDivisions, gx, gy) && Fresh(pts[k])
  }

  lemma PlacedAppend(pts: seq<Point>, p: Point, gx: real, gy: real)
    requires Placed(pts, gx, gy)
    requires InCell(p, |pts| / GridDivisions, |pts| % GridDivisions, gx, gy) && Fresh(p)
    ensures Placed(pts + [p], gx, gy)
  {
  }

  lemma CellIndex(col: nat, row: nat)
    requires row < GridDivisions
    ensures (col * GridDivisions + row) / GridDivisions == col
    ensures (col * GridDivisions + row) % GridDivisions == row
  {
  }

  /** initPoints, lines 124-144: one point per grid cell, column by column. */
  method BuildGrid(width: real, height: real, jitter: seq<Jitter>) returns (pts: seq<Point>)
    requires width >= 0.0 && height >= 0.0
    requires |jitter| >= GridDivisions * GridDivisions
    requires forall k :: 0 <= k < |jitter| ==> 0.0 <= jitter[k].dx < 1.0 && 0.0 <= jitter[k].dy < 1.0
    ensures |pts| == if width > 0.0 && height > 0.0 then GridDivisions * GridDivisions else 0
    ensures Placed(pts, width / 12.0, height / 12.0)
  {
    pts := [];
    var gridSizeX := width / 12.0;
    var x, col := 0.0, 0;
    GridSteps(col, width);
    while x < width
      invariant 0 <= col <= GridDivisions
      invariant x == CellStart(col, gridSizeX)
      invariant x < width <==> col < GridDivisions && width > 0.0
      invariant width == 0.0 ==> col == 0
      invariant |pts| == if height > 0.0 then col * GridDivisions else 0
      invariant Placed(pts, gridSizeX, height / 12.0)
      decreases GridDivisions - col
    {
      pts := PlaceColumn(pts, col, x, gridSizeX, height, jitter);
      x, col := x + gridSizeX, col + 1;
      GridSteps(col, width);
    }
  }

  /** The inner loop of initPoints (lines 127-143): the cells of column col. */
  method PlaceColumn(pts0: seq<Point>, col: nat, x: real, gridSizeX: real, height: real, jitter: seq<Jitter>)
    returns (pts: seq<Point>)
    requires gridSizeX > 0.0 && height >= 0.0 && col < GridDivisions && x == CellStart(col, gridSizeX)
    requires |pts0| == if height > 0.0 then col * GridDivisions else 0
    requires |jitter| >= GridDivisions * GridDivisions
    requires forall k :: 0 <= k < |jitter| ==> 0.0 <= jitter[k].dx < 1.0 && 0.0 <= jitter[k].dy < 1.0
    requires Placed(pts0, gridSizeX, height / 12.0)
    ensures |pts| == if height > 0.0 then (col + 1) * GridDivisions else 0
    ensures Placed(pts, gridSizeX, height / 12.0)
  {
    pts := pts0;
    var gridSizeY := height / 12.0;
    var y, row := 0.0, 0;
    GridSteps(row, height);
    while y < height
      invariant 0 <= row <= GridDivisions
      invariant y == CellStart(row, gridSizeY)
      invariant y < height <==> row < GridDivisions && height > 0.0
      invariant |pts| == if height > 0.0 then col * GridDivisions + row else 0
      invariant Placed(pts, gridSizeX, gridSizeY)
      decreases GridDivisions - row
    {
      var k := |pts|;
      CellIndex(col, row);
      var px := x + jitter[k].dx * gridSizeX;
      var py := y + jitter[k].dy * gridSizeY;
      JitterInside(x, jitter[k].dx, gridSizeX);
      JitterInside(y, jitter[k].dy, gridSizeY);
      PlacedAppend(pts, Point(Position(px, py), Position(px, py), 0.0, 0.0), gridSizeX, gridSizeY);
      pts := pts + [Point(Position(px, py), Position(px, py), 0.0, 0.0)];
      y, row := y + gridSizeY, row + 1;
      GridSteps(row, height);
    }
  }

  // ---------------------------------------------------------------------------
  // Candidate lists and the sort
  // ---------------------------------------------------------------------------

  function Ids(cs: seq<Candidate>): (ids: seq<nat>)
    ensures |ids| == |cs| && forall k :: 0 <= k < |cs| ==> ids[k] == cs[k].point
  {
    seq(|cs|, k requires 0 <= k < |cs| => cs[k].point)
  }

  /** Entries appear in increasing point order, as the collecting loops produce them. */
  predicate IncreasingIds(cs: seq<Candidate>)
  {
    forall a, b :: 0 <= a < b < |cs| ==> cs[a].point < cs[b].point
  }

  /** Every entry carries the true squared distance from point i. */
  predicate Measured(pts: seq<Point>, i: nat, cs: seq<Candidate>)
    requires i < |pts|
  {
    forall c :: c in cs ==> c.point < |pts| && c.distance == Distance(pts[i].pos, pts[c.point].pos)
  }

  predicate SortedByDistance(cs: seq<Candidate>)
  {
    forall a, b :: 0 <= a < b < |cs| ==> cs[a].distance <= cs[b].distance
  }

  /** The order a stable sort by distance gives to a list built in index order:
      by distance, and among equal distances by point index. */
  predicate StablySorted(cs: seq<Candidate>)
  {
    forall a, b :: 0 <= a < b < |cs| ==> Before(cs[a], cs[b])
  }

  /** x comes before y: nearer, or as near with a smaller index. */
  predicate Before(x: Candidate, y: Candidate)
  {
    x.distance < y.distance || (x.distance == y.distance && x.point < y.point)
  }

  lemma ConsStable(x: Candidate, t: seq<Candidate>)
    requires StablySorted(t) && forall k :: 0 <= k < |t| ==> Before(x, t[k])
    ensures StablySorted([x] + t)
  {
    var r := [x] + t;
    forall a, b | 0 <= a < b < |r| ensures Before(r[a], r[b]) {
      assert r[b] == t[b - 1];
      if a > 0 {
        assert r[a] == t[a - 1];
      }
    }
  }

  /** Inserts c in front of the first entry that is not nearer than c. */
  function Insert(c: Candidate, cs: seq<Candidate>): (r: seq<Candidate>)
    ensures |r| == |cs| + 1
    ensures multiset(r) == multiset(cs) + multiset{c}
  {
    if cs == [] then [c]
    else if c.distance <= cs[0].distance then [c] + cs
    else
      assert cs == [cs[0]] + cs[1..];
      [cs[0]] + Insert(c, cs[1..])
  }

  lemma InsertMembers(c: Candidate, cs: seq<Candidate>)
    ensures forall d :: d in Insert(c, cs) <==> d == c || d in cs
  {
    var r := Insert(c, cs);
    forall d ensures d in r <==> d == c || d in cs {
      assert d in r <==> d in multiset(r);
      assert d in cs <==> d in multiset(cs);
    }
  }

  lemma ConsSorted(x: Candidate, t: seq<Candidate>)
    requires SortedByDistance(t) && forall k :: 0 <= k < |t| ==> x.distance <= t[k].distance
    ensures SortedByDistance([x] + t)
  {
    var r := [x] + t;
    forall a, b | 0 <= a < b < |r| ensures r[a].distance <= r[b].distance {
      assert r[b] == t[b - 1];
      if a > 0 {
        assert r[a] == t[a - 1];
      }
    }
  }

  lemma {:induction false} InsertSorted(c: Candidate, cs: seq<Candidate>)
    requires SortedByDistance(cs)
    ensures SortedByDistance(Insert(c, cs))
  {
    if cs != [] && c.distance > cs[0].distance {
      var t := Insert(c, cs[1..]);
      assert SortedByDistance(cs[1..]) by {
        forall a, b | 0 <= a < b < |cs[1..]| ensures cs[1..][a].distance <= cs[1..][b].distance {
          assert cs[1..][a] == cs[a + 1] && cs[1..][b] == cs[b + 1];
        }
      }
      InsertSorted(c, cs[1..]);
      InsertMembers(c, cs[1..]);
      forall k | 0 <= k < |t| ensures cs[0].distance <= t[k].distance {
        assert t[k] in t;
        if t[k] != c {
          var j :| 0 <= j < |cs[1..]| && cs[1..][j] == t[k];
          assert cs[j + 1] == t[k];
        }
      }
      ConsSorted(cs[0], t);
    }
  }

  lemma {:induction false} InsertStable(c: Candidate, cs: seq<Candidate>)
    requires StablySorted(cs) && forall d :: d in cs ==> c.point < d.point
    ensures StablySorted(Insert(c, cs))
  {
    if cs == [] {
    } else if c.distance <= cs[0].distance {
      forall k | 0 <= k < |cs| ensures Before(c, cs[k]) {
        if k > 0 {
          assert Before(cs[0], cs[k]);
        }
        assert cs[k] in cs;
      }
      ConsStable(c, cs);
    } else {
      var t := Insert(c, cs[1..]);
      assert StablySorted(cs[1..]) by {
        forall a, b | 0 <= a < b < |cs[1..]| ensures Before(cs[1..][a], cs[1..][b]) {
          assert Before(cs[a + 1], cs[b + 1]);
        }
      }
      InsertStable(c, cs[1..]);
      InsertMembers(c, cs[1..]);
      forall k | 0 <= k < |t| ensures Before(cs[0], t[k]) {
        assert t[k] in t;
        if t[k] != c {
          var j :| 0 <= j < |cs[1..]| && cs[1..][j] == t[k];
          assert Before(cs[0], cs[j + 1]);
        }
      }
      ConsStable(cs[0], t);
    }
  }

  /** `Array.prototype.sort` with comparator `a.distance - b.distance`, which is
      a stable sort; modelled as insertion sort. */
  function SortByDistance(cs: seq<Candidate>): (r: seq<Candidate>)
    ensures |r| == |cs| && multiset(r) == multiset(cs)
  {
    if cs == [] then []
    else
      assert cs == [cs[0]] + cs[1..];
      Insert(cs[0], SortByDistance(cs[1..]))
  }

  /** The sort orders by distance, whatever the input order. */
  lemma {:induction false} SortSorted(cs: seq<Candidate>)
    ensures SortedByDistance(SortByDistance(cs))
  {
    if cs != [] {
      SortSorted(cs[1..]);
      InsertSorted(cs[0], SortByDistance(cs[1..]));
    }
  }

  /** The sort is stable: on a list in index order, ties keep index order. */
  lemma {:induction false} SortStable(cs: seq<Candidate>)
    requires IncreasingIds(cs)
    ensures StablySorted(SortByDistance(cs))
  {
    if cs != [] {
      var tail := SortByDistance(cs[1..]);
      assert IncreasingIds(cs[1..]);
      SortStable(cs[1..]);
      forall d | d in tail ensures cs[0].point < d.point {
        assert d in multiset(cs[1..]);
        var k :| 0 <= k < |cs[1..]| && cs[1..][k] == d;
        assert cs[k + 1] == d;
      }
      InsertStable(cs[0], tail);
    }
  }

  lemma SortedMembers(cs: seq<Candidate>)
    ensures forall c :: c in SortByDistance(cs) <==> c in cs
  {
    var r := SortByDistance(cs);
    forall c ensures c in r <==> c in cs {
      assert c in r <==> c in multiset(r);
      assert c in cs <==> c in multiset(cs);
    }
  }

  // ---------------------------------------------------------------------------
  // Initial linking (initPoints, lines 147-179)
  // ---------------------------------------------------------------------------

  /** The `distances` array of point i after the first j iterations of the
      inner loop: every other point with its squared distance, in index order. */
  function Distances(pts: seq<Point>, i: nat, j: nat): (ds: seq<Candidate>)
    requires i < |pts| && j <= |pts|
    ensures |ds| == if i < j then j - 1 else j
    ensures IncreasingIds(ds) && Measured(pts, i, ds)
    ensures forall c :: c in ds ==> c.point < j && c.point != i
    ensures forall k :: 0 <= k < j && k != i ==> Candidate(k, Distance(pts[i].pos, pts[k].pos)) in ds
  {
    if j == 0 then []
    else
      var prev := Distances(pts, i, j - 1);
      prev + (if j - 1 != i then [Candidate(j - 1, Distance(pts[i].pos, pts[j - 1].pos))] else [])
  }

  lemma DistancesStep(pts: seq<Point>, i: nat, j: nat)
    requires i < |pts| && j < |pts|
    ensures j != i ==> Distances(pts, i, j + 1) == Distances(pts, i, j) + [Candidate(j, Distance(pts[i].pos, pts[j].pos))]
    ensures j == i ==> Distances(pts, i, j + 1) == Distances(pts, i, j)
  {
  }

  /** Point i's distance list, sorted. */
  function SortedOthers(pts: seq<Point>, i: nat): seq<Candidate>
    requires i < |pts|
  {
    SortByDistance(Distances(pts, i, |pts|))
  }

  /** The list initPoints assigns at line 168: the first three sorted entries. */
  function Nearest(pts: seq<Point>, i: nat): seq<nat>
    requires i < |pts|
  {
    var s := SortedOthers(pts, i);
    Ids(s[..Min(MaxNeighbours, |s|)])
  }

  predicate NoDup(s: seq<nat>)
  {
    forall a, b :: 0 <= a < b < |s| ==> s[a] != s[b]
  }

  /** The sorted distance list of point i holds every other point exactly once,
      with its true distance, in stable distance order. */
  lemma SortedOthersFacts(pts: seq<Point>, i: nat)
    requires i < |pts|
    ensures |SortedOthers(pts, i)| == |pts| - 1
    ensures StablySorted(SortedOthers(pts, i)) && Measured(pts, i, SortedOthers(pts, i))
    ensures forall c :: c in SortedOthers(pts, i) ==> c.point != i
    ensures forall k :: 0 <= k < |pts| && k != i ==>
      Candidate(k, Distance(pts[i].pos, pts[k].pos)) in SortedOthers(pts, i)
    ensures NoDup(Ids(SortedOthers(pts, i)))
  {
    var ds := Distances(pts, i, |pts|);
    var s := SortedOthers(pts, i);
    SortedMembers(ds);
    SortStable(ds);
    var ids := Ids(s);
    forall a, b | 0 <= a < b < |ids| ensures ids[a] != ids[b] {
      assert s[a] in s && s[b] in s;
    }
  }

  /** The initial list of point i has min(3, n - 1) entries, all of them
      other existing points, none twice. */
  lemma NearestShape(pts: seq<Point>, i: nat)
    requires i < |pts|
    ensures |Nearest(pts, i)| == Min(MaxNeighbours, |pts| - 1)
    ensures forall k :: 0 <= k < |Nearest(pts, i)| ==> Nearest(pts, i)[k] < |pts| && Nearest(pts, i)[k] != i
    ensures NoDup(Nearest(pts, i))
  {
    SortedOthersFacts(pts, i);
    var s := SortedOthers(pts, i);
    var n := Nearest(pts, i);
    forall k | 0 <= k < |n| ensures n[k] < |pts| && n[k] != i {
      assert s[k] in s;
    }
    assert NoDup(Ids(s));
  }

  /** The initial list of point i holds the nearest points: every point left
      out is at least as far from i as every point listed. */
  lemma NearestClosest(pts: seq<Point>, i: nat, j: nat, e: nat)
    requires i < |pts| && j < |pts| && j != i
    requires j !in Nearest(pts, i) && e in Nearest(pts, i)
    ensures e < |pts| && Distance(pts[i].pos, pts[e].pos) <= Distance(pts[i].pos, pts[j].pos)
  {
    var s := SortedOthers(pts, i);
    var m := Min(MaxNeighbours, |s|);
    var n := Nearest(pts, i);
    var kj := SortedIndex(pts, i, j);
    IdsPrefix(s, m, kj);
    var ke :| 0 <= ke < |n| && n[ke] == e;
    assert s[..m][ke] == s[ke];
    SortedEntry(pts, i, ke, kj);
  }

  /** Where another point j stands in the sorted list of point i. */
  lemma SortedIndex(pts: seq<Point>, i: nat, j: nat) returns (k: nat)
    requires i < |pts| && j < |pts| && j != i
    ensures k < |SortedOthers(pts, i)| && SortedOthers(pts, i)[k].point == j
    ensures SortedOthers(pts, i)[k].distance == Distance(pts[i].pos, pts[j].pos)
  {
    var ds := Distances(pts, i, |pts|);
    SortedMembers(ds);
    var cj := Candidate(j, Distance(pts[i].pos, pts[j].pos));
    assert cj in SortedOthers(pts, i);
    k :| 0 <= k < |SortedOthers(pts, i)| && SortedOthers(pts, i)[k] == cj;
  }

  /** Entries of the sorted list carry true distances, in ascending order. */
  lemma SortedEntry(pts: seq<Point>, i: nat, a: nat, b: nat)
    requires i < |pts| && a <= b < |SortedOthers(pts, i)|
    ensures SortedOthers(pts, i)[a].point < |pts|
    ensures SortedOthers(pts, i)[a].distance == Distance(pts[i].pos, pts[SortedOthers(pts, i)[a].point].pos)
    ensures SortedOthers(pts, i)[a].distance <= SortedOthers(pts, i)[b].distance
  {
    var ds := Distances(pts, i, |pts|);
    SortedMembers(ds);
    SortSorted(ds);
    assert SortedOthers(pts, i)[a] in ds;
  }

  lemma IdsPrefix(s: seq<Candidate>, m: nat, k: nat)
    requires k < |s| && m <= |s|
    ensures k < m ==> s[k].point in Ids(s[..m])
  {
    if k < m {
      assert Ids(s[..m])[k] == s[k].point;
    }
  }

  /** With at most four points, every point lists all the others. */
  lemma NearestAll(pts: seq<Point>, i: nat, j: nat)
    requires i < |pts| && j < |pts| && j != i
    requires |pts| <= MaxNeighbours + 1
    ensures j in Nearest(pts, i)
  {
    SortedOthersFacts(pts, i);
    var s := SortedOthers(pts, i);
    var n := Nearest(pts, i);
    var cj := Candidate(j, Distance(pts[i].pos, pts[j].pos));
    var kj :| 0 <= kj < |s| && s[kj] == cj;
    assert n[kj] == j;
  }

  /** The list of an earlier point c is full or already names i, so the
      back-link of lines 171-178 never changes it. */
  lemma EarlierListSettled(pts: seq<Point>, c: nat, i: nat)
    requires c < |pts| && i < |pts| && c != i
    ensures |Nearest(pts, c)| == MaxNeighbours || i in Nearest(pts, c)
  {
    NearestShape(pts, c);
    if |pts| <= MaxNeighbours + 1 {
      NearestAll(pts, c, i);
    }
  }

  /** Once the lists of the points before i are their initial lists, an offer
      from i can only land on a later point. */
  lemma SettledBefore(pts: seq<Point>, adj: seq<seq<nat>>, i: nat, c: nat)
    requires |adj| == |pts| && i < |pts| && c < |pts| && c != i
    requires forall k :: 0 <= k < i ==> adj[k] == Nearest(pts, k)
    ensures c < i ==> |adj[c]| == MaxNeighbours || i in adj[c]
  {
    if c < i {
      EarlierListSettled(pts, c, i);
    }
  }

  /** SettledBefore, for every entry of i's own list. */
  lemma SettledList(pts: seq<Point>, adj: seq<seq<nat>>, i: nat, closest: seq<nat>)
    requires |adj| == |pts| && i < |pts|
    requires forall k :: 0 <= k < i ==> adj[k] == Nearest(pts, k)
    requires forall k :: 0 <= k < |closest| ==> closest[k] < |pts| && closest[k] != i
    ensures forall k :: 0 <= k < |closest| && closest[k] < i ==>
      |adj[closest[k]]| == MaxNeighbours || i in adj[closest[k]]
  {
    forall k | 0 <= k < |closest| && closest[k] < i
      ensures |adj[closest[k]]| == MaxNeighbours || i in adj[closest[k]]
    {
      SettledBefore(pts, adj, i, closest[k]);
    }
  }

  /** The inner loop of lines 152-158. */
  method CollectDistances(pts: seq<Point>, i: nat) returns (ds: seq<Candidate>)
    requires i < |pts|
    ensures ds == Distances(pts, i, |pts|)
  {
    ds := [];
    var j := 0;
    while j < |pts|
      invariant 0 <= j <= |pts|
      invariant ds == Distances(pts, i, j)
    {
      DistancesStep(pts, i, j);
      if j != i {
        ds := ds + [Candidate(j, Distance(pts[i].pos, pts[j].pos))];
      }
      j := j + 1;
    }
  }

  /** Lines 160-168: the first three entries of the sorted list. */
  method TakeNearest(sorted: seq<Candidate>) returns (closest: seq<nat>)
    ensures closest == Ids(sorted[..Min(MaxNeighbours, |sorted|)])
  {
    closest := [];
    var k := 0;
    var count := Min(MaxNeighbours, |sorted|);
    while k < count
      invariant 0 <= k <= count
      invariant closest == Ids(sorted[..k])
    {
      assert sorted[..k + 1] == sorted[..k] + [sorted[k]];
      closest := closest + [sorted[k].point];
      k := k + 1;
    }
  }

  /** initPoints, lines 147-179: every point gets the first three entries of its
      sorted distance list, and offers itself back to each of them while that
      neighbour has fewer than three entries.  Because a later point's list is
      overwritten on its own turn and an earlier point's list is already full
      (or already holds the offering point), no offer survives: the result is
      exactly Nearest for every point. */
  method LinkNearest(pts: seq<Point>) returns (adj: seq<seq<nat>>)
    ensures |adj| == |pts|
    ensures forall i :: 0 <= i < |pts| ==> adj[i] == Nearest(pts, i)
  {
    adj := seq(|pts|, _ => []);
    var i := 0;
    while i < |pts|
      invariant 0 <= i <= |pts|
      invariant |adj| == |pts|
      invariant forall c :: 0 <= c < i ==> adj[c] == Nearest(pts, c)
    {
      var distances := CollectDistances(pts, i);
      var sorted := SortByDistance(distances);
      var closest := TakeNearest(sorted);
      NearestShape(pts, i);
      adj := adj[i := closest];
      SettledList(pts, adj, i, closest);
      adj := OfferBack(adj, i, closest);
      i := i + 1;
    }
  }

  /** Lines 171-178: i offers itself to each of its neighbours, and a
      neighbour takes the offer when it has room and does not list i yet. */
  method OfferBack(adj: seq<seq<nat>>, i: nat, closest: seq<nat>) returns (r: seq<seq<nat>>)
    requires i < |adj|
    requires forall k :: 0 <= k < |closest| ==> closest[k] < |adj| && closest[k] != i
    requires forall k :: 0 <= k < |closest| && closest[k] < i ==>
      |adj[closest[k]]| == MaxNeighbours || i in adj[closest[k]]
    ensures |r| == |adj|
    ensures forall c :: 0 <= c <= i ==> r[c] == adj[c]
    ensures forall q :: 0 <= q < |adj| ==> r[q] == adj[q] || (r[q] == adj[q] + [i] && q in closest)
  {
    r := adj;
    var m := 0;
    while m < |closest|
      invariant 0 <= m <= |closest|
      invariant |r| == |adj|
      invariant forall c :: 0 <= c <= i ==> r[c] == adj[c]
      invariant forall q :: 0 <= q < |adj| ==> r[q] == adj[q] || (r[q] == adj[q] + [i] && q in closest[..m])
    {
      var closePoint := closest[m];
      if i !in r[closePoint] && |r[closePoint]| < MaxNeighbours {
        r := r[closePoint := r[closePoint] + [i]];
      }
      m := m + 1;
    }
  }

  // ---------------------------------------------------------------------------
  // Well-formed neighbour lists
  // ---------------------------------------------------------------------------

  /** List i is within the cap, names only existing points other than i, and
      names each at most once. */
  predicate ListOk(adj: seq<seq<nat>>, i: nat)
    requires i < |adj|
  {
    && |adj[i]| <= MaxNeighbours
    && (forall e :: e in adj[i] ==> e < |adj| && e != i)
    && NoDup(adj[i])
  }

  predicate WellFormed(adj: seq<seq<nat>>)
  {
    forall i :: 0 <= i < |adj| ==> ListOk(adj, i)
  }

  /** Linking p into q's list keeps the lists well formed when q has room
      and does not list p yet. */
  lemma AppendWellFormed(adj: seq<seq<nat>>, q: nat, p: nat)
    requires WellFormed(adj) && q < |adj| && p < |adj| && p != q
    requires p !in adj[q] && |adj[q]| < MaxNeighbours
    ensures WellFormed(adj[q := adj[q] + [p]])
  {
    var r := adj[q := adj[q] + [p]];
    forall i | 0 <= i < |r| ensures ListOk(r, i) {
      assert ListOk(adj, i);
    }
  }

  /** Within the connection threshold. */
  predicate Within(pts: seq<Point>, i: nat, j: nat, maxD2: real)
  {
    i < |pts| && j < |pts| && Distance(pts[i].pos, pts[j].pos) <= maxD2
  }

  lemma WithinSymmetric(pts: seq<Point>, i: nat, j: nat, maxD2: real)
    requires i < |pts| && j < |pts|
    ensures Within(pts, i, j, maxD2) == Within(pts, j, i, maxD2)
  {
    DistanceSymmetric(pts[i].pos, pts[j].pos);
  }

  /** Right after linking, every list is well formed, and with at least two
      points no list is empty. */
  lemma NearestWellFormed(pts: seq<Point>, adj: seq<seq<nat>>)
    requires |adj| == |pts|
    requires forall i :: 0 <= i < |pts| ==> adj[i] == Nearest(pts, i)
    ensures WellFormed(adj)
    ensures |pts| >= 2 ==> forall i :: 0 <= i < |adj| ==> |adj[i]| > 0
  {
    forall i | 0 <= i < |adj| ensures ListOk(adj, i) && (|pts| >= 2 ==> |adj[i]| > 0) {
      NearestShape(pts, i);
    }
  }

  // ---------------------------------------------------------------------------
  // Repair pass (initPoints, lines 182-208)
  // ---------------------------------------------------------------------------

  /** The scan of lines 185-196 over the points before j: the first one,
      other than i, at strictly smallest distance from i. */
  function ClosestUpTo(pts: seq<Point>, i: nat, j: nat): (best: Option<nat>)
    requires i < |pts| && j <= |pts|
    ensures best.None? <==> j == 0 || (j == 1 && i == 0)
    ensures best.Some? ==> best.value < j && best.value != i
    ensures best.Some? ==> forall k :: 0 <= k < j && k != i ==>
      Distance(pts[i].pos, pts[best.value].pos) <= Distance(pts[i].pos, pts[k].pos)
    ensures best.Some? ==> forall k :: 0 <= k < best.value && k != i ==>
      Distance(pts[i].pos, pts[best.value].pos) < Distance(pts[i].pos, pts[k].pos)
  {
    if j == 0 then None
    else
      var b := ClosestUpTo(pts, i, j - 1);
      if j - 1 != i && (b.None? || Distance(pts[i].pos, pts[j - 1].pos) < Distance(pts[i].pos, pts[b.value].pos))
      then Some(j - 1)
      else b
  }

  /** The closest other point of i: None exactly when i is alone. */
  function Closest(pts: seq<Point>, i: nat): Option<nat>
    requires i < |pts|
  {
    ClosestUpTo(pts, i, |pts|)
  }

  /** Lines 185-196: the first point at strictly smallest distance from i, if any. */
  method ClosestOther(pts: seq<Point>, i: nat) returns (best: Option<nat>)
    requires i < |pts|
    ensures best == Closest(pts, i)
    ensures best.None? <==> |pts| == 1
    ensures best.Some? ==> best.value < |pts| && best.value != i
    ensures best.Some? ==> forall j :: 0 <= j < |pts| && j != i ==>
      Distance(pts[i].pos, pts[best.value].pos) <= Distance(pts[i].pos, pts[j].pos)
    ensures best.Some? ==> forall j :: 0 <= j < best.value && j != i ==>
      Distance(pts[i].pos, pts[best.value].pos) < Distance(pts[i].pos, pts[j].pos)
  {
    var minDistance: Option<real> := None;  // None stands for Infinity
    best := None;
    var j := 0;
    while j < |pts|
      invariant 0 <= j <= |pts|
      invariant best == ClosestUpTo(pts, i, j)
      invariant best.None? <==> minDistance.None?
      invariant best.Some? ==> minDistance.value == Distance(pts[i].pos, pts[best.value].pos)
    {
      if j != i {
        var dist := Distance(pts[i].pos, pts[j].pos);
        if minDistance.None? || dist < minDistance.value {
          minDistance := Some(dist);
          best := Some(j);
        }
      }
      j := j + 1;
    }
  }

  /** One turn of the repair loop (lines 183-206) for point p: a list that is
      empty at p's turn gets p's closest other point, which links back when it
      does not list p yet and has room. */
  function RepairStep(pts: seq<Point>, r: seq<seq<nat>>, p: nat): seq<seq<nat>>
    requires |r| == |pts| && p < |pts|
  {
    if |r[p]| == 0 && Closest(pts, p).Some? then
      var q := Closest(pts, p).value;
      var r1 := r[p := r[p] + [q]];
      if p !in r1[q] && |r1[q]| < MaxNeighbours then r1[q := r1[q] + [p]] else r1
    else r
  }

  /** The lists after the repair loop has handled points 0 .. n - 1. */
  function RepairUpTo(pts: seq<Point>, adj: seq<seq<nat>>, n: nat): (r: seq<seq<nat>>)
    requires |adj| == |pts| && n <= |pts|
    ensures |r| == |adj|
  {
    if n == 0 then adj else RepairStep(pts, RepairUpTo(pts, adj, n - 1), n - 1)
  }

  /** What one repair turn does: a non-empty list (or a lone point) changes
      nothing; an empty list becomes exactly [closest], the closest point
      gains p exactly when it lacked p and had fewer than three entries, and
      no other list changes. Lists stay well formed and only grow. */
  lemma RepairStepFacts(pts: seq<Point>, r: seq<seq<nat>>, p: nat)
    requires |r| == |pts| && p < |pts| && WellFormed(r)
    ensures |RepairStep(pts, r, p)| == |r| && WellFormed(RepairStep(pts, r, p))
    ensures forall i :: 0 <= i < |r| ==> r[i] <= RepairStep(pts, r, p)[i]
    ensures |r[p]| > 0 || |pts| == 1 ==> RepairStep(pts, r, p) == r
    ensures |r[p]| == 0 && |pts| >= 2 ==>
      var s := RepairStep(pts, r, p);
      var q := Closest(pts, p).value;
      && q < |pts| && q != p
      && s[p] == [q]
      && s[q] == (if p !in r[q] && |r[q]| < MaxNeighbours then r[q] + [p] else r[q])
      && forall i :: 0 <= i < |r| && i != p && i != q ==> s[i] == r[i]
  {
    if |r[p]| == 0 && |pts| >= 2 {
      var q := Closest(pts, p).value;
      AppendWellFormed(r, p, q);
      var r1 := r[p := r[p] + [q]];
      if p !in r1[q] && |r1[q]| < MaxNeighbours {
        AppendWellFormed(r1, q, p);
      }
    }
  }

  /** Lines 182-208: every point whose list is empty at its turn is linked to
      its nearest other point, which links back if it has room and does not
      list it yet. */
  method RepairIsolated(pts: seq<Point>, adj: seq<seq<nat>>) returns (r: seq<seq<nat>>)
    requires |adj| == |pts| && WellFormed(adj)
    ensures r == RepairUpTo(pts, adj, |pts|)
    ensures |r| == |adj| && WellFormed(r)
    ensures forall i :: 0 <= i < |r| ==> adj[i] <= r[i]
    ensures |pts| >= 2 ==> forall i :: 0 <= i < |r| ==> |r[i]| > 0
    ensures forall i :: 0 <= i < |r| && |pts| >= 2 && RepairUpTo(pts, adj, i)[i] == [] ==>
      r[i][0] == Closest(pts, i).value
    ensures (forall i :: 0 <= i < |adj| ==> |adj[i]| > 0) ==> r == adj
  {
    r := adj;
    var p := 0;
    while p < |pts|
      invariant 0 <= p <= |pts|
      invariant r == RepairUpTo(pts, adj, p)
    {
      ghost var before := r;
      if |r[p]| == 0 {
        var closestPoint := ClosestOther(pts, p);
        if closestPoint.Some? {
          var q := closestPoint.value;
          r := r[p := r[p] + [q]];
          if p !in r[q] && |r[q]| < MaxNeighbours {
            r := r[q := r[q] + [p]];
          }
        }
      }
      assert r == RepairStep(pts, before, p);
      p := p + 1;
    }
    RepairUpToFacts(pts, adj, |pts|);
  }

  /** What the repair loop keeps after n turns: lists stay well formed and
      only grow, every point handled is linked when there are two points or
      more, a point found empty at its turn begins with its closest point,
      and nothing changes when no list was empty. */
  lemma RepairUpToFacts(pts: seq<Point>, adj: seq<seq<nat>>, n: nat)
    requires |adj| == |pts| && WellFormed(adj) && n <= |pts|
    ensures var r := RepairUpTo(pts, adj, n);
      && WellFormed(r)
      && (forall i :: 0 <= i < |r| ==> adj[i] <= r[i])
      && (|pts| >= 2 ==> forall i :: 0 <= i < n ==> |r[i]| > 0)
      && (forall i :: 0 <= i < n && |pts| >= 2 && RepairUpTo(pts, adj, i)[i] == [] ==>
            r[i][0] == Closest(pts, i).value)
      && ((forall i :: 0 <= i < |adj| ==> |adj[i]| > 0) ==> r == adj)
  {
    RepairGrows(pts, adj, n);
    RepairLinks(pts, adj, n);
    RepairFirst(pts, adj, n);
    RepairNoop(pts, adj, n);
  }

  /** The lists stay well formed and only grow. */
  lemma {:induction false} RepairGrows(pts: seq<Point>, adj: seq<seq<nat>>, n: nat)
    requires |adj| == |pts| && WellFormed(adj) && n <= |pts|
    ensures WellFormed(RepairUpTo(pts, adj, n))
    ensures forall i :: 0 <= i < |adj| ==> adj[i] <= RepairUpTo(pts, adj, n)[i]
  {
    if n > 0 {
      RepairGrows(pts, adj, n - 1);
      var before := RepairUpTo(pts, adj, n - 1);
      var r := RepairUpTo(pts, adj, n);
      RepairStepFacts(pts, before, n - 1);
      forall i | 0 <= i < |adj| ensures adj[i] <= r[i] {
        assert adj[i] <= before[i] && before[i] <= r[i];
      }
    }
  }

  /** With two points or more, every point handled has a link. */
  lemma {:induction false} RepairLinks(pts: seq<Point>, adj: seq<seq<nat>>, n: nat)
    requires |adj| == |pts| && WellFormed(adj) && n <= |pts|
    ensures |pts| >= 2 ==> forall i :: 0 <= i < n ==> |RepairUpTo(pts, adj, n)[i]| > 0
  {
    if n > 0 && |pts| >= 2 {
      RepairLinks(pts, adj, n - 1);
      RepairGrows(pts, adj, n - 1);
      var before := RepairUpTo(pts, adj, n - 1);
      var r := RepairUpTo(pts, adj, n);
      RepairStepFacts(pts, before, n - 1);
      forall i | 0 <= i < n ensures |r[i]| > 0 {
        assert before[i] <= r[i];
      }
    }
  }

  /** A point found empty at its turn begins with its closest point from
      then on: a repair turn only appends. */
  lemma {:induction false} RepairFirst(pts: seq<Point>, adj: seq<seq<nat>>, n: nat)
    requires |adj| == |pts| && WellFormed(adj) && n <= |pts|
    ensures forall i :: 0 <= i < n && |pts| >= 2 && RepairUpTo(pts, adj, i)[i] == [] ==>
      |RepairUpTo(pts, adj, n)[i]| > 0 && RepairUpTo(pts, adj, n)[i][0] == Closest(pts, i).value
  {
    if n > 0 {
      RepairFirst(pts, adj, n - 1);
      RepairGrows(pts, adj, n - 1);
      var before := RepairUpTo(pts, adj, n - 1);
      var r := RepairUpTo(pts, adj, n);
      RepairStepFacts(pts, before, n - 1);
      forall i | 0 <= i < n && |pts| >= 2 && RepairUpTo(pts, adj, i)[i] == []
        ensures |r[i]| > 0 && r[i][0] == Closest(pts, i).value
      {
        if i < n - 1 {
          assert before[i] <= r[i];
        }
      }
    }
  }

  /** When no list is empty the repair changes nothing. */
  lemma {:induction false} RepairNoop(pts: seq<Point>, adj: seq<seq<nat>>, n: nat)
    requires |adj| == |pts| && WellFormed(adj) && n <= |pts|
    ensures (forall i :: 0 <= i < |adj| ==> |adj[i]| > 0) ==> RepairUpTo(pts, adj, n) == adj
  {
    if n > 0 {
      RepairNoop(pts, adj, n - 1);
      RepairGrows(pts, adj, n - 1);
      RepairStepFacts(pts, RepairUpTo(pts, adj, n - 1), n - 1);
    }
  }

  // ---------------------------------------------------------------------------
  // Connection refresh (updateConnections)
  // ---------------------------------------------------------------------------

  /** Array.prototype.indexOf: the first index holding x, or -1. */
  function IndexOf(s: seq<nat>, x: nat): (r: int)
    ensures -1 <= r < |s|
    ensures r == -1 <==> x !in s
    ensures r >= 0 ==> s[r] == x && x !in s[..r]
  {
    if |s| == 0 then -1
    else if s[0] == x then 0
    else
      var k := IndexOf(s[1..], x);
      if k == -1 then -1
      else
        assert s[..k + 1] == [s[0]] + s[1..][..k];
        k + 1
  }

  /** `splice(indexOf(x), 1)` guarded by `index > -1`: drops the first x, if any. */
  function RemoveFirst(s: seq<nat>, x: nat): (r: seq<nat>)
    ensures x in s ==> |r| == |s| - 1
    ensures x !in s ==> r == s
    ensures forall e :: e in r ==> e in s
    ensures NoDup(s) ==> NoDup(r) && forall e :: e in r <==> e in s && e != x
  {
    var k := IndexOf(s, x);
    if k < 0 then s
    else
      var r := s[..k] + s[k + 1..];
      assert forall a :: 0 <= a < |r| ==> r[a] == if a < k then s[a] else s[a + 1];
      assert forall e :: e in r <==> exists a :: 0 <= a < |s| && a != k && s[a] == e;
      r
  }

  /** The entries of s within the threshold of p, in their original order. */
  function KeepWithin(pts: seq<Point>, p: nat, s: seq<nat>, maxD2: real): (r: seq<nat>)
    ensures forall e :: e in r <==> e in s && Within(pts, p, e, maxD2)
    ensures |r| <= |s|
    ensures NoDup(s) ==> NoDup(r)
  {
    if s == [] then []
    else
      var rest := KeepWithin(pts, p, s[1..], maxD2);
      assert forall e :: e in s[1..] ==> e in s;
      assert NoDup(s) ==> NoDup(s[1..]) by {
        if NoDup(s) {
          forall a, b | 0 <= a < b < |s[1..]| ensures s[1..][a] != s[1..][b] {
            assert s[1..][a] == s[a + 1] && s[1..][b] == s[b + 1];
          }
        }
      }
      assert s == [s[0]] + s[1..];
      (if Within(pts, p, s[0], maxD2) then [s[0]] else []) + rest
  }

  /** The lists after the prune of p: p keeps its near entries in order, and
      every other list is left as PrunedList says. */
  function PruneOf(pts: seq<Point>, adj: seq<seq<nat>>, p: nat, maxD2: real): (r: seq<seq<nat>>)
    requires p < |adj|
    ensures |r| == |adj|
  {
    seq(|adj|, q requires 0 <= q < |adj| =>
      if q == p then KeepWithin(pts, p, adj[p], maxD2) else PrunedList(pts, adj, p, adj[p], q, maxD2))
  }

  /** updateConnections, lines 216-229: drops from p's list every neighbour
      beyond the threshold, scanning from the back; each dropped neighbour also
      loses its first entry for p. */
  method Prune(pts: seq<Point>, adj: seq<seq<nat>>, p: nat, maxD2: real) returns (r: seq<seq<nat>>)
    requires |adj| == |pts| && p < |adj| && WellFormed(adj)
    ensures r == PruneOf(pts, adj, p, maxD2)
    ensures |r| == |adj|
    ensures r[p] == KeepWithin(pts, p, adj[p], maxD2)
    ensures forall q :: 0 <= q < |adj| && q != p ==> r[q] == PrunedList(pts, adj, p, adj[p], q, maxD2)
  {
    r := adj;
    var i := |adj[p]|;
    assert adj[p][..i] == adj[p] && adj[p][i..] == [];
    while i > 0
      invariant 0 <= i <= |adj[p]|
      invariant Scanned(pts, adj, p, maxD2, r, i)
    {
      i := i - 1;
      ScanAt(pts, adj, p, maxD2, r, i);
      var connectedPoint := r[p][i];
      if Distance(pts[p].pos, pts[connectedPoint].pos) <= maxD2 {
        ScanKeep(pts, adj, p, maxD2, r, i);
      } else {
        ScanDrop(pts, adj, p, maxD2, r, i);
        r := r[p := r[p][..i] + r[p][i + 1..]];
        r := r[connectedPoint := RemoveFirst(r[connectedPoint], p)];
      }
    }
    assert adj[p][..0] == [] && adj[p][0..] == adj[p];
    PruneIs(pts, adj, p, maxD2, r);
  }

  lemma PruneIs(pts: seq<Point>, adj: seq<seq<nat>>, p: nat, maxD2: real, r: seq<seq<nat>>)
    requires p < |adj| && |r| == |adj|
    requires r[p] == KeepWithin(pts, p, adj[p], maxD2)
    requires forall q :: 0 <= q < |adj| && q != p ==> r[q] == PrunedList(pts, adj, p, adj[p], q, maxD2)
    ensures r == PruneOf(pts, adj, p, maxD2)
  {
  }

  /** The state of the backward scan of p's list once indices i.. have been
      examined: the examined part is filtered, and every dropped neighbour has
      lost its entry for p. */
  predicate Scanned(pts: seq<Point>, adj: seq<seq<nat>>, p: nat, maxD2: real, r: seq<seq<nat>>, i: nat)
    requires p < |adj| && i <= |adj[p]|
  {
    && |r| == |adj|
    && OwnScanned(pts, adj, p, maxD2, r[p], i)
    && OthersScanned(pts, adj, p, maxD2, r, i)
  }

  /** p's own list during the scan: unexamined prefix, filtered rest. */
  predicate OwnScanned(pts: seq<Point>, adj: seq<seq<nat>>, p: nat, maxD2: real, own: seq<nat>, i: nat)
    requires p < |adj| && i <= |adj[p]|
  {
    own == adj[p][..i] + KeepWithin(pts, p, adj[p][i..], maxD2)
  }

  /** Every other list during the scan. */
  predicate OthersScanned(pts: seq<Point>, adj: seq<seq<nat>>, p: nat, maxD2: real, r: seq<seq<nat>>, i: nat)
    requires p < |adj| && i <= |adj[p]| && |r| == |adj|
  {
    forall q :: 0 <= q < |adj| && q != p ==> r[q] == PrunedList(pts, adj, p, adj[p][i..], q, maxD2)
  }

  /** One step of the backward scan, at index i: keeping a near neighbour
      re-establishes Scanned. */
  lemma ScanKeep(pts: seq<Point>, adj: seq<seq<nat>>, p: nat, maxD2: real, r: seq<seq<nat>>, i: nat)
    requires |adj| == |pts| && p < |adj| && WellFormed(adj) && i < |adj[p]|
    requires Scanned(pts, adj, p, maxD2, r, i + 1)
    requires Within(pts, p, adj[p][i], maxD2)
    ensures Scanned(pts, adj, p, maxD2, r, i)
  {
    ScanFacts(pts, adj, p, maxD2, i);
    KeepOwn(pts, adj, p, maxD2, r[p], i);
    KeepOthers(pts, adj, p, maxD2, r, i);
  }

  lemma SeqAssoc(a: seq<nat>, b: seq<nat>, c: seq<nat>)
    ensures (a + b) + c == a + (b + c)
  {
  }

  lemma KeepOwn(pts: seq<Point>, adj: seq<seq<nat>>, p: nat, maxD2: real, own: seq<nat>, i: nat)
    requires p < |adj| && i < |adj[p]|
    requires OwnScanned(pts, adj, p, maxD2, own, i + 1)
    requires adj[p][..i + 1] == adj[p][..i] + [adj[p][i]]
    requires KeepWithin(pts, p, adj[p][i..], maxD2) == [adj[p][i]] + KeepWithin(pts, p, adj[p][i + 1..], maxD2)
    ensures OwnScanned(pts, adj, p, maxD2, own, i)
  {
    var list := adj[p];
    var kept := KeepWithin(pts, p, list[i + 1..], maxD2);
    assert own == list[..i + 1] + kept;
    SeqAssoc(list[..i], [list[i]], kept);
  }

  lemma KeepOthers(pts: seq<Point>, adj: seq<seq<nat>>, p: nat, maxD2: real, r: seq<seq<nat>>, i: nat)
    requires p < |adj| && i < |adj[p]| && |r| == |adj| && adj[p][i] < |adj|
    requires OthersScanned(pts, adj, p, maxD2, r, i + 1)
    requires forall q :: 0 <= q < |adj| && q != p && q != adj[p][i] ==>
      PrunedList(pts, adj, p, adj[p][i..], q, maxD2) == PrunedList(pts, adj, p, adj[p][i + 1..], q, maxD2)
    requires PrunedList(pts, adj, p, adj[p][i + 1..], adj[p][i], maxD2) == adj[adj[p][i]]
    requires PrunedList(pts, adj, p, adj[p][i..], adj[p][i], maxD2) == adj[adj[p][i]]
    ensures OthersScanned(pts, adj, p, maxD2, r, i)
  {
  }

  /** One step of the backward scan, at index i: splicing out a far neighbour
      on both sides re-establishes Scanned. */
  lemma ScanDrop(pts: seq<Point>, adj: seq<seq<nat>>, p: nat, maxD2: real, r: seq<seq<nat>>, i: nat)
    requires |adj| == |pts| && p < |adj| && WellFormed(adj) && i < |adj[p]|
    requires Scanned(pts, adj, p, maxD2, r, i + 1)
    requires !Within(pts, p, adj[p][i], maxD2)
    requires i < |r[p]| && adj[p][i] < |r|
    ensures var r1 := r[p := r[p][..i] + r[p][i + 1..]];
      Scanned(pts, adj, p, maxD2, r1[adj[p][i] := RemoveFirst(r1[adj[p][i]], p)], i)
  {
    ScanFacts(pts, adj, p, maxD2, i);
    var c := adj[p][i];
    DropOwn(pts, adj, p, maxD2, r[p], i);
    var r1 := r[p := r[p][..i] + r[p][i + 1..]];
    var r2 := r1[c := RemoveFirst(r1[c], p)];
    assert r2[p] == r[p][..i] + r[p][i + 1..];
    DropOthers(pts, adj, p, maxD2, r, r2, i);
  }

  lemma DropOwn(pts: seq<Point>, adj: seq<seq<nat>>, p: nat, maxD2: real, own: seq<nat>, i: nat)
    requires p < |adj| && i < |adj[p]|
    requires OwnScanned(pts, adj, p, maxD2, own, i + 1)
    requires adj[p][..i + 1] == adj[p][..i] + [adj[p][i]]
    requires KeepWithin(pts, p, adj[p][i..], maxD2) == KeepWithin(pts, p, adj[p][i + 1..], maxD2)
    ensures i < |own| && OwnScanned(pts, adj, p, maxD2, own[..i] + own[i + 1..], i)
  {
    var list := adj[p];
    var kept := KeepWithin(pts, p, list[i + 1..], maxD2);
    assert own == list[..i] + [list[i]] + kept;
    Splice(list[..i], list[i], kept);
  }

  lemma DropOthers(pts: seq<Point>, adj: seq<seq<nat>>, p: nat, maxD2: real, r: seq<seq<nat>>, r2: seq<seq<nat>>, i: nat)
    requires p < |adj| && i < |adj[p]| && |r| == |adj| && |r2| == |adj|
    requires adj[p][i] < |adj| && adj[p][i] != p
    requires OthersScanned(pts, adj, p, maxD2, r, i + 1)
    requires forall q :: 0 <= q < |adj| && q != p && q != adj[p][i] ==> r2[q] == r[q]
    requires r2[adj[p][i]] == RemoveFirst(r[adj[p][i]], p)
    requires forall q :: 0 <= q < |adj| && q != p && q != adj[p][i] ==>
      PrunedList(pts, adj, p, adj[p][i..], q, maxD2) == PrunedList(pts, adj, p, adj[p][i + 1..], q, maxD2)
    requires PrunedList(pts, adj, p, adj[p][i + 1..], adj[p][i], maxD2) == adj[adj[p][i]]
    requires PrunedList(pts, adj, p, adj[p][i..], adj[p][i], maxD2) == RemoveFirst(adj[adj[p][i]], p)
    ensures OthersScanned(pts, adj, p, maxD2, r2, i)
  {
    var c := adj[p][i];
    assert r[c] == adj[c];
  }

  /** The entry examined at step i is an existing point other than p, and it
      is where the scan stands in p's current list. */
  lemma ScanAt(pts: seq<Point>, adj: seq<seq<nat>>, p: nat, maxD2: real, r: seq<seq<nat>>, i: nat)
    requires |adj| == |pts| && p < |adj| && WellFormed(adj) && i < |adj[p]|
    requires Scanned(pts, adj, p, maxD2, r, i + 1)
    ensures i < |r[p]| && r[p][i] == adj[p][i] && adj[p][i] < |r| && adj[p][i] != p
  {
    assert ListOk(adj, p);
    assert adj[p][i] in adj[p];
    var pre := adj[p][..i + 1];
    assert r[p] == pre + KeepWithin(pts, p, adj[p][i + 1..], maxD2);
    assert r[p][i] == pre[i];
  }

  /** What step i of the backward scan finds, in terms of the lists before it. */
  lemma ScanFacts(pts: seq<Point>, adj: seq<seq<nat>>, p: nat, maxD2: real, i: nat)
    requires |adj| == |pts| && p < |adj| && WellFormed(adj) && i < |adj[p]|
    ensures adj[p][i] < |adj| && adj[p][i] != p
    ensures adj[p][..i + 1] == adj[p][..i] + [adj[p][i]]
    ensures KeepWithin(pts, p, adj[p][i..], maxD2) ==
      (if Within(pts, p, adj[p][i], maxD2) then [adj[p][i]] else []) + KeepWithin(pts, p, adj[p][i + 1..], maxD2)
    ensures forall q :: 0 <= q < |adj| && q != p && q != adj[p][i] ==>
      PrunedList(pts, adj, p, adj[p][i..], q, maxD2) == PrunedList(pts, adj, p, adj[p][i + 1..], q, maxD2)
    ensures PrunedList(pts, adj, p, adj[p][i + 1..], adj[p][i], maxD2) == adj[adj[p][i]]
    ensures PrunedList(pts, adj, p, adj[p][i..], adj[p][i], maxD2) ==
      if Within(pts, p, adj[p][i], maxD2) then adj[adj[p][i]] else RemoveFirst(adj[adj[p][i]], p)
  {
    assert ListOk(adj, p);
    assert adj[p][i] in adj[p];
    assert adj[p][i..] == [adj[p][i]] + adj[p][i + 1..];
    ScanPruned(pts, adj, p, maxD2, adj[p], i);
  }

  /** The PrunedList part of ScanFacts, for a list without duplicates. */
  lemma ScanPruned(pts: seq<Point>, adj: seq<seq<nat>>, p: nat, maxD2: real, list: seq<nat>, i: nat)
    requires NoDup(list) && i < |list| && list[i] < |adj|
    ensures forall q :: 0 <= q < |adj| && q != list[i] ==>
      PrunedList(pts, adj, p, list[i..], q, maxD2) == PrunedList(pts, adj, p, list[i + 1..], q, maxD2)
    ensures PrunedList(pts, adj, p, list[i + 1..], list[i], maxD2) == adj[list[i]]
    ensures PrunedList(pts, adj, p, list[i..], list[i], maxD2) ==
      if Within(pts, p, list[i], maxD2) then adj[list[i]] else RemoveFirst(adj[list[i]], p)
  {
    ScanOthers(list, i);
  }

  /** The entries from index i on are the entry at i and those after it, and
      the entry at i is not among those after it. */
  lemma ScanOthers(list: seq<nat>, i: nat)
    requires NoDup(list) && i < |list|
    ensures list[i] !in list[i + 1..]
    ensures forall q :: q != list[i] ==> (q in list[i..] <==> q in list[i + 1..])
  {
    assert list[i..] == [list[i]] + list[i + 1..];
  }

  /** Removing the element at index |a| of a + [x] + b leaves a + b. */
  lemma Splice<T>(a: seq<T>, x: T, b: seq<T>)
    ensures (a + [x] + b)[|a|] == x
    ensures (a + [x] + b)[..|a|] + (a + [x] + b)[|a| + 1..] == a + b
  {
    var s := a + [x] + b;
    assert s[..|a|] == a;
    assert s[|a| + 1..] == b;
  }

  /** Where the refresh of p leaves another point q, once the entries s of p's
      list have been examined. */
  function PrunedList(pts: seq<Point>, adj: seq<seq<nat>>, p: nat, s: seq<nat>, q: nat, maxD2: real): seq<nat>
    requires q < |adj|
  {
    if q in s && !Within(pts, p, q, maxD2) then RemoveFirst(adj[q], p) else adj[q]
  }

  /** What a refresh step may do to the lists: names only existing points,
      keeps them well formed, and drops only entries beyond the threshold. */
  lemma PruneFacts(pts: seq<Point>, adj: seq<seq<nat>>, p: nat, maxD2: real, r: seq<seq<nat>>)
    requires |adj| == |pts| && p < |adj| && WellFormed(adj)
    requires |r| == |adj|
    requires r[p] == KeepWithin(pts, p, adj[p], maxD2)
    requires forall q :: 0 <= q < |adj| && q != p ==> r[q] == PrunedList(pts, adj, p, adj[p], q, maxD2)
    ensures WellFormed(r)
    ensures forall e :: e in r[p] ==> Within(pts, p, e, maxD2)
    ensures forall q, e :: 0 <= q < |r| && e in r[q] ==> e in adj[q]
    ensures forall q, e :: 0 <= q < |r| && e in adj[q] && Within(pts, q, e, maxD2) ==> e in r[q]
  {
    assert ListOk(adj, p);
    forall q | 0 <= q < |r|
      ensures ListOk(r, q)
      ensures forall e :: e in r[q] ==> e in adj[q]
      ensures forall e :: e in adj[q] && Within(pts, q, e, maxD2) ==> e in r[q]
    {
      assert ListOk(adj, q);
      if q != p && q in adj[p] && !Within(pts, p, q, maxD2) {
        forall e | e in adj[q] && Within(pts, q, e, maxD2) ensures e in r[q] {
          if e == p {
            WithinSymmetric(pts, p, q, maxD2);
          }
        }
      }
    }
  }

  /** The `candidates` array of point p after the first j iterations of the
      loop of lines 234-243. */
  function InReach(pts: seq<Point>, linked: seq<nat>, p: nat, maxD2: real, j: nat): seq<Candidate>
    requires p < |pts| && j <= |pts|
  {
    if j == 0 then []
    else
      var prev := InReach(pts, linked, p, maxD2, j - 1);
      var o := j - 1;
      prev + (if o != p && o !in linked && Distance(pts[p].pos, pts[o].pos) <= maxD2
              then [Candidate(o, Distance(pts[p].pos, pts[o].pos))] else [])
  }

  /** The candidates among the first j points are exactly the points other
      than p that p does not list and that lie within the threshold, each with
      its squared distance, in index order. */
  lemma InReachFacts(pts: seq<Point>, linked: seq<nat>, p: nat, maxD2: real, j: nat)
    requires p < |pts| && j <= |pts|
    ensures IncreasingIds(InReach(pts, linked, p, maxD2, j)) && Measured(pts, p, InReach(pts, linked, p, maxD2, j))
    ensures forall c :: c in InReach(pts, linked, p, maxD2, j) ==>
      c.point < j && c.point != p && c.point !in linked && Within(pts, p, c.point, maxD2)
    ensures forall o :: 0 <= o < j && o != p && o !in linked && Within(pts, p, o, maxD2) ==>
      Candidate(o, Distance(pts[p].pos, pts[o].pos)) in InReach(pts, linked, p, maxD2, j)
  {
    InReachSound(pts, linked, p, maxD2, j);
    InReachComplete(pts, linked, p, maxD2, j);
  }

  lemma {:induction false} InReachSound(pts: seq<Point>, linked: seq<nat>, p: nat, maxD2: real, j: nat)
    requires p < |pts| && j <= |pts|
    ensures IncreasingIds(InReach(pts, linked, p, maxD2, j)) && Measured(pts, p, InReach(pts, linked, p, maxD2, j))
    ensures forall c :: c in InReach(pts, linked, p, maxD2, j) ==>
      c.point < j && c.point != p && c.point !in linked && Within(pts, p, c.point, maxD2)
  {
    if j > 0 {
      InReachSound(pts, linked, p, maxD2, j - 1);
    }
  }

  lemma {:induction false} InReachComplete(pts: seq<Point>, linked: seq<nat>, p: nat, maxD2: real, j: nat)
    requires p < |pts| && j <= |pts|
    ensures forall o :: 0 <= o < j && o != p && o !in linked && Within(pts, p, o, maxD2) ==>
      Candidate(o, Distance(pts[p].pos, pts[o].pos)) in InReach(pts, linked, p, maxD2, j)
  {
    if j > 0 {
      InReachComplete(pts, linked, p, maxD2, j - 1);
    }
  }

  /** updateConnections, lines 234-243. */
  method CollectCandidates(pts: seq<Point>, linked: seq<nat>, p: nat, maxD2: real) returns (cs: seq<Candidate>)
    requires p < |pts|
    ensures cs == InReach(pts, linked, p, maxD2, |pts|)
    ensures IncreasingIds(cs) && Measured(pts, p, cs)
    ensures forall c :: c in cs ==> c.point != p && c.point !in linked && Within(pts, p, c.point, maxD2)
    ensures forall o :: 0 <= o < |pts| && o != p && o !in linked && Within(pts, p, o, maxD2) ==>
      Candidate(o, Distance(pts[p].pos, pts[o].pos)) in cs
  {
    cs := [];
    var j := 0;
    while j < |pts|
      invariant 0 <= j <= |pts|
      invariant cs == InReach(pts, linked, p, maxD2, j)
    {
      if j != p && j !in linked {
        var distSquared := Distance(pts[p].pos, pts[j].pos);
        if distSquared <= maxD2 {
          cs := cs + [Candidate(j, distSquared)];
        }
      }
      j := j + 1;
    }
    InReachFacts(pts, linked, p, maxD2, |pts|);
  }

  /** What linking may have done to the lists, relative to adj, when p is the
      point being refreshed: the lists are well formed, only grew, any other
      list gained at most p, and every new entry is within the threshold. */
  predicate Grown(pts: seq<Point>, adj: seq<seq<nat>>, p: nat, maxD2: real, r: seq<seq<nat>>)
  {
    && |r| == |adj| && WellFormed(r)
    && (forall q :: 0 <= q < |r| ==> adj[q] <= r[q])
    && (forall q :: 0 <= q < |r| && q != p ==> r[q] == adj[q] || r[q] == adj[q] + [p])
    && (forall q, e :: 0 <= q < |r| && e in r[q] && e !in adj[q] ==> Within(pts, q, e, maxD2))
  }

  /** Linking p and c (lines 250-258) keeps Grown. */
  lemma LinkStep(pts: seq<Point>, adj: seq<seq<nat>>, p: nat, maxD2: real, r: seq<seq<nat>>, c: nat)
    requires |adj| == |pts| && p < |adj| && c < |adj| && c != p
    requires Grown(pts, adj, p, maxD2, r)
    requires Within(pts, p, c, maxD2) && c !in r[p] && |r[p]| < MaxNeighbours && |r[c]| < MaxNeighbours
    ensures var r1 := r[p := r[p] + [c]];
      if p !in r1[c] then Grown(pts, adj, p, maxD2, r1[c := r1[c] + [p]]) else Grown(pts, adj, p, maxD2, r1)
  {
    AppendWellFormed(r, p, c);
    var r1 := r[p := r[p] + [c]];
    if p !in r1[c] {
      AppendWellFormed(r1, c, p);
      WithinSymmetric(pts, p, c, maxD2);
      assert r[c] == adj[c];
    }
  }

  /** The lists after the relink of p, lines 232-261: when p has room, the
      loop over its candidates sorted by distance; otherwise nothing changes. */
  function RelinkOf(pts: seq<Point>, adj: seq<seq<nat>>, p: nat, maxD2: real): (r: seq<seq<nat>>)
    requires |adj| == |pts| && p < |adj|
    ensures |r| == |adj|
  {
    if |adj[p]| < MaxNeighbours then
      RelinkDistinct(pts, adj, p, maxD2);
      LinkedFrom(p, Ids(SortByDistance(InReach(pts, adj[p], p, maxD2, |pts|))), 0, adj)
    else adj
  }

  /** updateConnections, lines 232-261: while p has room, link it to the
      nearest candidates within the threshold that have room themselves; each
      new neighbour links back unless it already lists p. */
  method Relink(pts: seq<Point>, adj: seq<seq<nat>>, p: nat, maxD2: real) returns (r: seq<seq<nat>>)
    requires |adj| == |pts| && p < |adj| && WellFormed(adj)
    ensures r == RelinkOf(pts, adj, p, maxD2)
    ensures Grown(pts, adj, p, maxD2, r)
    // a full p takes nothing; a point is taken only when its own list has room
    ensures |adj[p]| == MaxNeighbours ==> r == adj
    ensures forall c :: c in r[p] && c !in adj[p] ==> HasRoom(adj, c)
    // another list gains p exactly when p took that point and it did not list p
    ensures forall q :: 0 <= q < |r| && q != p ==>
      (r[q] == adj[q] + [p] <==> q in r[p] && q !in adj[p] && p !in adj[q])
    // greedy and maximal: p is full, or every point in reach is linked or full
    ensures |r[p]| == MaxNeighbours || forall c :: 0 <= c < |pts| && c != p && Within(pts, p, c, maxD2) ==>
      c in r[p] || |r[c]| == MaxNeighbours
    ensures NearestFirstLinks(pts, adj, p, maxD2, r)
  {
    r := adj;
    if |r[p]| < MaxNeighbours {
      var candidates := CollectCandidates(pts, r[p], p, maxD2);
      RelinkDistinct(pts, adj, p, maxD2);
      r := LinkGreedily(pts, adj, p, maxD2, Ids(SortByDistance(candidates)));
    }
    RelinkFacts(pts, adj, p, maxD2, r);
  }

  /** What the relink of p promises, stated on RelinkOf. */
  lemma RelinkFacts(pts: seq<Point>, adj: seq<seq<nat>>, p: nat, maxD2: real, r: seq<seq<nat>>)
    requires |adj| == |pts| && p < |adj| && WellFormed(adj) && r == RelinkOf(pts, adj, p, maxD2)
    ensures Grown(pts, adj, p, maxD2, r)
    ensures |adj[p]| == MaxNeighbours ==> r == adj
    ensures forall c :: c in r[p] && c !in adj[p] ==> HasRoom(adj, c)
    ensures forall q :: 0 <= q < |r| && q != p ==>
      (r[q] == adj[q] + [p] <==> q in r[p] && q !in adj[p] && p !in adj[q])
    ensures |r[p]| == MaxNeighbours || forall c :: 0 <= c < |pts| && c != p && Within(pts, p, c, maxD2) ==>
      c in r[p] || |r[c]| == MaxNeighbours
    ensures NearestFirstLinks(pts, adj, p, maxD2, r)
  {
    assert ListOk(adj, p);
    if |adj[p]| < MaxNeighbours {
      var order := Ids(SortByDistance(InReach(pts, adj[p], p, maxD2, |pts|)));
      RelinkDistinct(pts, adj, p, maxD2);
      RelinkWalk(pts, adj, p, maxD2, order);
      RelinkOrdered(pts, adj, p, maxD2, order, r);
      LinkedRules(adj, p, Greedy(adj, order, MaxNeighbours - |adj[p]|), r);
    } else {
      forall q | 0 <= q < |r| && q != p ensures r[q] != adj[q] + [p] {
        assert |r[q]| != |adj[q] + [p]|;
      }
    }
  }

  /** The sorted candidates are distinct points that p can take. */
  lemma RelinkDistinct(pts: seq<Point>, adj: seq<seq<nat>>, p: nat, maxD2: real)
    requires |adj| == |pts| && p < |adj|
    ensures var order := Ids(SortByDistance(InReach(pts, adj[p], p, maxD2, |pts|)));
      && NoDup(order)
      && forall k :: 0 <= k < |order| ==>
           order[k] < |pts| && order[k] != p && order[k] !in adj[p] && Within(pts, p, order[k], maxD2)
  {
    var candidates := InReach(pts, adj[p], p, maxD2, |pts|);
    InReachFacts(pts, adj[p], p, maxD2, |pts|);
    var sorted := SortByDistance(candidates);
    SortedMembers(candidates);
    SortStable(candidates);
    forall a, b | 0 <= a < b < |sorted| ensures sorted[a].point != sorted[b].point {
      assert sorted[a] in candidates && sorted[b] in candidates;
    }
    forall k | 0 <= k < |sorted| ensures sorted[k] in candidates {
    }
  }

  /** The loop over an order of candidates, from the start: the lists grow as
      Relink allows, p gains the greedy pick, and every candidate is linked
      to p or full unless p fills up. */
  lemma RelinkWalk(pts: seq<Point>, adj: seq<seq<nat>>, p: nat, maxD2: real, order: seq<nat>)
    requires |adj| == |pts| && p < |adj| && WellFormed(adj) && NoDup(order)
    requires forall k :: 0 <= k < |order| ==>
      order[k] < |pts| && order[k] != p && order[k] !in adj[p] && Within(pts, p, order[k], maxD2)
    ensures |adj[p]| <= MaxNeighbours
    ensures Grown(pts, adj, p, maxD2, LinkedFrom(p, order, 0, adj))
    ensures Linked(adj, p, Greedy(adj, order, MaxNeighbours - |adj[p]|), LinkedFrom(p, order, 0, adj))
    ensures forall c :: c in Greedy(adj, order, MaxNeighbours - |adj[p]|) ==> HasRoom(adj, c) && c !in adj[p]
    ensures |LinkedFrom(p, order, 0, adj)[p]| == MaxNeighbours || forall k :: 0 <= k < |order| ==>
      order[k] in LinkedFrom(p, order, 0, adj)[p] || |LinkedFrom(p, order, 0, adj)[order[k]]| == MaxNeighbours
  {
    WalkStart(pts, adj, p, maxD2, order);
    WalkResult(pts, adj, p, maxD2, order, 0, [], MaxNeighbours - |adj[p]|, adj);
    forall c | c in Greedy(adj, order, MaxNeighbours - |adj[p]|) ensures c !in adj[p] {
      var k :| 0 <= k < |order| && order[k] == c;
    }
  }

  /** The order of Relink when p has room: nearest first, and covering every
      point p can take, so the greedy loop over it is nearest first and
      maximal. */
  lemma RelinkOrdered(pts: seq<Point>, adj: seq<seq<nat>>, p: nat, maxD2: real, order: seq<nat>, r: seq<seq<nat>>)
    requires |adj| == |pts| && p < |adj| && |adj[p]| < MaxNeighbours
    requires order == Ids(SortByDistance(InReach(pts, adj[p], p, maxD2, |pts|)))
    requires |r| == |adj| && r[p] == adj[p] + Greedy(adj, order, MaxNeighbours - |adj[p]|)
    requires forall k :: 0 <= k < |order| ==> order[k] < |r|
    requires |r[p]| == MaxNeighbours || forall k :: 0 <= k < |order| ==> order[k] in r[p] || |r[order[k]]| == MaxNeighbours
    ensures |r[p]| == MaxNeighbours || forall c :: 0 <= c < |pts| && c != p && Within(pts, p, c, maxD2) ==>
      c in r[p] || |r[c]| == MaxNeighbours
    ensures NearestFirstLinks(pts, adj, p, maxD2, r)
  {
    var candidates := InReach(pts, adj[p], p, maxD2, |pts|);
    InReachFacts(pts, adj[p], p, maxD2, |pts|);
    SortedNearerFirst(pts, p, candidates);
    SortedCovers(pts, adj, p, maxD2, candidates);
    RelinkNearestFirst(pts, adj, p, maxD2, order, r);
    RelinkMaximal(pts, adj, p, maxD2, order, r);
  }

  /** The rules of Linked, stated on the lists: an added entry of p had room,
      and another list gained p exactly when p took it and it did not list p. */
  lemma LinkedRules(adj: seq<seq<nat>>, p: nat, picked: seq<nat>, r: seq<seq<nat>>)
    requires p < |adj| && Linked(adj, p, picked, r)
    requires forall c :: c in picked ==> HasRoom(adj, c) && c !in adj[p]
    ensures forall c :: c in r[p] && c !in adj[p] ==> HasRoom(adj, c)
    ensures forall q :: 0 <= q < |r| && q != p ==>
      (r[q] == adj[q] + [p] <==> q in r[p] && q !in adj[p] && p !in adj[q])
  {
    forall q | 0 <= q < |r| && q != p
      ensures r[q] == adj[q] + [p] <==> q in r[p] && q !in adj[p] && p !in adj[q]
    {
      assert q in r[p] && q !in adj[p] <==> q in picked;
      assert adj[q] != adj[q] + [p];
    }
  }

  /** The maximal part of Relink: when p does not fill up, every point in
      reach is linked to it or full. */
  lemma RelinkMaximal(pts: seq<Point>, adj: seq<seq<nat>>, p: nat, maxD2: real, order: seq<nat>, r: seq<seq<nat>>)
    requires |adj| == |pts| && |r| == |adj| && p < |adj| && adj[p] <= r[p]
    requires Covers(pts, adj, p, maxD2, order) && forall k :: 0 <= k < |order| ==> order[k] < |r|
    requires |r[p]| == MaxNeighbours || forall k :: 0 <= k < |order| ==>
      order[k] in r[p] || |r[order[k]]| == MaxNeighbours
    ensures |r[p]| == MaxNeighbours || forall c :: 0 <= c < |pts| && c != p && Within(pts, p, c, maxD2) ==>
      c in r[p] || |r[c]| == MaxNeighbours
  {
    if |r[p]| != MaxNeighbours {
      forall c | 0 <= c < |pts| && c != p && Within(pts, p, c, maxD2)
        ensures c in r[p] || |r[c]| == MaxNeighbours
      {
        if c !in adj[p] {
          var k :| 0 <= k < |order| && order[k] == c;
        }
      }
    }
  }

  /** Nearest first: no point within reach of p that had room and that p
      passed over is nearer to p than one of p's new neighbours. */
  predicate NearestFirstLinks(pts: seq<Point>, adj: seq<seq<nat>>, p: nat, maxD2: real, r: seq<seq<nat>>)
    requires p < |adj| && p < |r|
  {
    forall e: nat, c: nat ::
      (e in r[p] && e !in adj[p] && c < |pts| && c != p && c !in r[p] && Within(pts, p, c, maxD2) && HasRoom(adj, c))
      ==> DistTo(pts, p, e) <= DistTo(pts, p, c)
  }

  /** Every point p could take, one within reach that it does not list, is in order. */
  predicate Covers(pts: seq<Point>, adj: seq<seq<nat>>, p: nat, maxD2: real, order: seq<nat>)
    requires p < |adj|
  {
    forall o: nat :: o < |pts| && o != p && o !in adj[p] && Within(pts, p, o, maxD2) ==> o in order
  }

  /** The nearest-first part of Relink, from the greedy filter over an order
      sorted by distance that covers every point p could take. */
  lemma RelinkNearestFirst(pts: seq<Point>, adj: seq<seq<nat>>, p: nat, maxD2: real, order: seq<nat>, r: seq<seq<nat>>)
    requires p < |adj| && p < |r| && |adj[p]| <= MaxNeighbours
    requires NearerFirst(pts, p, order) && Covers(pts, adj, p, maxD2, order)
    requires r[p] == adj[p] + Greedy(adj, order, MaxNeighbours - |adj[p]|)
    ensures NearestFirstLinks(pts, adj, p, maxD2, r)
  {
    var g := Greedy(adj, order, MaxNeighbours - |adj[p]|);
    forall e: nat, c: nat | e in r[p] && e !in adj[p] && c < |pts| && c != p && c !in r[p] &&
                            Within(pts, p, c, maxD2) && HasRoom(adj, c)
      ensures DistTo(pts, p, e) <= DistTo(pts, p, c)
    {
      assert e in g && c !in g && c in order;
      GreedyNearestFirst(pts, p, adj, order, MaxNeighbours - |adj[p]|, e, c);
    }
  }

  /** The sorted ids of the candidates cover every point p could take when
      the candidates do. */
  lemma SortedCovers(pts: seq<Point>, adj: seq<seq<nat>>, p: nat, maxD2: real, candidates: seq<Candidate>)
    requires |adj| == |pts| && p < |adj|
    requires forall o :: 0 <= o < |pts| && o != p && o !in adj[p] && Within(pts, p, o, maxD2) ==>
      Candidate(o, Distance(pts[p].pos, pts[o].pos)) in candidates
    ensures Covers(pts, adj, p, maxD2, Ids(SortByDistance(candidates)))
  {
    forall o: nat | o < |pts| && o != p && o !in adj[p] && Within(pts, p, o, maxD2)
      ensures o in Ids(SortByDistance(candidates))
    {
      InSorted(pts, p, candidates, o);
    }
  }

  /** The ids of the sorted candidates are in order of distance from p. */
  lemma SortedNearerFirst(pts: seq<Point>, p: nat, candidates: seq<Candidate>)
    requires p < |pts| && Measured(pts, p, candidates)
    ensures NearerFirst(pts, p, Ids(SortByDistance(candidates)))
  {
    var sorted := SortByDistance(candidates);
    var order := Ids(sorted);
    SortedMembers(candidates);
    SortSorted(candidates);
    forall a, b | 0 <= a < b < |order| ensures DistTo(pts, p, order[a]) <= DistTo(pts, p, order[b]) {
      assert sorted[a] in candidates && sorted[b] in candidates;
    }
  }

  /** A point whose entry is among the candidates is among the sorted ids. */
  lemma InSorted(pts: seq<Point>, p: nat, candidates: seq<Candidate>, c: nat)
    requires p < |pts| && c < |pts| && Candidate(c, Distance(pts[p].pos, pts[c].pos)) in candidates
    ensures c in Ids(SortByDistance(candidates))
  {
    var sorted := SortByDistance(candidates);
    SortedMembers(candidates);
    var cc := Candidate(c, Distance(pts[p].pos, pts[c].pos));
    assert cc in sorted;
    var k :| 0 <= k < |sorted| && sorted[k] == cc;
    assert Ids(sorted)[k] == c;
  }

  /** The lists after the first n turns of updateConnections, lines 212-263:
      at each turn the point is pruned and then relinked. */
  function RefreshUpTo(pts: seq<Point>, adj: seq<seq<nat>>, maxD2: real, n: nat): (r: seq<seq<nat>>)
    requires |adj| == |pts| && n <= |pts|
    ensures |r| == |adj|
  {
    if n == 0 then adj
    else RelinkOf(pts, PruneOf(pts, RefreshUpTo(pts, adj, maxD2, n - 1), n - 1, maxD2), n - 1, maxD2)
  }

  /** Among the first n points, every pair within the threshold is linked in
      at least one direction, or one of the two is full: no pair that could
      still be connected is left apart. */
  predicate Saturated(pts: seq<Point>, r: seq<seq<nat>>, maxD2: real, n: nat)
    requires n <= |r|
  {
    forall a: nat, b: nat :: a < n && b < n && a != b && Within(pts, a, b, maxD2) ==>
      |r[a]| == MaxNeighbours || |r[b]| == MaxNeighbours || b in r[a] || a in r[b]
  }

  /** updateConnections, lines 212-263: each point in turn is pruned and then
      relinked. Afterwards every list is well formed and names only points
      within the threshold, and no near pair with room on both sides is left
      unlinked. */
  method UpdateConnections(pts: seq<Point>, adj: seq<seq<nat>>, maxD2: real) returns (r: seq<seq<nat>>)
    requires |adj| == |pts| && WellFormed(adj)
    ensures r == RefreshUpTo(pts, adj, maxD2, |pts|)
    ensures |r| == |adj| && WellFormed(r)
    ensures forall q, e :: 0 <= q < |r| && e in r[q] ==> Within(pts, q, e, maxD2)
    // no link within the threshold is dropped
    ensures forall q, e :: 0 <= q < |adj| && e in adj[q] && Within(pts, q, e, maxD2) ==> e in r[q]
    ensures Saturated(pts, r, maxD2, |r|)
  {
    r := adj;
    var p := 0;
    while p < |pts|
      invariant 0 <= p <= |pts|
      invariant r == RefreshUpTo(pts, adj, maxD2, p)
    {
      r := RefreshPoint(pts, adj, r, p, maxD2);
      p := p + 1;
    }
    RefreshUpToFacts(pts, adj, maxD2, |pts|);
  }

  /** What the lists r after the first n turns keep: they are well formed,
      the points whose turn has come list only near points and are saturated
      among themselves, and no near link of adj is lost. */
  predicate Refreshed(pts: seq<Point>, adj: seq<seq<nat>>, maxD2: real, n: nat, r: seq<seq<nat>>)
  {
    && |r| == |adj| && n <= |r| && WellFormed(r)
    && (forall q, e :: 0 <= q < n && e in r[q] ==> Within(pts, q, e, maxD2))
    && (forall q, e :: 0 <= q < |adj| && e in adj[q] && Within(pts, q, e, maxD2) ==> e in r[q])
    && Saturated(pts, r, maxD2, n)
  }

  /** The lists after any number of turns keep what Refreshed states. */
  lemma {:induction false} RefreshUpToFacts(pts: seq<Point>, adj: seq<seq<nat>>, maxD2: real, n: nat)
    requires |adj| == |pts| && WellFormed(adj) && n <= |pts|
    ensures Refreshed(pts, adj, maxD2, n, RefreshUpTo(pts, adj, maxD2, n))
  {
    if n > 0 {
      RefreshUpToFacts(pts, adj, maxD2, n - 1);
      RefreshTurn(pts, adj, maxD2, n);
    }
  }

  /** One turn keeps what Refreshed states, one point further. */
  lemma RefreshTurn(pts: seq<Point>, adj: seq<seq<nat>>, maxD2: real, n: nat)
    requires |adj| == |pts| && WellFormed(adj) && 0 < n <= |pts|
    requires Refreshed(pts, adj, maxD2, n - 1, RefreshUpTo(pts, adj, maxD2, n - 1))
    ensures Refreshed(pts, adj, maxD2, n, RefreshUpTo(pts, adj, maxD2, n))
  {
    var p := n - 1;
    var r := RefreshUpTo(pts, adj, maxD2, p);
    var pruned := PruneOf(pts, r, p, maxD2);
    var relinked := RelinkOf(pts, pruned, p, maxD2);
    assert relinked == RefreshUpTo(pts, adj, maxD2, n);
    PruneFacts(pts, r, p, maxD2, pruned);
    RelinkFacts(pts, pruned, p, maxD2, relinked);
    RefreshStep(pts, r, pruned, relinked, p, maxD2);
    RefreshPairs(pts, r, pruned, relinked, p, maxD2);
    forall q, e | 0 <= q < |adj| && e in adj[q] && Within(pts, q, e, maxD2) ensures e in relinked[q] {
      assert e in r[q] && e in pruned[q] && pruned[q] <= relinked[q];
    }
  }

  /** The turn of point p in updateConnections, lines 214-261: p is pruned
      and then relinked, which takes the lists one turn further. */
  method RefreshPoint(pts: seq<Point>, ghost adj: seq<seq<nat>>, r: seq<seq<nat>>, p: nat, maxD2: real)
    returns (relinked: seq<seq<nat>>)
    requires |adj| == |pts| && WellFormed(adj) && p < |pts| && r == RefreshUpTo(pts, adj, maxD2, p)
    ensures relinked == RefreshUpTo(pts, adj, maxD2, p + 1)
  {
    RefreshUpToFacts(pts, adj, maxD2, p);
    var pruned := Prune(pts, r, p, maxD2);
    PruneFacts(pts, r, p, maxD2, pruned);
    relinked := Relink(pts, pruned, p, maxD2);
  }

  /** The prune of p leaves alone the list of a point q whose turn has come
      and gone: q names only near points, so if it lists p then p is near q
      and keeps q. */
  lemma DoneUnpruned(pts: seq<Point>, r: seq<seq<nat>>, p: nat, q: nat, maxD2: real)
    requires |r| == |pts| && q < p < |r|
    requires forall e :: e in r[q] ==> Within(pts, q, e, maxD2)
    ensures PrunedList(pts, r, p, r[p], q, maxD2) == r[q]
  {
    if p in r[q] {
      WithinSymmetric(pts, q, p, maxD2);
    }
  }

  /** The turn of p keeps Saturated for the points up to p: the lists of the
      earlier points only grow, and Relink decides every pair with p. */
  lemma RefreshPairs(pts: seq<Point>, r: seq<seq<nat>>, pruned: seq<seq<nat>>, relinked: seq<seq<nat>>, p: nat, maxD2: real)
    requires |r| == |pts| && p < |r| && |pruned| == |r|
    requires forall q, e :: 0 <= q < p && e in r[q] ==> Within(pts, q, e, maxD2)
    requires Saturated(pts, r, maxD2, p)
    requires forall q :: 0 <= q < |r| && q != p ==> pruned[q] == PrunedList(pts, r, p, r[p], q, maxD2)
    requires Grown(pts, pruned, p, maxD2, relinked)
    requires |relinked[p]| == MaxNeighbours || forall c :: 0 <= c < |pts| && c != p && Within(pts, p, c, maxD2) ==>
      c in relinked[p] || |relinked[c]| == MaxNeighbours
    ensures Saturated(pts, relinked, maxD2, p + 1)
  {
    forall q | 0 <= q < p ensures r[q] <= relinked[q] && |relinked[q]| <= MaxNeighbours {
      DoneUnpruned(pts, r, p, q, maxD2);
      assert ListOk(relinked, q);
    }
    forall a: nat, b: nat | a < p + 1 && b < p + 1 && a != b && Within(pts, a, b, maxD2)
      ensures |relinked[a]| == MaxNeighbours || |relinked[b]| == MaxNeighbours || b in relinked[a] || a in relinked[b]
    {
      if a == p {
        assert Within(pts, p, b, maxD2);
      } else if b == p {
        WithinSymmetric(pts, a, b, maxD2);
      } else {
        assert r[a] <= relinked[a] && r[b] <= relinked[b];
      }
    }
  }

  /** Refreshing point p keeps every list up to p within the threshold: the
      prune only removes entries and empties p's list of far ones, and the
      relink adds only near ones. */
  lemma RefreshStep(pts: seq<Point>, r: seq<seq<nat>>, pruned: seq<seq<nat>>, relinked: seq<seq<nat>>, p: nat, maxD2: real)
    requires |r| == |pts| && p < |r| && |pruned| == |r|
    requires forall q, e :: 0 <= q < p && e in r[q] ==> Within(pts, q, e, maxD2)
    requires forall q, e :: 0 <= q < |pruned| && e in pruned[q] ==> e in r[q]
    requires forall e :: e in pruned[p] ==> Within(pts, p, e, maxD2)
    requires Grown(pts, pruned, p, maxD2, relinked)
    ensures forall q, e :: 0 <= q <= p && e in relinked[q] ==> Within(pts, q, e, maxD2)
  {
    forall q, e | 0 <= q <= p && e in relinked[q] ensures Within(pts, q, e, maxD2) {
      if e in pruned[q] {
        assert q < p ==> e in r[q];
      }
    }
  }

  /** The squared distance from p to c, 0 outside the points. */
  function DistTo(pts: seq<Point>, p: nat, c: nat): real
  {
    if p < |pts| && c < |pts| then Distance(pts[p].pos, pts[c].pos) else 0.0
  }

  /** The ids are in order of distance from p, nearest first. */
  predicate NearerFirst(pts: seq<Point>, p: nat, order: seq<nat>)
  {
    forall a, b :: 0 <= a < b < |order| ==> DistTo(pts, p, order[a]) <= DistTo(pts, p, order[b])
  }

  /** Whether c's own list has room for one more entry. */
  predicate HasRoom(adj: seq<seq<nat>>, c: nat)
  {
    c < |adj| && |adj[c]| < MaxNeighbours
  }

  /** The candidates of `order` that the loop of lines 249-260 links p to,
      when p has `room` free entries: in order, each one whose own list has
      room, until p is full. */
  function Greedy(adj: seq<seq<nat>>, order: seq<nat>, room: nat): (g: seq<nat>)
    ensures |g| <= room
    ensures forall c :: c in g ==> c in order && HasRoom(adj, c)
  {
    if room == 0 || order == [] then []
    else
      var rest := Greedy(adj, order[1..], if HasRoom(adj, order[0]) then room - 1 else room);
      assert forall c :: c in order[1..] ==> c in order;
      if HasRoom(adj, order[0]) then [order[0]] + rest else rest
  }

  /** When p does not fill up, every candidate with room has been taken. */
  lemma {:induction false} GreedyMaximal(adj: seq<seq<nat>>, order: seq<nat>, room: nat)
    ensures |Greedy(adj, order, room)| < room ==>
      forall c :: c in order && HasRoom(adj, c) ==> c in Greedy(adj, order, room)
  {
    if room != 0 && order != [] {
      var room' := if HasRoom(adj, order[0]) then room - 1 else room;
      GreedyMaximal(adj, order[1..], room');
      assert order == [order[0]] + order[1..];
    }
  }

  /** Nearest first: on an order sorted by distance from p, no candidate c
      with room that was passed over is nearer than a candidate e taken. */
  lemma {:induction false} GreedyNearestFirst(pts: seq<Point>, p: nat, adj: seq<seq<nat>>, order: seq<nat>, room: nat,
                                              e: nat, c: nat)
    requires NearerFirst(pts, p, order)
    requires e in Greedy(adj, order, room) && c in order && HasRoom(adj, c) && c !in Greedy(adj, order, room)
    ensures DistTo(pts, p, e) <= DistTo(pts, p, c)
  {
    var rest := order[1..];
    var room' := if HasRoom(adj, order[0]) then room - 1 else room;
    var tail := Greedy(adj, rest, room');
    assert order == [order[0]] + rest;
    assert c != order[0];
    var j :| 0 <= j < |rest| && rest[j] == c;
    assert order[j + 1] == c;
    if e in tail {
      NearerFirstTail(pts, p, order);
      GreedyNearestFirst(pts, p, adj, rest, room', e, c);
    } else {
      assert e == order[0];
      assert DistTo(pts, p, order[0]) <= DistTo(pts, p, order[j + 1]);
    }
  }

  /** Dropping the nearest candidate keeps the order nearest first. */
  lemma NearerFirstTail(pts: seq<Point>, p: nat, order: seq<nat>)
    requires order != [] && NearerFirst(pts, p, order)
    ensures NearerFirst(pts, p, order[1..])
  {
    var rest := order[1..];
    forall a, b | 0 <= a < b < |rest| ensures DistTo(pts, p, rest[a]) <= DistTo(pts, p, rest[b]) {
      assert rest[a] == order[a + 1] && rest[b] == order[b + 1];
    }
  }

  /** The lists after p has been linked to the candidates `picked`: p's list
      gains them in order, each of them gains p unless it already listed p,
      and no other list changes. */
  predicate Linked(adj: seq<seq<nat>>, p: nat, picked: seq<nat>, r: seq<seq<nat>>)
    requires p < |adj|
  {
    && |r| == |adj| && r[p] == adj[p] + picked
    && forall q :: 0 <= q < |r| && q != p ==>
         r[q] == if q in picked && p !in adj[q] then adj[q] + [p] else adj[q]
  }

  /** Lines 249-260: the loop over the sorted candidates of p. */
  method LinkGreedily(pts: seq<Point>, adj: seq<seq<nat>>, p: nat, maxD2: real, order: seq<nat>) returns (r: seq<seq<nat>>)
    requires |adj| == |pts| && p < |adj| && WellFormed(adj)
    requires NoDup(order)
    requires forall k :: 0 <= k < |order| ==>
      order[k] < |pts| && order[k] != p && order[k] !in adj[p] && Within(pts, p, order[k], maxD2)
    ensures r == LinkedFrom(p, order, 0, adj)
    ensures Grown(pts, adj, p, maxD2, r)
    ensures |adj[p]| <= MaxNeighbours && Linked(adj, p, Greedy(adj, order, MaxNeighbours - |adj[p]|), r)
    ensures |r[p]| == MaxNeighbours || forall k :: 0 <= k < |order| ==>
      order[k] in r[p] || |r[order[k]]| == MaxNeighbours
  {
    r := adj;
    var i := 0;
    while i < |order| && |r[p]| < MaxNeighbours
      invariant 0 <= i <= |order| && |r| == |adj|
      invariant LinkedFrom(p, order, i, r) == LinkedFrom(p, order, 0, adj)
    {
      var candidate := order[i];
      if |r[candidate]| < MaxNeighbours {
        r := r[p := r[p] + [candidate]];
        if p !in r[candidate] {
          r := r[candidate := r[candidate] + [p]];
        }
      }
      i := i + 1;
    }
    RelinkWalk(pts, adj, p, maxD2, order);
  }

  /** Lines 252-258: p lists c, and c lists p unless it already does. */
  function Link(r: seq<seq<nat>>, p: nat, c: nat): seq<seq<nat>>
    requires p < |r| && c < |r|
  {
    var r1 := r[p := r[p] + [c]];
    if p !in r1[c] then r1[c := r1[c] + [p]] else r1
  }

  /** The lists the loop of LinkGreedily ends with when it is at candidate i
      with lists r. */
  function LinkedFrom(p: nat, order: seq<nat>, i: nat, r: seq<seq<nat>>): (w: seq<seq<nat>>)
    requires p < |r| && i <= |order| && forall k :: 0 <= k < |order| ==> order[k] < |r|
    ensures |w| == |r|
    decreases |order| - i
  {
    if i == |order| || |r[p]| >= MaxNeighbours then r
    else if |r[order[i]]| < MaxNeighbours then LinkedFrom(p, order, i + 1, Link(r, p, order[i]))
    else LinkedFrom(p, order, i + 1, r)
  }

  /** From a state of the loop that keeps Walked, the lists it ends with
      are what Relink promises. */
  lemma {:induction false} WalkResult(pts: seq<Point>, adj: seq<seq<nat>>, p: nat, maxD2: real, order: seq<nat>,
                                      i: nat, picked: seq<nat>, room: nat, r: seq<seq<nat>>)
    requires Walked(pts, adj, p, maxD2, order, i, picked, room, r)
    ensures var w := LinkedFrom(p, order, i, r);
      && Grown(pts, adj, p, maxD2, w)
      && |adj[p]| <= MaxNeighbours && Linked(adj, p, Greedy(adj, order, MaxNeighbours - |adj[p]|), w)
      && (|w[p]| == MaxNeighbours || forall k :: 0 <= k < |order| ==> order[k] in w[p] || |w[order[k]]| == MaxNeighbours)
    decreases |order| - i
  {
    if i == |order| || |r[p]| >= MaxNeighbours {
      WalkDone(pts, adj, p, maxD2, order, i, picked, room, r);
    } else if |r[order[i]]| < MaxNeighbours {
      WalkTake(pts, adj, p, maxD2, order, i, picked, room, r, Link(r, p, order[i]));
      WalkResult(pts, adj, p, maxD2, order, i + 1, picked + [order[i]], room - 1, Link(r, p, order[i]));
    } else {
      WalkSkip(pts, adj, p, maxD2, order, i, picked, room, r);
      WalkResult(pts, adj, p, maxD2, order, i + 1, picked, room, r);
    }
  }

  /** The invariant of the loop in LinkGreedily after the first i candidates:
      the lists grew as Relink allows, p is linked to the candidates `picked`
      that the greedy filter takes from them, the rest of the filter is still
      ahead, and every candidate passed is linked to p or full. */
  predicate Walked(pts: seq<Point>, adj: seq<seq<nat>>, p: nat, maxD2: real, order: seq<nat>,
                    i: nat, picked: seq<nat>, room: nat, r: seq<seq<nat>>)
  {
    && Candidates(pts, adj, p, maxD2, order) && i <= |order|
    && Grown(pts, adj, p, maxD2, r)
    && Linked(adj, p, picked, r) && |r[p]| <= MaxNeighbours
    && room == MaxNeighbours - |r[p]|
    && WalkAhead(adj, p, order, i, picked, room, r)
  }

  /** The order LinkGreedily is given: distinct points in reach of p, other
      than p, that p does not list yet. */
  predicate Candidates(pts: seq<Point>, adj: seq<seq<nat>>, p: nat, maxD2: real, order: seq<nat>)
  {
    && |adj| == |pts| && p < |adj| && WellFormed(adj) && NoDup(order)
    && (forall k :: 0 <= k < |order| ==>
          order[k] < |pts| && order[k] != p && order[k] !in adj[p] && Within(pts, p, order[k], maxD2))
  }

  predicate WalkAhead(adj: seq<seq<nat>>, p: nat, order: seq<nat>, i: nat, picked: seq<nat>, room: nat, r: seq<seq<nat>>)
    requires p < |adj| && |adj[p]| <= MaxNeighbours && p < |r| && i <= |order| && (forall k :: 0 <= k < |order| ==> order[k] < |r|)
  {
    && picked + Greedy(adj, order[i..], room) == Greedy(adj, order, MaxNeighbours - |adj[p]|)
    && (forall k :: i <= k < |order| ==> order[k] !in r[p] && order[k] !in picked)
    && (forall k :: 0 <= k < i ==> order[k] in r[p] || |r[order[k]]| == MaxNeighbours)
  }

  lemma WalkStart(pts: seq<Point>, adj: seq<seq<nat>>, p: nat, maxD2: real, order: seq<nat>)
    requires |adj| == |pts| && p < |adj| && WellFormed(adj)
    requires NoDup(order)
    requires forall k :: 0 <= k < |order| ==>
      order[k] < |pts| && order[k] != p && order[k] !in adj[p] && Within(pts, p, order[k], maxD2)
    ensures |adj[p]| <= MaxNeighbours
    ensures Walked(pts, adj, p, maxD2, order, 0, [], MaxNeighbours - |adj[p]|, adj)
  {
    assert ListOk(adj, p);
    assert order[0..] == order;
  }

  /** Taking the candidate at i: p still has room and so has the candidate. */
  lemma WalkTake(pts: seq<Point>, adj: seq<seq<nat>>, p: nat, maxD2: real, order: seq<nat>,
                 i: nat, picked: seq<nat>, room: nat, r: seq<seq<nat>>, r2: seq<seq<nat>>)
    requires Walked(pts, adj, p, maxD2, order, i, picked, room, r)
    requires i < |order| && |r[p]| < MaxNeighbours && |r[order[i]]| < MaxNeighbours
    requires r2 == Link(r, p, order[i])
    ensures room > 0
    ensures Walked(pts, adj, p, maxD2, order, i + 1, picked + [order[i]], room - 1, r2)
  {
    var c := order[i];
    assert ListOk(r, c) && ListOk(r, p);
    GreedyAt(adj, order, i, room);
    NoDupAfter(order, i);
    assert r[c] == adj[c];
    assert HasRoom(adj, c);
    var tail := Greedy(adj, order[i + 1..], room - 1);
    assert Greedy(adj, order[i..], room) == [c] + tail;
    LinkStep(pts, adj, p, maxD2, r, c);
    LinkedStep(adj, p, picked, r, c, r2);
    KeepsReached(order, i, p, r, r2);
    AppendOne(picked, c, tail);
  }

  /** Passing over the candidate at i, which is full. */
  lemma WalkSkip(pts: seq<Point>, adj: seq<seq<nat>>, p: nat, maxD2: real, order: seq<nat>,
                 i: nat, picked: seq<nat>, room: nat, r: seq<seq<nat>>)
    requires Walked(pts, adj, p, maxD2, order, i, picked, room, r)
    requires i < |order| && |r[p]| < MaxNeighbours && |r[order[i]]| >= MaxNeighbours
    ensures Walked(pts, adj, p, maxD2, order, i + 1, picked, room, r)
  {
    var c := order[i];
    assert ListOk(r, c);
    GreedyAt(adj, order, i, room);
    assert r[c] == adj[c];
    assert !HasRoom(adj, c);
    KeepsReached(order, i, p, r, r);
  }

  /** The loop ends with every candidate scanned or p full. */
  lemma WalkDone(pts: seq<Point>, adj: seq<seq<nat>>, p: nat, maxD2: real, order: seq<nat>,
                 i: nat, picked: seq<nat>, room: nat, r: seq<seq<nat>>)
    requires Walked(pts, adj, p, maxD2, order, i, picked, room, r)
    requires i == |order| || |r[p]| >= MaxNeighbours
    ensures Grown(pts, adj, p, maxD2, r)
    ensures |adj[p]| <= MaxNeighbours && Linked(adj, p, Greedy(adj, order, MaxNeighbours - |adj[p]|), r)
    ensures |r[p]| == MaxNeighbours || forall k :: 0 <= k < |order| ==>
      order[k] in r[p] || |r[order[k]]| == MaxNeighbours
  {
    assert ListOk(adj, p);
    assert Greedy(adj, order[i..], room) == [];
    assert picked + [] == picked;
  }

  /** One step of the loop keeps "every candidate passed is linked or full":
      the candidate at i is linked to p or was full, and full lists stay. */
  lemma KeepsReached(order: seq<nat>, i: nat, p: nat, r: seq<seq<nat>>, r2: seq<seq<nat>>)
    requires i < |order| && p < |r| && |r2| == |r|
    requires forall k :: 0 <= k < |order| ==> order[k] < |r|
    requires forall k :: 0 <= k < i ==> order[k] in r[p] || |r[order[k]]| == MaxNeighbours
    requires r2[p] == r[p] + [order[i]] || (r2 == r && |r[order[i]]| == MaxNeighbours)
    requires forall q :: 0 <= q < |r| && q != p && |r[q]| == MaxNeighbours ==> r2[q] == r[q]
    requires forall k :: 0 <= k < |order| ==> order[k] != p
    ensures forall k :: 0 <= k <= i ==> order[k] in r2[p] || |r2[order[k]]| == MaxNeighbours
  {
    forall k | 0 <= k <= i ensures order[k] in r2[p] || |r2[order[k]]| == MaxNeighbours {
      if k < i && order[k] in r[p] {
        assert r[p] <= r2[p];
      }
    }
  }

  lemma AppendOne(picked: seq<nat>, c: nat, tail: seq<nat>)
    ensures (picked + [c]) + tail == picked + ([c] + tail)
  {
  }

  /** The greedy filter at index i: the candidate there is taken exactly when
      p has room and it has room, and the filter carries on from i + 1. */
  lemma GreedyAt(adj: seq<seq<nat>>, order: seq<nat>, i: nat, room: nat)
    requires i < |order| && room > 0
    ensures Greedy(adj, order[i..], room) ==
      if HasRoom(adj, order[i]) then [order[i]] + Greedy(adj, order[i + 1..], room - 1)
      else Greedy(adj, order[i + 1..], room)
  {
    assert order[i..][0] == order[i] && order[i..][1..] == order[i + 1..];
  }

  /** The entry at i does not occur after it. */
  lemma NoDupAfter(order: seq<nat>, i: nat)
    requires NoDup(order) && i < |order|
    ensures forall k :: i < k < |order| ==> order[k] != order[i]
  {
  }

  /** Taking one more candidate c, not taken before and with the list it had
      at the start, extends Linked. */
  lemma LinkedStep(adj: seq<seq<nat>>, p: nat, picked: seq<nat>, r: seq<seq<nat>>, c: nat, r2: seq<seq<nat>>)
    requires p < |adj| && c < |adj| && c != p && c !in picked
    requires Linked(adj, p, picked, r)
    requires r2 == (var r1 := r[p := r[p] + [c]]; if p !in r1[c] then r1[c := r1[c] + [p]] else r1)
    ensures Linked(adj, p, picked + [c], r2)
  {
    assert r[c] == adj[c];
    forall q | 0 <= q < |r2| && q != p
      ensures r2[q] == if q in picked + [c] && p !in adj[q] then adj[q] + [p] else adj[q]
    {
      assert q in picked + [c] <==> q in picked || q == c;
    }
  }
}
