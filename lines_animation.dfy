/**
 * The controller of the point-network animation
 * (src/components/LinesAnimation.tsx, the body of the `useEffect`): the
 * state the effect keeps between frames (points, neighbour lists, sparks,
 * the pointer, the two timers and the connection threshold) and what one
 * frame of `animate`, a resize and a pointer move do to it.
 *
 * Clocks and `Math.random()` are parameters: `now` is `Date.now()`, and the
 * random draws come in as sequences whose ranges are stated in the
 * preconditions.
 */
module LinesAnimation {
  import opened PointNetwork
  import opened Activity
  import opened Sparks

  /** `connectionUpdateInterval`, line 114. */
  const ConnectionUpdateInterval: int := 1000
  /** The spawn period of line 403. */
  const SparkSpawnInterval: int := 300
  /** "max 1-2 per line", line 417. */
  const MaxSparksPerLine: nat := 2
  /** The per-line spawn chance of line 417. */
  const SpawnChance: real := 0.15
  /** Sparks on a line whose end is below this opacity are dropped (line 384). */
  const RemovalOpacity: real := 0.01
  /** Points below this opacity spawn no sparks (line 406). */
  const SpawnOpacity: real := 0.1

  function MinReal(a: real, b: real): real { if a < b then a else b }

  /** Lines 115 and 450: `Math.min(width, height) * 0.25`. */
  function ConnectionDistance(width: real, height: real): (d: real)
    ensures d * 4.0 == MinReal(width, height)
    ensures d <= width * 0.25 && d <= height * 0.25
  {
    MinReal(width, height) * 0.25
  }

  /** `maxDistSquared`, line 212. */
  function Squared(d: real): (s: real)
    ensures s >= 0.0
  {
    NonNegativeProduct(if d >= 0.0 then d else -d, if d >= 0.0 then d else -d);
    d * d
  }

  /** `sparksPerLine.get(key) || 0`. */
  function Get(m: map<string, nat>, key: string): nat
  {
    if key in m then m[key] else 0
  }

  // ---------------------------------------------------------------------------
  // Activity block of animate (lines 331-364)
  // ---------------------------------------------------------------------------

  /** Each point takes the opacities of the band its squared distance to the
      pointer falls in; nothing else about the points changes. */
  method ApplyActivity(pts: seq<Point>, target: Position) returns (r: seq<Point>)
    ensures |r| == |pts|
    ensures forall i :: 0 <= i < |r| ==> r[i].pos == pts[i].pos && r[i].origin == pts[i].origin
    ensures forall i :: 0 <= i < |r| ==>
      r[i].active == Band(Distance(target, pts[i].pos)).line && r[i].labelActive == Band(Distance(target, pts[i].pos)).text
  {
    r := pts;
    var i := 0;
    while i < |r|
      invariant 0 <= i <= |r| && |r| == |pts|
      invariant forall k :: i <= k < |r| ==> r[k] == pts[k]
      invariant forall k :: 0 <= k < i ==> r[k].pos == pts[k].pos && r[k].origin == pts[k].origin
      invariant forall k :: 0 <= k < i ==>
        r[k].active == Band(Distance(target, pts[k].pos)).line && r[k].labelActive == Band(Distance(target, pts[k].pos)).text
    {
      var distance := Distance(target, r[i].pos);
      var level := Band(distance);
      r := r[i := r[i].(active := level.line, labelActive := level.text)];
      i := i + 1;
    }
  }

  /** After the activity block no point is below the removal opacity, so the
      first removal test of the spark loop never fires. */
  lemma ActiveNeverRemoved(pts: seq<Point>, target: Position, r: seq<Point>)
    requires |r| == |pts|
    requires forall i :: 0 <= i < |r| ==> r[i].active == Band(Distance(target, pts[i].pos)).line
    ensures forall i :: 0 <= i < |r| ==> r[i].active >= RemovalOpacity
  {
  }

  // ---------------------------------------------------------------------------
  // Spark bookkeeping
  // ---------------------------------------------------------------------------

  /** The map the counting loop of lines 373-377 builds over `sparks`. */
  function KeyCounts(sparks: seq<Spark>): (m: map<string, nat>)
    ensures forall key :: Get(m, key) == SparksOn(sparks, key)
  {
    if sparks == [] then map[]
    else
      var m := KeyCounts(sparks[..|sparks| - 1]);
      m[sparks[|sparks| - 1].lineKey := Get(m, sparks[|sparks| - 1].lineKey) + 1]
  }

  /** Lines 373-377: how many sparks run on each line key. */
  method CountKeys(sparks: seq<Spark>) returns (m: map<string, nat>)
    ensures m == KeyCounts(sparks)
    ensures forall key :: Get(m, key) == SparksOn(sparks, key)
  {
    m := map[];
    var i := 0;
    while i < |sparks|
      invariant 0 <= i <= |sparks|
      invariant m == KeyCounts(sparks[..i])
    {
      var count := Get(m, sparks[i].lineKey);
      m := m[sparks[i].lineKey := count + 1];
      assert sparks[..i + 1][..i] == sparks[..i];
      i := i + 1;
    }
    assert sparks[..i] == sparks;
  }

  /** Whether a spark whose progress is `progress` survives the update loop
      of lines 380-399: both ends are visible enough and one more step leaves
      it short of the end. */
  predicate Keeps(s: Spark, progress: real, pts: seq<Point>)
  {
    && s.fromPoint < |pts| && s.toPoint < |pts|
    && !(pts[s.fromPoint].active < RemovalOpacity || pts[s.toPoint].active < RemovalOpacity)
    && progress + s.speed < 1.0
  }

  /** The progress of each spark, as a value. */
  function Progresses(ss: seq<Spark>): (ps: seq<real>)
    reads ss
    ensures |ps| == |ss|
    ensures forall k :: 0 <= k < |ss| ==> ps[k] == ss[k].progress
  {
    if ss == [] then [] else [ss[0].progress] + Progresses(ss[1..])
  }

  /** The sparks the update loop keeps, in their original order, when their
      progress before the update is `ps`. */
  function Survivors(ss: seq<Spark>, ps: seq<real>, pts: seq<Point>): (r: seq<Spark>)
    requires |ps| == |ss|
    ensures |r| <= |ss|
    ensures forall s :: s in r ==> exists k :: 0 <= k < |ss| && ss[k] == s && Keeps(s, ps[k], pts)
    ensures forall k :: 0 <= k < |ss| && Keeps(ss[k], ps[k], pts) ==> ss[k] in r
  {
    if ss == [] then []
    else (if Keeps(ss[0], ps[0], pts) then [ss[0]] else []) + Survivors(ss[1..], ps[1..], pts)
  }

  /** A run of sparks without repeats. */
  predicate Distinct(ss: seq<Spark>)
  {
    forall i, j :: 0 <= i < j < |ss| ==> ss[i] != ss[j]
  }

  /** Keeping a sub-run keeps the sparks distinct. */
  lemma {:induction false} SurvivorsDistinct(ss: seq<Spark>, ps: seq<real>, pts: seq<Point>)
    requires |ps| == |ss| && Distinct(ss)
    ensures Distinct(Survivors(ss, ps, pts))
  {
    if ss != [] {
      var rest := Survivors(ss[1..], ps[1..], pts);
      assert Distinct(ss[1..]) by {
        forall i, j | 0 <= i < j < |ss[1..]| ensures ss[1..][i] != ss[1..][j] {
          assert ss[1..][i] == ss[i + 1] && ss[1..][j] == ss[j + 1];
        }
      }
      SurvivorsDistinct(ss[1..], ps[1..], pts);
      assert ss[0] !in rest by {
        forall k | 0 <= k < |ss[1..]| ensures ss[1..][k] != ss[0] {
          assert ss[1..][k] == ss[k + 1];
        }
      }
      if Keeps(ss[0], ps[0], pts) {
        ConsDistinct(ss[0], rest);
      }
    }
  }

  lemma ConsDistinct(x: Spark, rest: seq<Spark>)
    requires Distinct(rest) && x !in rest
    ensures Distinct([x] + rest)
  {
    var s := [x] + rest;
    forall i, j | 0 <= i < j < |s| ensures s[i] != s[j] {
      assert s[j] == rest[j - 1];
      if i > 0 {
        assert s[i] == rest[i - 1];
      }
    }
  }

  /** One step of the backward update loop over `ss`: with the sparks from
      index i + 1 on already filtered, the spark at i is kept in place when it
      survives and spliced out otherwise. */
  lemma SurvivorsStep(ss: seq<Spark>, ps: seq<real>, pts: seq<Point>, i: nat, live: seq<Spark>)
    requires |ps| == |ss| && i < |ss|
    requires live == ss[..i + 1] + Survivors(ss[i + 1..], ps[i + 1..], pts)
    ensures i < |live| && live[i] == ss[i]
    ensures Keeps(ss[i], ps[i], pts) ==> live == ss[..i] + Survivors(ss[i..], ps[i..], pts)
    ensures !Keeps(ss[i], ps[i], pts) ==> live[..i] + live[i + 1..] == ss[..i] + Survivors(ss[i..], ps[i..], pts)
  {
    assert ss[i..][1..] == ss[i + 1..] && ps[i..][1..] == ps[i + 1..];
    var kept := Survivors(ss[i + 1..], ps[i + 1..], pts);
    assert ss[..i + 1] == ss[..i] + [ss[i]];
    assert live[..i] == ss[..i] && live[i + 1..] == kept;
  }

  /** What the update loop keeps is again a set of distinct sparks within the
      per-line limit. */
  lemma SurvivorsBounded(ss: seq<Spark>, ps: seq<real>, pts: seq<Point>)
    requires |ps| == |ss| && Distinct(ss)
    ensures Distinct(Survivors(ss, ps, pts))
    ensures forall key :: SparksOn(Survivors(ss, ps, pts), key) <= SparksOn(ss, key)
  {
    SurvivorsDistinct(ss, ps, pts);
    forall key ensures SparksOn(Survivors(ss, ps, pts), key) <= SparksOn(ss, key) {
      SurvivorsKeys(ss, ps, pts, key);
    }
  }

  /** Keeping a sub-run gives no key more sparks. */
  lemma {:induction false} SurvivorsKeys(ss: seq<Spark>, ps: seq<real>, pts: seq<Point>, key: string)
    requires |ps| == |ss|
    ensures SparksOn(Survivors(ss, ps, pts), key) <= SparksOn(ss, key)
  {
    if ss != [] {
      var rest := Survivors(ss[1..], ps[1..], pts);
      SurvivorsKeys(ss[1..], ps[1..], pts, key);
      var head := if Keeps(ss[0], ps[0], pts) then [ss[0]] else [];
      assert ss == [ss[0]] + ss[1..];
      SparksOnAppend(head, rest, key);
      SparksOnAppend([ss[0]], ss[1..], key);
      assert SparksOn([ss[0]], key) == SparksOn([], key) + (if ss[0].lineKey == key then 1 else 0);
    }
  }

  // ---------------------------------------------------------------------------
  // Spawning (lines 401-426)
  // ---------------------------------------------------------------------------

  /** The random draws of one spawn pass, per point and neighbour slot: the
      `Math.random()` of the chance test (line 417) and the one a new spark
      draws its speed from (line 49). */
  predicate RandomDraws(n: nat, coins: seq<seq<real>>, draws: seq<seq<real>>)
  {
    && |coins| == n && |draws| == n
    && (forall p :: 0 <= p < n ==> |coins[p]| == MaxNeighbours && |draws[p]| == MaxNeighbours)
    && (forall p, k :: 0 <= p < n && 0 <= k < |draws[p]| ==> 0.0 <= draws[p][k] < 1.0)
    && (forall p, k :: 0 <= p < n && 0 <= k < |coins[p]| ==> 0.0 <= coins[p][k] < 1.0)
  }

  /** `s` is the spark the spawn loop makes on the line from point p to its
      k-th neighbour: p is active enough, the chance test passed, and the
      spark's ends, key and speed are the ones of that line and draw. */
  predicate SpawnedAt(s: Spark, p: nat, k: nat, pts: seq<Point>, adj: seq<seq<nat>>, ids: seq<string>,
                      coins: seq<seq<real>>, draws: seq<seq<real>>)
  {
    && p < |pts| && p < |adj| && k < |adj[p]| && p < |ids| && adj[p][k] < |ids|
    && p < |coins| && k < |coins[p]| && p < |draws| && k < |draws[p]|
    && pts[p].active > SpawnOpacity && coins[p][k] < SpawnChance
    && s.fromPoint == p && s.toPoint == adj[p][k]
    && s.lineKey == LineKey(ids[p], ids[adj[p][k]])
    && 0.0 <= draws[p][k] < 1.0 && s.speed == SparkSpeed(draws[p][k]) && s.opacity == 1.0
  }

  /** The line from point p to its k-th neighbour, if p was active enough and
      its chance test passed, got a spark among out[from..], or its line key
      had reached the limit by the end of the pass. */
  ghost predicate Served(out: seq<Spark>, from: nat, next: map<string, nat>, p: nat, k: nat,
                   pts: seq<Point>, adj: seq<seq<nat>>, ids: seq<string>, coins: seq<seq<real>>)
  {
    (&& p < |pts| && p < |adj| && k < |adj[p]| && p < |ids| && adj[p][k] < |ids|
     && p < |coins| && k < |coins[p]| && pts[p].active > SpawnOpacity && coins[p][k] < SpawnChance)
    ==>
    (|| Get(next, LineKey(ids[p], ids[adj[p][k]])) >= MaxSparksPerLine
     || exists m :: from <= m < |out| && out[m].fromPoint == p && out[m].toPoint == adj[p][k])
  }

  /** `s` was spawned on one of the lines of point p. */
  ghost predicate SpawnedFrom(s: Spark, p: nat, pts: seq<Point>, adj: seq<seq<nat>>, ids: seq<string>,
                              coins: seq<seq<real>>, draws: seq<seq<real>>)
  {
    exists k :: SpawnedAt(s, p, k, pts, adj, ids, coins, draws)
  }

  /** `s` was spawned on a line of some point. */
  ghost predicate Spawned(s: Spark, pts: seq<Point>, adj: seq<seq<nat>>, ids: seq<string>,
                          coins: seq<seq<real>>, draws: seq<seq<real>>)
  {
    exists p :: SpawnedFrom(s, p, pts, adj, ids, coins, draws)
  }

  // ---------------------------------------------------------------------------
  // The spawn plan: which lines of a pass get a spark
  // ---------------------------------------------------------------------------

  /** The k-th line of point p, one turn of the inner spawn loop. */
  datatype Slot = Slot(point: nat, index: nat)

  /** The lines that get a spark, in the order the pass visits them, and the
      running per-key count the pass ends with. */
  datatype Plan = Plan(slots: seq<Slot>, counts: map<string, nat>)

  /** The line key of the k-th line of p (lines 409-411), or "" off the lists. */
  function SlotKey(adj: seq<seq<nat>>, ids: seq<string>, p: nat, k: nat): string
  {
    if p < |adj| && k < |adj[p]| && p < |ids| && adj[p][k] < |ids| then LineKey(ids[p], ids[adj[p][k]]) else ""
  }

  /** The k-th line of p exists and its chance test passes (line 417). */
  predicate Lucky(adj: seq<seq<nat>>, ids: seq<string>, coins: seq<seq<real>>, p: nat, k: nat)
  {
    && p < |adj| && k < |adj[p]| && p < |ids| && adj[p][k] < |ids| && p < |coins| && k < |coins[p]|
    && coins[p][k] < SpawnChance
  }

  /** Line 417: the line gets a spark when its running count `c` is below the
      limit and its chance test passes. */
  predicate Fires(adj: seq<seq<nat>>, ids: seq<string>, coins: seq<seq<real>>, c: map<string, nat>, p: nat, k: nat)
  {
    Lucky(adj, ids, coins, p, k) && Get(c, SlotKey(adj, ids, p, k)) < MaxSparksPerLine
  }

  /** Line 419: one more spark counted on `key`. */
  function Bump(c: map<string, nat>, key: string): map<string, nat>
  {
    c[key := Get(c, key) + 1]
  }

  /** The inner loop of lines 407-423 for point p from its k-th line on,
      starting from the running count `c`. */
  function PointPlan(adj: seq<seq<nat>>, ids: seq<string>, coins: seq<seq<real>>, p: nat, k: nat,
                     c: map<string, nat>): Plan
    decreases (if p < |adj| then |adj[p]| else 0) - k
  {
    if p >= |adj| || k >= |adj[p]| then Plan([], c)
    else if Fires(adj, ids, coins, c, p, k) then
      var rest := PointPlan(adj, ids, coins, p, k + 1, Bump(c, SlotKey(adj, ids, p, k)));
      Plan([Slot(p, k)] + rest.slots, rest.counts)
    else PointPlan(adj, ids, coins, p, k + 1, c)
  }

  /** The outer loop of lines 405-424 from point p on: only points with
      `active > 0.1` and a non-empty list take their turn. */
  function PassPlan(pts: seq<Point>, adj: seq<seq<nat>>, ids: seq<string>, coins: seq<seq<real>>, p: nat,
                    c: map<string, nat>): Plan
    decreases |pts| - p
  {
    if p >= |pts| then Plan([], c)
    else if p < |adj| && pts[p].active > SpawnOpacity && |adj[p]| > 0 then
      var first := PointPlan(adj, ids, coins, p, 0, c);
      var rest := PassPlan(pts, adj, ids, coins, p + 1, first.counts);
      Plan(first.slots + rest.slots, rest.counts)
    else PassPlan(pts, adj, ids, coins, p + 1, c)
  }

  /** The sparks `added` are the ones of the planned lines, one each, in order. */
  predicate Realises(added: seq<Spark>, slots: seq<Slot>, pts: seq<Point>, adj: seq<seq<nat>>, ids: seq<string>,
                     coins: seq<seq<real>>, draws: seq<seq<real>>)
  {
    && |added| == |slots|
    && forall m :: 0 <= m < |added| ==> SpawnedAt(added[m], slots[m].point, slots[m].index, pts, adj, ids, coins, draws)
  }

  /** How many of the planned lines have this key. */
  function SlotsOn(slots: seq<Slot>, adj: seq<seq<nat>>, ids: seq<string>, key: string): (n: nat)
    ensures n <= |slots|
  {
    if slots == [] then 0
    else (if SlotKey(adj, ids, slots[0].point, slots[0].index) == key then 1 else 0) + SlotsOn(slots[1..], adj, ids, key)
  }

  lemma {:induction false} SlotsOnAppend(a: seq<Slot>, b: seq<Slot>, adj: seq<seq<nat>>, ids: seq<string>, key: string)
    ensures SlotsOn(a + b, adj, ids, key) == SlotsOn(a, adj, ids, key) + SlotsOn(b, adj, ids, key)
    decreases |a|
  {
    if a == [] {
      assert a + b == b;
    } else {
      assert (a + b)[0] == a[0] && (a + b)[1..] == a[1..] + b;
      SlotsOnAppend(a[1..], b, adj, ids, key);
    }
  }

  /** `x` comes before `y` in the order the pass visits lines. */
  predicate Before(x: Slot, y: Slot)
  {
    x.point < y.point || (x.point == y.point && x.index < y.index)
  }

  /** The counts of `plan` are `c` plus its planned lines, key by key. */
  ghost predicate CountsPlanned(c: map<string, nat>, plan: Plan, adj: seq<seq<nat>>, ids: seq<string>)
  {
    forall key :: Get(plan.counts, key) == Get(c, key) + SlotsOn(plan.slots, adj, ids, key)
  }

  ghost predicate WithinLimit(c: map<string, nat>)
  {
    forall key :: Get(c, key) <= MaxSparksPerLine
  }

  /** Bumping one key adds one to it and leaves the others. */
  lemma BumpGet(c: map<string, nat>, key: string)
    ensures forall other :: Get(Bump(c, key), other) == Get(c, other) + (if other == key then 1 else 0)
  {
  }

  /** The counts of a point's turn go up by exactly its planned lines, key by key. */
  lemma {:induction false} PointPlanCounts(adj: seq<seq<nat>>, ids: seq<string>, coins: seq<seq<real>>, p: nat, k: nat,
                                           c: map<string, nat>)
    ensures CountsPlanned(c, PointPlan(adj, ids, coins, p, k, c), adj, ids)
    decreases (if p < |adj| then |adj[p]| else 0) - k
  {
    if p < |adj| && k < |adj[p]| {
      if Fires(adj, ids, coins, c, p, k) {
        var key := SlotKey(adj, ids, p, k);
        var later := Bump(c, key);
        PointPlanCounts(adj, ids, coins, p, k + 1, later);
        BumpGet(c, key);
        var rest := PointPlan(adj, ids, coins, p, k + 1, later);
        var slots := [Slot(p, k)] + rest.slots;
        assert slots[1..] == rest.slots;
        forall other ensures SlotsOn(slots, adj, ids, other) == (if other == key then 1 else 0) + SlotsOn(rest.slots, adj, ids, other) {
        }
      } else {
        PointPlanCounts(adj, ids, coins, p, k + 1, c);
      }
    }
  }

  /** The counts of a pass go up by exactly its planned lines, key by key. */
  lemma {:induction false} PassPlanCounts(pts: seq<Point>, adj: seq<seq<nat>>, ids: seq<string>, coins: seq<seq<real>>,
                                          p: nat, c: map<string, nat>)
    ensures CountsPlanned(c, PassPlan(pts, adj, ids, coins, p, c), adj, ids)
    decreases |pts| - p
  {
    if p < |pts| {
      if p < |adj| && pts[p].active > SpawnOpacity && |adj[p]| > 0 {
        var first := PointPlan(adj, ids, coins, p, 0, c);
        PointPlanCounts(adj, ids, coins, p, 0, c);
        PassPlanCounts(pts, adj, ids, coins, p + 1, first.counts);
        var rest := PassPlan(pts, adj, ids, coins, p + 1, first.counts);
        forall key ensures SlotsOn(first.slots + rest.slots, adj, ids, key)
                       == SlotsOn(first.slots, adj, ids, key) + SlotsOn(rest.slots, adj, ids, key) {
          SlotsOnAppend(first.slots, rest.slots, adj, ids, key);
        }
      } else {
        PassPlanCounts(pts, adj, ids, coins, p + 1, c);
      }
    }
  }

  /** A point's turn never counts a key past the limit it started within. */
  lemma {:induction false} PointPlanBounded(adj: seq<seq<nat>>, ids: seq<string>, coins: seq<seq<real>>, p: nat, k: nat,
                                            c: map<string, nat>)
    requires WithinLimit(c)
    ensures WithinLimit(PointPlan(adj, ids, coins, p, k, c).counts)
    decreases (if p < |adj| then |adj[p]| else 0) - k
  {
    if p < |adj| && k < |adj[p]| {
      if Fires(adj, ids, coins, c, p, k) {
        BumpGet(c, SlotKey(adj, ids, p, k));
        PointPlanBounded(adj, ids, coins, p, k + 1, Bump(c, SlotKey(adj, ids, p, k)));
      } else {
        PointPlanBounded(adj, ids, coins, p, k + 1, c);
      }
    }
  }

  /** A pass that starts with every key at or below the limit of two ends so:
      it never spawns on a key whose count has reached two. */
  lemma {:induction false} PassPlanBounded(pts: seq<Point>, adj: seq<seq<nat>>, ids: seq<string>, coins: seq<seq<real>>,
                                           p: nat, c: map<string, nat>)
    requires WithinLimit(c)
    ensures WithinLimit(PassPlan(pts, adj, ids, coins, p, c).counts)
    decreases |pts| - p
  {
    if p < |pts| {
      if p < |adj| && pts[p].active > SpawnOpacity && |adj[p]| > 0 {
        PointPlanBounded(adj, ids, coins, p, 0, c);
        PassPlanBounded(pts, adj, ids, coins, p + 1, PointPlan(adj, ids, coins, p, 0, c).counts);
      } else {
        PassPlanBounded(pts, adj, ids, coins, p + 1, c);
      }
    }
  }

  /** So a pass adds at most `2 - count` sparks on a key. */
  lemma PassPlanRoom(pts: seq<Point>, adj: seq<seq<nat>>, ids: seq<string>, coins: seq<seq<real>>,
                     c: map<string, nat>, key: string)
    requires WithinLimit(c)
    ensures Get(c, key) + SlotsOn(PassPlan(pts, adj, ids, coins, 0, c).slots, adj, ids, key) <= MaxSparksPerLine
  {
    PassPlanCounts(pts, adj, ids, coins, 0, c);
    PassPlanBounded(pts, adj, ids, coins, 0, c);
  }

  /** The slots are lucky lines of p from the k-th on, in list order. */
  predicate PointShaped(slots: seq<Slot>, adj: seq<seq<nat>>, ids: seq<string>, coins: seq<seq<real>>, p: nat, k: nat)
  {
    && (forall m :: 0 <= m < |slots| ==>
          slots[m].point == p && k <= slots[m].index && Lucky(adj, ids, coins, p, slots[m].index))
    && (forall a, b :: 0 <= a < b < |slots| ==> slots[a].index < slots[b].index)
  }

  /** The slots are lucky lines of active points from p on, in the order of
      the loops. */
  predicate PassShaped(slots: seq<Slot>, pts: seq<Point>, adj: seq<seq<nat>>, ids: seq<string>, coins: seq<seq<real>>, p: nat)
  {
    && (forall m :: 0 <= m < |slots| ==>
          && p <= slots[m].point < |pts| && pts[slots[m].point].active > SpawnOpacity
          && Lucky(adj, ids, coins, slots[m].point, slots[m].index))
    && (forall a, b :: 0 <= a < b < |slots| ==> Before(slots[a], slots[b]))
  }

  /** A point's turn plans only its own lucky lines, from the k-th on, in
      list order. */
  lemma {:induction false} PointPlanShape(adj: seq<seq<nat>>, ids: seq<string>, coins: seq<seq<real>>, p: nat, k: nat,
                                          c: map<string, nat>)
    ensures PointShaped(PointPlan(adj, ids, coins, p, k, c).slots, adj, ids, coins, p, k)
    decreases (if p < |adj| then |adj[p]| else 0) - k
  {
    if p < |adj| && k < |adj[p]| {
      if Fires(adj, ids, coins, c, p, k) {
        var later := Bump(c, SlotKey(adj, ids, p, k));
        PointPlanShape(adj, ids, coins, p, k + 1, later);
        var rest := PointPlan(adj, ids, coins, p, k + 1, later).slots;
        var slots := [Slot(p, k)] + rest;
        assert PointPlan(adj, ids, coins, p, k, c).slots == slots;
        forall m | 0 <= m < |slots|
          ensures slots[m].point == p && k <= slots[m].index && Lucky(adj, ids, coins, p, slots[m].index)
        {
          if m > 0 {
            assert slots[m] == rest[m - 1];
          }
        }
        forall a, b | 0 <= a < b < |slots| ensures slots[a].index < slots[b].index {
          assert slots[b] == rest[b - 1];
          if a > 0 {
            assert slots[a] == rest[a - 1];
          }
        }
      } else {
        PointPlanShape(adj, ids, coins, p, k + 1, c);
        assert PointPlan(adj, ids, coins, p, k, c) == PointPlan(adj, ids, coins, p, k + 1, c);
      }
    }
  }

  /** A pass plans only lucky lines of active points, from point p on, each
      at most once and in the order of the loops. */
  lemma {:induction false} PassPlanShape(pts: seq<Point>, adj: seq<seq<nat>>, ids: seq<string>, coins: seq<seq<real>>,
                                         p: nat, c: map<string, nat>)
    ensures PassShaped(PassPlan(pts, adj, ids, coins, p, c).slots, pts, adj, ids, coins, p)
    decreases |pts| - p
  {
    if p < |pts| {
      if p < |adj| && pts[p].active > SpawnOpacity && |adj[p]| > 0 {
        var first := PointPlan(adj, ids, coins, p, 0, c);
        PointPlanShape(adj, ids, coins, p, 0, c);
        PassPlanShape(pts, adj, ids, coins, p + 1, first.counts);
        var rest := PassPlan(pts, adj, ids, coins, p + 1, first.counts).slots;
        var slots := first.slots + rest;
        forall m | |first.slots| <= m < |slots| ensures slots[m] == rest[m - |first.slots|] {}
      } else {
        PassPlanShape(pts, adj, ids, coins, p + 1, c);
      }
    }
  }

  /** So no line gets two sparks in one pass. */
  lemma PassPlanOnce(pts: seq<Point>, adj: seq<seq<nat>>, ids: seq<string>, coins: seq<seq<real>>, c: map<string, nat>)
    ensures var slots := PassPlan(pts, adj, ids, coins, 0, c).slots;
      forall a, b :: 0 <= a < b < |slots| ==> slots[a] != slots[b]
  {
    PassPlanShape(pts, adj, ids, coins, 0, c);
  }

  /** A lucky line of p from the k-th on that gets no spark had its key at
      the limit by the end of p's turn. */
  lemma {:induction false} PointPlanComplete(adj: seq<seq<nat>>, ids: seq<string>, coins: seq<seq<real>>, p: nat, k: nat,
                                             c: map<string, nat>, j: nat)
    requires k <= j && Lucky(adj, ids, coins, p, j) && Slot(p, j) !in PointPlan(adj, ids, coins, p, k, c).slots
    ensures Get(PointPlan(adj, ids, coins, p, k, c).counts, SlotKey(adj, ids, p, j)) >= MaxSparksPerLine
    decreases (if p < |adj| then |adj[p]| else 0) - k
  {
    if Fires(adj, ids, coins, c, p, k) {
      var later := Bump(c, SlotKey(adj, ids, p, k));
      assert j != k;
      PointPlanComplete(adj, ids, coins, p, k + 1, later, j);
    } else if j == k {
      PointPlanCounts(adj, ids, coins, p, k + 1, c);
    } else {
      PointPlanComplete(adj, ids, coins, p, k + 1, c, j);
    }
  }

  /** The spawn rule, completeness half: every lucky line of an active point
      that the pass visits and that gets no spark had its key at the limit by
      the end of the pass. */
  lemma {:induction false} PassPlanComplete(pts: seq<Point>, adj: seq<seq<nat>>, ids: seq<string>, coins: seq<seq<real>>,
                                            p: nat, c: map<string, nat>, q: nat, j: nat)
    requires p <= q < |pts| && pts[q].active > SpawnOpacity && Lucky(adj, ids, coins, q, j)
    requires Slot(q, j) !in PassPlan(pts, adj, ids, coins, p, c).slots
    ensures Get(PassPlan(pts, adj, ids, coins, p, c).counts, SlotKey(adj, ids, q, j)) >= MaxSparksPerLine
    decreases |pts| - p
  {
    var first := PointPlan(adj, ids, coins, p, 0, c);
    if p < |adj| && pts[p].active > SpawnOpacity && |adj[p]| > 0 {
      var rest := PassPlan(pts, adj, ids, coins, p + 1, first.counts);
      if q == p {
        assert Slot(q, j) !in first.slots;
        PointPlanComplete(adj, ids, coins, p, 0, c, j);
        PassPlanCounts(pts, adj, ids, coins, p + 1, first.counts);
      } else {
        assert Slot(q, j) !in rest.slots;
        PassPlanComplete(pts, adj, ids, coins, p + 1, first.counts, q, j);
      }
    } else {
      assert q != p;
      PassPlanComplete(pts, adj, ids, coins, p + 1, c, q, j);
    }
  }

  /** Every link is within the threshold. */
  predicate AllWithin(pts: seq<Point>, adj: seq<seq<nat>>, maxD2: real)
  {
    forall q, e :: 0 <= q < |adj| && e in adj[q] ==> Within(pts, q, e, maxD2)
  }

  /** Every link of `adj` within the threshold is still a link of `r`. */
  predicate KeptNear(pts: seq<Point>, adj: seq<seq<nat>>, r: seq<seq<nat>>, maxD2: real)
  {
    forall q, e :: 0 <= q < |adj| && q < |r| && e in adj[q] && Within(pts, q, e, maxD2) ==> e in r[q]
  }

  /** `after` is `before` with each point's opacities set from its distance
      band to the pointer, and nothing else changed. */
  predicate Activated(before: seq<Point>, after: seq<Point>, target: Position)
  {
    && |after| == |before|
    && (forall i :: 0 <= i < |after| ==> after[i].pos == before[i].pos && after[i].origin == before[i].origin)
    && (forall i :: 0 <= i < |after| ==>
          after[i].active == Band(Distance(target, after[i].pos)).line
          && after[i].labelActive == Band(Distance(target, after[i].pos)).text)
  }

  /** Links within the threshold stay within it when no point moves. */
  lemma WithinKept(pts: seq<Point>, moved: seq<Point>, adj: seq<seq<nat>>, maxD2: real)
    requires |moved| == |pts| && forall i :: 0 <= i < |pts| ==> moved[i].pos == pts[i].pos
    requires AllWithin(pts, adj, maxD2)
    ensures AllWithin(moved, adj, maxD2)
  {
  }

  /** A saturated network stays saturated when no point moves. */
  lemma SaturatedKept(pts: seq<Point>, moved: seq<Point>, adj: seq<seq<nat>>, maxD2: real)
    requires |moved| == |pts| && forall i :: 0 <= i < |pts| ==> moved[i].pos == pts[i].pos
    requires |adj| <= |pts| && Saturated(pts, adj, maxD2, |adj|)
    ensures Saturated(moved, adj, maxD2, |adj|)
  {
    forall a: nat, b: nat | a < |adj| && b < |adj| && a != b && Within(moved, a, b, maxD2)
      ensures |adj[a]| == MaxNeighbours || |adj[b]| == MaxNeighbours || b in adj[a] || a in adj[b]
    {
      assert Within(pts, a, b, maxD2);
    }
  }

  /** A spawned spark runs between two existing points at a speed in range. */
  lemma SpawnedValid(s: Spark, pts: seq<Point>, adj: seq<seq<nat>>, ids: seq<string>,
                     coins: seq<seq<real>>, draws: seq<seq<real>>)
    requires |ids| == |pts| && Spawned(s, pts, adj, ids, coins, draws)
    ensures s.fromPoint < |pts| && s.toPoint < |pts| && 0.005 <= s.speed < 0.015
  {
    var p :| SpawnedFrom(s, p, pts, adj, ids, coins, draws);
    var k :| SpawnedAt(s, p, k, pts, adj, ids, coins, draws);
  }

  /** A longer run of sparks and a count that only went up keep a line served. */
  lemma ServedGrow(out: seq<Spark>, grown: seq<Spark>, from: nat, next: map<string, nat>, later: map<string, nat>,
                   p: nat, k: nat, pts: seq<Point>, adj: seq<seq<nat>>, ids: seq<string>, coins: seq<seq<real>>)
    requires Served(out, from, next, p, k, pts, adj, ids, coins)
    requires |out| <= |grown| && grown[..|out|] == out
    requires forall key :: Get(next, key) <= Get(later, key)
    ensures Served(grown, from, later, p, k, pts, adj, ids, coins)
  {
    if && p < |pts| && p < |adj| && k < |adj[p]| && p < |ids| && adj[p][k] < |ids|
       && p < |coins| && k < |coins[p]| && pts[p].active > SpawnOpacity && coins[p][k] < SpawnChance
       && Get(next, LineKey(ids[p], ids[adj[p][k]])) < MaxSparksPerLine {
      var m :| from <= m < |out| && out[m].fromPoint == p && out[m].toPoint == adj[p][k];
      assert grown[m] == out[m];
    }
  }

  /** A new spark on the line from p to its k-th neighbour serves that line,
      and the lines already served stay served. */
  lemma SpawnServes(out: seq<Spark>, s: Spark, from: nat, next: map<string, nat>, p: nat, k: nat,
                    pts: seq<Point>, adj: seq<seq<nat>>, ids: seq<string>, coins: seq<seq<real>>)
    requires from <= |out| && p < |adj| && k < |adj[p]| && s.fromPoint == p && s.toPoint == adj[p][k]
    requires forall j :: 0 <= j < k ==> Served(out, from, next, p, j, pts, adj, ids, coins)
    ensures var later := next[s.lineKey := Get(next, s.lineKey) + 1];
      && (out + [s])[..from] == out[..from]
      && forall j :: 0 <= j <= k ==> Served(out + [s], from, later, p, j, pts, adj, ids, coins)
  {
    var grown := out + [s];
    var later := next[s.lineKey := Get(next, s.lineKey) + 1];
    assert grown[..|out|] == out;
    CountGrows(next, s.lineKey);
    forall j | 0 <= j < k ensures Served(grown, from, later, p, j, pts, adj, ids, coins) {
      ServedGrow(out, grown, from, next, later, p, j, pts, adj, ids, coins);
    }
    ServedByNew(out, s, from, later, p, k, pts, adj, ids, coins);
  }

  /** Counting one more spark on a key lowers no count. */
  lemma CountGrows(next: map<string, nat>, key: string)
    ensures forall other :: Get(next, other) <= Get(next[key := Get(next, key) + 1], other)
  {
  }

  /** The spark appended last serves its own line. */
  lemma ServedByNew(out: seq<Spark>, s: Spark, from: nat, later: map<string, nat>, p: nat, k: nat,
                    pts: seq<Point>, adj: seq<seq<nat>>, ids: seq<string>, coins: seq<seq<real>>)
    requires from <= |out| && p < |adj| && k < |adj[p]| && s.fromPoint == p && s.toPoint == adj[p][k]
    ensures Served(out + [s], from, later, p, k, pts, adj, ids, coins)
  {
    assert (out + [s])[|out|] == s;
  }

  /** The running count `next` bounds the sparks of `out` on every key, both
      stay within the limit, and `next` went up from `counts` by exactly the
      sparks added to `sparks`. */
  ghost predicate Tally(out: seq<Spark>, sparks: seq<Spark>, counts: map<string, nat>, next: map<string, nat>)
  {
    forall key ::
      && SparksOn(out, key) <= Get(next, key) && SparksOn(out, key) <= MaxSparksPerLine
      && SparksOn(out, key) + Get(counts, key) == SparksOn(sparks, key) + Get(next, key)
      && Get(counts, key) <= Get(next, key)
  }

  /** Adding one spark on a key below the limit and counting it keeps the tally. */
  lemma TallyStep(out: seq<Spark>, s: Spark, sparks: seq<Spark>, counts: map<string, nat>, next: map<string, nat>)
    requires Tally(out, sparks, counts, next) && Get(next, s.lineKey) < MaxSparksPerLine
    ensures Tally(out + [s], sparks, counts, next[s.lineKey := Get(next, s.lineKey) + 1])
  {
    var grown := out + [s];
    var later := next[s.lineKey := Get(next, s.lineKey) + 1];
    assert grown[..|grown| - 1] == out;
    forall key
      ensures SparksOn(grown, key) == SparksOn(out, key) + (if key == s.lineKey then 1 else 0)
      ensures Get(later, key) == Get(next, key) + (if key == s.lineKey then 1 else 0)
    {
    }
  }

  lemma SnocDistinct(rest: seq<Spark>, x: Spark)
    requires Distinct(rest) && x !in rest
    ensures Distinct(rest + [x])
  {
    var s := rest + [x];
    forall i, j | 0 <= i < j < |s| ensures s[i] != s[j] {
      assert s[i] == rest[i];
      if j < |rest| {
        assert s[j] == rest[j];
      }
    }
  }

  /** The inner loop of lines 407-423 for one active point p: each neighbour
      whose line has fewer than two sparks (by the running count) and whose
      chance test passes gets a new spark, and the count goes up by one. */
  method SpawnFrom(p: nat, pts: seq<Point>, adj: seq<seq<nat>>, ids: seq<string>,
                   coins: seq<seq<real>>, draws: seq<seq<real>>,
                   sparks: seq<Spark>, counts: map<string, nat>)
    returns (out: seq<Spark>, next: map<string, nat>)
    requires |adj| == |pts| && WellFormed(adj) && |ids| == |pts| && p < |pts|
    requires RandomDraws(|pts|, coins, draws) && pts[p].active > SpawnOpacity
    requires Distinct(sparks) && Tally(sparks, sparks, counts, counts)
    ensures |sparks| <= |out| && out[..|sparks|] == sparks && Distinct(out)
    ensures forall m :: |sparks| <= m < |out| ==> fresh(out[m]) && out[m].progress == 0.0
    ensures forall m :: |sparks| <= m < |out| ==> SpawnedFrom(out[m], p, pts, adj, ids, coins, draws)
    ensures Tally(out, sparks, counts, next)
    ensures forall k :: 0 <= k < MaxNeighbours ==> Served(out, |sparks|, next, p, k, pts, adj, ids, coins)
    ensures Realises(out[|sparks|..], PointPlan(adj, ids, coins, p, 0, counts).slots, pts, adj, ids, coins, draws)
    ensures next == PointPlan(adj, ids, coins, p, 0, counts).counts
  {
    assert ListOk(adj, p);
    out := sparks;
    next := counts;
    ghost var done: seq<Slot> := [];
    var k := 0;
    while k < |adj[p]|
      invariant 0 <= k <= |adj[p]|
      invariant |sparks| <= |out| && out[..|sparks|] == sparks && Distinct(out)
      invariant forall m :: |sparks| <= m < |out| ==> SpawnedFrom(out[m], p, pts, adj, ids, coins, draws)
      invariant forall m :: |sparks| <= m < |out| ==> fresh(out[m]) && out[m].progress == 0.0
      invariant Tally(out, sparks, counts, next)
      invariant forall j :: 0 <= j < k ==> Served(out, |sparks|, next, p, j, pts, adj, ids, coins)
      invariant Realises(out[|sparks|..], done, pts, adj, ids, coins, draws)
      invariant PlannedSoFar(done, PointPlan(adj, ids, coins, p, k, next), PointPlan(adj, ids, coins, p, 0, counts))
    {
      ghost var before := out;
      ghost var counted := next;
      out, next := SpawnSlot(p, k, pts, adj, ids, coins, draws, sparks, counts, out, next);
      forall m | |sparks| <= m < |out| ensures fresh(out[m]) && out[m].progress == 0.0 {
        if m < |before| {
          assert out[m] == before[m];
        }
      }
      SlotPlanned(sparks, before, out, done, counted, next, p, k, PointPlan(adj, ids, coins, p, 0, counts),
                  pts, adj, ids, coins, draws);
      done := DoneAfter(done, adj, ids, coins, counted, p, k);
      k := k + 1;
    }
    assert PointPlan(adj, ids, coins, p, k, next) == Plan([], next);
    assert done + [] == done;
    forall j | 0 <= j < MaxNeighbours ensures Served(out, |sparks|, next, p, j, pts, adj, ids, coins) {
      if j >= |adj[p]| {
        assert !(j < |adj[p]|);
      }
    }
  }

  /** `done` followed by what `rest` still plans is the whole plan `all`. */
  predicate PlannedSoFar(done: seq<Slot>, rest: Plan, all: Plan)
  {
    done + rest.slots == all.slots && rest.counts == all.counts
  }

  /** Moving the next planned line from `rest` to `done`. */
  lemma PlannedStep(done: seq<Slot>, slot: Slot, rest: Plan, all: Plan)
    requires PlannedSoFar(done, Plan([slot] + rest.slots, rest.counts), all)
    ensures PlannedSoFar(done + [slot], rest, all)
  {
    assert done + ([slot] + rest.slots) == (done + [slot]) + rest.slots;
  }

  /** Moving the lines planned for one point from `rest` to `done`. */
  lemma PlannedConcat(done: seq<Slot>, more: seq<Slot>, rest: Plan, all: Plan)
    requires PlannedSoFar(done, Plan(more + rest.slots, rest.counts), all)
    ensures PlannedSoFar(done + more, rest, all)
  {
    assert done + (more + rest.slots) == (done + more) + rest.slots;
  }

  /** The planned lines once line k of point p has had its turn. */
  function DoneAfter(done: seq<Slot>, adj: seq<seq<nat>>, ids: seq<string>, coins: seq<seq<real>>,
                     c: map<string, nat>, p: nat, k: nat): seq<Slot>
  {
    if Fires(adj, ids, coins, c, p, k) then done + [Slot(p, k)] else done
  }

  /** The turn of line k of point p, from run `before` and count `counted`
      to run `out` and count `next`, follows the plan `all`. */
  lemma SlotPlanned(sparks: seq<Spark>, before: seq<Spark>, out: seq<Spark>, done: seq<Slot>,
                    counted: map<string, nat>, next: map<string, nat>, p: nat, k: nat, all: Plan,
                    pts: seq<Point>, adj: seq<seq<nat>>, ids: seq<string>, coins: seq<seq<real>>, draws: seq<seq<real>>)
    requires p < |adj| && k < |adj[p]| && |sparks| <= |before| <= |out| && out[..|before|] == before
    requires Realises(before[|sparks|..], done, pts, adj, ids, coins, draws)
    requires PlannedSoFar(done, PointPlan(adj, ids, coins, p, k, counted), all)
    requires Fires(adj, ids, coins, counted, p, k) ==>
      |out| == |before| + 1 && SpawnedAt(out[|before|], p, k, pts, adj, ids, coins, draws)
      && next == Bump(counted, SlotKey(adj, ids, p, k))
    requires !Fires(adj, ids, coins, counted, p, k) ==> out == before && next == counted
    ensures Realises(out[|sparks|..], DoneAfter(done, adj, ids, coins, counted, p, k), pts, adj, ids, coins, draws)
    ensures PlannedSoFar(DoneAfter(done, adj, ids, coins, counted, p, k), PointPlan(adj, ids, coins, p, k + 1, next), all)
  {
    PointPlanStep(adj, ids, coins, p, k, counted);
    if Fires(adj, ids, coins, counted, p, k) {
      RealisesSnoc(sparks, before, out, done, Slot(p, k), pts, adj, ids, coins, draws);
      PlannedStep(done, Slot(p, k), PointPlan(adj, ids, coins, p, k + 1, next), all);
    }
  }

  /** The turn of point p in the pass, from run `before` and count `counted`
      to run `out` and count `next`, follows the plan `all`. */
  lemma PointPlanned(sparks: seq<Spark>, before: seq<Spark>, out: seq<Spark>, done: seq<Slot>,
                     counted: map<string, nat>, next: map<string, nat>, p: nat, all: Plan,
                     pts: seq<Point>, adj: seq<seq<nat>>, ids: seq<string>, coins: seq<seq<real>>, draws: seq<seq<real>>)
    requires p < |pts| && p < |adj| && pts[p].active > SpawnOpacity && |adj[p]| > 0
    requires |sparks| <= |before| <= |out| && out[..|before|] == before
    requires Realises(before[|sparks|..], done, pts, adj, ids, coins, draws)
    requires PlannedSoFar(done, PassPlan(pts, adj, ids, coins, p, counted), all)
    requires Realises(out[|before|..], PointPlan(adj, ids, coins, p, 0, counted).slots, pts, adj, ids, coins, draws)
    requires next == PointPlan(adj, ids, coins, p, 0, counted).counts
    ensures Realises(out[|sparks|..], done + PointPlan(adj, ids, coins, p, 0, counted).slots, pts, adj, ids, coins, draws)
    ensures PlannedSoFar(done + PointPlan(adj, ids, coins, p, 0, counted).slots, PassPlan(pts, adj, ids, coins, p + 1, next), all)
  {
    var first := PointPlan(adj, ids, coins, p, 0, counted);
    RealisesConcat(sparks, before, out, done, first.slots, pts, adj, ids, coins, draws);
    PlannedConcat(done, first.slots, PassPlan(pts, adj, ids, coins, p + 1, next), all);
  }

  /** One turn of PointPlan. */
  lemma PointPlanStep(adj: seq<seq<nat>>, ids: seq<string>, coins: seq<seq<real>>, p: nat, k: nat, c: map<string, nat>)
    requires p < |adj| && k < |adj[p]|
    ensures PointPlan(adj, ids, coins, p, k, c) ==
      if Fires(adj, ids, coins, c, p, k) then
        Plan([Slot(p, k)] + PointPlan(adj, ids, coins, p, k + 1, Bump(c, SlotKey(adj, ids, p, k))).slots,
             PointPlan(adj, ids, coins, p, k + 1, Bump(c, SlotKey(adj, ids, p, k))).counts)
      else PointPlan(adj, ids, coins, p, k + 1, c)
  {
  }

  /** A run that grew by one spark for `slot` realises one more planned line. */
  lemma RealisesSnoc(sparks: seq<Spark>, before: seq<Spark>, out: seq<Spark>, done: seq<Slot>, slot: Slot,
                     pts: seq<Point>, adj: seq<seq<nat>>, ids: seq<string>, coins: seq<seq<real>>, draws: seq<seq<real>>)
    requires |sparks| <= |before| && |out| == |before| + 1 && out[..|before|] == before
    requires Realises(before[|sparks|..], done, pts, adj, ids, coins, draws)
    requires SpawnedAt(out[|before|], slot.point, slot.index, pts, adj, ids, coins, draws)
    ensures Realises(out[|sparks|..], done + [slot], pts, adj, ids, coins, draws)
  {
    var added := out[|sparks|..];
    forall m | 0 <= m < |added| - 1 ensures added[m] == before[|sparks|..][m] {
      assert added[m] == out[|sparks| + m];
    }
  }

  /** A run that grew by the sparks of `more` realises those planned lines too. */
  lemma RealisesConcat(sparks: seq<Spark>, before: seq<Spark>, out: seq<Spark>, done: seq<Slot>, more: seq<Slot>,
                       pts: seq<Point>, adj: seq<seq<nat>>, ids: seq<string>, coins: seq<seq<real>>, draws: seq<seq<real>>)
    requires |sparks| <= |before| <= |out| && out[..|before|] == before
    requires Realises(before[|sparks|..], done, pts, adj, ids, coins, draws)
    requires Realises(out[|before|..], more, pts, adj, ids, coins, draws)
    ensures Realises(out[|sparks|..], done + more, pts, adj, ids, coins, draws)
  {
    var added := out[|sparks|..];
    var slots := done + more;
    forall m | 0 <= m < |added|
      ensures SpawnedAt(added[m], slots[m].point, slots[m].index, pts, adj, ids, coins, draws)
    {
      if m < |done| {
        assert added[m] == before[|sparks|..][m];
      } else {
        assert added[m] == out[|before|..][m - |done|];
      }
    }
  }

  /** One turn of the inner loop of lines 408-422: the line from point p to
      its k-th neighbour gets a new spark when its running count is below the
      limit and the chance test passes. */
  method SpawnSlot(p: nat, k: nat, pts: seq<Point>, adj: seq<seq<nat>>, ids: seq<string>,
                   coins: seq<seq<real>>, draws: seq<seq<real>>,
                   sparks: seq<Spark>, counts: map<string, nat>, out: seq<Spark>, next: map<string, nat>)
    returns (grown: seq<Spark>, later: map<string, nat>)
    requires |adj| == |pts| && WellFormed(adj) && |ids| == |pts| && p < |pts| && k < |adj[p]|
    requires RandomDraws(|pts|, coins, draws) && pts[p].active > SpawnOpacity
    requires |sparks| <= |out| && out[..|sparks|] == sparks && Distinct(out)
    requires forall m :: |sparks| <= m < |out| ==> SpawnedFrom(out[m], p, pts, adj, ids, coins, draws)
    requires Tally(out, sparks, counts, next)
    requires forall j :: 0 <= j < k ==> Served(out, |sparks|, next, p, j, pts, adj, ids, coins)
    ensures |out| <= |grown| <= |out| + 1 && grown[..|out|] == out && grown[..|sparks|] == sparks && Distinct(grown)
    ensures forall m :: |out| <= m < |grown| ==> fresh(grown[m]) && grown[m].progress == 0.0
    ensures forall m :: |sparks| <= m < |grown| ==> SpawnedFrom(grown[m], p, pts, adj, ids, coins, draws)
    ensures Tally(grown, sparks, counts, later)
    ensures forall j :: 0 <= j <= k ==> Served(grown, |sparks|, later, p, j, pts, adj, ids, coins)
    // the spawn rule: a spark exactly when the running count is below two and the chance test passes
    ensures Fires(adj, ids, coins, next, p, k) ==>
      |grown| == |out| + 1 && SpawnedAt(grown[|out|], p, k, pts, adj, ids, coins, draws)
      && later == Bump(next, SlotKey(adj, ids, p, k))
    ensures !Fires(adj, ids, coins, next, p, k) ==> grown == out && later == next
  {
    assert ListOk(adj, p);
    var to := adj[p][k];
    assert to in adj[p];
    var current := Get(next, LineKey(ids[p], ids[to]));
    assert SlotKey(adj, ids, p, k) == LineKey(ids[p], ids[to]);
    if current < MaxSparksPerLine && coins[p][k] < SpawnChance {
      var spark := NewSpark(p, k, pts, adj, ids, coins, draws);
      assert spark !in out;
      grown := out + [spark];
      later := next[spark.lineKey := Get(next, spark.lineKey) + 1];
      SlotFilled(p, k, pts, adj, ids, coins, draws, sparks, counts, out, next, spark, grown, later);
      SlotFires(p, k, pts, adj, ids, coins, draws, out, next, spark, grown, later);
    } else {
      grown, later := out, next;
      SlotSkipped(p, k, pts, adj, ids, coins, sparks, out, next);
    }
  }

  /** A line whose chance test failed, or whose key is at the limit, is served
      without a new spark. */
  lemma SlotSkipped(p: nat, k: nat, pts: seq<Point>, adj: seq<seq<nat>>, ids: seq<string>, coins: seq<seq<real>>,
                    sparks: seq<Spark>, out: seq<Spark>, next: map<string, nat>)
    requires p < |adj| && k < |adj[p]| && adj[p][k] < |ids| && p < |ids| && p < |coins| && k < |coins[p]|
    requires !(Get(next, LineKey(ids[p], ids[adj[p][k]])) < MaxSparksPerLine && coins[p][k] < SpawnChance)
    requires forall j :: 0 <= j < k ==> Served(out, |sparks|, next, p, j, pts, adj, ids, coins)
    ensures forall j :: 0 <= j <= k ==> Served(out, |sparks|, next, p, j, pts, adj, ids, coins)
    ensures !Fires(adj, ids, coins, next, p, k)
  {
  }

  /** Line 420: the spark for the k-th line of p, from that line's speed draw. */
  method NewSpark(p: nat, k: nat, pts: seq<Point>, adj: seq<seq<nat>>, ids: seq<string>,
                  coins: seq<seq<real>>, draws: seq<seq<real>>) returns (spark: Spark)
    requires RandomDraws(|pts|, coins, draws) && |adj| == |pts| && |ids| == |pts| && p < |pts| && k < MaxNeighbours
    requires k < |adj[p]| && adj[p][k] < |pts| && pts[p].active > SpawnOpacity && coins[p][k] < SpawnChance
    ensures fresh(spark) && spark.progress == 0.0
    ensures SpawnedAt(spark, p, k, pts, adj, ids, coins, draws)
  {
    spark := new Spark(p, adj[p][k], ids[p], ids[adj[p][k]], draws[p][k]);
  }

  /** What appending a spark spawned on the k-th line of p, below the limit,
      does to the facts SpawnSlot keeps. */
  lemma SlotFilled(p: nat, k: nat, pts: seq<Point>, adj: seq<seq<nat>>, ids: seq<string>,
                   coins: seq<seq<real>>, draws: seq<seq<real>>,
                   sparks: seq<Spark>, counts: map<string, nat>, out: seq<Spark>, next: map<string, nat>, s: Spark,
                   grown: seq<Spark>, bumped: map<string, nat>)
    requires SpawnedAt(s, p, k, pts, adj, ids, coins, draws) && s !in out
    requires grown == out + [s] && bumped == next[s.lineKey := Get(next, s.lineKey) + 1]
    requires Get(next, s.lineKey) < MaxSparksPerLine
    requires |sparks| <= |out| && out[..|sparks|] == sparks && Distinct(out)
    requires forall m :: |sparks| <= m < |out| ==> SpawnedFrom(out[m], p, pts, adj, ids, coins, draws)
    requires Tally(out, sparks, counts, next)
    requires forall j :: 0 <= j < k ==> Served(out, |sparks|, next, p, j, pts, adj, ids, coins)
    ensures grown[..|out|] == out && grown[..|sparks|] == sparks && Distinct(grown)
    ensures forall m :: |sparks| <= m < |grown| ==> SpawnedFrom(grown[m], p, pts, adj, ids, coins, draws)
    ensures Tally(grown, sparks, counts, bumped)
    ensures forall j :: 0 <= j <= k ==> Served(grown, |sparks|, bumped, p, j, pts, adj, ids, coins)
  {
    assert SpawnedFrom(s, p, pts, adj, ids, coins, draws);
    SnocDistinct(out, s);
    TallyStep(out, s, sparks, counts, next);
    SpawnServes(out, s, |sparks|, next, p, k, pts, adj, ids, coins);
    assert grown[..|out|] == out && grown[..|sparks|] == sparks && grown[|out|] == s;
    forall m | |sparks| <= m < |grown| ensures SpawnedFrom(grown[m], p, pts, adj, ids, coins, draws) {
      if m < |out| {
        assert grown[m] == out[m];
      }
    }
  }

  /** A filled slot is one that fires: its spark is the last one and its key's count goes up by one. */
  lemma SlotFires(p: nat, k: nat, pts: seq<Point>, adj: seq<seq<nat>>, ids: seq<string>,
                  coins: seq<seq<real>>, draws: seq<seq<real>>,
                  out: seq<Spark>, next: map<string, nat>, s: Spark, grown: seq<Spark>, bumped: map<string, nat>)
    requires SpawnedAt(s, p, k, pts, adj, ids, coins, draws)
    requires grown == out + [s] && bumped == next[s.lineKey := Get(next, s.lineKey) + 1]
    requires Get(next, s.lineKey) < MaxSparksPerLine
    ensures Fires(adj, ids, coins, next, p, k)
    ensures |grown| == |out| + 1 && SpawnedAt(grown[|out|], p, k, pts, adj, ids, coins, draws)
      && bumped == Bump(next, SlotKey(adj, ids, p, k))
  {
    assert grown[|out|] == s;
  }

  /** The spawn pass of lines 405-424 over all points, in order. */
  method SpawnSparks(pts: seq<Point>, adj: seq<seq<nat>>, ids: seq<string>,
                     coins: seq<seq<real>>, draws: seq<seq<real>>,
                     sparks: seq<Spark>, counts: map<string, nat>)
    returns (out: seq<Spark>, next: map<string, nat>)
    requires |adj| == |pts| && WellFormed(adj) && |ids| == |pts|
    requires RandomDraws(|pts|, coins, draws)
    requires Distinct(sparks) && Tally(sparks, sparks, counts, counts)
    ensures |sparks| <= |out| && out[..|sparks|] == sparks && Distinct(out)
    ensures forall m :: |sparks| <= m < |out| ==> fresh(out[m]) && out[m].progress == 0.0
    ensures forall m :: |sparks| <= m < |out| ==> Spawned(out[m], pts, adj, ids, coins, draws)
    ensures Tally(out, sparks, counts, next)
    ensures forall p, k :: 0 <= p < |pts| && 0 <= k < MaxNeighbours ==> Served(out, |sparks|, next, p, k, pts, adj, ids, coins)
    ensures Realises(out[|sparks|..], PassPlan(pts, adj, ids, coins, 0, counts).slots, pts, adj, ids, coins, draws)
    ensures next == PassPlan(pts, adj, ids, coins, 0, counts).counts
  {
    out := sparks;
    next := counts;
    ghost var done: seq<Slot> := [];
    var p := 0;
    while p < |pts|
      invariant 0 <= p <= |pts|
      invariant |sparks| <= |out| && out[..|sparks|] == sparks && Distinct(out)
      invariant forall m :: |sparks| <= m < |out| ==> fresh(out[m]) && out[m].progress == 0.0
      invariant forall m :: |sparks| <= m < |out| ==> Spawned(out[m], pts, adj, ids, coins, draws)
      invariant Tally(out, sparks, counts, next)
      invariant forall q, k :: 0 <= q < p && 0 <= k < MaxNeighbours ==> Served(out, |sparks|, next, q, k, pts, adj, ids, coins)
      invariant Realises(out[|sparks|..], done, pts, adj, ids, coins, draws)
      invariant PlannedSoFar(done, PassPlan(pts, adj, ids, coins, p, next), PassPlan(pts, adj, ids, coins, 0, counts))
    {
      ghost var before := out;
      out, next, done := SpawnTurn(p, pts, adj, ids, coins, draws, sparks, counts, out, next, done);
      forall m | |sparks| <= m < |out| ensures fresh(out[m]) && out[m].progress == 0.0 {
        if m < |before| {
          assert out[m] == before[m];
        }
      }
      p := p + 1;
    }
  }

  /** The turn of point p in the spawn pass (lines 406-423): it spawns on its lines when it is
      active and has any. Its contract carries the pass's loop invariant from p to p + 1. */
  method SpawnTurn(p: nat, pts: seq<Point>, adj: seq<seq<nat>>, ids: seq<string>,
                   coins: seq<seq<real>>, draws: seq<seq<real>>, sparks: seq<Spark>, counts: map<string, nat>,
                   out0: seq<Spark>, next0: map<string, nat>, ghost done0: seq<Slot>)
    returns (out: seq<Spark>, next: map<string, nat>, ghost done: seq<Slot>)
    requires |adj| == |pts| && WellFormed(adj) && |ids| == |pts| && p < |pts|
    requires RandomDraws(|pts|, coins, draws)
    requires |sparks| <= |out0| && out0[..|sparks|] == sparks && Distinct(out0)
    requires forall m :: |sparks| <= m < |out0| ==> Spawned(out0[m], pts, adj, ids, coins, draws)
    requires Tally(out0, sparks, counts, next0)
    requires forall q, k :: 0 <= q < p && 0 <= k < MaxNeighbours ==> Served(out0, |sparks|, next0, q, k, pts, adj, ids, coins)
    requires Realises(out0[|sparks|..], done0, pts, adj, ids, coins, draws)
    requires PlannedSoFar(done0, PassPlan(pts, adj, ids, coins, p, next0), PassPlan(pts, adj, ids, coins, 0, counts))
    ensures |out0| <= |out| && out[..|out0|] == out0
    ensures forall m :: |out0| <= m < |out| ==> fresh(out[m]) && out[m].progress == 0.0
    ensures |sparks| <= |out| && out[..|sparks|] == sparks && Distinct(out)
    ensures forall m :: |sparks| <= m < |out| ==> Spawned(out[m], pts, adj, ids, coins, draws)
    ensures Tally(out, sparks, counts, next)
    ensures forall q, k :: 0 <= q < p + 1 && 0 <= k < MaxNeighbours ==> Served(out, |sparks|, next, q, k, pts, adj, ids, coins)
    ensures Realises(out[|sparks|..], done, pts, adj, ids, coins, draws)
    ensures PlannedSoFar(done, PassPlan(pts, adj, ids, coins, p + 1, next), PassPlan(pts, adj, ids, coins, 0, counts))
  {
    if pts[p].active > SpawnOpacity && |adj[p]| > 0 {
      TallyRestart(out0, sparks, counts, next0);
      out, next := SpawnFrom(p, pts, adj, ids, coins, draws, out0, next0);
      PointDone(p, pts, adj, ids, coins, draws, sparks, counts, out0, next0, out, next);
      PointPlanned(sparks, out0, out, done0, next0, next, p, PassPlan(pts, adj, ids, coins, 0, counts),
                   pts, adj, ids, coins, draws);
      done := done0 + PointPlan(adj, ids, coins, p, 0, next0).slots;
    } else {
      out, next, done := out0, next0, done0;
      PointSkipped(p, pts, adj, ids, coins, sparks, out, next, done, PassPlan(pts, adj, ids, coins, 0, counts));
    }
  }

  /** The turn of a point that is not active or has no lines spawns nothing:
      its lines count as served and the plan still ahead starts at p + 1. */
  lemma PointSkipped(p: nat, pts: seq<Point>, adj: seq<seq<nat>>, ids: seq<string>, coins: seq<seq<real>>,
                     sparks: seq<Spark>, out: seq<Spark>, next: map<string, nat>, done: seq<Slot>, all: Plan)
    requires p < |pts| && p < |adj| && !(pts[p].active > SpawnOpacity && |adj[p]| > 0)
    requires forall q, k :: 0 <= q < p && 0 <= k < MaxNeighbours ==> Served(out, |sparks|, next, q, k, pts, adj, ids, coins)
    requires PlannedSoFar(done, PassPlan(pts, adj, ids, coins, p, next), all)
    ensures forall q, k :: 0 <= q < p + 1 && 0 <= k < MaxNeighbours ==> Served(out, |sparks|, next, q, k, pts, adj, ids, coins)
    ensures PlannedSoFar(done, PassPlan(pts, adj, ids, coins, p + 1, next), all)
  {
    forall q, k | 0 <= q < p + 1 && 0 <= k < MaxNeighbours ensures Served(out, |sparks|, next, q, k, pts, adj, ids, coins) {
      if q == p {
        assert !(p < |pts| && p < |adj| && k < |adj[p]| && pts[p].active > SpawnOpacity);
      }
    }
  }

  /** The facts the outer spawn loop keeps, once point p has had its turn:
      `before`/`counted` are the run and count before it, `out`/`next` after. */
  lemma PointDone(p: nat, pts: seq<Point>, adj: seq<seq<nat>>, ids: seq<string>,
                  coins: seq<seq<real>>, draws: seq<seq<real>>, sparks: seq<Spark>, counts: map<string, nat>,
                  before: seq<Spark>, counted: map<string, nat>, out: seq<Spark>, next: map<string, nat>)
    requires |sparks| <= |before| && before[..|sparks|] == sparks
    requires |before| <= |out| && out[..|before|] == before
    requires Tally(before, sparks, counts, counted) && Tally(out, before, counted, next)
    requires forall m :: |sparks| <= m < |before| ==> Spawned(before[m], pts, adj, ids, coins, draws)
    requires forall m :: |before| <= m < |out| ==> SpawnedFrom(out[m], p, pts, adj, ids, coins, draws)
    requires forall q, k :: 0 <= q < p && 0 <= k < MaxNeighbours ==> Served(before, |sparks|, counted, q, k, pts, adj, ids, coins)
    requires forall k :: 0 <= k < MaxNeighbours ==> Served(out, |before|, next, p, k, pts, adj, ids, coins)
    ensures out[..|sparks|] == sparks && Tally(out, sparks, counts, next)
    ensures forall m :: |sparks| <= m < |out| ==> Spawned(out[m], pts, adj, ids, coins, draws)
    ensures forall q, k :: 0 <= q < p + 1 && 0 <= k < MaxNeighbours ==> Served(out, |sparks|, next, q, k, pts, adj, ids, coins)
  {
    TallyJoin(sparks, before, out, counts, counted, next);
    assert out[..|sparks|] == sparks;
    ServedAfterPoint(p, pts, adj, ids, coins, |sparks|, before, counted, out, next);
    forall m | |sparks| <= m < |out| ensures Spawned(out[m], pts, adj, ids, coins, draws) {
      if m < |before| {
        assert out[m] == before[m];
      } else {
        assert SpawnedFrom(out[m], p, pts, adj, ids, coins, draws);
      }
    }
  }

  /** The lines of the points before p stay served as the run grows, and those
      of p itself are served from the start of the pass. */
  lemma ServedAfterPoint(p: nat, pts: seq<Point>, adj: seq<seq<nat>>, ids: seq<string>, coins: seq<seq<real>>,
                         from: nat, before: seq<Spark>, counted: map<string, nat>, out: seq<Spark>, next: map<string, nat>)
    requires from <= |before| <= |out| && out[..|before|] == before
    requires forall key :: Get(counted, key) <= Get(next, key)
    requires forall q, k :: 0 <= q < p && 0 <= k < MaxNeighbours ==> Served(before, from, counted, q, k, pts, adj, ids, coins)
    requires forall k :: 0 <= k < MaxNeighbours ==> Served(out, |before|, next, p, k, pts, adj, ids, coins)
    ensures forall q, k :: 0 <= q < p + 1 && 0 <= k < MaxNeighbours ==> Served(out, from, next, q, k, pts, adj, ids, coins)
  {
    forall q, k | 0 <= q < p + 1 && 0 <= k < MaxNeighbours ensures Served(out, from, next, q, k, pts, adj, ids, coins) {
      if q < p {
        ServedGrow(before, out, from, counted, next, q, k, pts, adj, ids, coins);
      } else {
        ServedFrom(out, |before|, from, next, p, k, pts, adj, ids, coins);
      }
    }
  }

  /** A tally over a run restarts from that run and its own count. */
  lemma TallyRestart(out: seq<Spark>, sparks: seq<Spark>, counts: map<string, nat>, next: map<string, nat>)
    requires Tally(out, sparks, counts, next)
    ensures Tally(out, out, next, next)
  {
  }

  /** Two tallies in a row make one. */
  lemma TallyJoin(a: seq<Spark>, b: seq<Spark>, c: seq<Spark>,
                  ca: map<string, nat>, cb: map<string, nat>, cc: map<string, nat>)
    requires Tally(b, a, ca, cb) && Tally(c, b, cb, cc)
    ensures Tally(c, a, ca, cc)
  {
  }

  /** A line served by a spark at or after `later` is served by one at or after
      any earlier index. */
  lemma ServedFrom(out: seq<Spark>, later: nat, from: nat, next: map<string, nat>, p: nat, k: nat,
                   pts: seq<Point>, adj: seq<seq<nat>>, ids: seq<string>, coins: seq<seq<real>>)
    requires from <= later && Served(out, later, next, p, k, pts, adj, ids, coins)
    ensures Served(out, from, next, p, k, pts, adj, ids, coins)
  {
  }

  // ---------------------------------------------------------------------------
  // The effect's state
  // ---------------------------------------------------------------------------

  class Network {
    var width: real
    var height: real
    /** The pointer, or the centre until it moves. */
    var target: Position
    var points: seq<Point>
    /** `closest` of each point, as indices into `points`. */
    var closest: seq<seq<nat>>
    var sparks: seq<Spark>
    var lastSparkSpawn: int
    var lastConnectionUpdate: int
    var maxConnectionDistance: real

    /** Well-formed lists of the right length, and live sparks that are
        distinct, within their ranges, on existing points, and at most two per
        line key. */
    ghost predicate Valid()
      reads this, sparks
    {
      && |closest| == |points| && WellFormed(closest)
      && Distinct(sparks)
      && (forall i :: 0 <= i < |sparks| ==>
            sparks[i].Valid() && sparks[i].fromPoint < |points| && sparks[i].toPoint < |points|)
      && (forall key :: SparksOn(sparks, key) <= MaxSparksPerLine)
    }

    /** The effect's set-up, lines 105-118 and 461: a viewport of the given
        size, the grid and its lists, no sparks, both timers at `now`. */
    constructor (w: real, h: real, now: int, jitter: seq<Jitter>)
      requires w >= 0.0 && h >= 0.0
      requires |jitter| >= GridDivisions * GridDivisions
      requires forall k :: 0 <= k < |jitter| ==> 0.0 <= jitter[k].dx < 1.0 && 0.0 <= jitter[k].dy < 1.0
      ensures Valid() && sparks == []
      ensures width == w && height == h && target == Position(w / 2.0, h / 2.0)
      ensures maxConnectionDistance == ConnectionDistance(w, h)
      ensures lastSparkSpawn == now && lastConnectionUpdate == now
      ensures Initialised(points, closest, w, h)
    {
      width := w;
      height := h;
      target := Position(w / 2.0, h / 2.0);
      sparks := [];
      lastSparkSpawn := now;
      lastConnectionUpdate := now;
      maxConnectionDistance := ConnectionDistance(w, h);
      var pts, adj := InitPoints(w, h, jitter);
      points := pts;
      closest := adj;
    }

    /** Lines 432-435. */
    method HandleMouseMove(x: real, y: real)
      modifies this
      ensures target == Position(x, y)
      ensures points == old(points) && closest == old(closest) && sparks == old(sparks)
      ensures width == old(width) && height == old(height) && maxConnectionDistance == old(maxConnectionDistance)
      ensures lastSparkSpawn == old(lastSparkSpawn) && lastConnectionUpdate == old(lastConnectionUpdate)
    {
      target := Position(x, y);
    }

    /** Lines 442-452: new size, centred pointer, new threshold, a fresh grid
        and no sparks. */
    method HandleResize(w: real, h: real, jitter: seq<Jitter>)
      requires w >= 0.0 && h >= 0.0
      requires |jitter| >= GridDivisions * GridDivisions
      requires forall k :: 0 <= k < |jitter| ==> 0.0 <= jitter[k].dx < 1.0 && 0.0 <= jitter[k].dy < 1.0
      modifies this
      ensures Valid() && sparks == []
      ensures width == w && height == h && target == Position(w / 2.0, h / 2.0)
      ensures maxConnectionDistance == ConnectionDistance(w, h)
      ensures lastSparkSpawn == old(lastSparkSpawn) && lastConnectionUpdate == old(lastConnectionUpdate)
      ensures Initialised(points, closest, w, h)
    {
      width := w;
      height := h;
      target := Position(w / 2.0, h / 2.0);
      maxConnectionDistance := ConnectionDistance(w, h);
      var pts, adj := InitPoints(w, h, jitter);
      points := pts;
      closest := adj;
      sparks := [];
    }

    /** One frame of shiftPoint (lines 291-313) for point i: the point sits at
        fraction `ease` of the way from `start` to `end`; on the last frame its
        drift anchor moves there too. The easing curve itself is not modelled. */
    method ShiftFrame(i: nat, start: Position, end: Position, ease: real, last: bool)
      requires Valid() && i < |points| && 0.0 <= ease <= 1.0
      modifies this
      ensures Valid()
      ensures |points| == old(|points|)
      ensures points[i].pos == Position(Lerp(start.x, end.x, ease), Lerp(start.y, end.y, ease))
      ensures points[i].origin == if last then points[i].pos else old(points[i].origin)
      ensures points[i].active == old(points[i].active) && points[i].labelActive == old(points[i].labelActive)
      ensures forall k :: 0 <= k < |points| && k != i ==> points[k] == old(points[k])
      ensures closest == old(closest) && sparks == old(sparks) && target == old(target)
    {
      var pos := Position(Lerp(start.x, end.x, ease), Lerp(start.y, end.y, ease));
      var p := points[i].(pos := pos);
      if last {
        p := p.(origin := pos);
      }
      points := points[i := p];
    }

    /** One frame of animate, lines 317-429, drawing left out: a connection
        update when more than a second has passed (`connectionNow` is the
        first `Date.now()`), the activity band on every point, the spark
        update, and a spawn pass when more than 300 ms have passed since the
        last one (`spawnNow` is the second `Date.now()`). `ids` are the
        `toFixed(2)` position strings of the points, and `coins` and `draws`
        the `Math.random()` values of the spawn pass. */
    method Animate(connectionNow: int, spawnNow: int, ids: seq<string>, coins: seq<seq<real>>, draws: seq<seq<real>>)
      requires Valid() && |ids| == |points| && RandomDraws(|points|, coins, draws)
      modifies this, sparks
      ensures Valid()
      ensures connectionNow - old(lastConnectionUpdate) > ConnectionUpdateInterval ==>
        && lastConnectionUpdate == connectionNow && AllWithin(points, closest, Squared(maxConnectionDistance))
        && KeptNear(old(points), old(closest), closest, Squared(maxConnectionDistance))
        && closest == RefreshUpTo(old(points), old(closest), Squared(maxConnectionDistance), |old(points)|)
        && |closest| == |points| && Saturated(points, closest, Squared(maxConnectionDistance), |closest|)
      ensures connectionNow - old(lastConnectionUpdate) <= ConnectionUpdateInterval ==>
        lastConnectionUpdate == old(lastConnectionUpdate) && closest == old(closest)
      ensures Activated(old(points), points, target)
      ensures var kept := Survivors(old(sparks), old(Progresses(sparks)), points);
        && |kept| <= |sparks| && sparks[..|kept|] == kept
        && (forall s :: s in kept ==> s.progress == old(s.progress) + s.speed)
        && (forall m :: |kept| <= m < |sparks| ==>
              fresh(sparks[m]) && sparks[m].progress == 0.0 && Spawned(sparks[m], points, closest, ids, coins, draws))
        && (spawnNow - old(lastSparkSpawn) <= SparkSpawnInterval ==> sparks == kept)
      ensures lastSparkSpawn == if spawnNow - old(lastSparkSpawn) > SparkSpawnInterval then spawnNow else old(lastSparkSpawn)
      ensures spawnNow - old(lastSparkSpawn) > SparkSpawnInterval ==>
        var kept := Survivors(old(sparks), old(Progresses(sparks)), points);
        |kept| <= |sparks| &&
        Realises(sparks[|kept|..], PassPlan(points, closest, ids, coins, 0, KeyCounts(old(sparks))).slots,
                 points, closest, ids, coins, draws)
      ensures width == old(width) && height == old(height) && target == old(target)
      ensures maxConnectionDistance == old(maxConnectionDistance)
    {
      ghost var ps := Progresses(sparks);
      RefreshPoints(connectionNow);
      assert Progresses(sparks) == ps;
      ghost var moved := points;
      RefreshSparks(spawnNow, ids, coins, draws);
      assert points == moved;
    }

    /** The point half of a frame, lines 317-364: connections, then activity. */
    method RefreshPoints(connectionNow: int)
      requires Valid()
      modifies this
      ensures Valid()
      ensures connectionNow - old(lastConnectionUpdate) > ConnectionUpdateInterval ==>
        && lastConnectionUpdate == connectionNow && AllWithin(points, closest, Squared(maxConnectionDistance))
        && KeptNear(old(points), old(closest), closest, Squared(maxConnectionDistance))
        && closest == RefreshUpTo(old(points), old(closest), Squared(maxConnectionDistance), |old(points)|)
        && |closest| == |points| && Saturated(points, closest, Squared(maxConnectionDistance), |closest|)
      ensures connectionNow - old(lastConnectionUpdate) <= ConnectionUpdateInterval ==>
        lastConnectionUpdate == old(lastConnectionUpdate) && closest == old(closest)
      ensures Activated(old(points), points, target)
      ensures sparks == old(sparks) && target == old(target) && lastSparkSpawn == old(lastSparkSpawn)
      ensures width == old(width) && height == old(height) && maxConnectionDistance == old(maxConnectionDistance)
    {
      RefreshConnections(connectionNow);
      RefreshActivity();
    }

    /** The spark half of a frame, lines 371-426: count per line, update,
        then the spawn pass if it is due. */
    method RefreshSparks(spawnNow: int, ids: seq<string>, coins: seq<seq<real>>, draws: seq<seq<real>>)
      requires Valid() && |ids| == |points| && RandomDraws(|points|, coins, draws)
      modifies this, sparks
      ensures Valid()
      ensures var kept := Survivors(old(sparks), old(Progresses(sparks)), points);
        && |kept| <= |sparks| && sparks[..|kept|] == kept
        && (forall s :: s in kept ==> s.progress == old(s.progress) + s.speed)
        && (forall m :: |kept| <= m < |sparks| ==>
              fresh(sparks[m]) && sparks[m].progress == 0.0 && Spawned(sparks[m], points, closest, ids, coins, draws))
        && (spawnNow - old(lastSparkSpawn) <= SparkSpawnInterval ==> sparks == kept)
      ensures lastSparkSpawn == if spawnNow - old(lastSparkSpawn) > SparkSpawnInterval then spawnNow else old(lastSparkSpawn)
      ensures spawnNow - old(lastSparkSpawn) > SparkSpawnInterval ==>
        var kept := Survivors(old(sparks), old(Progresses(sparks)), points);
        |kept| <= |sparks| &&
        Realises(sparks[|kept|..], PassPlan(points, closest, ids, coins, 0, KeyCounts(old(sparks))).slots,
                 points, closest, ids, coins, draws)
      ensures points == old(points) && closest == old(closest) && target == old(target)
      ensures width == old(width) && height == old(height) && maxConnectionDistance == old(maxConnectionDistance)
      ensures lastConnectionUpdate == old(lastConnectionUpdate)
    {
      var counts := CountKeys(sparks);
      UpdateSparks();
      ghost var kept := sparks;
      SpawnPass(spawnNow, counts, ids, coins, draws);
      assert |kept| <= |sparks| && sparks[..|kept|] == kept;
    }

    /** Lines 320-324: the connection update, once more than
        `ConnectionUpdateInterval` ms have passed since the last one. */
    method RefreshConnections(now: int)
      requires Valid()
      modifies this
      ensures Valid()
      ensures now - old(lastConnectionUpdate) > ConnectionUpdateInterval ==>
        && lastConnectionUpdate == now && AllWithin(points, closest, Squared(maxConnectionDistance))
        && KeptNear(points, old(closest), closest, Squared(maxConnectionDistance))
        && closest == RefreshUpTo(old(points), old(closest), Squared(maxConnectionDistance), |old(points)|)
        && |closest| == |points| && Saturated(points, closest, Squared(maxConnectionDistance), |closest|)
      ensures now - old(lastConnectionUpdate) <= ConnectionUpdateInterval ==>
        lastConnectionUpdate == old(lastConnectionUpdate) && closest == old(closest)
      ensures points == old(points) && sparks == old(sparks) && target == old(target)
      ensures width == old(width) && height == old(height) && maxConnectionDistance == old(maxConnectionDistance)
      ensures lastSparkSpawn == old(lastSparkSpawn)
    {
      if now - lastConnectionUpdate > ConnectionUpdateInterval {
        closest := UpdateConnections(points, closest, Squared(maxConnectionDistance));
        lastConnectionUpdate := now;
      }
    }

    /** Lines 330-364, drawing left out: every point takes the opacities of
        its distance band to the pointer. */
    method RefreshActivity()
      requires Valid()
      modifies this
      ensures Valid()
      ensures Activated(old(points), points, target)
      ensures AllWithin(old(points), closest, Squared(maxConnectionDistance)) ==>
        AllWithin(points, closest, Squared(maxConnectionDistance))
      ensures |closest| <= |points| && Saturated(old(points), closest, Squared(maxConnectionDistance), |closest|) ==>
        Saturated(points, closest, Squared(maxConnectionDistance), |closest|)
      ensures closest == old(closest) && sparks == old(sparks) && target == old(target)
      ensures width == old(width) && height == old(height) && maxConnectionDistance == old(maxConnectionDistance)
      ensures lastSparkSpawn == old(lastSparkSpawn) && lastConnectionUpdate == old(lastConnectionUpdate)
    {
      ghost var before := points;
      points := ApplyActivity(points, target);
      if AllWithin(before, closest, Squared(maxConnectionDistance)) {
        WithinKept(before, points, closest, Squared(maxConnectionDistance));
      }
      if |closest| <= |points| && Saturated(before, closest, Squared(maxConnectionDistance), |closest|) {
        SaturatedKept(before, points, closest, Squared(maxConnectionDistance));
      }
    }

    /** Lines 401-426: the spawn pass, once more than `SparkSpawnInterval` ms
        have passed since the last one; `counts` are the per-line counts taken
        before the spark update (lines 372-377). */
    method SpawnPass(now: int, counts: map<string, nat>, ids: seq<string>, coins: seq<seq<real>>, draws: seq<seq<real>>)
      requires Valid() && |ids| == |points| && RandomDraws(|points|, coins, draws)
      requires forall key :: SparksOn(sparks, key) <= Get(counts, key)
      modifies this
      ensures Valid()
      ensures |old(sparks)| <= |sparks| && sparks[..|old(sparks)|] == old(sparks)
      ensures forall m :: |old(sparks)| <= m < |sparks| ==>
        fresh(sparks[m]) && sparks[m].progress == 0.0 && Spawned(sparks[m], points, closest, ids, coins, draws)
      ensures now - old(lastSparkSpawn) > SparkSpawnInterval ==>
        && lastSparkSpawn == now
        && Realises(sparks[|old(sparks)|..], PassPlan(points, closest, ids, coins, 0, counts).slots,
                    points, closest, ids, coins, draws)
      ensures now - old(lastSparkSpawn) <= SparkSpawnInterval ==> lastSparkSpawn == old(lastSparkSpawn) && sparks == old(sparks)
      ensures points == old(points) && closest == old(closest) && target == old(target)
      ensures width == old(width) && height == old(height) && maxConnectionDistance == old(maxConnectionDistance)
      ensures lastConnectionUpdate == old(lastConnectionUpdate)
    {
      if now - lastSparkSpawn > SparkSpawnInterval {
        var out, _ := SpawnSparks(points, closest, ids, coins, draws, sparks, counts);
        forall m | 0 <= m < |out|
          ensures out[m].Valid() && out[m].fromPoint < |points| && out[m].toPoint < |points|
        {
          if m < |sparks| {
            assert out[m] == sparks[m];
          } else {
            SpawnedValid(out[m], points, closest, ids, coins, draws);
          }
        }
        sparks := out;
        lastSparkSpawn := now;
      }
    }

    /** Lines 380-399: drop the sparks on faded lines, advance the rest, and
        drop those that reach the end. */
    method UpdateSparks()
      requires Valid()
      modifies this, sparks
      ensures Valid()
      ensures sparks == Survivors(old(sparks), old(Progresses(sparks)), points)
      ensures forall s :: s in sparks ==> s.progress == old(s.progress) + s.speed
      ensures forall key :: SparksOn(sparks, key) <= SparksOn(old(sparks), key)
      ensures points == old(points) && closest == old(closest) && target == old(target)
      ensures width == old(width) && height == old(height) && maxConnectionDistance == old(maxConnectionDistance)
      ensures lastSparkSpawn == old(lastSparkSpawn) && lastConnectionUpdate == old(lastConnectionUpdate)
    {
      SurvivorsBounded(sparks, Progresses(sparks), points);
      var live := AdvanceSparks(sparks, points);
      sparks := live;
    }
  }

  /** The loop of lines 380-399 over the sparks `ss`, from the back: a spark
      on a faded line is spliced out, any other is advanced and spliced out
      once it reaches the end. */
  method AdvanceSparks(ss: seq<Spark>, pts: seq<Point>) returns (live: seq<Spark>)
    requires Distinct(ss)
    requires forall k :: 0 <= k < |ss| ==> ss[k].Valid() && ss[k].fromPoint < |pts| && ss[k].toPoint < |pts|
    modifies ss
    ensures live == Survivors(ss, old(Progresses(ss)), pts)
    ensures forall s :: s in live ==>
      s.Valid() && s.fromPoint < |pts| && s.toPoint < |pts| && s.progress == old(s.progress) + s.speed
  {
    ghost var ps := Progresses(ss);
    assert forall k :: 0 <= k < |ss| ==> 0.0 <= ps[k] && ps[k] == old(ss[k].progress);
    live := ss;
    var i := |live|;
    assert ss[i..] == [] && ss[..i] == ss;
    while i > 0
      invariant 0 <= i <= |ss|
      invariant live == ss[..i] + Survivors(ss[i..], ps[i..], pts)
      invariant forall k :: 0 <= k < i ==> ss[k].progress == ps[k]
      invariant forall k :: i <= k < |ss| && Keeps(ss[k], ps[k], pts) ==>
        ss[k].progress == ps[k] + ss[k].speed
    {
      i := i - 1;
      live := AdvanceOne(ss, ps, pts, i, live);
      forall k | i < k < |ss| && Keeps(ss[k], ps[k], pts) ensures ss[k].progress == ps[k] + ss[k].speed {
        assert ss[k] != ss[i];
      }
      forall k | 0 <= k < i ensures ss[k].progress == ps[k] {
        assert ss[k] != ss[i];
      }
    }
    assert ss[0..] == ss && ps[0..] == ps && ss[..0] == [];
    forall s | s in live
      ensures s.Valid() && s.fromPoint < |pts| && s.toPoint < |pts|
      ensures s.progress == old(s.progress) + s.speed
    {
      var k :| 0 <= k < |ss| && ss[k] == s && Keeps(s, ps[k], pts);
    }
  }

  /** One turn of the loop of lines 380-399, for the spark at index i. */
  method AdvanceOne(ss: seq<Spark>, ghost ps: seq<real>, pts: seq<Point>, i: nat, live: seq<Spark>)
    returns (next: seq<Spark>)
    requires |ps| == |ss| && i < |ss| && ss[i].fromPoint < |pts| && ss[i].toPoint < |pts|
    requires ss[i].progress == ps[i]
    requires live == ss[..i + 1] + Survivors(ss[i + 1..], ps[i + 1..], pts)
    modifies ss[i]
    ensures next == ss[..i] + Survivors(ss[i..], ps[i..], pts)
    ensures Keeps(ss[i], ps[i], pts) ==> ss[i].progress == ps[i] + ss[i].speed
  {
    var spark := live[i];
    SurvivorsStep(ss, ps, pts, i, live);
    next := live;
    if pts[spark.fromPoint].active < RemovalOpacity || pts[spark.toPoint].active < RemovalOpacity {
      next := live[..i] + live[i + 1..];
    } else {
      var finished := spark.Update();
      if finished {
        next := live[..i] + live[i + 1..];
      }
    }
  }

  /** What initPoints leaves behind (lines 123-208): one point per grid cell
      (none for an empty viewport), and each list exactly the up-to-three
      nearest other points, so well formed and, with two or more points,
      never empty. */
  predicate Initialised(pts: seq<Point>, adj: seq<seq<nat>>, w: real, h: real)
  {
    && |pts| == (if w > 0.0 && h > 0.0 then GridDivisions * GridDivisions else 0)
    && Placed(pts, w / 12.0, h / 12.0)
    && |adj| == |pts| && WellFormed(adj)
    && (forall i :: 0 <= i < |pts| ==> adj[i] == Nearest(pts, i))
    && (|pts| >= 2 ==> forall i :: 0 <= i < |adj| ==> |adj[i]| > 0)
  }

  /** initPoints, lines 123-209. */
  method InitPoints(w: real, h: real, jitter: seq<Jitter>) returns (pts: seq<Point>, adj: seq<seq<nat>>)
    requires w >= 0.0 && h >= 0.0
    requires |jitter| >= GridDivisions * GridDivisions
    requires forall k :: 0 <= k < |jitter| ==> 0.0 <= jitter[k].dx < 1.0 && 0.0 <= jitter[k].dy < 1.0
    ensures Initialised(pts, adj, w, h)
  {
    pts := BuildGrid(w, h, jitter);
    var linked := LinkNearest(pts);
    NearestWellFormed(pts, linked);
    adj := RepairIsolated(pts, linked);
    if |pts| < 2 {
      assert |pts| == 0;
    }
  }

  /** With a non-empty viewport every point's list is exactly its three
      nearest other points after initPoints. */
  lemma InitialisedThree(pts: seq<Point>, adj: seq<seq<nat>>, w: real, h: real, i: nat)
    requires Initialised(pts, adj, w, h) && w > 0.0 && h > 0.0 && i < |pts|
    ensures |adj[i]| == MaxNeighbours
    ensures forall k :: 0 <= k < |adj[i]| ==> adj[i][k] == SortedOthers(pts, i)[k].point
  {
    NearestShape(pts, i);
    SortedOthersFacts(pts, i);
  }
}
