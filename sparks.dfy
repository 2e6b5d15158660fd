/**
 * The sparks that run along the lines of the point-network animation
 * (src/components/LinesAnimation.tsx, class Spark, lines 38-96): a spark
 * belongs to one line between two points, moves along it at a fixed random
 * speed and is finished once its progress reaches 1.
 */
module Sparks {
  import opened PointNetwork

  // ---------------------------------------------------------------------------
  // Line keys
  // ---------------------------------------------------------------------------

  /** JavaScript's `<` on strings: lexicographic order of the code units, a
      proper prefix coming first. */
  predicate LexLess(a: string, b: string)
  {
    if |a| == 0 then |b| > 0
    else if |b| == 0 then false
    else if a[0] != b[0] then a[0] < b[0]
    else LexLess(a[1..], b[1..])
  }

  /** Of two different strings exactly one is below the other, and no string
      is below itself. */
  lemma {:induction false} LexTrichotomy(a: string, b: string)
    ensures a == b ==> !LexLess(a, b)
    ensures a != b ==> LexLess(a, b) != LexLess(b, a)
  {
    if |a| > 0 && |b| > 0 && a[0] == b[0] {
      LexTrichotomy(a[1..], b[1..]);
      if a != b {
        assert a == [a[0]] + a[1..] && b == [b[0]] + b[1..];
      }
    }
  }

  /** Lines 51-53 and 409-411: the key of the line between two points, from
      their position ids, smaller id first. */
  function LineKey(fromId: string, toId: string): (key: string)
    ensures key == fromId + "_" + toId || key == toId + "_" + fromId
    ensures !LexLess(toId, fromId) ==> key == fromId + "_" + toId
  {
    LexTrichotomy(fromId, toId);
    if LexLess(fromId, toId) then fromId + "_" + toId else toId + "_" + fromId
  }

  /** The key does not depend on the direction of the line. */
  lemma LineKeySymmetric(a: string, b: string)
    ensures LineKey(a, b) == LineKey(b, a)
  {
    LexTrichotomy(a, b);
  }

  /** Line 49: the speed drawn for a new spark, from one draw r in [0, 1). */
  function SparkSpeed(r: real): (s: real)
    requires 0.0 <= r < 1.0
    ensures 0.005 <= s < 0.015
  {
    0.005 + r * 0.01
  }

  /** The point at fraction t of the way from a to b. */
  function Lerp(a: real, b: real, t: real): (r: real)
    ensures t == 0.0 ==> r == a
    ensures t == 1.0 ==> r == b
    ensures 0.0 <= t <= 1.0 ==> (a <= r <= b || b <= r <= a)
  {
    FractionBetween(a, b, t);
    a + (b - a) * t
  }

  lemma FractionBetween(a: real, b: real, t: real)
    ensures 0.0 <= t <= 1.0 && a <= b ==> 0.0 <= (b - a) * t <= b - a
    ensures 0.0 <= t <= 1.0 && b <= a ==> b - a <= (b - a) * t <= 0.0
  {
    if 0.0 <= t <= 1.0 {
      assert (b - a) - (b - a) * t == (b - a) * (1.0 - t);
      if a <= b {
        NonNegativeProduct(b - a, t);
        NonNegativeProduct(b - a, 1.0 - t);
      } else {
        NonNegativeProduct(a - b, t);
        NonNegativeProduct(a - b, 1.0 - t);
      }
    }
  }

  lemma NonNegativeProduct(x: real, y: real)
    requires x >= 0.0 && y >= 0.0
    ensures x * y >= 0.0
  {
  }

  // ---------------------------------------------------------------------------
  // The Spark object
  // ---------------------------------------------------------------------------

  class Spark {
    /** The two ends, as indices into the point array. Only `progress`
        changes after construction. */
    const fromPoint: nat
    const toPoint: nat
    const speed: real
    const opacity: real
    const lineKey: string
    var progress: real

    /** The ranges every live spark keeps. */
    predicate Valid()
      reads this
    {
      0.005 <= speed < 0.015 && 0.0 <= progress < 1.0
    }

    /** Lines 46-54: `speedDraw` is the `Math.random()` of line 49, and the
        ids are the `toFixed(2)` position strings of the two ends. */
    constructor (fromPoint: nat, toPoint: nat, fromId: string, toId: string, speedDraw: real)
      requires 0.0 <= speedDraw < 1.0
      ensures this.fromPoint == fromPoint && this.toPoint == toPoint
      ensures progress == 0.0 && opacity == 1.0
      ensures speed == SparkSpeed(speedDraw)
      ensures lineKey == LineKey(fromId, toId)
      ensures Valid()
    {
      this.fromPoint := fromPoint;
      this.toPoint := toPoint;
      progress := 0.0;
      opacity := 1.0;
      speed := SparkSpeed(speedDraw);
      lineKey := LineKey(fromId, toId);
    }

    /** Lines 56-63: advance by the speed; true once the end is reached. */
    method Update() returns (finished: bool)
      modifies this
      ensures progress == old(progress) + speed
      ensures finished <==> progress >= 1.0
    {
      progress := progress + speed;
      finished := progress >= 1.0;
    }

    /** Lines 65-70: where the spark is drawn, given the current positions of
        its two ends. */
    function Where(from: Position, to: Position): (p: Position)
      reads this
      ensures progress == 0.0 ==> p == from
      ensures 0.0 <= progress <= 1.0 ==>
        (from.x <= p.x <= to.x || to.x <= p.x <= from.x) && (from.y <= p.y <= to.y || to.y <= p.y <= from.y)
    {
      Position(Lerp(from.x, to.x, progress), Lerp(from.y, to.y, progress))
    }
  }

  /** A valid spark that is not finished after one update is again valid, and
      strictly inside its line. */
  lemma UpdatedStaysValid(before: real, speed: real)
    requires 0.005 <= speed < 0.015 && 0.0 <= before < 1.0
    requires before + speed < 1.0
    ensures 0.0 < before + speed < 1.0
  {
  }

  /** How many of the sparks run on the line with this key. */
  function SparksOn(sparks: seq<Spark>, key: string): (n: nat)
    ensures n <= |sparks|
  {
    if sparks == [] then 0
    else SparksOn(sparks[..|sparks| - 1], key) + (if sparks[|sparks| - 1].lineKey == key then 1 else 0)
  }

  lemma {:induction false} SparksOnAppend(a: seq<Spark>, b: seq<Spark>, key: string)
    ensures SparksOn(a + b, key) == SparksOn(a, key) + SparksOn(b, key)
    decreases |b|
  {
    if b == [] {
      assert a + b == a;
    } else {
      assert (a + b)[..|a + b| - 1] == a + b[..|b| - 1];
      SparksOnAppend(a, b[..|b| - 1], key);
    }
  }
}
