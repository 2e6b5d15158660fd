/**
 * The state of the line-walker effect (src/components/SparkleAnimation.tsx,
 * lines 10-45 and 185-240): the window size, the centre and box the lines
 * die outside of, the pointer, the frame counter and the lines themselves.
 */
module SparkleScene {
  import opened SparkleAnimation

  class Scene {
    var w: real
    var h: real
    var cx: real
    var cy: real
    var dieX: real
    var dieY: real
    var mouseX: real
    var mouseY: real
    var tick: int
    var lines: seq<Line>

    /** At most 20 distinct valid lines, and the centre and box of the
        current window. */
    ghost predicate Valid()
      reads this, lines
    {
      && |lines| <= MaxLines && Distinct(lines)
      && (forall k :: 0 <= k < |lines| ==> lines[k].Valid())
      && cx == w / 2.0 && cy == h / 2.0 && dieX == w / 2.0 / Len && dieY == h / 2.0 / Len
    }

    function CurrentFrame(): Frame
      reads this
    {
      Frame(cx, cy, dieX, dieY)
    }

    /** Lines 10-45: the window size, the centre, no lines, tick 0. */
    constructor (width: real, height: real)
      ensures Valid() && lines == [] && tick == 0
      ensures w == width && h == height && mouseX == width / 2.0 && mouseY == height / 2.0
    {
      w, h := width, height;
      cx, cy := width / 2.0, height / 2.0;
      dieX, dieY := width / 2.0 / Len, height / 2.0 / Len;
      mouseX, mouseY := width / 2.0, height / 2.0;
      tick := 0;
      lines := [];
    }

    /** Lines 190-203: one frame; a line is added while there are fewer than
        20 and the spawn draw is below one half, then every line steps. */
    method Loop(spawnDraw: real, newLine: Restart, steps: seq<StepInput>, now: int)
      requires Valid() && RestartOk(newLine)
      requires |steps| == |lines| + (if |lines| < MaxLines && spawnDraw < SpawnChance then 1 else 0)
      requires forall k :: 0 <= k < |steps| ==> StepOk(steps[k])
      modifies this, lines
      ensures Valid() && tick == old(tick) + 1
      ensures w == old(w) && h == old(h) && mouseX == old(mouseX) && mouseY == old(mouseY)
      ensures |lines| == |steps| && lines[..old(|lines|)] == old(lines)
      ensures old(|lines|) <= |lines| <= MaxLines
      ensures |lines| > old(|lines|) ==>
        fresh(lines[|lines| - 1]) && lines[|lines| - 1].WalkOf() == StepWalk(Restarted(newLine), steps[|lines| - 1], CurrentFrame())
      ensures forall k :: 0 <= k < old(|lines|) ==> lines[k].WalkOf() == StepWalk(old(lines[k].WalkOf()), steps[k], CurrentFrame())
      ensures forall k :: 0 <= k < |lines| ==> Drawn(lines[k].TrailOf(), now)
    {
      tick := tick + 1;
      if |lines| < MaxLines && spawnDraw < SpawnChance {
        var line := new Line(newLine, CurrentFrame());
        lines := lines + [line];
      }
      StepAll(lines, steps, CurrentFrame(), now);
    }

    /** Lines 208-235: new size, centre and box; every trail cleared, the
        pointer back at the centre, the lines themselves kept. */
    method HandleResize(width: real, height: real)
      requires Valid()
      modifies this, lines
      ensures Valid() && lines == old(lines) && tick == old(tick)
      ensures w == width && h == height && cx == width / 2.0 && cy == height / 2.0
      ensures dieX == width / 2.0 / Len && dieY == height / 2.0 / Len
      ensures mouseX == width / 2.0 && mouseY == height / 2.0
      ensures forall k :: 0 <= k < |lines| ==> lines[k].WalkOf() == old(lines[k].WalkOf())
      ensures forall k :: 0 <= k < |lines| ==> lines[k].TrailOf() == Trail(0.0, 0.0, false, [])
    {
      SetSize(width, height);
      ClearAll(lines);
      mouseX, mouseY := width / 2.0, height / 2.0;
    }

    /** Lines 209-221: the new size, with the centre and box that follow from it. */
    method SetSize(width: real, height: real)
      modifies this
      ensures w == width && h == height && cx == width / 2.0 && cy == height / 2.0
      ensures dieX == width / 2.0 / Len && dieY == height / 2.0 / Len
      ensures mouseX == old(mouseX) && mouseY == old(mouseY) && tick == old(tick) && lines == old(lines)
    {
      w, h := width, height;
      cx, cy := width / 2.0, height / 2.0;
      dieX, dieY := width / 2.0 / Len, height / 2.0 / Len;
    }

    /** Lines 237-240. */
    method HandleMouseMove(x: real, y: real)
      modifies this
      ensures mouseX == x && mouseY == y
      ensures w == old(w) && h == old(h) && cx == old(cx) && cy == old(cy) && dieX == old(dieX) && dieY == old(dieY)
      ensures tick == old(tick) && lines == old(lines)
    {
      mouseX, mouseY := x, y;
    }
  }

  /** Lines 225-230: `lines.forEach` clearing every trail. */
  method ClearAll(lines: seq<Line>)
    requires Distinct(lines) && forall k :: 0 <= k < |lines| ==> lines[k].Valid()
    modifies set k | 0 <= k < |lines| :: lines[k]
    ensures forall k :: 0 <= k < |lines| ==> lines[k].Valid() && lines[k].WalkOf() == old(lines[k].WalkOf())
    ensures forall k :: 0 <= k < |lines| ==> lines[k].TrailOf() == Trail(0.0, 0.0, false, [])
  {
    var i := 0;
    while i < |lines|
      invariant 0 <= i <= |lines|
      invariant forall k :: 0 <= k < |lines| ==> lines[k].Valid() && lines[k].WalkOf() == old(lines[k].WalkOf())
      invariant forall k :: 0 <= k < i ==> lines[k].TrailOf() == Trail(0.0, 0.0, false, [])
    {
      lines[i].ClearPath();
      forall k | 0 <= k < |lines| && k != i
        ensures lines[k].Valid() && lines[k].WalkOf() == old(lines[k].WalkOf())
        ensures k < i ==> lines[k].TrailOf() == Trail(0.0, 0.0, false, [])
      {
        assert lines[k] != lines[i];
      }
      i := i + 1;
    }
  }

  /** Line 203: `lines.forEach(line => line.step())`, in order. */
  method StepAll(lines: seq<Line>, steps: seq<StepInput>, f: Frame, now: int)
    requires |steps| == |lines| && Distinct(lines)
    requires forall k :: 0 <= k < |lines| ==> lines[k].Valid() && StepOk(steps[k])
    modifies set k | 0 <= k < |lines| :: lines[k]
    ensures forall k :: 0 <= k < |lines| ==> lines[k].Valid() && Drawn(lines[k].TrailOf(), now)
    ensures forall k :: 0 <= k < |lines| ==> lines[k].WalkOf() == StepWalk(old(lines[k].WalkOf()), steps[k], f)
  {
    var i := 0;
    while i < |lines|
      invariant 0 <= i <= |lines|
      invariant forall k :: 0 <= k < |lines| ==> lines[k].Valid()
      invariant forall k :: 0 <= k < i ==> Drawn(lines[k].TrailOf(), now)
      invariant forall k :: 0 <= k < i ==> lines[k].WalkOf() == StepWalk(old(lines[k].WalkOf()), steps[k], f)
      invariant forall k :: i <= k < |lines| ==> lines[k].WalkOf() == old(lines[k].WalkOf())
    {
      StepLine(lines[i], steps[i], f, now);
      forall k | 0 <= k < |lines| && k != i
        ensures lines[k].Valid()
        ensures k < i ==> Drawn(lines[k].TrailOf(), now) && lines[k].WalkOf() == StepWalk(old(lines[k].WalkOf()), steps[k], f)
        ensures k > i ==> lines[k].WalkOf() == old(lines[k].WalkOf())
      {
        assert lines[k] != lines[i];
      }
      i := i + 1;
    }
  }

  /** One line's step, with what the rest of the frame needs of it. */
  method StepLine(line: Line, s: StepInput, f: Frame, now: int)
    requires line.Valid() && StepOk(s)
    modifies line
    ensures line.Valid() && Drawn(line.TrailOf(), now)
    ensures line.WalkOf() == StepWalk(old(line.WalkOf()), s, f)
  {
    ghost var before, w := line.TrailOf(), line.WalkOf();
    line.Step(s, f, now);
    StepDraws(before, w, s, f, now);
  }
}
