/**
 * The activity band of the point-network animation
 * (src/components/LinesAnimation.tsx, lines 331-364): the squared distance
 * between the pointer and a point decides the opacity of the point's lines
 * (`active`) and of its label (`textLabel.active`).
 */
module Activity {

  /** The line opacity and the label opacity of a point. */
  datatype Level = Level(line: real, text: real)

  /** The floor both opacities fall back to far from the pointer. */
  const BaseOpacity: real := 0.05
  const BaseTextOpacity: real := 0.1

  /** Lines 340-361, with `distance` the squared distance to the pointer. */
  function Band(distance: real): (l: Level)
    ensures BaseOpacity <= l.line <= 0.3
    ensures BaseTextOpacity <= l.text <= 0.6
  {
    if distance < 4000.0 then
      Level(0.3, 0.6)
    else if distance < 20000.0 then
      var factor := 1.0 - (distance - 4000.0) / 16000.0;
      Level(BaseOpacity + (0.3 - BaseOpacity) * factor, BaseTextOpacity + (0.6 - BaseTextOpacity) * factor)
    else if distance < 40000.0 then
      var factor := 1.0 - (distance - 20000.0) / 20000.0;
      Level(BaseOpacity + (0.15 - BaseOpacity) * factor, BaseTextOpacity + (0.3 - BaseTextOpacity) * factor)
    else
      Level(BaseOpacity, BaseTextOpacity)
  }

  /** Close to the pointer both opacities are at their maximum, far away at
      their floor. */
  lemma BandEnds(distance: real)
    ensures distance < 4000.0 ==> Band(distance) == Level(0.3, 0.6)
    ensures distance >= 40000.0 ==> Band(distance) == Level(0.05, 0.1)
  {
  }

  /** The label is always exactly twice as opaque as the lines. */
  lemma LabelTwiceLine(distance: real)
    ensures Band(distance).text == 2.0 * Band(distance).line
  {
  }

  /** Within each of the two graded bands, a nearer pointer never gives a
      lower opacity. */
  lemma MonotoneWithinBands(d1: real, d2: real)
    requires d1 <= d2
    requires (4000.0 <= d1 && d2 < 20000.0) || (20000.0 <= d1 && d2 < 40000.0)
    ensures Band(d2).line <= Band(d1).line
  {
  }

  /** The band is not monotone overall: just below 20000 the line opacity
      has almost fallen to the floor, and at 20000 it jumps back to 0.15. */
  lemma NotMonotone()
    ensures Band(19999.0).line < 0.0501
    ensures Band(20000.0).line == 0.15
    ensures Band(19999.0).line < Band(20000.0).line
  {
  }

  /** The graded bands join their neighbours at 4000 and 40000 without a jump. */
  lemma ContinuousAtOuterEdges()
    ensures Band(4000.0) == Level(0.3, 0.6)
    ensures forall d :: 39840.0 <= d < 40000.0 ==> Band(d).line - 0.05 <= 0.0008
  {
  }

  /** Spark spawning asks for `active > 0.1`; that holds exactly within a
      squared distance of 16800, and again between 20000 and 30000. */
  lemma SparkThreshold(distance: real)
    ensures Band(distance).line > 0.1 <==> distance < 16800.0 || (20000.0 <= distance < 30000.0)
  {
  }

  /** The spark removal test `active < 0.01` never holds. */
  lemma NeverBelowRemoval(distance: real)
    ensures !(Band(distance).line < 0.01)
  {
  }
}
