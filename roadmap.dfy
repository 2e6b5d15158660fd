/**
 * The styling arithmetic of a roadmap step (src/pages/Roadmap.tsx,
 * RoadmapItem): which side the step sits on, the fading opacity schedule,
 * the badge number, and the half-ring decoration.
 */
module Roadmap {

  /** Even indices sit on the left, odd ones on the right. */
  predicate IsLeft(index: nat)
  {
    index % 2 == 0
  }

  function Max(a: real, b: real): real { if a < b then b else a }

  /** `Math.max(0.4, 1.0 - index * 0.08)`. */
  function Opacity(index: nat): (o: real)
    ensures 0.4 <= o <= 1.0
    ensures o == 0.4 <==> index >= 8
    ensures index < 8 ==> o == 1.0 - (index as real) * 0.08
  {
    Max(0.4, 1.0 - (index as real) * 0.08)
  }

  /** Later steps are never more opaque than earlier ones. */
  lemma OpacityNonIncreasing(i: nat, j: nat)
    requires i <= j
    ensures Opacity(j) <= Opacity(i)
  {
  }

  /** The schedule written next to the formula, for steps 1 to 7. */
  lemma OpacitySchedule()
    ensures Opacity(0) == 1.0 && Opacity(1) == 0.92 && Opacity(2) == 0.84
    ensures Opacity(3) == 0.76 && Opacity(4) == 0.68 && Opacity(5) == 0.60
    ensures Opacity(6) == 0.52
  {
  }

  /** The badge shows the step's 1-based number. */
  function Badge(index: nat): (b: nat)
    ensures b >= 1 && b - 1 == index
  {
    index + 1
  }

  /**
   * The side-dependent choices: the row direction, the sweep flag of the
   * arc path (`A 136 136 0 0 <sweep> 144 280`), the badge position, and the
   * half-ring's dash offset (in units of the half circumference pi * 136)
   * and rotation in degrees, and the sidebar's margin towards the circle.
   */
  datatype Layout = Layout(row: string, sweep: nat, badge: string, dashHalves: nat, rotation: int, margin: string)

  function LayoutOf(index: nat): Layout
  {
    Layout(if IsLeft(index) then "flex-row" else "flex-row-reverse",
           if IsLeft(index) then 1 else 0,
           if IsLeft(index) then "-right-8" else "-left-8",
           if index % 2 == 0 then 0 else 1,
           if index % 2 == 0 then -90 else 90,
           if IsLeft(index) then "ml-4" else "mr-4")
  }

  /** The other side's layout: every choice flipped. */
  function Mirror(l: Layout): Layout
  {
    Layout(if l.row == "flex-row" then "flex-row-reverse" else "flex-row",
           if l.sweep == 1 then 0 else 1,
           if l.badge == "-right-8" then "-left-8" else "-right-8",
           if l.dashHalves == 1 then 0 else 1,
           -l.rotation,
           if l.margin == "ml-4" then "mr-4" else "ml-4")
  }

  /** Consecutive steps are mirror images of each other, so the steps zig-zag. */
  lemma Alternates(index: nat)
    ensures LayoutOf(index + 1) == Mirror(LayoutOf(index))
    ensures LayoutOf(index) == Mirror(LayoutOf(index + 1))
    ensures IsLeft(index) != IsLeft(index + 1)
  {
  }

  /** The left layout is the one of step 0; every other step shares the layout of
      the step two before it. */
  lemma LayoutPeriod(index: nat)
    ensures LayoutOf(index + 2) == LayoutOf(index)
    ensures IsLeft(index) <==> LayoutOf(index) == Layout("flex-row", 1, "-right-8", 0, -90, "ml-4")
    ensures !IsLeft(index) <==> LayoutOf(index) == Layout("flex-row-reverse", 0, "-left-8", 1, 90, "mr-4")
  {
  }
}
