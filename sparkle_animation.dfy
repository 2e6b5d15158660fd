/**
 * The background line walker (src/components/SparkleAnimation.tsx): up to 20
 * `Line` objects walk the edges of a triangular lattice, turning 60 degrees
 * left or right at the end of each phase, dying at random or when they leave
 * the box around the centre, and keeping a two-second trail of drawn points.
 *
 * A line's heading `rad` is kept as a whole number of sixth turns (`turns`,
 * with rad = turns * pi / 3), and its lattice position as integers (u, v) with
 * x = u / 2 and y = v * sin(60 degrees); one step along the heading moves
 * (u, v) by Direction(turns).
 */
module SparkleAnimation {
  import opened Wrappers
  import opened Decimal

  // ---------------------------------------------------------------------------
  // Constants (`opts`, lines 15-35, and the values used in `step`)
  // ---------------------------------------------------------------------------

  const Len: real := 60.0
  const MaxLines: nat := 20
  const BaseTime: int := 60
  const AddedTime: int := 40
  const DieChance: real := 0.05
  const SpawnChance: real := 0.5
  const BaseLight: real := 0.002
  const AddedLight: real := 0.005
  /** `Math.sin(Math.PI / 3)`, the lattice's row height. */
  const SinSixty: real := 0.8660254037844386
  /** Path points older than this many milliseconds are dropped (lines 148-150). */
  const Window: int := 2000
  /** The pointer's radius of influence (line 133). */
  const MaxDistance: real := 200.0
  const ColorTemplate: string := "rgba(3, 100, 200, opacity)"
  const LineColor: string := "rgba(3, 100, 200, 0.05)"

  // ---------------------------------------------------------------------------
  // Draws
  // ---------------------------------------------------------------------------

  /** Line 93: the length of a phase, from one draw r in [0, 1). */
  function TargetTime(r: real): (t: int)
    requires 0.0 <= r < 1.0
    ensures BaseTime <= t < BaseTime + AddedTime
  {
    (BaseTime as real + AddedTime as real * r).Floor
  }

  /** Line 94: a draw below one half turns left, any other right. */
  function Turn(r: real): (t: int)
    ensures t == 1 || t == -1
  {
    if r < 0.5 then 1 else -1
  }

  /** Line 77. */
  function LightMultiplier(r: real): (m: real)
    requires 0.0 <= r < 1.0
    ensures BaseLight <= m < BaseLight + AddedLight
  {
    BaseLight + AddedLight * r
  }

  /** The three draws of one `beginPhase`: phase length, turn, death. */
  datatype PhaseDraws = PhaseDraws(targetDraw: real, turnDraw: real, dieDraw: real)

  /** The draws of a `reset`: its light draw and the phase and turn draws of
      the `beginPhase` that finally survives.  `reset` and `beginPhase` call
      each other until a phase survives; every `reset` wipes what the failed
      attempts wrote, so only the last attempt's draws leave a trace. */
  datatype Restart = Restart(lightDraw: real, targetDraw: real, turnDraw: real)

  /** Each draw is a `Math.random()` value. */
  predicate PhaseOk(d: PhaseDraws)
  {
    0.0 <= d.targetDraw < 1.0 && 0.0 <= d.turnDraw < 1.0 && 0.0 <= d.dieDraw < 1.0
  }

  predicate RestartOk(r: Restart)
  {
    0.0 <= r.lightDraw < 1.0 && 0.0 <= r.targetDraw < 1.0 && 0.0 <= r.turnDraw < 1.0
  }

  /** What one `step` needs from outside: the draws of a phase that may start,
      the restart used if the line dies, the wave factor `sin(prop * pi / 2)`,
      the pointer distance, and the cursor pull added within the radius. */
  datatype StepInput = StepInput(phase: PhaseDraws, restart: Restart, wave: real,
                                 distance: real, pullX: real, pullY: real)

  /** The draws are `Math.random()` values; the wave is a sine of an angle in
      [0, pi / 2]; the distance is a square root; the pull is a unit vector
      scaled by `influence * 10`, at most 0.3 * 10 (lines 134-138). */
  predicate StepOk(s: StepInput)
  {
    && PhaseOk(s.phase) && RestartOk(s.restart)
    && 0.0 <= s.wave <= 1.0 && s.distance >= 0.0
    && -3.0 <= s.pullX <= 3.0 && -3.0 <= s.pullY <= 3.0
  }

  // ---------------------------------------------------------------------------
  // The lattice
  // ---------------------------------------------------------------------------

  /** The lattice step of heading turns * pi / 3, in (u, v) units. */
  function DirU(turns: int): int
  {
    var t := turns % 6;
    if t == 0 then 2 else if t == 1 || t == 5 then 1 else if t == 2 || t == 4 then -1 else -2
  }

  function DirV(turns: int): int
  {
    var t := turns % 6;
    if t == 1 || t == 2 then 1 else if t == 4 || t == 5 then -1 else 0
  }

  /** Heading 0 is the step (cos 0, sin 0) = (1, 0). */
  lemma DirectionAtZero()
    ensures DirU(0) == 2 && DirV(0) == 0
  {
  }

  /** Every step has length 1: (u/2)^2 + (v sin 60)^2 = (u^2 + 3 v^2) / 4. */
  lemma DirectionUnit(turns: int)
    ensures DirU(turns) * DirU(turns) + 3 * DirV(turns) * DirV(turns) == 4
  {
  }

  /** One more sixth turn is the previous step rotated by +60 degrees, one
      less is it rotated by -60 degrees, written in lattice units. */
  lemma DirectionRotates(turns: int)
    ensures 2 * DirU(turns + 1) == DirU(turns) - 3 * DirV(turns)
    ensures 2 * DirV(turns + 1) == DirU(turns) + DirV(turns)
    ensures 2 * DirU(turns - 1) == DirU(turns) + 3 * DirV(turns)
    ensures 2 * DirV(turns - 1) == DirV(turns) - DirU(turns)
  {
    assert (turns + 1) % 6 == (turns % 6 + 1) % 6;
    assert (turns - 1) % 6 == (turns % 6 + 5) % 6;
  }

  /** A step keeps u + v even, so positions stay on the lattice. */
  lemma DirectionParity(turns: int)
    ensures (DirU(turns) + DirV(turns)) % 2 == 0
  {
  }

  /** The centre, the box half-sizes and the scale the lines are drawn with. */
  datatype Frame = Frame(cx: real, cy: real, dieX: real, dieY: real)

  function X(u: int): real
  {
    u as real / 2.0
  }

  function Y(v: int): real
  {
    v as real * SinSixty
  }

  /** Line 98, the position part: outside [-dieX, dieX] x [-dieY, dieY]. */
  predicate OutOfBounds(u: int, v: int, f: Frame)
  {
    X(u) > f.dieX || X(u) < -f.dieX || Y(v) > f.dieY || Y(v) < -f.dieY
  }

  /** The centre is inside the box whenever the window is not negative, so
      the `beginPhase` run from `reset` can only die by chance. */
  lemma OriginInBounds(f: Frame)
    requires f.dieX >= 0.0 && f.dieY >= 0.0
    ensures !OutOfBounds(0, 0, f)
  {
  }

  /** Line 98: the death test of a phase starting at lattice point (u, v). */
  predicate Dies(d: PhaseDraws, u: int, v: int, f: Frame)
  {
    d.dieDraw < DieChance || OutOfBounds(u, v, f)
  }

  // ---------------------------------------------------------------------------
  // The trail
  // ---------------------------------------------------------------------------

  datatype PathPoint = PathPoint(x: real, y: real, time: int)

  /** Line 150: `filter(point => point.time > cutoff)`. */
  function Recent(ps: seq<PathPoint>, cutoff: int): (r: seq<PathPoint>)
    ensures |r| <= |ps|
    ensures forall p :: p in r <==> p in ps && p.time > cutoff
  {
    if ps == [] then []
    else (if ps[0].time > cutoff then [ps[0]] else []) + Recent(ps[1..], cutoff)
  }

  /** Filtering a run with one more point at the end: a point newer than the
      cutoff comes out last, after what the run already kept. */
  lemma {:induction false} RecentSnoc(ps: seq<PathPoint>, p: PathPoint, cutoff: int)
    ensures Recent(ps + [p], cutoff) == Recent(ps, cutoff) + (if p.time > cutoff then [p] else [])
  {
    if ps == [] {
      assert ps + [p] == [p];
    } else {
      assert (ps + [p])[1..] == ps[1..] + [p];
      RecentSnoc(ps[1..], p, cutoff);
    }
  }

  predicate Chronological(ps: seq<PathPoint>)
  {
    forall a, b :: 0 <= a < b < |ps| ==> ps[a].time <= ps[b].time
  }

  /** When the points were pushed in time order, the trail that survives the
      filter is a suffix of the run: only the oldest points are dropped. */
  lemma {:induction false} RecentSuffix(ps: seq<PathPoint>, cutoff: int) returns (k: nat)
    requires Chronological(ps)
    ensures k <= |ps| && Recent(ps, cutoff) == ps[k..]
  {
    if ps == [] {
      k := 0;
    } else if ps[0].time > cutoff {
      RecentAll(ps, cutoff);
      k := 0;
    } else {
      assert Chronological(ps[1..]) by {
        forall a, b | 0 <= a < b < |ps[1..]| ensures ps[1..][a].time <= ps[1..][b].time {
          assert ps[1..][a] == ps[a + 1] && ps[1..][b] == ps[b + 1];
        }
      }
      var j := RecentSuffix(ps[1..], cutoff);
      k := j + 1;
      assert ps[1..][j..] == ps[k..];
    }
  }

  /** A chronological run whose oldest point is newer than the cutoff is kept whole. */
  lemma {:induction false} RecentAll(ps: seq<PathPoint>, cutoff: int)
    requires Chronological(ps) && (ps != [] ==> ps[0].time > cutoff)
    ensures Recent(ps, cutoff) == ps
  {
    if ps != [] {
      var t := ps[1..];
      assert Chronological(t) && (t != [] ==> t[0].time > cutoff) by {
        forall a, b | 0 <= a < b < |t| ensures t[a].time <= t[b].time {
          assert t[a] == ps[a + 1] && t[b] == ps[b + 1];
        }
        if t != [] {
          assert t[0] == ps[1];
        }
      }
      RecentAll(t, cutoff);
      assert ps == [ps[0]] + t;
    }
  }

  // ---------------------------------------------------------------------------
  // Drawing parameters
  // ---------------------------------------------------------------------------

  /** `pattern` occurs in s starting at index i. */
  predicate OccursAt(s: string, pattern: string, i: nat)
  {
    i + |pattern| <= |s| && s[i..i + |pattern|] == pattern
  }

  /** The first occurrence of `pattern` in s at or after `from`. */
  function FindFrom(s: string, pattern: string, from: nat): (r: Option<nat>)
    requires |pattern| > 0 && from <= |s|
    ensures r.Some? ==> from <= r.value && OccursAt(s, pattern, r.value)
    ensures r.Some? ==> forall k: nat :: from <= k < r.value ==> !OccursAt(s, pattern, k)
    ensures r.None? ==> forall k: nat :: from <= k ==> !OccursAt(s, pattern, k)
    decreases |s| - from
  {
    if from + |pattern| > |s| then None
    else if s[from..from + |pattern|] == pattern then Some(from)
    else FindFrom(s, pattern, from + 1)
  }

  /** Line 80: JavaScript's `replace` with a string pattern replaces the first
      occurrence only, and leaves a string without one unchanged. */
  function ReplaceFirst(s: string, pattern: string, with: string): (r: string)
    requires |pattern| > 0
    ensures (forall k: nat :: !OccursAt(s, pattern, k)) ==> r == s
    ensures forall i: nat :: OccursAt(s, pattern, i) && (forall k: nat :: k < i ==> !OccursAt(s, pattern, k)) ==>
      r == s[..i] + with + s[i + |pattern|..]
  {
    match FindFrom(s, pattern, 0)
    case None => s
    case Some(i) => s[..i] + with + s[i + |pattern|..]
  }

  /** The colour every line is given: the template's only "opacity" starts at
      index 18. */
  lemma ColorOfLines()
    ensures ReplaceFirst(ColorTemplate, "opacity", "0.05") == LineColor
  {
    var s, p := ColorTemplate, "opacity";
    assert OccursAt(s, p, 18) by {
      assert s[18..25] == p;
    }
    forall k: nat | k < 18 ensures !OccursAt(s, p, k) {
      assert s[k] != 'o';
      if k + |p| <= |s| {
        assert s[k..k + |p|][0] == s[k];
      }
    }
    assert s[..18] + "0.05" + s[25..] == LineColor;
  }

  /** Lines 79-80: the colour template with the opacity 0.05 written in. */
  method NewLineColor() returns (color: string)
    ensures color == LineColor
  {
    ColorOfLines();
    color := ReplaceFirst(ColorTemplate, "opacity", "0.05");
  }

  predicate NumberChar(c: char)
  {
    '0' <= c <= '9' || c == '.'
  }

  /** The longest prefix of s made of digits and dots. */
  function NumberPrefix(s: string): (r: string)
    ensures |r| <= |s| && r == s[..|r|]
    ensures forall k :: 0 <= k < |r| ==> NumberChar(r[k])
    ensures |r| < |s| ==> !NumberChar(s[|r|])
  {
    if s == [] || !NumberChar(s[0]) then []
    else [s[0]] + NumberPrefix(s[1..])
  }

  /** Where the first digit or dot of s is, or |s| when there is none. */
  function NumberStart(s: string): (i: nat)
    ensures i <= |s| && forall k :: 0 <= k < i ==> !NumberChar(s[k])
    ensures i < |s| ==> NumberChar(s[i])
  {
    if s == [] || NumberChar(s[0]) then 0
    else
      var j := NumberStart(s[1..]);
      assert forall k :: 1 <= k < j + 1 ==> s[k] == s[1..][k - 1];
      j + 1
  }

  /** `match(/[\d.]+/)?.[0]`: the first run of digits and dots, or None. */
  function FirstNumber(s: string): (r: Option<string>)
    ensures r.None? <==> forall k :: 0 <= k < |s| ==> !NumberChar(s[k])
    ensures r.Some? ==> |r.value| > 0 && forall k :: 0 <= k < |r.value| ==> NumberChar(r.value[k])
  {
    var i := NumberStart(s);
    if i == |s| then None
    else
      assert s[i..][0] == s[i];
      Some(NumberPrefix(s[i..]))
  }

  /** The longest prefix of s made of digits. */
  function DigitPrefix(s: string): (r: string)
    ensures |r| <= |s|
    ensures forall k :: 0 <= k < |r| ==> '0' <= r[k] <= '9'
  {
    if s == [] || !('0' <= s[0] <= '9') then []
    else [s[0]] + DigitPrefix(s[1..])
  }

  function Pow10(k: nat): (p: nat)
    ensures p >= 1
  {
    if k == 0 then 1 else 10 * Pow10(k - 1)
  }

  /** The digits before the first dot of a run. */
  function WholePart(run: string): (whole: string)
    ensures forall k :: 0 <= k < |whole| ==> '0' <= whole[k] <= '9'
  {
    DigitPrefix(run)
  }

  /** The digits after the first dot, up to the next non-digit. */
  function FractionPart(run: string): (fraction: string)
    ensures forall k :: 0 <= k < |fraction| ==> '0' <= fraction[k] <= '9'
  {
    var rest := run[|DigitPrefix(run)|..];
    if rest != [] && rest[0] == '.' then DigitPrefix(rest[1..]) else []
  }

  /** whole.fraction as a number. */
  function DecimalValue(whole: string, fraction: string): (x: real)
    requires forall k :: 0 <= k < |whole| ==> '0' <= whole[k] <= '9'
    requires forall k :: 0 <= k < |fraction| ==> '0' <= fraction[k] <= '9'
    ensures x >= 0.0
    ensures fraction == [] ==> x == ValueOf(whole) as real
  {
    ValueOf(whole) as real + (ValueOf(fraction) as real) / (Pow10(|fraction|) as real)
  }

  /** `parseFloat` on a run of digits and dots: the digits before the first
      dot, then those between it and the next dot as the fraction; None (NaN)
      when there is no digit in either place. */
  function ParseRun(run: string): (r: Option<real>)
    ensures r.Some? ==> r.value >= 0.0
  {
    if WholePart(run) == [] && FractionPart(run) == [] then None
    else Some(DecimalValue(WholePart(run), FractionPart(run)))
  }

  /** Line 156: the number the stroke colour starts from; the `|| '0.05'`
      fallback applies when the colour has no run of digits and dots. */
  function ColorNumber(color: string): Option<real>
  {
    match FirstNumber(color)
    case None => ParseRun("0.05")
    case Some(run) => ParseRun(run)
  }

  /** A run of n digits and dots at index i, after no digit or dot and
      before one that is neither, is the first number of s. */
  lemma FirstRunAt(s: string, i: nat, n: nat)
    requires 0 < n && i + n <= |s|
    requires forall k :: 0 <= k < i ==> !NumberChar(s[k])
    requires forall k :: i <= k < i + n ==> NumberChar(s[k])
    requires i + n < |s| ==> !NumberChar(s[i + n])
    ensures FirstNumber(s) == Some(s[i..i + n])
  {
    NumberStartAt(s, i);
    NumberPrefixIs(s[i..], n);
    assert s[i..][..n] == s[i..i + n];
  }

  lemma NumberStartAt(s: string, i: nat)
    requires i < |s| && NumberChar(s[i])
    requires forall k :: 0 <= k < i ==> !NumberChar(s[k])
    ensures NumberStart(s) == i
  {
    var j := NumberStart(s);
    assert j <= i;
  }

  lemma NumberPrefixIs(t: string, n: nat)
    requires n <= |t|
    requires forall k :: 0 <= k < n ==> NumberChar(t[k])
    requires n < |t| ==> !NumberChar(t[n])
    ensures NumberPrefix(t) == t[..n]
  {
    var r := NumberPrefix(t);
    assert forall k :: 0 <= k < |r| ==> r[k] == t[k];
    assert |r| == n;
  }

  /** A colour written `rgba(3,...`: its red component is 3. */
  predicate RedThree(c: string)
  {
    |c| >= 7 && c[..5] == "rgba(" && c[5] == '3' && c[6] == ','
  }

  lemma LineColorRedThree()
    ensures RedThree(LineColor)
  {
  }

  /** The first number in such a colour is the red component 3, not the
      alpha that follows later. */
  lemma FirstNumberIsRed(c: string)
    requires RedThree(c)
    ensures FirstNumber(c) == Some("3")
    ensures ColorNumber(c) == Some(3.0)
  {
    assert forall k :: 0 <= k < 5 ==> c[k] == c[..5][k];
    FirstRunAt(c, 5, 1);
    assert c[5..6] == "3";
    ParseWhole("3");
    assert ValueOf("3") == 3 by {
      assert "3"[..0] == [];
    }
  }

  /** The digit prefix of digits followed by something else is those digits. */
  lemma {:induction false} DigitPrefixStops(digits: string, rest: string)
    requires forall k :: 0 <= k < |digits| ==> '0' <= digits[k] <= '9'
    requires rest == [] || !('0' <= rest[0] <= '9')
    ensures DigitPrefix(digits + rest) == digits
  {
    if digits != [] {
      var tail := digits[1..];
      assert forall k :: 0 <= k < |tail| ==> tail[k] == digits[k + 1];
      DigitPrefixStops(tail, rest);
      var s := digits + rest;
      assert s[0] == digits[0] && s[1..] == tail + rest;
      assert DigitPrefix(s) == [digits[0]] + DigitPrefix(tail + rest);
      assert digits == [digits[0]] + tail;
    }
  }

  /** A run of digits alone parses as the integer it spells. */
  lemma ParseWhole(run: string)
    requires |run| > 0 && forall k :: 0 <= k < |run| ==> '0' <= run[k] <= '9'
    ensures ParseRun(run) == Some(ValueOf(run) as real)
  {
    DigitPrefixStops(run, []);
    assert run + [] == run;
    assert WholePart(run) == run;
    assert FractionPart(run) == [] by {
      assert run[|run|..] == [];
    }
  }

  /** Digits, a dot and digits parse as the decimal number they spell. */
  lemma ParseDecimal(whole: string, fraction: string)
    requires forall k :: 0 <= k < |whole| ==> '0' <= whole[k] <= '9'
    requires forall k :: 0 <= k < |fraction| ==> '0' <= fraction[k] <= '9'
    requires whole != [] || fraction != []
    ensures ParseRun(whole + "." + fraction) == Some(DecimalValue(whole, fraction))
  {
    var run := whole + "." + fraction;
    assert run == whole + ("." + fraction);
    DigitPrefixStops(whole, "." + fraction);
    assert WholePart(run) == whole;
    assert run[|whole|..] == "." + fraction;
    DigitPrefixStops(fraction, []);
    assert fraction + [] == fraction;
    assert ("." + fraction)[1..] == fraction;
    assert FractionPart(run) == fraction;
  }

  /** The fallback `'0.05'` of line 156 is the alpha the lines are drawn with. */
  lemma FallbackIsAlpha()
    ensures ParseRun("0.05") == Some(0.05)
  {
    ZeroPointZeroFive("0.05");
  }

  lemma ZeroPointZeroFive(run: string)
    requires |run| == 4 && run[0] == '0' && run[1] == '.' && run[2] == '0' && run[3] == '5'
    ensures ParseRun(run) == Some(0.05)
  {
    var whole, fraction := run[..1], run[2..];
    assert run == whole + "." + fraction;
    ParseDecimal(whole, fraction);
    assert ValueOf(whole) == 0 by {
      assert whole[..0] == [];
    }
    assert ValueOf(fraction) == 5 by {
      assert fraction[..1][..0] == [];
    }
    assert Pow10(2) == 100;
  }

  function Min(a: real, b: real): real
  {
    if a <= b then a else b
  }

  /** The stroke of a line: its own colour, or the boosted rgba opacity near
      the pointer (None standing for NaN).  Lines 153-159. */
  datatype Stroke = OwnColor | Boosted(opacity: Option<real>)

  function StrokeStyle(distance: real, color: string): (s: Stroke)
    ensures distance >= MaxDistance <==> s == OwnColor
    ensures s.Boosted? && s.opacity.Some? ==> s.opacity.value <= 0.15
  {
    if distance < MaxDistance then
      var boost := (1.0 - distance / MaxDistance) * 0.05;
      match ColorNumber(color)
      case Some(n) => Boosted(Some(Min(0.15, n + boost)))
      case None => Boosted(None)
    else OwnColor
  }

  /** Because the parsed number is the red component 3 (LineColorRedThree),
      the boosted opacity of a line is always the cap. */
  lemma StrokeNearPointer(distance: real, color: string)
    requires 0.0 <= distance < MaxDistance && RedThree(color)
    ensures StrokeStyle(distance, color) == Boosted(Some(0.15))
  {
    FirstNumberIsRed(color);
  }

  /** Line 162: width 2, thickening to 3 at the pointer. */
  function LineWidth(distance: real): (w: real)
    ensures 0.0 <= distance ==> 2.0 <= w <= 3.0
    ensures 0.0 <= distance < MaxDistance ==> w > 2.0
    ensures distance >= MaxDistance ==> w == 2.0
    ensures w == 3.0 <==> distance == 0.0
  {
    if distance < MaxDistance then 2.0 + (1.0 - distance / MaxDistance) * 1.0 else 2.0
  }

  // ---------------------------------------------------------------------------
  // The walk of a line
  // ---------------------------------------------------------------------------

  /** What a step changes of a line besides its trail: lattice position,
      heading in sixth turns, and the phase and reset counters. */
  datatype Walk = Walk(u: int, v: int, turns: int, time: int, targetTime: int, cumulativeTime: int)

  /** The ranges a line keeps between frames. */
  predicate WalkOk(w: Walk)
  {
    && BaseTime <= w.targetTime < BaseTime + AddedTime
    && 0 <= w.time < w.targetTime && w.cumulativeTime >= 0 && (w.u + w.v) % 2 == 0
  }

  /** Lines 90-96: the end of the finished phase becomes the start of the
      next, which draws its length and turns by a sixth. */
  function NextPhase(w: Walk, d: PhaseDraws): Walk
    requires PhaseOk(d)
  {
    Walk(w.u + DirU(w.turns), w.v + DirV(w.turns), w.turns + Turn(d.turnDraw), 0, TargetTime(d.targetDraw), w.cumulativeTime)
  }

  /** Lines 71-86 with the surviving `beginPhase`: back at the centre, one
      sixth turn from heading 0. */
  function Restarted(r: Restart): Walk
    requires RestartOk(r)
  {
    Walk(0, 0, Turn(r.turnDraw), 0, TargetTime(r.targetDraw), 0)
  }

  /** The step ends its phase and the new phase dies at once (line 98). */
  predicate DiesAt(w: Walk, s: StepInput, f: Frame)
  {
    w.time + 1 >= w.targetTime && Dies(s.phase, w.u + DirU(w.turns), w.v + DirV(w.turns), f)
  }

  /** Lines 114-119 on the walk: count the tick, and begin a phase when the
      target is reached, resetting the line if that phase dies. */
  function StepWalk(w: Walk, s: StepInput, f: Frame): Walk
    requires StepOk(s)
  {
    var ticked := w.(time := w.time + 1, cumulativeTime := w.cumulativeTime + 1);
    if ticked.time < ticked.targetTime then ticked
    else if DiesAt(w, s, f) then Restarted(s.restart)
    else NextPhase(ticked, s.phase)
  }

  /** A step keeps every range: the phase tick stays below a target in
      [60, 99], and the line stays on the lattice. */
  lemma StepKeepsWalk(w: Walk, s: StepInput, f: Frame)
    requires WalkOk(w) && StepOk(s)
    ensures WalkOk(StepWalk(w, s, f))
  {
    DirectionParity(w.turns);
  }

  /** A line moves only at the end of a phase and then by exactly one
      lattice step, turning by one sixth; a reset is the only other way its
      position or heading changes. */
  lemma StepMoves(w: Walk, s: StepInput, f: Frame)
    requires WalkOk(w) && StepOk(s)
    ensures var r := StepWalk(w, s, f);
      || (r.u == w.u && r.v == w.v && r.turns == w.turns && r.time == w.time + 1)
      || (r.time == 0 && r.u - w.u == DirU(w.turns) && r.v - w.v == DirV(w.turns) && (r.turns - w.turns == 1 || r.turns - w.turns == -1))
      || r == Restarted(s.restart)
  {
  }

  /** `cumulativeTime` counts the steps since the last reset: it is 0 exactly
      when this step reset the line. */
  lemma StepCountsSinceReset(w: Walk, s: StepInput, f: Frame)
    requires WalkOk(w) && StepOk(s)
    ensures StepWalk(w, s, f).cumulativeTime == if DiesAt(w, s, f) then 0 else w.cumulativeTime + 1
    ensures StepWalk(w, s, f).cumulativeTime == 0 <==> DiesAt(w, s, f)
  {
  }

  /** The draws of a reset come out as a fresh line at the centre. */
  lemma RestartedIsFresh(r: Restart)
    requires RestartOk(r)
    ensures WalkOk(Restarted(r)) && Restarted(r).u == 0 && Restarted(r).v == 0 && Restarted(r).cumulativeTime == 0
    ensures Restarted(r).turns == 1 || Restarted(r).turns == -1
  {
  }

  /** Lines 121-141: where the line is drawn this frame, `wave` of the way
      along the phase's step (none of it on the first tick of a phase, where
      sin 0 = 0), pulled towards the pointer within its radius. */
  function Current(f: Frame, w: Walk, s: StepInput, now: int): (p: PathPoint)
    ensures p.time == now
    ensures w.time == 0 && !(0.0 < s.distance < MaxDistance) ==> p.x == f.cx + X(w.u) * Len && p.y == f.cy + Y(w.v) * Len
  {
    var wave := if w.time == 0 then 0.0 else s.wave;
    var x := f.cx + (X(w.u) + X(DirU(w.turns)) * wave) * Len;
    var y := f.cy + (Y(w.v) + Y(DirV(w.turns)) * wave) * Len;
    if s.distance < MaxDistance && s.distance > 0.0 then PathPoint(x + s.pullX, y + s.pullY, now)
    else PathPoint(x, y, now)
  }

  /** After a step the trail is never empty: it ends with the point just drawn,
      and holds nothing older than the window. */
  lemma StepTrail(before: seq<PathPoint>, p: PathPoint, now: int)
    requires p.time == now
    ensures var t := Recent(before + [p], now - Window);
      |t| >= 1 && t[|t| - 1] == p && forall q :: q in t ==> q.time > now - Window
  {
    RecentSnoc(before, p, now - Window);
  }

  /** What is drawn from: the last drawn point and the points of the window. */
  datatype Trail = Trail(lastX: real, lastY: real, pathStarted: bool, pathPoints: seq<PathPoint>)

  /** The trail a step leaves: the points kept so far (none after a reset),
      the new point, then the two-second filter. */
  function StepTrailOf(before: Trail, w: Walk, s: StepInput, f: Frame, now: int): Trail
    requires StepOk(s)
  {
    var p := Current(f, StepWalk(w, s, f), s, now);
    Trail(p.x, p.y, true, Recent((if DiesAt(w, s, f) then [] else before.pathPoints) + [p], now - Window))
  }

  // ---------------------------------------------------------------------------
  // Line
  // ---------------------------------------------------------------------------

  class Line {
    /** Lattice position (x = u / 2, y = v * sin 60) and the step of the
        current phase (`addedX`, `addedY`). */
    var u: int
    var v: int
    var du: int
    var dv: int
    /** `rad` as a count of sixth turns. */
    var turns: int
    var lightInputMultiplier: real
    var color: string
    var cumulativeTime: int
    var time: int
    var targetTime: int
    var lastX: real
    var lastY: real
    var pathStarted: bool
    var pathPoints: seq<PathPoint>

    function WalkOf(): Walk
      reads this
    {
      Walk(u, v, turns, time, targetTime, cumulativeTime)
    }

    function TrailOf(): Trail
      reads this
    {
      Trail(lastX, lastY, pathStarted, pathPoints)
    }

    /** The ranges of every line, and the step matching the heading; `time`
        may have reached the target while a step decides on a new phase. */
    predicate Steady()
      reads this
    {
      && BaseTime <= targetTime < BaseTime + AddedTime && 0 <= time && cumulativeTime >= 0
      && du == DirU(turns) && dv == DirV(turns) && (u + v) % 2 == 0
      && BaseLight <= lightInputMultiplier < BaseLight + AddedLight && color == LineColor
    }

    /** What holds between frames. */
    predicate Valid()
      reads this
    {
      Steady() && time < targetTime
    }

    /** Lines 67-69: a new line is reset. */
    constructor (r: Restart, f: Frame)
      requires RestartOk(r)
      ensures Valid() && WalkOf() == Restarted(r) && lightInputMultiplier == LightMultiplier(r.lightDraw)
      ensures TrailOf() == Trail(f.cx + X(DirU(turns)) * Len, f.cy + Y(DirV(turns)) * Len, false, [])
    {
      new;
      Reset(r, f);
    }

    /** Lines 71-87, ending in the `beginPhase` that survives: back to the
        centre with heading 0, counters and trail cleared, then one turn. */
    method Reset(r: Restart, f: Frame)
      requires RestartOk(r)
      modifies this
      ensures Valid() && WalkOf() == Restarted(r) && lightInputMultiplier == LightMultiplier(r.lightDraw)
      ensures TrailOf() == Trail(f.cx + X(DirU(turns)) * Len, f.cy + Y(DirV(turns)) * Len, false, [])
      ensures color == LineColor
    {
      var newColor := NewLineColor();
      Home(r.lightDraw, newColor);
      DropTrail();
      StartPhase(r.targetDraw, r.turnDraw);
      SetLast(f);
    }

    /** Lines 72-81: back to the centre with heading 0, a fresh light
        multiplier and colour, and the reset counter cleared. */
    method Home(lightDraw: real, newColor: string)
      requires 0.0 <= lightDraw < 1.0
      modifies this
      ensures WalkOf() == Walk(0, 0, 0, old(time), old(targetTime), 0) && du == 0 && dv == 0
      ensures lightInputMultiplier == LightMultiplier(lightDraw) && color == newColor
      ensures TrailOf() == old(TrailOf())
    {
      u, v, du, dv, turns := 0, 0, 0, 0, 0;
      lightInputMultiplier := LightMultiplier(lightDraw);
      color := newColor;
      cumulativeTime := 0;
    }

    /** Lines 82-85, and 226-229 on resize: the trail is dropped. */
    method DropTrail()
      modifies this
      ensures TrailOf() == Trail(0.0, 0.0, false, [])
      ensures WalkOf() == old(WalkOf()) && du == old(du) && dv == old(dv)
      ensures lightInputMultiplier == old(lightInputMultiplier) && color == old(color)
    {
      pathStarted := false;
      lastX, lastY := 0.0, 0.0;
      pathPoints := [];
    }

    /** Lines 90-96: move to the end of the finished phase, draw the new
        phase length, turn by a sixth and take the step of the new heading. */
    method StartPhase(targetDraw: real, turnDraw: real)
      requires 0.0 <= targetDraw < 1.0
      modifies this
      ensures WalkOf() == Walk(old(u) + old(du), old(v) + old(dv), old(turns) + Turn(turnDraw), 0, TargetTime(targetDraw), old(cumulativeTime))
      ensures du == DirU(turns) && dv == DirV(turns)
      ensures lightInputMultiplier == old(lightInputMultiplier) && color == old(color) && TrailOf() == old(TrailOf())
    {
      u := u + du;
      v := v + dv;
      time := 0;
      targetTime := TargetTime(targetDraw);
      turns := turns + Turn(turnDraw);
      du := DirU(turns);
      dv := DirV(turns);
    }

    /** Lines 101-107: the drawing continues from the end of the new phase's
        first step (the wave is sin(pi / 2) = 1). */
    method SetLast(f: Frame)
      modifies this
      ensures lastX == f.cx + (X(u) + X(du)) * Len && lastY == f.cy + (Y(v) + Y(dv)) * Len
      ensures pathStarted == old(pathStarted) && pathPoints == old(pathPoints)
      ensures WalkOf() == old(WalkOf()) && du == old(du) && dv == old(dv)
      ensures lightInputMultiplier == old(lightInputMultiplier) && color == old(color)
    {
      lastX := f.cx + (X(u) + X(du)) * Len;
      lastY := f.cy + (Y(v) + Y(dv)) * Len;
    }

    /** Lines 89-109: begin a phase, or reset the line when the phase dies
        by chance or starts outside the box. */
    method BeginPhase(d: PhaseDraws, r: Restart, f: Frame)
      requires Steady() && PhaseOk(d) && RestartOk(r)
      modifies this
      ensures Valid() && time == 0
      ensures var moved := NextPhase(old(WalkOf()), d);
        if Dies(d, moved.u, moved.v, f) then
          WalkOf() == Restarted(r) && lightInputMultiplier == LightMultiplier(r.lightDraw) && color == LineColor
          && !pathStarted && pathPoints == []
        else
          WalkOf() == moved && lightInputMultiplier == old(lightInputMultiplier) && color == old(color)
          && pathStarted == old(pathStarted) && pathPoints == old(pathPoints)
      ensures lastX == f.cx + (X(u) + X(du)) * Len && lastY == f.cy + (Y(v) + Y(dv)) * Len
    {
      DirectionParity(turns);
      StartPhase(d.targetDraw, d.turnDraw);
      if d.dieDraw < DieChance || OutOfBounds(u, v, f) {
        Reset(r, f);
      } else {
        SetLast(f);
      }
    }

    /** Lines 111-180: one frame of the line. */
    method Step(s: StepInput, f: Frame, now: int)
      requires Valid() && StepOk(s)
      modifies this
      ensures Valid()
      ensures WalkOf() == StepWalk(old(WalkOf()), s, f)
      ensures TrailOf() == StepTrailOf(old(TrailOf()), old(WalkOf()), s, f, now)
      ensures lightInputMultiplier == if DiesAt(old(WalkOf()), s, f) then LightMultiplier(s.restart.lightDraw) else old(lightInputMultiplier)
      ensures color == if DiesAt(old(WalkOf()), s, f) then LineColor else old(color)
    {
      Advance(s, f);
      var p := Current(f, WalkOf(), s, now);
      Record(p, now);
    }

    /** Lines 114-119: count the tick, and begin a phase at the target. */
    method Advance(s: StepInput, f: Frame)
      requires Valid() && StepOk(s)
      modifies this
      ensures Valid() && WalkOf() == StepWalk(old(WalkOf()), s, f)
      ensures pathPoints == if DiesAt(old(WalkOf()), s, f) then [] else old(pathPoints)
      ensures lightInputMultiplier == if DiesAt(old(WalkOf()), s, f) then LightMultiplier(s.restart.lightDraw) else old(lightInputMultiplier)
      ensures color == if DiesAt(old(WalkOf()), s, f) then LineColor else old(color)
    {
      time := time + 1;
      cumulativeTime := cumulativeTime + 1;
      if time >= targetTime {
        BeginPhase(s.phase, s.restart, f);
      }
    }

    /** Lines 146-150 and 177-179: push the point, keep the last two seconds
        and continue the drawing from the point. */
    method Record(p: PathPoint, now: int)
      requires Valid()
      modifies this
      ensures Valid() && WalkOf() == old(WalkOf())
      ensures TrailOf() == Trail(p.x, p.y, true, Recent(old(pathPoints) + [p], now - Window))
      ensures lightInputMultiplier == old(lightInputMultiplier) && color == old(color)
    {
      pathPoints := pathPoints + [p];
      pathPoints := Recent(pathPoints, now - Window);
      lastX := p.x;
      lastY := p.y;
      pathStarted := true;
    }

    /** Lines 225-230: the trail is dropped on resize. */
    method ClearPath()
      requires Valid()
      modifies this
      ensures Valid() && WalkOf() == old(WalkOf()) && lightInputMultiplier == old(lightInputMultiplier)
      ensures TrailOf() == Trail(0.0, 0.0, false, [])
    {
      DropTrail();
    }
  }

  predicate Distinct(lines: seq<Line>)
  {
    forall i, j :: 0 <= i < j < |lines| ==> lines[i] != lines[j]
  }

  /** What every line shows after a frame at time `now`: a started, non-empty
      trail ending at a point drawn now, with nothing older than the window. */
  predicate Drawn(t: Trail, now: int)
  {
    && t.pathStarted && |t.pathPoints| >= 1
    && t.pathPoints[|t.pathPoints| - 1].time == now
    && forall q :: q in t.pathPoints ==> q.time > now - Window
  }

  /** Every step leaves a drawn trail. */
  lemma StepDraws(before: Trail, w: Walk, s: StepInput, f: Frame, now: int)
    requires StepOk(s)
    ensures Drawn(StepTrailOf(before, w, s, f, now), now)
  {
    var p := Current(f, StepWalk(w, s, f), s, now);
    StepTrail(if DiesAt(w, s, f) then [] else before.pathPoints, p, now);
  }

  /** A step that resets the line leaves only the point just drawn. */
  lemma ResetTrail(before: Trail, w: Walk, s: StepInput, f: Frame, now: int)
    requires StepOk(s) && DiesAt(w, s, f)
    ensures |StepTrailOf(before, w, s, f, now).pathPoints| == 1
  {
    var p := Current(f, StepWalk(w, s, f), s, now);
    RecentSnoc([], p, now - Window);
  }
}
