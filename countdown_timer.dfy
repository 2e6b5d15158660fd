/**
 * The launch countdown (src/components/CountdownTimer.tsx): the
 * once-a-second tick that decrements days:hours:minutes:seconds with
 * borrowing, the progress ring, the dash/gap split of the decorative rings,
 * and the two-digit display.
 */
module CountdownTimer {
  import opened Decimal

  datatype TimeLeft = TimeLeft(days: int, hours: int, minutes: int, seconds: int)

  /** "assuming 109 days total". */
  const TotalDays: nat := 109
  /** `useState({ days: 109, hours: 0, minutes: 0, seconds: 0 })`. */
  const Initial: TimeLeft := TimeLeft(TotalDays, 0, 0, 0)

  /** Every field within its clock range. */
  predicate InRange(t: TimeLeft)
  {
    t.days >= 0 && 0 <= t.hours <= 23 && 0 <= t.minutes <= 59 && 0 <= t.seconds <= 59
  }

  /** The remaining time in seconds. */
  function TotalSeconds(t: TimeLeft): int
  {
    t.days * 86400 + t.hours * 3600 + t.minutes * 60 + t.seconds
  }

  predicate IsZero(t: TimeLeft)
  {
    t.days == 0 && t.hours == 0 && t.minutes == 0 && t.seconds == 0
  }

  /**
   * The `setTimeLeft` updater, lines 24-47: seconds go down with a borrow
   * from minutes, hours and days in turn; a field that is 0 wraps to its
   * maximum, and days stay at 0 once there.
   */
  method Tick(prev: TimeLeft) returns (next: TimeLeft)
    ensures InRange(prev) && !IsZero(prev) ==> InRange(next) && TotalSeconds(next) == TotalSeconds(prev) - 1
    ensures InRange(prev) ==> InRange(next)
    ensures IsZero(prev) ==> next == TimeLeft(0, 23, 59, 59)
    ensures next.days <= prev.days
    ensures prev.days >= 0 ==> next.days >= 0
    ensures next.days < prev.days ==> next.days == prev.days - 1 && next.hours == 23 && next.minutes == 59 && next.seconds == 59
  {
    var days, hours, minutes, seconds := prev.days, prev.hours, prev.minutes, prev.seconds;
    if seconds > 0 {
      seconds := seconds - 1;
    } else {
      seconds := 59;
      if minutes > 0 {
        minutes := minutes - 1;
      } else {
        minutes := 59;
        if hours > 0 {
          hours := hours - 1;
        } else {
          hours := 23;
          if days > 0 {
            days := days - 1;
          }
        }
      }
    }
    next := TimeLeft(days, hours, minutes, seconds);
  }

  /** Line 58: the share of the countdown already elapsed, in percent. */
  function Progress(days: int): (p: real)
    ensures 0 <= days <= TotalDays ==> 0.0 <= p <= 100.0
    ensures days == TotalDays ==> p == 0.0
    ensures days == 0 ==> p == 100.0
    ensures p * (TotalDays as real) == ((TotalDays - days) as real) * 100.0
  {
    ((TotalDays - days) as real) / (TotalDays as real) * 100.0
  }

  /** A later day never shows less progress. */
  lemma ProgressMonotone(d1: int, d2: int)
    requires d1 <= d2
    ensures Progress(d2) <= Progress(d1)
  {
  }

  /** Line 60: the offset that hides the part of the ring not yet elapsed. */
  function DashOffset(circumference: real, progress: real): (o: real)
    requires circumference > 0.0
    ensures 0.0 <= progress <= 100.0 ==> 0.0 <= o <= circumference
  {
    assert 0.0 <= progress <= 100.0 ==> 0.0 <= (progress / 100.0) * circumference <= circumference by {
      if 0.0 <= progress <= 100.0 {
        ScaleBelow(progress / 100.0, circumference);
      }
    }
    circumference - (progress / 100.0) * circumference
  }

  /** Scaling by a fraction in [0, 1] stays between 0 and the scaled value. */
  lemma ScaleBelow(f: real, c: real)
    requires c > 0.0
    ensures 0.0 <= f ==> 0.0 <= f * c
    ensures f <= 1.0 ==> f * c <= c
  {
  }

  /** At the start the whole progress arc is hidden, at the end none of it. */
  lemma DashOffsetEnds(circumference: real)
    requires circumference > 0.0
    ensures DashOffset(circumference, Progress(TotalDays)) == circumference
    ensures DashOffset(circumference, Progress(0)) == 0.0
  {
  }

  /** Line 15 and 20: a fresh ring length, from one draw r in [0, 1). */
  function RingDraw(r: real): (l: real)
    requires 0.0 <= r < 1.0
    ensures 0.2 <= l < 0.8
  {
    r * 0.6 + 0.2
  }

  /** Line 144: `ringLengths[i] || 0.5`; a missing entry (before the first
      draw) and a 0 both fall back to 0.5. */
  function RingLength(lengths: seq<real>, i: nat): (l: real)
    ensures i < |lengths| && lengths[i] != 0.0 ==> l == lengths[i]
    ensures i >= |lengths| || lengths[i] == 0.0 ==> l == 0.5
  {
    if i < |lengths| && lengths[i] != 0.0 then lengths[i] else 0.5
  }

  /** Lines 145-147: the dash and gap of one ring, with `circumference * length`
      drawn and the rest of the circle left open (the gap is written
      `circumference * (1 - length)` there; GapAsWritten shows it is the same). */
  datatype Dash = Dash(dash: real, gap: real)

  function RingDash(circumference: real, length: real): (d: Dash)
    requires circumference > 0.0
    ensures d.dash + d.gap == circumference
    ensures 0.2 <= length < 0.8 ==> 0.2 * circumference <= d.dash < 0.8 * circumference
  {
    var dash := circumference * length;
    ScaleBelow(length, circumference);
    ScaleBetween(length, circumference);
    Dash(dash, circumference - dash)
  }

  /** The gap is the source's `circumference * (1 - length)`. */
  lemma GapAsWritten(circumference: real, length: real)
    requires circumference > 0.0
    ensures RingDash(circumference, length).gap == circumference * (1.0 - length)
  {
    assert circumference * (1.0 - length) == circumference - circumference * length;
  }

  /** A length within [0, 1] gives a dash and a gap that are both non-negative. */
  lemma RingDashNonNegative(circumference: real, length: real)
    requires circumference > 0.0
    ensures 0.0 <= length <= 1.0 ==> 0.0 <= RingDash(circumference, length).dash && 0.0 <= RingDash(circumference, length).gap
  {
    ScaleBelow(length, circumference);
  }

  /** With the lengths drawn by RingDraw, every ring shows between 20% and 80%
      of its circle as dash. */
  lemma RingShare(circumference: real, lengths: seq<real>, i: nat)
    requires circumference > 0.0
    requires forall k :: 0 <= k < |lengths| ==> 0.2 <= lengths[k] < 0.8
    ensures 0.2 <= RingLength(lengths, i) < 0.8
    ensures var d := RingDash(circumference, RingLength(lengths, i));
      0.2 * circumference <= d.dash < 0.8 * circumference
  {
  }

  /** A share in [0.2, 0.8) of a positive length. */
  lemma ScaleBetween(f: real, c: real)
    requires c > 0.0
    ensures 0.2 <= f < 0.8 ==> 0.2 * c <= c * f < 0.8 * c
  {
    if 0.2 <= f < 0.8 {
      ScaleBelow(f - 0.2, c);
      Positive(0.8 - f, c);
    }
  }

  lemma Positive(a: real, b: real)
    requires a > 0.0 && b > 0.0
    ensures a * b > 0.0
  {
  }

  // ---------------------------------------------------------------------------
  // Display
  // ---------------------------------------------------------------------------

  /** `String(n)`: a minus sign for negative values. */
  function Show(n: int): string
  {
    if n < 0 then "-" + Digits(-n) else Digits(n)
  }

  /** `padStart(2, '0')`: zeros in front up to two characters; longer strings
      are kept whole. */
  function PadStart2(s: string): (r: string)
    ensures |r| == if |s| >= 2 then |s| else 2
    ensures r[|r| - |s|..] == s
    ensures forall k :: 0 <= k < |r| - |s| ==> r[k] == '0'
  {
    if |s| >= 2 then s else seq(2 - |s|, _ => '0') + s
  }

  /** A displayed field is at least two characters wide and, read back, is
      the field's value; so 109 days shows as "109", not truncated. */
  lemma FieldDisplay(n: nat)
    ensures |PadStart2(Show(n))| >= 2
    ensures forall k :: 0 <= k < |PadStart2(Show(n))| ==> '0' <= PadStart2(Show(n))[k] <= '9'
    ensures ValueOf(PadStart2(Show(n))) == n
    ensures n >= 10 ==> PadStart2(Show(n)) == Digits(n)
  {
    var s := Digits(n);
    assert Show(n) == s;
    DigitsRoundTrip(n);
    if n >= 10 {
      assert |Digits(n / 10)| >= 1;
      assert PadStart2(s) == s;
    } else {
      var r := PadStart2(s);
      var zs: string := seq(1, _ => '0');
      assert |s| == 1;
      assert r == zs + s;
      LeadingZeros(1, s);
      assert r[0] == '0' && r[1] == s[0];
    }
  }

  /** Lines 239-242: `dd:hh:mm:ss`. */
  function Display(t: TimeLeft): string
  {
    PadStart2(Show(t.days)) + ":" + PadStart2(Show(t.hours)) + ":" + PadStart2(Show(t.minutes)) + ":" + PadStart2(Show(t.seconds))
  }

  /** The first frame shows "109:00:00:00". */
  lemma InitialDisplay()
    ensures Display(Initial) == "109:00:00:00"
  {
    assert Digits(1) == "1" && Digits(0) == "0";
    assert Digits(10) == "10";
    assert Digits(109) == "109";
    assert PadStart2(Show(109)) == "109";
    assert PadStart2(Show(0)) == "00" by {
      assert seq(1, _ => '0') == "0";
    }
  }

  // ---------------------------------------------------------------------------
  // Component state
  // ---------------------------------------------------------------------------

  /** The two state cells of the component. */
  class Countdown {
    var timeLeft: TimeLeft
    var ringLengths: seq<real>

    predicate Valid()
      reads this
    {
      InRange(timeLeft) && timeLeft.days <= TotalDays &&
      forall k :: 0 <= k < |ringLengths| ==> 0.2 <= ringLengths[k] < 0.8
    }

    /** The first render: 109 days left and no ring lengths yet. */
    constructor ()
      ensures timeLeft == Initial && ringLengths == [] && Valid()
    {
      timeLeft := Initial;
      ringLengths := [];
    }

    /** The mount effect and the 3-second interval: eight fresh lengths. */
    method DrawRings(draws: seq<real>)
      requires Valid()
      requires |draws| == 8 && forall k :: 0 <= k < 8 ==> 0.0 <= draws[k] < 1.0
      modifies this
      ensures Valid() && timeLeft == old(timeLeft)
      ensures |ringLengths| == 8 && forall k :: 0 <= k < 8 ==> ringLengths[k] == RingDraw(draws[k])
    {
      ringLengths := seq(8, k requires 0 <= k < 8 => RingDraw(draws[k]));
    }

    /** The 1-second interval. */
    method OnSecond()
      requires Valid()
      modifies this
      ensures Valid() && ringLengths == old(ringLengths)
      ensures !IsZero(old(timeLeft)) ==> TotalSeconds(timeLeft) == TotalSeconds(old(timeLeft)) - 1
      ensures IsZero(old(timeLeft)) ==> timeLeft == TimeLeft(0, 23, 59, 59)
    {
      timeLeft := Tick(timeLeft);
    }
  }
}
