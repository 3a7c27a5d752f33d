/** The idle sweep of a stationary hover NPC that lost its target
    (StationarySearch): a fixed 9-step pattern of yaw offsets, each step made
    of a pivot toward the step's angle followed by a pause holding it. */
module StationarySweep {
  import opened Engine

  const PatternLength: nat := 9

  /** Yaw offsets, in degrees, from the heading the search started with. */
  const Angles: seq<real> := [0.0, 45.0, 90.0, 45.0, 0.0, -45.0, -90.0, -45.0, 0.0]

  /** Mathf.Lerp: the interpolation parameter is clamped to [0, 1]. */
  function Lerp(a: real, b: real, t: real): real {
    a + (b - a) * Clamp01(t)
  }

  predicate Between(x: real, a: real, b: real) {
    Min(a, b) <= x <= Max(a, b)
  }

  /** Where the sweep is after `timer` seconds: which step, which pattern
      entry, the angle it pivots from and to, and the offset it shows now. */
  datatype Pose = Pose(step: int, index: nat, previous: real, target: real, timeInStep: real, angle: real)

  /** Moving from a toward b by no more than the gap stays between them. */
  lemma ShiftBetween(a: real, b: real, e: real)
    requires a <= b ==> 0.0 <= e <= b - a
    requires b <= a ==> b - a <= e <= 0.0
    ensures Between(a + e, a, b)
  {
  }

  lemma LerpBetween(a: real, b: real, t: real)
    ensures Between(Lerp(a, b, t), a, b)
  {
    var c := Clamp01(t);
    if a <= b {
      var p := ScaleNonneg(b - a, c);
      ShiftBetween(a, b, p);
    } else {
      var p := ScaleNonpos(b - a, c);
      ShiftBetween(a, b, p);
    }
  }

  /** The whole steps elapsed and the time into the current step. */
  lemma FloorSplit(timer: real, d: real)
    requires timer >= 0.0 && d > 0.0
    ensures var s := (timer / d).Floor; s >= 0 && 0.0 <= timer - s as real * d < d
  {
    var x := timer / d;
    var s := x.Floor;
    var next := s as real + 1.0;
    assert x * d == timer;
    assert s as real <= x < next;
    MulStrict(x, next, d);
    assert timer < next * d;
    MulMonotone(s as real, x, d);
    if x < 0.0 {
      MulStrict(x, 0.0, d);
    }
    assert next * d == s as real * d + d;
  }

  /** The number of whole steps of length d in `timer`, and the time left over. */
  function SplitTime(timer: real, d: real): (r: (int, real))
    requires timer >= 0.0 && d > 0.0
    ensures r.0 >= 0 && 0.0 <= r.1 < d
    ensures timer == r.0 as real * d + r.1
  {
    FloorSplit(timer, d);
    var s := (timer / d).Floor;
    (s, timer - s as real * d)
  }

  /** The entry a step pivots from: the previous one, or the last for the first. */
  lemma PreviousEntry(i: nat)
    requires i < PatternLength
    ensures (if i == 0 then Angles[PatternLength - 1] else Angles[(i - 1 + PatternLength) % PatternLength])
            == Angles[(i + PatternLength - 1) % PatternLength]
    ensures Abs(Angles[i] - Angles[(i + PatternLength - 1) % PatternLength]) <= 45.0
  {
    if i == 0 {
    } else if i == 1 {
    } else if i == 2 {
    } else if i == 3 {
    } else if i == 4 {
    } else if i == 5 {
    } else if i == 6 {
    } else if i == 7 {
    } else {
    }
  }

  /** The entries a step pivots from and to. */
  function StepEntries(index: nat): (r: (real, real))
    requires index < PatternLength
    ensures r.0 == Angles[(index + PatternLength - 1) % PatternLength] && r.1 == Angles[index]
    ensures Abs(r.1 - r.0) <= 45.0
  {
    PreviousEntry(index);
    (if index == 0 then Angles[PatternLength - 1] else Angles[(index - 1 + PatternLength) % PatternLength],
     Angles[index])
  }

  /** The offset shown at `timeInStep` into a step: interpolated during the
      pivot portion, held at the step's target during the pause. */
  function StepAngle(previous: real, target: real, timeInStep: real, pivotDuration: real): (angle: real)
    requires pivotDuration > 0.0
    ensures timeInStep >= pivotDuration ==> angle == target
    ensures Between(angle, previous, target)
  {
    LerpBetween(previous, target, timeInStep / pivotDuration);
    if timeInStep < pivotDuration then Lerp(previous, target, timeInStep / pivotDuration)
    else target
  }

  function PoseAt(timer: real, pivotDuration: real, pauseDuration: real): (p: Pose)
    requires timer >= 0.0 && pivotDuration > 0.0 && pauseDuration >= 0.0
    ensures p.step >= 0 && p.index == p.step % PatternLength
    ensures 0.0 <= p.timeInStep < pivotDuration + pauseDuration
    ensures timer == p.step as real * (pivotDuration + pauseDuration) + p.timeInStep
    ensures p.target == Angles[p.index]
    ensures p.previous == Angles[(p.index + PatternLength - 1) % PatternLength]
    ensures Abs(p.target - p.previous) <= 45.0
    ensures p.timeInStep >= pivotDuration ==> p.angle == p.target
    ensures Between(p.angle, p.previous, p.target)
  {
    var split := SplitTime(timer, pivotDuration + pauseDuration);
    var step := split.0;
    var timeInStep := split.1;
    var index := step % PatternLength;
    var entries := StepEntries(index);
    Pose(step, index, entries.0, entries.1, timeInStep, StepAngle(entries.0, entries.1, timeInStep, pivotDuration))
  }

  /** The step after k aims at the next pattern entry, wrapping from the last
      entry back to the first, and no step turns by more than 45 degrees. */
  lemma NextStepTarget(k: nat)
    ensures (k + 1) % PatternLength == if k % PatternLength == PatternLength - 1 then 0 else k % PatternLength + 1
    ensures Abs(Angles[(k + 1) % PatternLength] - Angles[k % PatternLength]) <= 45.0
  {
    var i := k % PatternLength;
    assert k == PatternLength * (k / PatternLength) + i;
    if i == PatternLength - 1 {
      assert k + 1 == PatternLength * (k / PatternLength + 1);
    } else {
      assert k + 1 == PatternLength * (k / PatternLength) + (i + 1);
    }
  }
}
