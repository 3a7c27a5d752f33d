/** Engine-side values shared by the behaviour scripts: nullable references,
    colours, positions, and the one engine routine whose behaviour the model
    has to assume (MoveTowards). */
module Engine {

  /** A reference the inspector may leave unassigned, or a query that may miss. */
  datatype Option<+T> = None | Some(value: T)

  datatype Color = Color(r: real, g: real, b: real, a: real)

  const White: Color := Color(1.0, 1.0, 1.0, 1.0)
  const Red: Color := Color(1.0, 0.0, 0.0, 1.0)
  const Green: Color := Color(0.0, 1.0, 0.0, 1.0)

  datatype Vec3 = Vec3(x: real, y: real, z: real)

  function Abs(x: real): real {
    if x < 0.0 then -x else x
  }

  /** Mathf.Max: the larger of the two. */
  function Max(a: real, b: real): real {
    if a > b then a else b
  }

  function Min(a: real, b: real): real {
    if a < b then a else b
  }

  /** Mathf.Clamp01. */
  function Clamp01(t: real): real {
    if t < 0.0 then 0.0 else if t > 1.0 then 1.0 else t
  }

  /** Vector3.MoveTowards along a single axis. This is engine code that the
      model cannot see; it is ASSUMED to behave as the engine documents it:
      it lands on the target when the target is within maxDelta, and otherwise
      steps exactly maxDelta toward it (a negative maxDelta steps away). */
  function MoveTowards(current: real, target: real, maxDelta: real): (r: real)
    ensures maxDelta >= 0.0 ==> Abs(r - target) <= Abs(current - target)
    ensures maxDelta >= 0.0 ==> Abs(r - current) <= maxDelta
    ensures maxDelta >= 0.0 && Abs(current - target) <= maxDelta ==> r == target
    ensures Abs(current - target) > maxDelta >= 0.0 ==>
              Abs(r - target) == Abs(current - target) - maxDelta
  {
    if current == target || (maxDelta >= 0.0 && Abs(target - current) <= maxDelta) then target
    else if current < target then current + maxDelta
    else current - maxDelta
  }

  // Small facts about real products, spelled out because the solver does not
  // find them on its own inside larger proofs.

  lemma MulNonneg(a: real, b: real)
    requires a >= 0.0 && b >= 0.0
    ensures a * b >= 0.0
  {
  }

  lemma MulStrict(a: real, b: real, d: real)
    requires a < b && d > 0.0
    ensures a * d < b * d
  {
    assert (b - a) * d > 0.0;
    assert (b - a) * d == b * d - a * d;
  }

  lemma MulFraction(e: real, c: real)
    requires e >= 0.0 && 0.0 <= c <= 1.0
    ensures 0.0 <= e * c <= e
  {
    MulNonneg(e, c);
    MulNonneg(e, 1.0 - c);
    assert e * (1.0 - c) == e - e * c;
  }

  lemma MulFractionNonpos(e: real, c: real)
    requires e <= 0.0 && 0.0 <= c <= 1.0
    ensures e <= e * c <= 0.0
  {
    MulFraction(-e, c);
    assert (-e) * c == -(e * c);
  }

  // The two lemmas below hand the product back as a plain value, so that
  // callers reason about it linearly.

  lemma ScaleNonneg(e: real, c: real) returns (p: real)
    requires e >= 0.0 && 0.0 <= c <= 1.0
    ensures p == e * c && 0.0 <= p <= e
  {
    MulFraction(e, c);
    p := e * c;
  }

  lemma ScaleNonpos(e: real, c: real) returns (p: real)
    requires e <= 0.0 && 0.0 <= c <= 1.0
    ensures p == e * c && e <= p <= 0.0
  {
    MulFractionNonpos(e, c);
    p := e * c;
  }

  lemma ScaleMonotone(a: real, b: real, d: real) returns (x: real, y: real)
    requires a <= b && d >= 0.0
    ensures x == d * a && y == d * b && x <= y
  {
    MulMonotone(a, b, d);
    x := d * a;
    y := d * b;
  }

  /** x as a fraction of d, for 0 <= x <= d. */
  lemma Ratio(x: real, d: real) returns (u: real)
    requires d > 0.0 && 0.0 <= x <= d
    ensures u == x / d && 0.0 <= u <= 1.0 && d * u == x
  {
    u := x / d;
    assert u * d == x;
    if u < 0.0 {
      MulStrict(u, 0.0, d);
      assert false;
    }
    if u > 1.0 {
      MulStrict(1.0, u, d);
      assert false;
    }
  }

  lemma MulMonotone(a: real, b: real, d: real)
    requires a <= b && d >= 0.0
    ensures a * d <= b * d
  {
    MulNonneg(b - a, d);
    assert (b - a) * d == b * d - a * d;
  }

  // Integer division facts.

  lemma MulAtLeast(p: int, d: int)
    requires p > 0 && d >= 1
    ensures p * d >= p
  {
    assert p * d == p + p * (d - 1);
    assert p * (d - 1) >= 0;
  }

  /** Euclidean division is determined by its quotient and remainder. */
  lemma DivModUnique(a: int, p: int, q: int, r: int)
    requires p > 0 && 0 <= r < p && a == p * q + r
    ensures a / p == q && a % p == r
  {
    var q', r' := a / p, a % p;
    assert a == p * q' + r' && 0 <= r' < p;
    if q' > q {
      assert p * q' == p * q + p * (q' - q);
      MulAtLeast(p, q' - q);
    } else if q' < q {
      assert p * q == p * q' + p * (q - q');
      MulAtLeast(p, q - q');
    }
  }
}
