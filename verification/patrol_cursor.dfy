/** The waypoint cursor of the hover NPC: an index into the patrol path and a
    travel direction, advanced in ping-pong order (UpdatePointIndex). */
module PatrolCursor {
  import opened Engine

  datatype Cursor = Cursor(index: int, forward: bool)

  /** Mathf.Clamp on integers: the lower bound is checked first. */
  function Clamp(v: int, lo: int, hi: int): int {
    if v < lo then lo else if v > hi then hi else v
  }

  /** One UpdatePointIndex call on a path of n points: step in the travel
      direction, reflect past either end, then clamp into the path. */
  function Advance(c: Cursor, n: nat): (r: Cursor)
    ensures n >= 1 ==> 0 <= r.index < n
    ensures n == 1 && c.index == 0 ==> r == Cursor(0, !c.forward)
    ensures n >= 2 && c.forward && c.index == n - 1 ==> r == Cursor(n - 2, false)
    ensures n >= 2 && !c.forward && c.index == 0 ==> r == Cursor(1, true)
    ensures n >= 2 && c.forward && 0 <= c.index < n - 1 ==> r == Cursor(c.index + 1, true)
    ensures n >= 2 && !c.forward && 0 < c.index < n ==> r == Cursor(c.index - 1, false)
  {
    var stepped :=
      if c.forward then
        (if c.index + 1 >= n then Cursor(n - 2, false) else Cursor(c.index + 1, true))
      else
        (if c.index - 1 < 0 then Cursor(1, true) else Cursor(c.index - 1, false));
    Cursor(Clamp(stepped.index, 0, n - 1), stepped.forward)
  }

  /** The cursor after k calls of Advance. */
  function Iterate(c: Cursor, n: nat, k: nat): Cursor
    decreases k
  {
    if k == 0 then c else Advance(Iterate(c, n, k - 1), n)
  }

  /** Reference definition of the back-and-forth sweep over 0..n-1: after k
      advances from (0, forward) the index is a triangle wave of period
      2(n-1), travelling forward exactly on the rising half. */
  function Wave(n: nat, k: nat): (c: Cursor)
    requires n >= 2
    ensures 0 <= c.index < n
  {
    var p := 2 * (n - 1);
    var m := k % p;
    Cursor(if m <= n - 1 then m else p - m, k == 0 || 1 <= m <= n - 1)
  }

  lemma ModSuccessor(k: nat, p: nat)
    requires p >= 1
    ensures k % p + 1 < p ==> (k + 1) % p == k % p + 1
    ensures k % p + 1 == p ==> (k + 1) % p == 0
  {
    var q, m := k / p, k % p;
    assert k == p * q + m;
    if m + 1 < p {
      DivModUnique(k + 1, p, q, m + 1);
    } else {
      assert k + 1 == p * (q + 1);
      DivModUnique(k + 1, p, q + 1, 0);
    }
  }

  /** One advance moves the reference sweep forward by one step. */
  lemma WaveStep(n: nat, k: nat)
    requires n >= 2
    ensures Advance(Wave(n, k), n) == Wave(n, k + 1)
  {
    var p := 2 * (n - 1);
    ModSuccessor(k, p);
  }

  /** Starting at the first waypoint, moving forward, the cursor follows the
      triangle wave forever: it never leaves the path and reverses exactly at
      the two ends. */
  lemma {:induction false} IterateFollowsWave(n: nat, k: nat)
    requires n >= 2
    ensures Iterate(Cursor(0, true), n, k) == Wave(n, k)
  {
    if k == 0 {
      assert Wave(n, 0) == Cursor(0, true);
    } else {
      IterateFollowsWave(n, k - 1);
      WaveStep(n, k - 1);
    }
  }

  /** Every waypoint is visited within one period of the sweep. */
  lemma WaveVisitsEveryPoint(n: nat, i: nat)
    requires n >= 2 && i < n
    ensures Iterate(Cursor(0, true), n, i).index == i
  {
    IterateFollowsWave(n, i);
    assert i % (2 * (n - 1)) == i;
  }
}
