/** round_tick: snapping a tick to the time-step grid. The source divides
    in floating point and calls Python 2's round, which rounds halves away
    from zero; here the same rounding is computed exactly on integers. */
module Ticks {
  import opened Arith

  /** round(tick / ts): the grid row nearest to `tick`, an exact half
      rounding away from zero (up for non-negative ticks). */
  function Row(tick: int, ts: int): (q: int)
    requires ts > 0
    ensures tick >= 0 ==> q >= 0 && -ts < 2 * (q * ts - tick) <= ts
    ensures tick < 0 ==> q <= 0 && -ts <= 2 * (q * ts - tick) < ts
  {
    if tick >= 0 then
      var q := (2 * tick + ts) / (2 * ts);
      DivMod(2 * tick + ts, 2 * ts);
      assert 2 * ts * q == 2 * (q * ts);
      q
    else
      var q := (-2 * tick + ts) / (2 * ts);
      DivMod(-2 * tick + ts, 2 * ts);
      assert 2 * ts * q == 2 * (q * ts);
      assert (-q) * ts == -(q * ts);
      -q
  }

  /** round_tick(tick, ts): the multiple of `ts` nearest to `tick`. */
  function RoundTick(tick: int, ts: int): (r: int)
    requires ts > 0
    ensures r % ts == 0 && r / ts == Row(tick, ts)
    ensures tick >= 0 ==> r >= 0 && -ts < 2 * (r - tick) <= ts
    ensures tick < 0 ==> r <= 0 && -ts <= 2 * (r - tick) < ts
  {
    var q := Row(tick, ts);
    MultipleMod(q, ts);
    q * ts
  }

  lemma MultipleMod(q: int, ts: int)
    requires ts > 0
    ensures (q * ts) % ts == 0 && (q * ts) / ts == q
  {
    var d, m := (q * ts) / ts, (q * ts) % ts;
    DivMod(q * ts, ts);
    assert (q - d) * ts == m;
    if q - d >= 1 {
      MulAtLeast(q - d, ts);
    } else if d - q >= 1 {
      MulAtLeast(d - q, ts);
    }
  }

  /** The bounds of Row's contract single out one row: no other multiple
      of `ts` is as near to `tick` under the same tie rule. */
  lemma RowUnique(tick: int, ts: int, k: int)
    requires ts > 0
    requires tick >= 0 ==> -ts < 2 * (k * ts - tick) <= ts
    requires tick < 0 ==> -ts <= 2 * (k * ts - tick) < ts
    ensures k == Row(tick, ts)
  {
    var q := Row(tick, ts);
    var d := k * ts - q * ts;
    assert -ts < d < ts;
    if k - q >= 1 {
      MulSub(k, q, ts);
      MulAtLeast(k - q, ts);
    } else if q - k >= 1 {
      MulSub(q, k, ts);
      MulAtLeast(q - k, ts);
    }
  }

  /** A tick already on the grid is left where it is. */
  lemma RoundTickOnGrid(k: int, ts: int)
    requires ts > 0
    ensures Row(k * ts, ts) == k
    ensures RoundTick(k * ts, ts) == k * ts
  {
    RowUnique(k * ts, ts, k);
  }

  /** Rounding twice is rounding once. */
  lemma RoundTickIdempotent(tick: int, ts: int)
    requires ts > 0
    ensures RoundTick(RoundTick(tick, ts), ts) == RoundTick(tick, ts)
  {
    RoundTickOnGrid(Row(tick, ts), ts);
  }

  /** Rounding never reorders two ticks. */
  lemma RowMonotone(a: int, b: int, ts: int)
    requires ts > 0 && a <= b
    ensures Row(a, ts) <= Row(b, ts)
    ensures RoundTick(a, ts) <= RoundTick(b, ts)
  {
    var qa, qb := Row(a, ts), Row(b, ts);
    MulSub(qa, qb, ts);
    if qa - qb >= 1 {
      MulAtLeast(qa - qb, ts);
      assert false;
    } else if qa < qb {
      MulAtLeast(qb - qa, ts);
      MulSub(qb, qa, ts);
    }
  }
}
