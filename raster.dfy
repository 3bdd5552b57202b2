/** round_notes: painting closed intervals into a time-by-pitch 0/1 matrix.
    Row t of the matrix is grid step t; column c is pitch c + O. */
module Raster {
  import opened MidiEvents
  import opened Ticks
  import opened Ingest
  import opened Arith

  /** `if not R: R = RANGE`: no width, or width 0, means all pitches. */
  function Width(r: Option<nat>): (w: nat)
    ensures w > 0
    ensures r.None? || r.value == 0 ==> w == NoteRange
    ensures r.Some? && r.value != 0 ==> w == r.value
  {
    match r
    case None => NoteRange
    case Some(n) => if n == 0 then NoteRange else n
  }

  /** `if not O: O = 0`. */
  function Offset(o: Option<int>): (off: int)
    ensures o.None? || o.value == 0 ==> off == 0
    ensures o.Some? ==> off == o.value
  {
    match o
    case None => 0
    case Some(n) => n
  }

  /** An interval that leaves a mark: closed, longer than half a step
      (`time_step/2` rounds down), and not collapsed to zero rows once its
      ends are rounded onto the grid. */
  predicate Kept(iv: Interval, ts: int): (b: bool)
    requires ts > 0
    ensures b ==> iv.Closed? && iv.start < iv.end && Row(iv.start, ts) < Row(iv.end, ts)
  {
    if iv.Closed? && iv.end - iv.start > ts / 2 then
      RowMonotone(iv.start, iv.end, ts);
      Row(iv.start, ts) != Row(iv.end, ts)
    else false
  }

  /** Interval `iv` paints row `t` of its pitch's column. Row `t` covers
      the ticks [t * ts, (t + 1) * ts); a painted row reaches at most half a
      step before the interval's start and at most half a step past its end. */
  predicate Paints(iv: Interval, ts: int, t: int): (b: bool)
    requires ts > 0
    ensures b ==> Kept(iv, ts) && 2 * iv.start - ts <= 2 * (t * ts) && 2 * ((t + 1) * ts) <= 2 * iv.end + ts
  {
    if Kept(iv, ts) && Row(iv.start, ts) <= t < Row(iv.end, ts) then
      MulMono(Row(iv.start, ts), t, ts);
      MulMono(t + 1, Row(iv.end, ts), ts);
      true
    else false
  }

  /** Some interval of the list paints row `t`. */
  ghost predicate Covered(l: seq<Interval>, ts: int, t: int)
    requires ts > 0
  {
    exists k :: 0 <= k < |l| && Paints(l[k], ts, t)
  }

  /** The value round_notes leaves in cell (t, c): 1 exactly when pitch
      c + O has an interval that paints row t. */
  ghost function CellValue(notes: seq<seq<Interval>>, ts: int, o: int, t: int, c: int): (v: int)
    requires ts > 0
    ensures v == 0 || v == 1
  {
    if 0 <= c + o < |notes| && Covered(notes[c + o], ts, t) then 1 else 0
  }

  ghost predicate HasOpen(notes: seq<seq<Interval>>)
  {
    exists p, k :: 0 <= p < |notes| && 0 <= k < |notes[p]| && notes[p][k].Open?
  }

  /** Every interval starts at a non-negative tick (so no row index is negative). */
  ghost predicate StartsNonNegative(notes: seq<seq<Interval>>)
  {
    forall p, k :: 0 <= p < |notes| && 0 <= k < |notes[p]| ==> notes[p][k].start >= 0
  }

  /** Every interval that is painted falls in the column window [O, O + R). */
  ghost predicate InWindow(notes: seq<seq<Interval>>, ts: int, w: int, o: int)
    requires ts > 0
  {
    forall p, k :: 0 <= p < |notes| && 0 <= k < |notes[p]| && Kept(notes[p][k], ts) ==> 0 <= p - o < w
  }

  /** `m[lo:hi, col] = 1`, with numpy clipping `hi` to the number of rows. */
  method FillRows(m: array2<int>, lo: int, hi: int, col: int)
    requires 0 <= lo <= hi && 0 <= col < m.Length1
    modifies m
    ensures forall t, c :: 0 <= t < m.Length0 && 0 <= c < m.Length1 ==>
              m[t, c] == if c == col && lo <= t < hi then 1 else old(m[t, c])
  {
    var t := lo;
    while t < hi && t < m.Length0
      invariant lo <= t
      invariant forall t', c :: 0 <= t' < m.Length0 && 0 <= c < m.Length1 ==>
                  m[t', c] == if c == col && lo <= t' < t && t' < hi then 1 else old(m[t', c])
    {
      m[t, col] := 1;
      t := t + 1;
    }
  }

  /** Painting by a list grows one interval at a time. */
  lemma CoveredSnoc(l: seq<Interval>, k: int, ts: int, t: int)
    requires 0 <= k < |l| && ts > 0
    ensures Covered(l[..k + 1], ts, t) <==> Covered(l[..k], ts, t) || Paints(l[k], ts, t)
  {
    if Covered(l[..k + 1], ts, t) {
      var j :| 0 <= j < k + 1 && Paints(l[..k + 1][j], ts, t);
      if j < k {
        assert l[..k][j] == l[j];
      }
    }
    if Covered(l[..k], ts, t) {
      var j :| 0 <= j < k && Paints(l[..k][j], ts, t);
      assert l[..k + 1][j] == l[j];
    }
    if Paints(l[k], ts, t) {
      assert l[..k + 1][k] == l[k];
    }
  }

  /** round_notes(notes, track_ticks, time_step, R, O). */
  method RoundNotes(notes: seq<seq<Interval>>, trackTicks: nat, ts: int, r: Option<nat>, o: Option<int>)
    returns (res: Result<array2<int>>)
    requires |notes| == NoteRange && ts > 0
    requires StartsNonNegative(notes)
    requires InWindow(notes, ts, Width(r), Offset(o))
    ensures res.Err? <==> HasOpen(notes)
    ensures res.Err? ==> res.failure.UnclosedNote?
    ensures res.Err? ==> var p := res.failure.pitch;
              (exists k :: 0 <= k < |notes[p]| && notes[p][k].Open?) &&
              forall q, k :: 0 <= q < p && 0 <= k < |notes[q]| ==> notes[q][k].Closed?
    ensures res.Ok? ==> fresh(res.value)
    ensures res.Ok? ==> res.value.Length0 == trackTicks / ts && res.value.Length1 == Width(r)
    ensures res.Ok? ==> forall t, c :: 0 <= t < res.value.Length0 && 0 <= c < res.value.Length1 ==>
                          res.value[t, c] == CellValue(notes, ts, Offset(o), t, c)
  {
    var w, off := Width(r), Offset(o);
    var m := new int[trackTicks / ts, w]((_, _) => 0);
    for p := 0 to |notes|
      invariant forall q, k :: 0 <= q < p && 0 <= k < |notes[q]| ==> notes[q][k].Closed?
      invariant forall t, c :: 0 <= t < m.Length0 && 0 <= c < m.Length1 ==>
                  m[t, c] == if 0 <= c + off < p && Covered(notes[c + off], ts, t) then 1 else 0
    {
      var l := notes[p];
      for k := 0 to |l|
        invariant forall j :: 0 <= j < k ==> l[j].Closed?
        invariant forall t, c :: 0 <= t < m.Length0 && 0 <= c < m.Length1 ==>
                    m[t, c] == if (0 <= c + off < p && Covered(notes[c + off], ts, t))
                                  || (c + off == p && Covered(l[..k], ts, t)) then 1 else 0
      {
        match l[k]
        case Open(_) =>
          return Err(UnclosedNote(p));
        case Closed(start, end) =>
          if end - start > ts / 2 {
            var startT := RoundTick(start, ts) / ts;
            var endT := RoundTick(end, ts) / ts;
            if startT != endT {
              assert Kept(l[k], ts);
              FillRows(m, startT, endT, p - off);
            }
          }
          forall t | 0 <= t < m.Length0 {
            CoveredSnoc(l, k, ts, t);
          }
      }
      assert l[..|l|] == l;
    }
    return Ok(m);
  }

  // ---------------------------------------------------------------------
  // What one interval paints

  /** An interval no longer than half a step paints nothing. */
  lemma ShortNotePaintsNothing(iv: Interval, ts: int, t: int)
    requires ts > 0 && iv.Closed? && iv.end - iv.start <= ts / 2
    ensures !Paints(iv, ts, t)
  {
  }

  /** A kept interval paints exactly the rows from its rounded start up to,
      not including, its rounded end; and a closed interval is kept exactly
      when it is longer than half a step and those rows are not empty. */
  lemma {:induction false} KeptNoteRows(iv: Interval, ts: int)
    requires ts > 0 && iv.Closed?
    ensures Kept(iv, ts) <==> iv.end - iv.start > ts / 2 && Row(iv.start, ts) < Row(iv.end, ts)
    ensures Kept(iv, ts) ==> forall t :: Paints(iv, ts, t) <==> Row(iv.start, ts) <= t < Row(iv.end, ts)
  {
    if iv.end - iv.start > ts / 2 {
      RowMonotone(iv.start, iv.end, ts);
    }
  }

  /** With a time step of 64, (10, 40) paints nothing while (10, 50) paints row 0 only. */
  lemma ShortNoteExample(t: int)
    ensures !Paints(Closed(10, 40), 64, t)
    ensures Paints(Closed(10, 50), 64, t) <==> t == 0
  {
    assert Row(10, 64) == 0 && Row(50, 64) == 1;
  }

  /** Intervals of one pitch paint the union of what each paints. */
  lemma {:induction false} CoveredAppend(a: seq<Interval>, b: seq<Interval>, ts: int, t: int)
    requires ts > 0
    ensures Covered(a + b, ts, t) <==> Covered(a, ts, t) || Covered(b, ts, t)
  {
    if Covered(a + b, ts, t) {
      var k :| 0 <= k < |a + b| && Paints((a + b)[k], ts, t);
      if k < |a| {
        assert (a + b)[k] == a[k];
      } else {
        assert (a + b)[k] == b[k - |a|];
      }
    }
    if Covered(a, ts, t) {
      var k :| 0 <= k < |a| && Paints(a[k], ts, t);
      assert (a + b)[k] == a[k];
    }
    if Covered(b, ts, t) {
      var k :| 0 <= k < |b| && Paints(b[k], ts, t);
      assert (a + b)[k + |a|] == b[k];
    }
  }

  /** Adding an interval to a pitch never clears a cell: cells are only
      ever set, and overlapping intervals union. */
  lemma AddingNeverClears(notes: seq<seq<Interval>>, p: int, iv: Interval, ts: int, o: int, t: int, c: int)
    requires ts > 0 && 0 <= p < |notes|
    ensures CellValue(notes, ts, o, t, c) <= CellValue(notes[p := notes[p] + [iv]], ts, o, t, c)
    ensures CellValue(notes[p := notes[p] + [iv]], ts, o, t, c) ==
            if c + o == p && Paints(iv, ts, t) then 1 else CellValue(notes, ts, o, t, c)
  {
    CoveredAppend(notes[p], [iv], ts, t);
    if c + o == p && Paints(iv, ts, t) {
      assert [iv][0] == iv;
    }
  }

  /** A single pitch-60 interval (0, 128) with a time step of 64 fills
      column 60 of both rows of a 128-tick track and nothing else. */
  lemma SingleNoteExample(t: int, c: int)
    requires 0 <= t < 2 && 0 <= c < NoteRange
    ensures CellValue(EmptyTable()[60 := [Closed(0, 128)]], 64, 0, t, c) == if c == 60 then 1 else 0
  {
    var notes := EmptyTable()[60 := [Closed(0, 128)]];
    assert Row(0, 64) == 0 && Row(128, 64) == 2;
    if c == 60 {
      assert Paints(notes[60][0], 64, t);
    }
  }
}
