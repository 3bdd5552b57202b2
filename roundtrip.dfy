/** Feeding the writer's track back to the ingestor. The writer closes
    every pitch at the end, sounding or not, and the ingestor raises on a
    NoteOff for a pitch it has never seen start; so the track of any
    matrix with a pitch that never sounds cannot be read back. */
module RoundTrip {
  import opened MidiEvents
  import opened Ingest
  import opened Writer

  /** Pitch `p` is off and no event so far mentions it. */
  predicate Silent(st: EmitState, p: Pitch)
    requires |st.on| == NoteRange
  {
    !st.on[p] && Kinds(st.events, p) == []
  }

  /** A row whose cell for `p` is zero keeps `p` silent. */
  lemma SilentStep(st: EmitState, row: seq<int>, ts: int, p: Pitch)
    requires |st.on| == |row| == NoteRange
    requires Silent(st, p) && row[p] == 0
    ensures Silent(StepRow(st, row, ts), p)
  {
    var es := StepEvents(st.on, row, st.stepsPassed * ts);
    StepKinds(st.on, row, st.stepsPassed * ts, p);
    KindsAppend(st.events, es, p);
  }

  lemma EmitStepSilent(rows: seq<seq<int>>, ts: int, k: nat, p: Pitch)
    requires Rows(rows) && 0 < k <= |rows| && NeverSounds(rows, p)
    requires Silent(EmitUpTo(rows, ts, k - 1), p)
    ensures Silent(EmitUpTo(rows, ts, k), p)
  {
    var st := EmitUpTo(rows, ts, k - 1);
    assert Silent(StepRow(st, rows[k - 1], ts), p) by {
      SilentStep(st, rows[k - 1], ts, p);
    }
    EmitUpToUnfold(rows, ts, k);
  }

  /** Pitch `p` is zero in every row. */
  predicate NeverSounds(rows: seq<seq<int>>, p: Pitch)
    requires Rows(rows)
  {
    forall k :: 0 <= k < |rows| ==> rows[k][p] == 0
  }

  /** A pitch that is zero in every row stays silent through the first
      `k` rows. */
  lemma {:induction false} SilentUpTo(rows: seq<seq<int>>, ts: int, k: nat, p: Pitch)
    requires Rows(rows) && k <= |rows| && NeverSounds(rows, p)
    ensures Silent(EmitUpTo(rows, ts, k), p)
  {
    if k > 0 {
      SilentUpTo(rows, ts, k - 1, p);
      EmitStepSilent(rows, ts, k, p);
    }
  }

  /** Events that say nothing about `p` hold no NoteOn that starts it. */
  lemma {:induction false} NoKindsNoStart(es: seq<MidiEvent>, p: Pitch)
    requires Kinds(es, p) == []
    ensures forall j :: 0 <= j < |es| ==> !(es[j].Starts() && es[j].pitch == p)
  {
    if es != [] {
      NoKindsNoStart(es[1..], p);
      forall j | 1 <= j < |es|
        ensures es[j] == es[1..][j - 1]
      {
      }
    }
  }

  /** Re-ingesting the writer's track raises as soon as some pitch is zero
      in every row: its flush NoteOff is the first event of that pitch. */
  lemma ReingestSilentPitchRaises(rows: seq<seq<int>>, ts: int, p: Pitch)
    requires Rows(rows) && NeverSounds(rows, p)
    ensures IngestFrom(Ingested(EmptyTable(), 0), Emit(rows, ts)).Err?
  {
    var st := EmitUpTo(rows, ts, |rows|);
    var flush := FlushEvents(st.stepsPassed * ts);
    var track := Emit(rows, ts);
    assert track == st.events + flush;
    SilentUpTo(rows, ts, |rows|, p);
    NoKindsNoStart(st.events, p);
    var i := |st.events| + p;
    assert track[i] == flush[p];
    forall j | 0 <= j < i
      ensures !(track[j].Starts() && track[j].pitch == track[i].pitch)
    {
      if j < |st.events| {
        assert track[j] == st.events[j];
      } else {
        assert track[j] == flush[j - |st.events|];
      }
    }
    assert Unheralded(track, i);
    IngestFailsIffUnheraldedEmpty(track);
  }

  /** In particular an empty matrix, whose track is the flush alone. */
  lemma ReingestEmptyRaises(ts: int)
    ensures Emit([], ts) == FlushEvents(ts)
    ensures IngestFrom(Ingested(EmptyTable(), 0), Emit([], ts)).Err?
  {
    ReingestSilentPitchRaises([], ts, 0);
  }
}
