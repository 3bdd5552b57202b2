/** parse_midi_to_sequence, past the file reader: every track of a pattern
    is ingested into one shared table, the longest track's length is
    rounded onto the grid, and the table is painted with the default
    window (all 128 pitches, offset 0). */
module Parse {
  import opened MidiEvents
  import opened Ticks
  import opened Ingest
  import opened Raster

  /** The ingestion stage of a whole pattern. */
  function IngestPattern(pattern: seq<seq<MidiEvent>>): (r: Result<Ingested>)
    ensures pattern == [] <==> r == Err(NoTracks)
    ensures r.Ok? ==> |r.value.notes| == NoteRange && r.value.tick == LongestTrack(pattern)
  {
    if |pattern| < 1 then Err(NoTracks)
    else
      var r := IngestTracksFrom(EmptyTable(), 0, pattern);
      NeverNoTracks(EmptyTable(), 0, pattern);
      r
  }

  lemma {:induction false} NeverNoTracks(notes: seq<seq<Interval>>, trackTicks: int, tracks: seq<seq<MidiEvent>>)
    requires |notes| == NoteRange && trackTicks >= 0
    ensures IngestTracksFrom(notes, trackTicks, tracks) != Err(NoTracks)
    decreases |tracks|
  {
    if tracks != [] {
      var r := IngestFrom(Ingested(notes, 0), tracks[0]);
      NeverNoTracksInTrack(Ingested(notes, 0), tracks[0]);
      if r.Ok? {
        NeverNoTracks(r.value.notes, Max(r.value.tick, trackTicks), tracks[1..]);
      }
    }
  }

  lemma {:induction false} NeverNoTracksInTrack(s: Ingested, events: seq<MidiEvent>)
    requires |s.notes| == NoteRange
    ensures IngestFrom(s, events) != Err(NoTracks)
    decreases |events|
  {
    if events != [] && Step(s, events[0]).Ok? {
      NeverNoTracksInTrack(Step(s, events[0]).value, events[1..]);
    }
  }

  /** The table a pattern leaves behind is sound: ticks are never negative
      and only the last entry of a list can be open. */
  lemma PatternTableSound(pattern: seq<seq<MidiEvent>>)
    requires IngestPattern(pattern).Ok?
    ensures SoundTable(IngestPattern(pattern).value.notes)
    ensures StartsNonNegative(IngestPattern(pattern).value.notes)
  {
    TracksKeepSound(EmptyTable(), 0, pattern);
  }

  /** parse_midi_to_sequence on a pattern that has already been read. */
  method ParseMidiToSequence(pattern: seq<seq<MidiEvent>>, ts: int) returns (res: Result<array2<int>>)
    requires ts > 0
    ensures IngestPattern(pattern).Err? ==> res == Err(IngestPattern(pattern).failure)
    ensures IngestPattern(pattern).Ok? ==> (res.Err? <==> HasOpen(IngestPattern(pattern).value.notes))
    ensures IngestPattern(pattern).Ok? && res.Err? ==> res.failure.UnclosedNote?
    ensures res.Ok? ==> fresh(res.value)
    ensures res.Ok? ==> IngestPattern(pattern).Ok?
    ensures res.Ok? ==> res.value.Length0 == Row(LongestTrack(pattern), ts) && res.value.Length1 == NoteRange
    ensures res.Ok? ==> forall t, c :: 0 <= t < res.value.Length0 && 0 <= c < res.value.Length1 ==>
                          res.value[t, c] == CellValue(IngestPattern(pattern).value.notes, ts, 0, t, c)
  {
    if |pattern| < 1 {
      return Err(NoTracks);
    }
    var notes := EmptyTable();
    var trackTicks := 0;
    for i := 0 to |pattern|
      invariant |notes| == NoteRange && trackTicks >= 0
      invariant IngestPattern(pattern) == IngestTracksFrom(notes, trackTicks, pattern[i..])
    {
      assert pattern[i..][1..] == pattern[i + 1..];
      var r := IngestTrack(notes, pattern[i]);
      if r.Err? {
        return Err(r.failure);
      }
      notes, trackTicks := r.value.notes, Max(r.value.tick, trackTicks);
    }
    assert pattern[|pattern|..] == [];
    PatternTableSound(pattern);
    trackTicks := RoundTick(trackTicks, ts);
    res := RoundNotes(notes, trackTicks, ts, None, None);
  }
}
