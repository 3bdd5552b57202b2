# midi_util in Dafny

A model of `midi_util.py`, which converts between MIDI note events and a
time-by-pitch piano roll. The model has nine modules:

- `Arith` (arith.dfy): facts about Euclidean division and products that
  the grid arithmetic of the other modules shares.
- `MidiEvents` (events.dfy): the events (end of track, NoteOn, NoteOff,
  any other event), each with its tick delta. It also holds the failures the
  converter raises. Following MIDI 1.0, a NoteOn with velocity 0 counts as a
  NoteOff.
- `Ticks` (ticks.dfy): `round_tick`, with Python 2's `round` (halves away
  from zero) computed exactly on integers.
- `Ingest` (ingest.dfy): the event loop shared by `ingest_notes` and
  `parse_midi_to_sequence`. It is a function `IngestFrom`, a left fold of
  `Step` over a track. The methods `IngestTrack`, `IngestNotes` and
  `ParseMidiToSequence` run the same loop imperatively and are proved equal
  to the fold. Each pitch keeps a list of intervals, `Open(start)` while
  the note sounds and `Closed(start, end)` once it has ended.
- `Raster` (raster.dfy): `round_notes`, which paints closed intervals into
  an `array2<int>` of 0/1 cells. `FillRows` models the numpy slice
  assignment, including the clipping of the slice end.
- `Parse` (parse.dfy): `parse_midi_to_sequence` on a pattern that has
  already been read. All tracks share one table, each track's counter
  restarts at 0, the longest track is rounded onto the grid, and the table
  is painted.
- `Writer` (writer.dfy): the class `MidiWriter`. Its `track` field is the
  event list that `note_on`, `note_off` and `dump_sequence_to_midi` append
  to. `Emit` is the specification: a fold of `StepRow` over the rows,
  followed by the closing flush. The method is proved to build exactly
  `Emit`, and the lemmas state what `Emit` means: which pitches turn on and
  off, where events land in time, and the per-pitch on/off alternation.
- `Chords` (chords.dfy): `chord_on`, which fills a fresh array in a loop,
  and the chord helpers.
- `RoundTrip` (roundtrip.dfy): what happens when the writer's track is fed
  back to the ingestion loop.

Behaviour of the code that a reader might not expect, all modelled as
written:

- A second NoteOn while a note sounds keeps the first interval and drops
  the new one.
- A NoteOff for a pitch whose list is empty raises. A NoteOff whose pitch
  has no open interval is skipped.
- With several tracks the table is shared but the counter restarts, so a
  later track can close an earlier track's note at a smaller tick. The
  result is an interval that ends before it starts
  (`Ingest.CrossTrackEndPrecedesStart`).
- The writer starts `steps_passed` at 1, so the events of row `k` land at
  absolute tick `(k + 1) * time_step` (`Writer.StepLandsOnGrid`).
- The final flush writes a NoteOff for all 128 pitches, whether or not
  they sound. Feeding the writer's track back to `ingest_notes` therefore
  raises as soon as some pitch is zero in every row, since that pitch's
  first event is the flush's NoteOff (`RoundTrip.ReingestSilentPitchRaises`).
  The empty matrix is one such case (`RoundTrip.ReingestEmptyRaises`).

## Model

| member | source | states |
|---|---|---|
| Ticks.Row | midi_util.py:7-8 | The grid row nearest to the tick: twice its distance is within `ts`, with a half rounding away from zero (up for non-negative ticks). |
| Ticks.RoundTick | midi_util.py:7-8 | `round_tick` returns a multiple of `ts` within half a step of the tick, with the same tie rule. It is non-negative for non-negative ticks. |
| Ticks.RowUnique | midi_util.py:7-8 | No other multiple of `ts` meets those bounds, so the contract of `Row` determines it. |
| Ticks.RoundTickOnGrid | midi_util.py:7-8 | A tick already on the grid is returned unchanged. |
| Ticks.RoundTickIdempotent | midi_util.py:7-8 | Rounding twice equals rounding once. |
| Ticks.RowMonotone | midi_util.py:7-8 | Rounding preserves the order of two ticks. |
| Ingest.EmptyTable | midi_util.py:12 | The fresh table has one empty list for each of the 128 pitches. |
| Ingest.Step | midi_util.py:15-40 | One event raises exactly when it ends a note whose pitch has an empty list, and the failure names that pitch. Otherwise the counter moves by the event's positive delta (end-of-track markers excepted), and only the event's own pitch can change. |
| Ingest.IngestFrom | midi_util.py:15-42 | After a track, the counter has advanced by the sum of the positive deltas of its events that are not end-of-track markers. |
| Ingest.IngestTracksFrom | midi_util.py:74-105 | Across tracks, the kept track length is the maximum over all tracks. |
| Ingest.IngestTrack | midi_util.py:77-103 | The imperative inner loop returns exactly the fold `IngestFrom` from a counter of 0. |
| Ingest.IngestNotes | midi_util.py:10-42 | `ingest_notes` returns the fold from the empty table. On success the tick is the sum of deltas and the table is well formed. It raises exactly when some end event comes before any NoteOn of its pitch. |
| Ingest.StartWhileOpenIgnored | midi_util.py:24-29 | A NoteOn while the pitch's last interval is open changes no list, only the tick. |
| Ingest.StartOpensInterval | midi_util.py:24-31 | Otherwise a NoteOn appends an open interval at the current tick. |
| Ingest.EndClosesInterval | midi_util.py:32-40 | An end event closes the pitch's open last interval at the current tick. |
| Ingest.EndWithoutOpenIgnored | midi_util.py:32-38 | An end event whose pitch's last interval is already closed changes no list. |
| Ingest.OrderedOpen | midi_util.py:30-31 | Appending an open interval keeps a list ordered. |
| Ingest.OrderedClose | midi_util.py:39-40 | Closing the last open interval keeps a list ordered. |
| Ingest.StepKeepsOrderedAt | midi_util.py:24-40 | The list an event touches stays ordered. |
| Ingest.StepKeepsWellFormed | midi_util.py:15-40 | One event keeps every list ordered: starts lie in [0, now], only the last entry is open, closed entries have start <= end <= now, and entries do not overlap. |
| Ingest.IngestKeepsWellFormed | midi_util.py:15-42 | A whole track keeps the table well formed. |
| Ingest.StepFillsOnlyByStart | midi_util.py:24-40 | A non-empty list never becomes empty. An empty list is filled exactly by a NoteOn of its pitch. |
| Ingest.IngestFailsIffUnheralded | midi_util.py:35 | Ingestion raises if and only if some end event meets a pitch whose list was empty at the start of the track and which no earlier NoteOn filled. |
| Ingest.IngestFailsIffUnheraldedEmpty | midi_util.py:10-42 | From the empty table, ingestion raises if and only if some end event comes before every NoteOn of its pitch. |
| Ingest.IngestKeepsSound | midi_util.py:78-103 | One track keeps a shared table sound: starts are non-negative and only last entries are open. |
| Ingest.TracksKeepSound | midi_util.py:76-105 | Any number of tracks keep the shared table sound. |
| Ingest.WellFormedIsSound | midi_util.py:15-42 | A table that is well formed within one track is also sound. |
| Ingest.CrossTrackEndPrecedesStart | midi_util.py:76-105 | NoteOn at tick 100 in track 1, then NoteOff at tick 50 in track 2, yields the interval (100, 50). |
| Raster.Width | midi_util.py:45-46 | A missing or zero width means all 128 pitches. Any other width is kept. |
| Raster.Offset | midi_util.py:47-48 | A missing or zero offset means 0. Any other offset is kept. |
| Raster.Kept | midi_util.py:53-56 | A kept interval is closed, starts before it ends, and its rounded start row lies strictly before its rounded end row. |
| Raster.Paints | midi_util.py:53-57 | A painted row belongs to a kept interval and reaches at most half a step before the interval's start and at most half a step past its end. |
| Raster.CellValue | midi_util.py:50-57 | Every cell is 0 or 1. |
| Raster.FillRows | midi_util.py:57 | `m[lo:hi, col] = 1` sets the rows from `lo` up to `hi` (clipped to the row count) in column `col`. Every other cell is unchanged. |
| Raster.CoveredSnoc | midi_util.py:51-57 | The rows painted for a pitch grow one interval at a time. |
| Raster.RoundNotes | midi_util.py:44-59 | The first open interval raises, on the lowest such pitch. Otherwise the fresh matrix has `track_ticks / ts` rows and `R` columns. Each cell is 1 exactly when some kept interval of pitch `c + O` covers its row. |
| Raster.ShortNotePaintsNothing | midi_util.py:53 | An interval no longer than `ts / 2` (floor) paints nothing. |
| Raster.KeptNoteRows | midi_util.py:53-57 | A closed interval is kept exactly when it is longer than half a step and its rounded rows are not empty. It then paints exactly rows `[round(start)/ts, round(end)/ts)`. |
| Raster.ShortNoteExample | midi_util.py:53-57 | With a step of 64, (10, 40) paints nothing and (10, 50) paints row 0 only. |
| Raster.CoveredAppend | midi_util.py:52-57 | The rows a list of intervals paints are the union of what its parts paint. |
| Raster.AddingNeverClears | midi_util.py:57 | Adding an interval never clears a cell. It sets exactly the cells the interval paints. |
| Raster.SingleNoteExample | midi_util.py:50-57 | Pitch 60 held over (0, 128) with a step of 64 fills column 60 of both rows and nothing else. |
| Parse.IngestPattern | midi_util.py:65-105 | It raises "no pattern" exactly for an empty pattern. Otherwise its tick is the longest track's. |
| Parse.NeverNoTracks | midi_util.py:74-105 | The track loop never raises "no pattern". |
| Parse.NeverNoTracksInTrack | midi_util.py:78-103 | Nor does a single track. |
| Parse.PatternTableSound | midi_util.py:74-105 | The shared table is sound and its starts are non-negative, which the painting stage needs. |
| Parse.ParseMidiToSequence | midi_util.py:61-113 | Ingestion failures pass through. It raises for an open interval exactly when the table holds one. Otherwise the matrix has `round_tick(longest)/ts` rows and 128 columns, with the cells of `CellValue`. |
| Writer.NonzeroBelowSpec | midi_util.py:147 | The nonzero pitches below `n` are listed exactly, in ascending order. |
| Writer.NonzeroSpec | midi_util.py:147 | `np.nonzero` lists exactly the non-zero cells, once each, in ascending order. |
| Writer.OffsBelowSpec | midi_util.py:156-160 | The pitches below `n` that the NoteOff loop turns off are exactly those that are on with a zero cell, in ascending order. |
| Writer.OnsAmongSpec | midi_util.py:163-167 | The first `k` listed pitches that the NoteOn loop turns on are exactly those that are off, in list order. |
| Writer.OffPitchesSpec | midi_util.py:156-160 | A step turns off exactly the pitches that were on and whose cell is now zero. |
| Writer.OnPitchesSpec | midi_util.py:163-167 | A step turns on exactly the pitches that were off and whose cell is now non-zero. |
| Writer.OnPitchesIgnoreSilent | midi_util.py:156-167 | The NoteOn loop depends only on the state of pitches that sound in the row, so the NoteOff loop before it does not change it. |
| Writer.SwitchedOnSpec | midi_util.py:163-167 | After the NoteOn loop has visited `k` pitches, exactly those pitches and the ones already on are on. |
| Writer.OffsStep | midi_util.py:156-160 | One iteration of the NoteOff loop adds one NoteOff or nothing. The NoteOff carries the pending tick if it is the step's first event. |
| Writer.OnsStep | midi_util.py:163-167 | One iteration of the NoteOn loop does the same with one NoteOn. |
| Writer.LeadAppend | midi_util.py:149-167 | Only the first event of a step carries the tick, whether it is a NoteOff or a NoteOn. |
| Writer.StepRowParts | midi_util.py:146-169 | One row's state change, with its events split between the two loops. |
| Writer.StepRow | midi_util.py:146-169 | After a row, exactly its non-zero pitches are on. The events so far are kept as a prefix. `steps_passed` grows by one if the row emitted nothing and is reset to 1 otherwise. |
| Writer.FlushEvents | midi_util.py:171-176 | The flush is 128 NoteOffs, for pitches 0..127 in order, and spans exactly the pending delta. |
| Writer.Emit | midi_util.py:144-176 | The track has at least 128 events, and its last 128 are NoteOffs for pitches 0..127 in order. |
| Writer.EmitUpTo | midi_util.py:144-169 | The on/off state after each prefix of rows has 128 entries. |
| Writer.MidiWriter.constructor | midi_util.py:117-119 | The writer starts with an empty track and a note range of 128. |
| Writer.MidiWriter.NoteOff | midi_util.py:121-122 | `note_off` appends one NoteOff with the given tick and pitch. |
| Writer.MidiWriter.NoteOn | midi_util.py:124-125 | `note_on` appends one NoteOn with velocity 70. |
| Writer.MidiWriter.DumpSequenceToMidi | midi_util.py:144-176 | The track built is exactly `Emit(sequence, time_step)`. |
| Writer.MidiWriter.TurnOff | midi_util.py:156-160 | The NoteOff loop leaves a pitch on exactly when it was on and its cell is non-zero. It appends the step's NoteOffs in ascending order, and the first one takes the pending tick. |
| Writer.MidiWriter.TurnOn | midi_util.py:163-167 | The NoteOn loop turns on every non-zero pitch. It appends NoteOns for those that were off, in ascending order, with the tick rule. |
| Writer.MidiWriter.FlushNotes | midi_util.py:171-176 | The flush appends a NoteOff for every pitch 0..127, the first carrying the pending tick. Afterwards every pitch is off. |
| Writer.LeadingTick | midi_util.py:149-151 | A group whose first event carries `t0` and the rest 0 spans `t0` ticks. |
| Writer.StepEventsShape | midi_util.py:149-167 | A step's events are its NoteOffs, then its NoteOns with velocity 70. Only the first carries the pending delta, so the step spans that delta, or 0 if it emits nothing. |
| Writer.StepKeepsBalanced | midi_util.py:144-169 | Each row keeps the invariant: the ticks written plus `steps_passed * ts` equal `(k + 1) * ts`. |
| Writer.EmitSteps | midi_util.py:144-169 | That invariant holds after every prefix of rows. |
| Writer.EmitTicks | midi_util.py:144-169 | After `k` rows, the track's ticks plus `steps_passed * ts` equal `(k + 1) * ts`, and `steps_passed >= 1`. |
| Writer.StepLandsOnGrid | midi_util.py:144-169 | Every event of row `k` lands at absolute tick `(k + 1) * ts`, one step after its index. |
| Writer.BalancedLands | midi_util.py:149-167 | The same for one step, taken from the invariant. |
| Writer.EmitTotal | midi_util.py:144-176 | The whole track spans `(T + 1) * ts` ticks, so the flush lands one step after the last row. |
| Writer.AlternatingSpec | midi_util.py:156-167 | An alternating history starts with a NoteOn. Neighbours differ, and the pitch sounds exactly when the last event is a NoteOn. |
| Writer.KindsOffEvents | midi_util.py:156-160 | The NoteOff loop ends a given pitch at most once. |
| Writer.KindsOnEvents | midi_util.py:163-167 | The NoteOn loop starts a given pitch at most once. |
| Writer.StepKinds | midi_util.py:153-167 | A row ends a pitch exactly on an on-to-zero transition and starts it exactly on an off-to-non-zero transition. Otherwise it emits nothing for that pitch. |
| Writer.StepKeepsAlternating | midi_util.py:146-169 | Each row keeps every pitch's NoteOn/NoteOff history alternating, and in step with `notes_on`. |
| Writer.EmitAlternates | midi_util.py:145-169 | Before the flush, every pitch's NoteOns and NoteOffs alternate from a NoteOn, and the pitch is on exactly when its last event is a NoteOn. |
| Writer.FlushKinds | midi_util.py:171-176 | The flush is the NoteOff loop over all pitches: one NoteOff per pitch. |
| Writer.EmitClosesEveryPitch | midi_util.py:144-176 | Every pitch's last event is a NoteOff. Before it, events alternate from a NoteOn. The final NoteOff follows a NoteOn exactly when the pitch sounds in the last row. |
| Writer.MiddleCStartEvents | midi_util.py:156-167 | From silence, a row holding only pitch 60 emits a single NoteOn for 60 with velocity 70 at the pending delta. |
| Writer.MiddleCHeldEvents | midi_util.py:156-167 | The same row again emits nothing. |
| Writer.TwoRowsOfMiddleCLoop | midi_util.py:144-169 | Two such rows at 64 ticks a step leave one NoteOn at tick 64 and two pending steps. |
| Writer.TwoRowsOfMiddleC | midi_util.py:144-176 | Two such rows at 64 ticks a step give 129 events: the NoteOn at tick 64, then the flush's 128 NoteOffs, the first of them at a delta of 128. |
| RoundTrip.SilentStep | midi_util.py:153-169 | A row whose cell for a silent pitch is zero emits nothing for it and leaves it off. |
| RoundTrip.EmitStepSilent | midi_util.py:146-169 | The same, for row `k` of the writer's loop. |
| RoundTrip.SilentUpTo | midi_util.py:144-169 | A pitch that is zero in every row is never mentioned before the flush and is off when the flush begins. |
| RoundTrip.ReingestSilentPitchRaises | midi_util.py:171-176 | If some pitch is zero in every row, ingesting the writer's track from the empty table raises, because the flush's NoteOff is that pitch's first event. |
| RoundTrip.ReingestEmptyRaises | midi_util.py:171-176 | The track of an empty matrix is the flush alone, and ingesting it raises. |
| Chords.Cell | midi_util.py:184 | The cell an index writes. A negative index counts back from the end. |
| Chords.FirstOutOfRange | midi_util.py:183-184 | The first index numpy rejects. Every earlier one is accepted. |
| Chords.ChordVector | midi_util.py:181-185 | The vector has 128 cells. |
| Chords.ChordOn | midi_util.py:181-185 | `chord_on` raises on the first index outside the vector. Otherwise it returns a fresh array equal to `ChordVector(notes)`. |
| Chords.FirstBadIs | midi_util.py:183-184 | The loop's failing index is the first rejected one. |
| Chords.ChordVectorSpec | midi_util.py:181-185 | Exactly the listed cells are 1, and every other cell is 0. |
| Chords.ChordVectorSameCells | midi_util.py:181-185 | Lists naming the same cells give the same chord, whatever their order or repeats. |
| Chords.ChordVectorCommutes | midi_util.py:183-184 | The chord of `a + b` equals the chord of `b + a`. |
| Chords.CellsAppend | midi_util.py:183-184 | The cells of a concatenation are the union of the parts' cells. |
| Chords.ThreeNotes | midi_util.py:181-185 | A three-note chord sounds exactly its three pitches. |
| Chords.ChordPitches | midi_util.py:187-197 | C major sounds only 72, 76, 79. A minor sounds 72, 76, 81. F major sounds 72, 77, 81. G major sounds 74, 79, 83. |
| Chords.RepeatSpec | midi_util.py:200 | `xs * n` has length `n * len(xs)`, and entry `k` is `xs[k % len(xs)]`. |
| Chords.IViIvVShape | midi_util.py:199-200 | `i_vi_iv_v(n)` has `4n` rows. Row `k` is the `(k mod 4)`-th of C, Am, F and G, and every row has 128 cells. |

## Left out

- Reading and writing MIDI files, the `midi` library's `Pattern` and `Track` objects, and the `resolution`, `input_filename` and `output_filename` parameters (midi_util.py:63, 127-135, 178-179). A pattern is a sequence of event sequences, and the track is a sequence of events.
- The verbose `print` diagnostics. They have no effect on results.
- The `__main__` demonstration block.
- Floating point. `round_tick` is computed exactly on integers. `chord_on` holds 0/1 integers rather than float32. The float64 matrix that `round_notes` allocates (midi_util.py:50) is an `array2<int>` of 0/1 cells. The writer's cells, which the source tests with `np.nonzero` (midi_util.py:147), are integers, and "non-zero" is integer inequality.
- `np.reshape` at midi_util.py:138. The writer's input must already be rows of 128 cells (`Rows`).
- Raster.RoundNotes: requires every painted pitch to fall inside the column window `0 <= note - O < R`, and every start to be non-negative. numpy's negative-index wrap and `IndexError` for `note - O` are not modelled.
- Raster.RoundNotes, Parse.ParseMidiToSequence: require `time_step > 0`. The source divides by it.
- Ticks.Row: requires `ts > 0`. `round_tick` (midi_util.py:8) also accepts a negative step, which is not modelled.
- Ticks.RoundTick: requires `ts > 0`, for the same reason.
- Raster.RoundNotes: the width `R` is a natural number. The source accepts any falsy value as "no width".
- Python 2 dictionary order over `notes` and `notes_on` is taken as ascending pitch, 0..127.
- Writer.MidiWriter.DumpSequenceToMidi: `notes_on` is a local dictionary in the source. Here it is a local sequence of 128 booleans that the loops reassign, because no reference to it escapes the method.
- Writer.MidiWriter.constructor: the source creates `self.track` in `dump_sequence_to_midi`. Here it is also initialised, empty, by the constructor, because every field must be.
- Chords.ChordOn: indices other than integers (for example floats) are not modelled. Only integer indices, in range or not, are.
