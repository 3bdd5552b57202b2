/** The note events that flow into the ingestor and out of the writer,
    and the failures the conversion can raise. */
module MidiEvents {

  /** Number of MIDI pitches; every per-pitch table has this many entries. */
  const NoteRange := 128

  /** Velocity the writer gives every NoteOn it emits. */
  const OnVelocity := 70

  /** A MIDI pitch is a 7-bit data byte. */
  type Pitch = p: int | 0 <= p < 128

  /** A track event, as far as the converter looks at it. Every event
      carries its delta in ticks from the previous event of its track. */
  datatype MidiEvent =
    | EndOfTrack(tick: int)
    | NoteOn(tick: int, pitch: Pitch, velocity: int)
    | NoteOff(tick: int, pitch: Pitch)
    | Other(tick: int)
  {
    /** A NoteOn with a non-zero velocity starts a note. */
    predicate Starts() {
      NoteOn? && velocity != 0
    }

    /** A NoteOff, or a NoteOn with velocity 0, ends a note (MIDI 1.0). */
    predicate Ends() {
      NoteOff? || (NoteOn? && velocity == 0)
    }
  }

  datatype Option<T> = None | Some(value: T)

  /** The exceptions the converter raises. */
  datatype Failure =
    | EndWithoutHistory(pitch: Pitch)  // IndexError: NoteOff for a pitch with an empty list
    | UnclosedNote(pitch: Pitch)       // ValueError: an open interval does not unpack as (start, end)
    | NoTracks                         // "No pattern found in midi file"
    | IndexOutOfRange(index: int)      // IndexError: chord_on given an index outside the vector

  datatype Result<T> = Ok(value: T) | Err(failure: Failure)

  /** Sum of all tick deltas: the absolute tick reached after `events`. */
  function TickTotal(events: seq<MidiEvent>): int
  {
    if events == [] then 0 else events[0].tick + TickTotal(events[1..])
  }

  lemma {:induction false} TickTotalAppend(a: seq<MidiEvent>, b: seq<MidiEvent>)
    ensures TickTotal(a + b) == TickTotal(a) + TickTotal(b)
  {
    if a == [] {
      assert a + b == b;
    } else {
      assert (a + b)[1..] == a[1..] + b;
      TickTotalAppend(a[1..], b);
    }
  }
}
