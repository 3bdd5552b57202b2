/** Event ingestion: ingest_notes and the track loop of
    parse_midi_to_sequence. A running tick counter and, per pitch, a list
    of intervals, each `[start]` while the note sounds and `[start, end]`
    once it has ended. */
module Ingest {
  import opened MidiEvents

  /** One entry of a pitch's list. */
  datatype Interval = Open(start: int) | Closed(start: int, end: int)

  /** The state of the loop: the per-pitch lists and the running tick. */
  datatype Ingested = Ingested(notes: seq<seq<Interval>>, tick: int)

  /** `{ n: [] for n in range(RANGE) }`: one empty list per pitch. */
  function EmptyTable(): (t: seq<seq<Interval>>)
    ensures |t| == NoteRange
    ensures forall p :: 0 <= p < |t| ==> t[p] == []
  {
    seq(NoteRange, _ => [])
  }

  /** How far an event moves the counter: end-of-track markers are skipped
      and only a positive delta is added. */
  function Delta(e: MidiEvent): nat
  {
    if e.EndOfTrack? || e.tick <= 0 then 0 else e.tick
  }

  /** Sum of the positive deltas of the events that are not end-of-track markers. */
  function TickSum(events: seq<MidiEvent>): nat
  {
    if events == [] then 0 else Delta(events[0]) + TickSum(events[1..])
  }

  /** One iteration of the loop body on one event. */
  function Step(s: Ingested, e: MidiEvent): (r: Result<Ingested>)
    requires |s.notes| == NoteRange
    ensures r.Err? <==> e.Ends() && s.notes[e.pitch] == []
    ensures r.Err? ==> r.failure == EndWithoutHistory(e.pitch)
    ensures r.Ok? ==> |r.value.notes| == NoteRange && r.value.tick == s.tick + Delta(e)
    ensures r.Ok? ==> forall q :: 0 <= q < NoteRange && !(e.Starts() || e.Ends()) ==> r.value.notes[q] == s.notes[q]
    ensures r.Ok? ==> forall q :: 0 <= q < NoteRange && (e.Starts() || e.Ends()) && q != e.pitch ==>
                        r.value.notes[q] == s.notes[q]
  {
    if e.EndOfTrack? then Ok(s)
    else
      var tick := s.tick + Delta(e);
      if e.Starts() then
        var l := s.notes[e.pitch];
        if |l| > 0 && !l[|l| - 1].Closed? then
          // a second NoteOn while the note sounds: the open interval is kept
          Ok(Ingested(s.notes, tick))
        else
          Ok(Ingested(s.notes[e.pitch := l + [Open(tick)]], tick))
      else if e.Ends() then
        var l := s.notes[e.pitch];
        if |l| == 0 then
          Err(EndWithoutHistory(e.pitch))
        else if !l[|l| - 1].Open? then
          // nothing to end: the event is skipped
          Ok(Ingested(s.notes, tick))
        else
          Ok(Ingested(s.notes[e.pitch := l[..|l| - 1] + [Closed(l[|l| - 1].start, tick)]], tick))
      else
        Ok(Ingested(s.notes, tick))
  }

  /** The loop over a whole track, from state `s`; the first failure aborts it. */
  function IngestFrom(s: Ingested, events: seq<MidiEvent>): (r: Result<Ingested>)
    requires |s.notes| == NoteRange
    ensures r.Ok? ==> |r.value.notes| == NoteRange
    ensures r.Ok? ==> r.value.tick == s.tick + TickSum(events)
    decreases |events|
  {
    if events == [] then Ok(s)
    else
      match Step(s, events[0])
      case Err(f) => Err(f)
      case Ok(next) => IngestFrom(next, events[1..])
  }

  function Max(a: int, b: int): int
  {
    if a < b then b else a
  }

  /** The tick count of the longest track (0 for none). */
  function LongestTrack(tracks: seq<seq<MidiEvent>>): nat
  {
    if tracks == [] then 0 else Max(TickSum(tracks[0]), LongestTrack(tracks[1..]))
  }

  /** The multi-track loop: one table shared by all tracks, the counter
      restarted at 0 for each track, and the longest track's tick kept. */
  function IngestTracksFrom(notes: seq<seq<Interval>>, trackTicks: int, tracks: seq<seq<MidiEvent>>)
    : (r: Result<Ingested>)
    requires |notes| == NoteRange && trackTicks >= 0
    ensures r.Ok? ==> |r.value.notes| == NoteRange
    ensures r.Ok? ==> r.value.tick == Max(trackTicks, LongestTrack(tracks))
    decreases |tracks|
  {
    if tracks == [] then Ok(Ingested(notes, trackTicks))
    else
      match IngestFrom(Ingested(notes, 0), tracks[0])
      case Err(f) => Err(f)
      case Ok(s) => IngestTracksFrom(s.notes, Max(s.tick, trackTicks), tracks[1..])
  }

  /** The inner loop, shared by ingest_notes and parse_midi_to_sequence:
      the counter starts at 0 and the per-pitch lists at `notes0`. */
  method IngestTrack(notes0: seq<seq<Interval>>, track: seq<MidiEvent>) returns (r: Result<Ingested>)
    requires |notes0| == NoteRange
    ensures r == IngestFrom(Ingested(notes0, 0), track)
  {
    var notes := notes0;
    var currentTick := 0;
    for i := 0 to |track|
      invariant |notes| == NoteRange
      invariant IngestFrom(Ingested(notes0, 0), track) == IngestFrom(Ingested(notes, currentTick), track[i..])
    {
      assert track[i..] == [track[i]] + track[i + 1..];
      var msg := track[i];
      if msg.EndOfTrack? {
        continue;
      }
      if msg.tick > 0 {
        currentTick := currentTick + msg.tick;
      }
      if msg.Starts() {
        var l := notes[msg.pitch];
        // a NoteOn while the last interval is open is dropped
        if |l| == 0 || l[|l| - 1].Closed? {
          notes := notes[msg.pitch := l + [Open(currentTick)]];
        }
      } else if msg.Ends() {
        var l := notes[msg.pitch];
        if |l| == 0 {
          // notes[pitch][-1] on an empty list
          return Err(EndWithoutHistory(msg.pitch));
        }
        // an end without an open interval is skipped
        if l[|l| - 1].Open? {
          notes := notes[msg.pitch := l[..|l| - 1] + [Closed(l[|l| - 1].start, currentTick)]];
        }
      }
    }
    assert track[|track|..] == [];
    return Ok(Ingested(notes, currentTick));
  }

  /** ingest_notes(track): the per-pitch lists and the final tick. */
  method IngestNotes(track: seq<MidiEvent>) returns (r: Result<Ingested>)
    ensures r == IngestFrom(Ingested(EmptyTable(), 0), track)
    ensures r.Ok? ==> r.value.tick == TickSum(track) && WellFormed(r.value)
    ensures r.Err? <==> exists i :: 0 <= i < |track| && Unheralded(track, i)
  {
    r := IngestTrack(EmptyTable(), track);
    IngestKeepsWellFormed(Ingested(EmptyTable(), 0), track);
    IngestFailsIffUnheraldedEmpty(track);
  }

  // ---------------------------------------------------------------------
  // What a single event does to its pitch's list

  /** A NoteOn while the pitch's last interval is open changes no list. */
  lemma StartWhileOpenIgnored(s: Ingested, e: MidiEvent)
    requires |s.notes| == NoteRange && e.Starts()
    requires s.notes[e.pitch] != [] && s.notes[e.pitch][|s.notes[e.pitch]| - 1].Open?
    ensures Step(s, e) == Ok(Ingested(s.notes, s.tick + Delta(e)))
  {
  }

  /** A NoteOn on a pitch with no open interval appends `[tick]`. */
  lemma StartOpensInterval(s: Ingested, e: MidiEvent)
    requires |s.notes| == NoteRange && e.Starts()
    requires s.notes[e.pitch] == [] || s.notes[e.pitch][|s.notes[e.pitch]| - 1].Closed?
    ensures Step(s, e).Ok?
    ensures Step(s, e).value.notes[e.pitch] == s.notes[e.pitch] + [Open(s.tick + Delta(e))]
  {
  }

  /** An end event closes the open interval at the current tick. */
  lemma EndClosesInterval(s: Ingested, e: MidiEvent)
    requires |s.notes| == NoteRange && e.Ends()
    requires s.notes[e.pitch] != [] && s.notes[e.pitch][|s.notes[e.pitch]| - 1].Open?
    ensures Step(s, e).Ok?
    ensures var l := s.notes[e.pitch];
            Step(s, e).value.notes[e.pitch] == l[..|l| - 1] + [Closed(l[|l| - 1].start, s.tick + Delta(e))]
  {
  }

  /** An end event whose pitch's last interval is already closed changes no list. */
  lemma EndWithoutOpenIgnored(s: Ingested, e: MidiEvent)
    requires |s.notes| == NoteRange && e.Ends()
    requires s.notes[e.pitch] != [] && s.notes[e.pitch][|s.notes[e.pitch]| - 1].Closed?
    ensures Step(s, e) == Ok(Ingested(s.notes, s.tick + Delta(e)))
  {
  }

  // ---------------------------------------------------------------------
  // Within one track: the lists stay ordered

  /** The shape of a pitch's list at tick `now` within a single track:
      every entry starts in [0, now]; every entry but the last is closed,
      so at most one is open and only the last; a closed entry ends in
      [start, now]; and entries neither overlap nor go back in time. */
  ghost predicate Ordered(l: seq<Interval>, now: int)
  {
    (forall i :: 0 <= i < |l| ==> 0 <= l[i].start <= now)
    && (forall i :: 0 <= i < |l| - 1 ==> l[i].Closed?)
    && (forall i :: 0 <= i < |l| && l[i].Closed? ==> l[i].start <= l[i].end <= now)
    && (forall i, j :: 0 <= i < j < |l| && l[i].Closed? ==> l[i].end <= l[j].start)
  }

  ghost predicate WellFormed(s: Ingested)
  {
    s.tick >= 0 && |s.notes| == NoteRange && forall p :: 0 <= p < NoteRange ==> Ordered(s.notes[p], s.tick)
  }

  lemma OrderedLater(l: seq<Interval>, now: int, later: int)
    requires Ordered(l, now) && now <= later
    ensures Ordered(l, later)
  {
  }

  /** Opening a new interval after a closed one (or on an empty list). */
  lemma OrderedOpen(l: seq<Interval>, now: int, t: int)
    requires Ordered(l, now) && 0 <= now <= t
    requires l == [] || l[|l| - 1].Closed?
    ensures Ordered(l + [Open(t)], t)
  {
    var l' := l + [Open(t)];
    OrderedLater(l, now, t);
    forall i | 0 <= i < |l|
      ensures l'[i] == l[i]
    {
    }
    forall i, j | 0 <= i < j < |l'| && l'[i].Closed?
      ensures l'[i].end <= l'[j].start
    {
      if j == |l| {
        assert l'[i] == l[i];
      }
    }
  }

  /** Closing the open interval at the end of a list. */
  lemma OrderedClose(l: seq<Interval>, now: int, t: int)
    requires Ordered(l, now) && now <= t
    requires |l| > 0 && l[|l| - 1].Open?
    ensures Ordered(l[..|l| - 1] + [Closed(l[|l| - 1].start, t)], t)
  {
    var n := |l| - 1;
    var l' := l[..n] + [Closed(l[n].start, t)];
    OrderedLater(l, now, t);
    forall i | 0 <= i < n
      ensures l'[i] == l[i]
    {
    }
  }

  /** The list an event starts or ends stays ordered. */
  lemma StepKeepsOrderedAt(s: Ingested, e: MidiEvent)
    requires |s.notes| == NoteRange && s.tick >= 0 && (e.Starts() || e.Ends())
    requires Ordered(s.notes[e.pitch], s.tick) && Step(s, e).Ok?
    ensures Ordered(Step(s, e).value.notes[e.pitch], Step(s, e).value.tick)
  {
    var l, t := s.notes[e.pitch], s.tick + Delta(e);
    var l' := Step(s, e).value.notes[e.pitch];
    if e.Starts() && !(|l| > 0 && !l[|l| - 1].Closed?) {
      assert l' == l + [Open(t)];
      OrderedOpen(l, s.tick, t);
    } else if e.Ends() && l[|l| - 1].Open? {
      assert l' == l[..|l| - 1] + [Closed(l[|l| - 1].start, t)];
      OrderedClose(l, s.tick, t);
    } else {
      assert l' == l;
      OrderedLater(l, s.tick, t);
    }
  }

  lemma StepKeepsWellFormed(s: Ingested, e: MidiEvent)
    requires WellFormed(s) && Step(s, e).Ok?
    ensures WellFormed(Step(s, e).value)
  {
    var s' := Step(s, e).value;
    forall p | 0 <= p < NoteRange
      ensures Ordered(s'.notes[p], s'.tick)
    {
      if (e.Starts() || e.Ends()) && p == e.pitch {
        StepKeepsOrderedAt(s, e);
      } else {
        OrderedLater(s.notes[p], s.tick, s'.tick);
      }
    }
  }

  /** Ingesting one track from a well-formed state keeps it well-formed:
      the single-track interval invariant. */
  lemma {:induction false} IngestKeepsWellFormed(s: Ingested, events: seq<MidiEvent>)
    requires WellFormed(s)
    ensures IngestFrom(s, events).Ok? ==> WellFormed(IngestFrom(s, events).value)
    decreases |events|
  {
    if events != [] && Step(s, events[0]).Ok? {
      StepKeepsWellFormed(s, events[0]);
      IngestKeepsWellFormed(Step(s, events[0]).value, events[1..]);
    }
  }

  // ---------------------------------------------------------------------
  // When ingestion raises

  /** Event `i` ends a note whose pitch no earlier event started. */
  ghost predicate Unheralded(events: seq<MidiEvent>, i: int)
    requires 0 <= i < |events|
  {
    events[i].Ends() && forall j :: 0 <= j < i ==> !(events[j].Starts() && events[j].pitch == events[i].pitch)
  }

  /** Event `i` ends a note whose pitch has an empty list in `notes` and
      which no earlier event of `events` started. */
  ghost predicate UnheraldedFrom(notes: seq<seq<Interval>>, events: seq<MidiEvent>, i: int)
    requires |notes| == NoteRange && 0 <= i < |events|
  {
    Unheralded(events, i) && notes[events[i].pitch] == []
  }

  /** A list, once non-empty, stays non-empty; an empty list is filled
      exactly by a NoteOn of its pitch. */
  lemma StepFillsOnlyByStart(s: Ingested, e: MidiEvent, p: Pitch)
    requires |s.notes| == NoteRange && Step(s, e).Ok?
    ensures s.notes[p] != [] ==> Step(s, e).value.notes[p] != []
    ensures s.notes[p] == [] ==> (Step(s, e).value.notes[p] == [] <==> !(e.Starts() && e.pitch == p))
  {
  }

  /** Ingestion raises exactly when some end event meets a pitch with an
      empty list: the pitch's list was empty at the start and no earlier
      NoteOn of the track filled it. */
  lemma {:induction false} IngestFailsIffUnheralded(notes: seq<seq<Interval>>, t: int, events: seq<MidiEvent>)
    requires |notes| == NoteRange
    ensures IngestFrom(Ingested(notes, t), events).Err? <==>
            exists i :: 0 <= i < |events| && UnheraldedFrom(notes, events, i)
    decreases |events|
  {
    if events != [] {
      var e := events[0];
      var s := Ingested(notes, t);
      if Step(s, e).Err? {
        assert UnheraldedFrom(notes, events, 0);
      } else {
        var s' := Step(s, e).value;
        IngestFailsIffUnheralded(s'.notes, s'.tick, events[1..]);
        assert IngestFrom(s, events) == IngestFrom(s', events[1..]);
        if exists i :: 0 <= i < |events| && UnheraldedFrom(notes, events, i) {
          var i :| 0 <= i < |events| && UnheraldedFrom(notes, events, i);
          assert i != 0;
          StepFillsOnlyByStart(s, e, events[i].pitch);
          assert UnheraldedFrom(s'.notes, events[1..], i - 1);
        }
        if exists i :: 0 <= i < |events[1..]| && UnheraldedFrom(s'.notes, events[1..], i) {
          var i :| 0 <= i < |events[1..]| && UnheraldedFrom(s'.notes, events[1..], i);
          StepFillsOnlyByStart(s, e, events[1..][i].pitch);
          assert UnheraldedFrom(notes, events, i + 1);
        }
      }
    }
  }

  /** From the empty table: ingestion raises exactly when some end event
      comes before any NoteOn of its pitch. */
  lemma IngestFailsIffUnheraldedEmpty(events: seq<MidiEvent>)
    ensures IngestFrom(Ingested(EmptyTable(), 0), events).Err? <==>
            exists i :: 0 <= i < |events| && Unheralded(events, i)
  {
    IngestFailsIffUnheralded(EmptyTable(), 0, events);
    if exists i :: 0 <= i < |events| && Unheralded(events, i) {
      var i :| 0 <= i < |events| && Unheralded(events, i);
      assert UnheraldedFrom(EmptyTable(), events, i);
    }
  }

  // ---------------------------------------------------------------------
  // Across tracks

  /** What survives sharing one table between tracks whose counters each
      restart at 0: ticks are never negative, and only the last entry of a
      list can be open. */
  ghost predicate Sound(l: seq<Interval>)
  {
    (forall i :: 0 <= i < |l| ==> l[i].start >= 0)
    && (forall i :: 0 <= i < |l| - 1 ==> l[i].Closed?)
    && (forall i :: 0 <= i < |l| && l[i].Closed? ==> l[i].end >= 0)
  }

  ghost predicate SoundTable(notes: seq<seq<Interval>>)
  {
    |notes| == NoteRange && forall p :: 0 <= p < NoteRange ==> Sound(notes[p])
  }

  lemma {:induction false} IngestKeepsSound(s: Ingested, events: seq<MidiEvent>)
    requires s.tick >= 0 && SoundTable(s.notes)
    ensures IngestFrom(s, events).Ok? ==> SoundTable(IngestFrom(s, events).value.notes)
    decreases |events|
  {
    if events != [] && Step(s, events[0]).Ok? {
      var s' := Step(s, events[0]).value;
      forall p | 0 <= p < NoteRange
        ensures Sound(s'.notes[p])
      {
        var l, l' := s.notes[p], s'.notes[p];
        if l' != l && !events[0].Starts() {
          var n := |l| - 1;
          assert l' == l[..n] + [Closed(l[n].start, s'.tick)];
          assert forall i :: 0 <= i < n ==> l'[i] == l[i];
        }
      }
      IngestKeepsSound(s', events[1..]);
    }
  }

  /** The shared table stays sound over any number of tracks. */
  lemma {:induction false} TracksKeepSound(notes: seq<seq<Interval>>, trackTicks: int,
                                          tracks: seq<seq<MidiEvent>>)
    requires SoundTable(notes) && trackTicks >= 0
    ensures IngestTracksFrom(notes, trackTicks, tracks).Ok? ==>
            SoundTable(IngestTracksFrom(notes, trackTicks, tracks).value.notes)
    decreases |tracks|
  {
    if tracks != [] {
      IngestKeepsSound(Ingested(notes, 0), tracks[0]);
      var r := IngestFrom(Ingested(notes, 0), tracks[0]);
      if r.Ok? {
        TracksKeepSound(r.value.notes, Max(r.value.tick, trackTicks), tracks[1..]);
      }
    }
  }

  lemma WellFormedIsSound(s: Ingested)
    requires WellFormed(s)
    ensures SoundTable(s.notes)
  {
  }

  /** With two tracks the order is lost: the second track's counter
      restarts, so it can end the first track's note at an earlier tick,
      leaving an interval whose end precedes its start. */
  lemma CrossTrackEndPrecedesStart()
    ensures IngestTracksFrom(EmptyTable(), 0, [[NoteOn(100, 60, 80)], [NoteOff(50, 60)]])
            == Ok(Ingested(EmptyTable()[60 := [Closed(100, 50)]], 100))
  {
    var on, off := NoteOn(100, 60, 80), NoteOff(50, 60);
    var sounding := EmptyTable()[60 := [Open(100)]];
    var closed := EmptyTable()[60 := [Closed(100, 50)]];
    var none: seq<Interval> := [];
    assert EmptyTable()[60] == none && none + [Open(100)] == [Open(100)];
    assert Step(Ingested(EmptyTable(), 0), on) == Ok(Ingested(sounding, 100));
    assert [on][1..] == [];
    assert IngestFrom(Ingested(EmptyTable(), 0), [on]) == Ok(Ingested(sounding, 100));
    assert sounding[60] == [Open(100)];
    assert sounding[60][..0] + [Closed(100, 50)] == [Closed(100, 50)];
    assert sounding[60 := [Closed(100, 50)]] == closed;
    assert Step(Ingested(sounding, 0), off) == Ok(Ingested(closed, 50));
    assert [off][1..] == [];
    assert IngestFrom(Ingested(sounding, 0), [off]) == Ok(Ingested(closed, 50));
    var tracks := [[on], [off]];
    assert tracks[1..] == [[off]] && tracks[1..][1..] == [];
    assert IngestTracksFrom(sounding, 100, [[off]]) == Ok(Ingested(closed, 100));
  }
}
