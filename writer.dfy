/** MidiWriter.dump_sequence_to_midi: turning a time-by-pitch matrix back
    into NoteOn/NoteOff events with an on/off state machine per pitch.
    The matrix rows are given as sequences of 128 cells; a cell counts as
    "sounding" when it is non-zero. */
module Writer {
  import opened MidiEvents

  predicate Ascending(ps: seq<Pitch>)
  {
    forall i, j :: 0 <= i < j < |ps| ==> ps[i] < ps[j]
  }

  /** The pitches below `n` whose cell is non-zero, ascending. */
  function NonzeroBelow(row: seq<int>, n: nat): (ps: seq<Pitch>)
    requires |row| == NoteRange && n <= NoteRange
    ensures |ps| <= n
  {
    if n == 0 then [] else NonzeroBelow(row, n - 1) + (if row[n - 1] != 0 then [n - 1] else [])
  }

  /** `np.nonzero(row)`: the sounding pitches of a row, ascending. */
  function Nonzero(row: seq<int>): (ps: seq<Pitch>)
    requires |row| == NoteRange
    ensures |ps| <= NoteRange
  {
    NonzeroBelow(row, |row|)
  }

  /** The pitches below `n` that are on but whose cell is now zero, ascending. */
  function OffsBelow(on: seq<bool>, row: seq<int>, n: nat): (ps: seq<Pitch>)
    requires |on| == |row| == NoteRange && n <= NoteRange
    ensures |ps| <= n
  {
    if n == 0 then [] else OffsBelow(on, row, n - 1) + (if on[n - 1] && row[n - 1] == 0 then [n - 1] else [])
  }

  /** The first `k` pitches of `nz` that are off, in the order of `nz`. */
  function OnsAmong(on: seq<bool>, nz: seq<Pitch>, k: nat): (ps: seq<Pitch>)
    requires |on| == NoteRange && k <= |nz|
    ensures |ps| <= k
  {
    if k == 0 then [] else OnsAmong(on, nz, k - 1) + (if !on[nz[k - 1]] then [nz[k - 1]] else [])
  }

  /** Pitches a step turns off: on before, zero now. */
  function OffPitches(on: seq<bool>, row: seq<int>): seq<Pitch>
    requires |on| == |row| == NoteRange
  {
    OffsBelow(on, row, |row|)
  }

  /** Pitches a step turns on: off before, non-zero now, in the order
      `np.nonzero` lists them. */
  function OnPitches(on: seq<bool>, row: seq<int>): seq<Pitch>
    requires |on| == |row| == NoteRange
  {
    var nz := Nonzero(row);
    OnsAmong(on, nz, |nz|)
  }

  function OffEvents(ps: seq<Pitch>): (es: seq<MidiEvent>)
  {
    seq(|ps|, i requires 0 <= i < |ps| => NoteOff(0, ps[i]))
  }

  function OnEvents(ps: seq<Pitch>): (es: seq<MidiEvent>)
  {
    seq(|ps|, i requires 0 <= i < |ps| => NoteOn(0, ps[i], OnVelocity))
  }

  /** The tick rule of a step: its first event carries `t0`, the others 0. */
  function Lead(es: seq<MidiEvent>, t0: int): seq<MidiEvent>
  {
    if es == [] then [] else [es[0].(tick := t0)] + es[1..]
  }

  /** The events one row emits: NoteOffs, then NoteOns, each group in
      ascending pitch order, the first carrying the pending delta `t0`. */
  function StepEvents(on: seq<bool>, row: seq<int>, t0: int): seq<MidiEvent>
    requires |on| == |row| == NoteRange
  {
    Lead(OffEvents(OffPitches(on, row)) + OnEvents(OnPitches(on, row)), t0)
  }

  /** The writer's loop state: `notes_on`, `steps_passed` and the events so far. */
  datatype EmitState = EmitState(on: seq<bool>, stepsPassed: int, events: seq<MidiEvent>)

  predicate Rows(rows: seq<seq<int>>)
  {
    forall i :: 0 <= i < |rows| ==> |rows[i]| == NoteRange
  }

  /** One pass of the loop over rows. */
  function StepRow(st: EmitState, row: seq<int>, ts: int): (r: EmitState)
    requires |st.on| == |row| == NoteRange
    ensures |r.on| == NoteRange && forall p :: 0 <= p < NoteRange ==> r.on[p] == (row[p] != 0)
    ensures |st.events| <= |r.events| && r.events[..|st.events|] == st.events
    ensures r.stepsPassed == if r.events == st.events then st.stepsPassed + 1 else 1
  {
    var es := StepEvents(st.on, row, st.stepsPassed * ts);
    EmitState(seq(NoteRange, p requires 0 <= p < NoteRange => row[p] != 0),
              (if es == [] then st.stepsPassed else 0) + 1,
              st.events + es)
  }

  /** The state after the first `k` rows. */
  function EmitUpTo(rows: seq<seq<int>>, ts: int, k: nat): (st: EmitState)
    requires Rows(rows) && k <= |rows|
    ensures |st.on| == NoteRange
  {
    if k == 0 then EmitState(seq(NoteRange, _ => false), 1, [])
    else StepRow(EmitUpTo(rows, ts, k - 1), rows[k - 1], ts)
  }

  /** The closing flush: a NoteOff for every pitch, ascending, the first
      carrying the pending delta `t0`. */
  function FlushEvents(t0: int): (es: seq<MidiEvent>)
    ensures |es| == NoteRange && forall i :: 0 <= i < |es| ==> es[i].NoteOff? && es[i].pitch == i
    ensures TickTotal(es) == t0
  {
    var es := seq(NoteRange, p requires 0 <= p < NoteRange => NoteOff(if p == 0 then t0 else 0, p));
    LeadingTick(es, t0);
    es
  }

  /** The whole track dump_sequence_to_midi writes for `rows`. */
  function Emit(rows: seq<seq<int>>, ts: int): (e: seq<MidiEvent>)
    requires Rows(rows)
    ensures |e| >= NoteRange
    ensures forall i :: |e| - NoteRange <= i < |e| ==> e[i].NoteOff? && e[i].pitch == i - (|e| - NoteRange)
  {
    var st := EmitUpTo(rows, ts, |rows|);
    st.events + FlushEvents(st.stepsPassed * ts)
  }

  class MidiWriter {
    var track: seq<MidiEvent>
    const noteRange: nat

    constructor ()
      ensures track == [] && noteRange == NoteRange
    {
      track := [];
      noteRange := NoteRange;
    }

    method NoteOff(val: Pitch, tick: int)
      modifies this
      ensures track == old(track) + [MidiEvent.NoteOff(tick, val)]
    {
      track := track + [MidiEvent.NoteOff(tick, val)];
    }

    method NoteOn(val: Pitch, tick: int)
      modifies this
      ensures track == old(track) + [MidiEvent.NoteOn(tick, val, OnVelocity)]
    {
      track := track + [MidiEvent.NoteOn(tick, val, OnVelocity)];
    }

    /** dump_sequence_to_midi, up to handing the track to the file writer.
        `notes_on` is a local dictionary from pitch to bool; here it is a
        local sequence of 128 booleans. */
    method DumpSequenceToMidi(sequence: seq<seq<int>>, timeStep: int)
      requires Rows(sequence)
      modifies this
      ensures track == Emit(sequence, timeStep)
    {
      track := [];
      var stepsPassed := 1;
      var notesOn := seq(NoteRange, _ => false);
      for seqIdx := 0 to |sequence|
        invariant EmitState(notesOn, stepsPassed, track) == EmitUpTo(sequence, timeStep, seqIdx)
      {
        var row := sequence[seqIdx];
        var notes := Nonzero(row);
        var tick := stepsPassed * timeStep;
        ghost var on0, steps0, base := notesOn, stepsPassed, track;
        // NoteOffs come first, so the first of them carries the tick
        var mid;
        mid, tick, stepsPassed := TurnOff(notesOn, row, notes, tick, stepsPassed);
        notesOn, tick, stepsPassed := TurnOn(mid, row, notes, tick, stepsPassed);
        stepsPassed := stepsPassed + 1;

        assert EmitState(notesOn, stepsPassed, track) == StepRow(EmitState(on0, steps0, base), row, timeStep) by {
          OnPitchesIgnoreSilent(on0, mid, row);
          StepRowParts(on0, row, steps0, base, timeStep);
          assert notesOn == seq(NoteRange, p requires 0 <= p < NoteRange => row[p] != 0);
        }
        EmitUpToUnfold(sequence, timeStep, seqIdx + 1);
      }
      notesOn := FlushNotes(notesOn, stepsPassed * timeStep);
    }

    /** The first loop of a step: a NoteOff for every pitch that is on and
        whose cell is now zero; `tick` and `stepsPassed` drop to 0 at the
        first one. */
    method TurnOff(on0: seq<bool>, row: seq<int>, notes: seq<Pitch>, tick0: int, steps0: int)
      returns (notesOn: seq<bool>, tick: int, stepsPassed: int)
      requires |on0| == |row| == NoteRange && notes == Nonzero(row)
      modifies this
      ensures notesOn == seq(NoteRange, p requires 0 <= p < NoteRange => on0[p] && row[p] != 0)
      ensures var offs := OffPitches(on0, row);
              track == old(track) + Lead(OffEvents(offs), tick0) &&
              tick == (if offs == [] then tick0 else 0) &&
              stepsPassed == (if offs == [] then steps0 else 0)
    {
      ghost var base, offs := track, [];
      notesOn, tick, stepsPassed := on0, tick0, steps0;
      for n := 0 to NoteRange
        invariant |notesOn| == NoteRange
        invariant forall p :: 0 <= p < NoteRange ==> notesOn[p] == if p < n then on0[p] && row[p] != 0 else on0[p]
        invariant offs == OffsBelow(on0, row, n)
        invariant track == base + Lead(OffEvents(offs), tick0)
        invariant tick == if offs == [] then tick0 else 0
        invariant stepsPassed == if offs == [] then steps0 else 0
      {
        NonzeroHas(row, n);
        OffsStep(on0, row, n, tick0);
        if notesOn[n] && n !in notes {
          NoteOff(n, tick);
          tick, stepsPassed := 0, 0;
          notesOn, offs := notesOn[n := false], offs + [n];
        }
      }
    }

    /** The second loop of a step: a NoteOn for every sounding pitch that
        is off, in ascending order. */
    method TurnOn(on0: seq<bool>, row: seq<int>, notes: seq<Pitch>, tick0: int, steps0: int)
      returns (notesOn: seq<bool>, tick: int, stepsPassed: int)
      requires |on0| == |row| == NoteRange && notes == Nonzero(row)
      modifies this
      ensures |notesOn| == NoteRange
      ensures forall p :: 0 <= p < NoteRange ==> notesOn[p] == (on0[p] || row[p] != 0)
      ensures var ons := OnPitches(on0, row);
              track == old(track) + Lead(OnEvents(ons), tick0) &&
              tick == (if ons == [] then tick0 else 0) &&
              stepsPassed == (if ons == [] then steps0 else 0)
    {
      ghost var base, ons := track, [];
      notesOn, tick, stepsPassed := on0, tick0, steps0;
      for i := 0 to |notes|
        invariant notesOn == SwitchedOn(on0, notes, i)
        invariant ons == OnsAmong(on0, notes, i)
        invariant track == base + Lead(OnEvents(ons), tick0)
        invariant tick == if ons == [] then tick0 else 0
        invariant stepsPassed == if ons == [] then steps0 else 0
      {
        var note := notes[i];
        assert notesOn[note] == on0[note] by {
          SwitchedOnAt(on0, notes, i, note);
          NonzeroFresh(row, i);
        }
        OnsStep(on0, notes, i, tick0);
        if !notesOn[note] {
          NoteOn(note, tick);
          tick, stepsPassed := 0, 0;
          notesOn, ons := notesOn[note := true], ons + [note];
        } else {
          assert notesOn == notesOn[note := true];
        }
      }
      assert forall p :: 0 <= p < NoteRange ==> notesOn[p] == (on0[p] || row[p] != 0) by {
        SwitchedOnSpec(on0, notes, |notes|);
        assert notes[..|notes|] == notes;
        NonzeroSpec(row);
      }
    }

    /** The flush after the last row: a NoteOff for every pitch, whether it
        sounds or not. */
    method FlushNotes(on0: seq<bool>, tick0: int) returns (notesOn: seq<bool>)
      requires |on0| == NoteRange
      modifies this
      ensures track == old(track) + FlushEvents(tick0)
      ensures notesOn == seq(NoteRange, _ => false)
    {
      var tick := tick0;
      notesOn := on0;
      ghost var base := track;
      for n := 0 to NoteRange
        invariant track == base + FlushEvents(tick0)[..n]
        invariant tick == if n == 0 then tick0 else 0
        invariant |notesOn| == NoteRange
        invariant forall p :: 0 <= p < n ==> !notesOn[p]
      {
        assert FlushEvents(tick0)[..n + 1] == FlushEvents(tick0)[..n] + [MidiEvent.NoteOff(tick, n)];
        NoteOff(n, tick);
        tick := 0;
        notesOn := notesOn[n := false];
      }
      assert FlushEvents(tick0)[..NoteRange] == FlushEvents(tick0);
    }
  }

  /** Appending one tick-0 event to a step's events. */
  lemma LeadSnoc(es: seq<MidiEvent>, e: MidiEvent, t0: int)
    requires e.tick == 0
    ensures Lead(es + [e], t0) == Lead(es, t0) + [if es == [] then e.(tick := t0) else e]
  {
    if es != [] {
      assert (es + [e])[1..] == es[1..] + [e];
    }
  }

  /** Splitting a step's events into its NoteOffs and its NoteOns. */
  lemma LeadAppend(a: seq<MidiEvent>, b: seq<MidiEvent>, t0: int)
    requires forall i :: 0 <= i < |b| ==> b[i].tick == 0
    ensures Lead(a + b, t0) == Lead(a, t0) + Lead(b, if a == [] then t0 else 0)
    ensures Lead(a + b, t0) == [] <==> a == [] && b == []
  {
    if a == [] {
      assert a + b == b;
    } else if b == [] {
      assert a + b == a;
    } else {
      var b0 := b[0];
      assert b0.(tick := 0) == b0 by {
        match b0
        case EndOfTrack(_) =>
        case NoteOn(_, _, _) =>
        case NoteOff(_, _) =>
        case Other(_) =>
      }
      assert Lead(b, 0) == b by {
        assert [b0] + b[1..] == b;
      }
      assert (a + b)[0] == a[0];
      assert (a + b)[1..] == a[1..] + b;
    }
  }

  /** The NoteOns of a step depend only on the state of the sounding pitches. */
  lemma OnPitchesIgnoreSilent(on: seq<bool>, on': seq<bool>, row: seq<int>)
    requires |on| == |on'| == |row| == NoteRange
    requires forall p :: 0 <= p < NoteRange && row[p] != 0 ==> on[p] == on'[p]
    ensures OnPitches(on, row) == OnPitches(on', row)
  {
    var nz := Nonzero(row);
    NonzeroSpec(row);
    assert forall i :: 0 <= i < |nz| ==> nz[i] in nz;
    OnsAmongIgnoreSilent(on, on', nz, |nz|);
  }

  lemma {:induction false} OnsAmongIgnoreSilent(on: seq<bool>, on': seq<bool>, nz: seq<Pitch>, k: nat)
    requires |on| == |on'| == NoteRange && k <= |nz|
    requires forall i :: 0 <= i < |nz| ==> on[nz[i]] == on'[nz[i]]
    ensures OnsAmong(on, nz, k) == OnsAmong(on', nz, k)
  {
    if k > 0 {
      OnsAmongIgnoreSilent(on, on', nz, k - 1);
    }
  }

  lemma OffEventsSnoc(ps: seq<Pitch>, p: Pitch)
    ensures OffEvents(ps + [p]) == OffEvents(ps) + [NoteOff(0, p)]
  {
  }

  lemma OnEventsSnoc(ps: seq<Pitch>, p: Pitch)
    ensures OnEvents(ps + [p]) == OnEvents(ps) + [NoteOn(0, p, OnVelocity)]
  {
  }

  // ---------------------------------------------------------------------
  // Which pitches a step touches

  lemma {:induction false} NonzeroBelowSpec(row: seq<int>, n: nat)
    requires |row| == NoteRange && n <= NoteRange
    ensures forall p: Pitch :: p in NonzeroBelow(row, n) <==> p < n && row[p] != 0
    ensures forall i :: 0 <= i < |NonzeroBelow(row, n)| ==> NonzeroBelow(row, n)[i] < n
    ensures Ascending(NonzeroBelow(row, n))
  {
    if n > 0 {
      NonzeroBelowSpec(row, n - 1);
    }
  }

  /** `np.nonzero` lists exactly the non-zero cells, each once, ascending. */
  lemma NonzeroSpec(row: seq<int>)
    requires |row| == NoteRange
    ensures forall p: Pitch :: p in Nonzero(row) <==> row[p] != 0
    ensures Ascending(Nonzero(row))
  {
    NonzeroBelowSpec(row, |row|);
  }

  lemma NonzeroHas(row: seq<int>, p: Pitch)
    requires |row| == NoteRange
    ensures p in Nonzero(row) <==> row[p] != 0
  {
    NonzeroSpec(row);
  }

  lemma {:induction false} OffsBelowSpec(on: seq<bool>, row: seq<int>, n: nat)
    requires |on| == |row| == NoteRange && n <= NoteRange
    ensures forall p: Pitch :: p in OffsBelow(on, row, n) <==> p < n && on[p] && row[p] == 0
    ensures forall i :: 0 <= i < |OffsBelow(on, row, n)| ==> OffsBelow(on, row, n)[i] < n
    ensures Ascending(OffsBelow(on, row, n))
  {
    if n > 0 {
      OffsBelowSpec(on, row, n - 1);
    }
  }

  lemma {:induction false} OnsAmongSpec(on: seq<bool>, nz: seq<Pitch>, k: nat)
    requires |on| == NoteRange && k <= |nz|
    ensures forall p: Pitch :: p in OnsAmong(on, nz, k) <==> p in nz[..k] && !on[p]
    ensures Ascending(nz) ==> Ascending(OnsAmong(on, nz, k))
    ensures Ascending(nz) && k > 0 ==> forall i :: 0 <= i < |OnsAmong(on, nz, k)| ==> OnsAmong(on, nz, k)[i] <= nz[k - 1]
  {
    if k > 0 {
      OnsAmongSpec(on, nz, k - 1);
      assert nz[..k] == nz[..k - 1] + [nz[k - 1]];
    }
  }

  /** A step turns off exactly the pitches that were on and whose cell is
      now zero, ascending. */
  lemma OffPitchesSpec(on: seq<bool>, row: seq<int>)
    requires |on| == |row| == NoteRange
    ensures forall p: Pitch :: p in OffPitches(on, row) <==> on[p] && row[p] == 0
    ensures Ascending(OffPitches(on, row))
  {
    OffsBelowSpec(on, row, |row|);
  }

  /** A step turns on exactly the pitches that were off and whose cell is
      now non-zero, ascending. */
  lemma OnPitchesSpec(on: seq<bool>, row: seq<int>)
    requires |on| == |row| == NoteRange
    ensures forall p: Pitch :: p in OnPitches(on, row) <==> !on[p] && row[p] != 0
    ensures Ascending(OnPitches(on, row))
  {
    var nz := Nonzero(row);
    NonzeroSpec(row);
    OnsAmongSpec(on, nz, |nz|);
    assert nz[..|nz|] == nz;
  }

  lemma AscendingFresh(ps: seq<Pitch>, i: int)
    requires Ascending(ps) && 0 <= i < |ps|
    ensures ps[i] !in ps[..i]
  {
  }

  /** `notes_on` after the NoteOn loop has visited the first `k` pitches of `nz`. */
  function SwitchedOn(on: seq<bool>, nz: seq<Pitch>, k: nat): (on': seq<bool>)
    requires |on| == NoteRange && k <= |nz|
    ensures |on'| == NoteRange
  {
    if k == 0 then on else SwitchedOn(on, nz, k - 1)[nz[k - 1] := true]
  }

  lemma {:induction false} SwitchedOnSpec(on: seq<bool>, nz: seq<Pitch>, k: nat)
    requires |on| == NoteRange && k <= |nz|
    ensures forall p :: 0 <= p < NoteRange ==> SwitchedOn(on, nz, k)[p] == (on[p] || p in nz[..k])
  {
    if k > 0 {
      SwitchedOnSpec(on, nz, k - 1);
      assert nz[..k] == nz[..k - 1] + [nz[k - 1]];
    }
  }

  /** One pitch of the NoteOff loop: it either adds one tick-0 NoteOff
      (carrying `t0` if it is the first) or nothing. */
  lemma OffsStep(on: seq<bool>, row: seq<int>, n: nat, t0: int)
    requires |on| == |row| == NoteRange && n < NoteRange
    ensures var prev := OffsBelow(on, row, n);
            if on[n] && row[n] == 0 then
              OffsBelow(on, row, n + 1) == prev + [n] &&
              Lead(OffEvents(prev + [n]), t0) == Lead(OffEvents(prev), t0) + [NoteOff(if prev == [] then t0 else 0, n)]
            else OffsBelow(on, row, n + 1) == prev
  {
    var prev := OffsBelow(on, row, n);
    OffEventsSnoc(prev, n);
    LeadSnoc(OffEvents(prev), MidiEvent.NoteOff(0, n), t0);
  }

  /** One pitch of the NoteOn loop, likewise. */
  lemma OnsStep(on: seq<bool>, nz: seq<Pitch>, i: nat, t0: int)
    requires |on| == NoteRange && i < |nz|
    ensures var prev := OnsAmong(on, nz, i);
            if !on[nz[i]] then
              OnsAmong(on, nz, i + 1) == prev + [nz[i]] &&
              Lead(OnEvents(prev + [nz[i]]), t0) == Lead(OnEvents(prev), t0) + [NoteOn(if prev == [] then t0 else 0, nz[i], OnVelocity)]
            else OnsAmong(on, nz, i + 1) == prev
  {
    var prev := OnsAmong(on, nz, i);
    OnEventsSnoc(prev, nz[i]);
    LeadSnoc(OnEvents(prev), MidiEvent.NoteOn(0, nz[i], OnVelocity), t0);
  }

  lemma SwitchedOnAt(on: seq<bool>, nz: seq<Pitch>, k: nat, p: Pitch)
    requires |on| == NoteRange && k <= |nz|
    ensures SwitchedOn(on, nz, k)[p] == (on[p] || p in nz[..k])
  {
    SwitchedOnSpec(on, nz, k);
  }

  /** The pitches of a row are listed once each. */
  lemma NonzeroFresh(row: seq<int>, i: nat)
    requires |row| == NoteRange && i < |Nonzero(row)|
    ensures Nonzero(row)[i] !in Nonzero(row)[..i]
  {
    NonzeroSpec(row);
    AscendingFresh(Nonzero(row), i);
  }

  /** A step's state change, with its events split into the NoteOff loop's
      and the NoteOn loop's. */
  lemma StepRowParts(on: seq<bool>, row: seq<int>, sp: int, events: seq<MidiEvent>, ts: int)
    requires |on| == |row| == NoteRange
    ensures var offs, ons, t0 := OffPitches(on, row), OnPitches(on, row), sp * ts;
            StepRow(EmitState(on, sp, events), row, ts) ==
            EmitState(seq(NoteRange, p requires 0 <= p < NoteRange => row[p] != 0),
                      (if offs == [] && ons == [] then sp else 0) + 1,
                      events + Lead(OffEvents(offs), t0) + Lead(OnEvents(ons), if offs == [] then t0 else 0))
  {
    var offs, ons, t0 := OffPitches(on, row), OnPitches(on, row), sp * ts;
    LeadAppend(OffEvents(offs), OnEvents(ons), t0);
  }

  // ---------------------------------------------------------------------
  // Ticks: where the events land

  /** A run of events whose ticks are all zero adds no time. */
  lemma {:induction false} ZeroTicks(es: seq<MidiEvent>)
    requires forall i :: 0 <= i < |es| ==> es[i].tick == 0
    ensures TickTotal(es) == 0
  {
    if es != [] {
      ZeroTicks(es[1..]);
    }
  }

  /** A group whose first event carries `t0` and the rest 0 spans `t0` ticks. */
  lemma LeadingTick(es: seq<MidiEvent>, t0: int)
    requires |es| > 0 && es[0].tick == t0
    requires forall i :: 1 <= i < |es| ==> es[i].tick == 0
    ensures TickTotal(es) == t0
  {
    ZeroTicks(es[1..]);
  }

  /** The events of one step: the NoteOffs of the pitches it turns off,
      then the NoteOns (velocity 70) of the pitches it turns on; the first
      of them carries the pending delta `t0` and every other one 0, so the
      whole group spans `t0` ticks. */
  lemma StepEventsShape(on: seq<bool>, row: seq<int>, t0: int)
    requires |on| == |row| == NoteRange
    ensures var offs, ons, es := OffPitches(on, row), OnPitches(on, row), StepEvents(on, row, t0);
            |es| == |offs| + |ons| &&
            (forall i :: 0 <= i < |offs| ==> es[i] == NoteOff(if i == 0 then t0 else 0, offs[i])) &&
            (forall i :: |offs| <= i < |es| ==> es[i] == NoteOn(if i == 0 then t0 else 0, ons[i - |offs|], OnVelocity)) &&
            TickTotal(es) == if es == [] then 0 else t0
  {
    var offs, ons, es := OffPitches(on, row), OnPitches(on, row), StepEvents(on, row, t0);
    var raw := OffEvents(offs) + OnEvents(ons);
    assert forall i :: 0 <= i < |offs| ==> raw[i] == NoteOff(0, offs[i]);
    assert forall i :: |offs| <= i < |raw| ==> raw[i] == NoteOn(0, ons[i - |offs|], OnVelocity);
    if es != [] {
      LeadingTick(es, t0);
    }
  }

  /** `n` steps of `ts` ticks each. */
  function Steps(n: nat, ts: int): int
  {
    if n == 0 then 0 else Steps(n - 1, ts) + ts
  }

  lemma {:induction false} StepsIsProduct(n: nat, ts: int)
    ensures Steps(n, ts) == n * ts
  {
    if n > 0 {
      StepsIsProduct(n - 1, ts);
    }
  }

  lemma StepsAdd(a: nat, b: nat, ts: int)
    ensures Steps(a + b, ts) == Steps(a, ts) + b * ts
  {
    StepsIsProduct(a + b, ts);
    StepsIsProduct(a, ts);
  }

  /** The tick bookkeeping after `k` rows: the events written so far and
      the pending `steps_passed` together reach the end of step `k`. */
  predicate Balanced(st: EmitState, k: nat, ts: int)
  {
    1 <= st.stepsPassed <= k + 1 && TickTotal(st.events) == Steps(k + 1 - st.stepsPassed, ts)
  }

  lemma StepKeepsBalanced(st: EmitState, row: seq<int>, k: nat, ts: int)
    requires |st.on| == |row| == NoteRange && Balanced(st, k, ts)
    ensures Balanced(StepRow(st, row, ts), k + 1, ts)
  {
    var t0 := st.stepsPassed * ts;
    var es := StepEvents(st.on, row, t0);
    StepTicks(st.on, row, t0);
    TickTotalAppend(st.events, es);
    if es != [] {
      StepsAdd(k + 1 - st.stepsPassed, st.stepsPassed, ts);
    }
  }

  lemma EmitStepBalanced(rows: seq<seq<int>>, ts: int, k: nat)
    requires Rows(rows) && 0 < k <= |rows|
    requires Balanced(EmitUpTo(rows, ts, k - 1), k - 1, ts)
    ensures Balanced(EmitUpTo(rows, ts, k), k, ts)
  {
    var st := EmitUpTo(rows, ts, k - 1);
    assert Balanced(StepRow(st, rows[k - 1], ts), k, ts) by {
      StepKeepsBalanced(st, rows[k - 1], k - 1, ts);
    }
    EmitUpToUnfold(rows, ts, k);
  }

  lemma EmitUpToUnfold(rows: seq<seq<int>>, ts: int, k: nat)
    requires Rows(rows) && 0 < k <= |rows|
    ensures EmitUpTo(rows, ts, k) == StepRow(EmitUpTo(rows, ts, k - 1), rows[k - 1], ts)
  {
  }

  /** Between them, the events written so far and the pending delta always
      reach the end of the current step. */
  lemma EmitSteps(rows: seq<seq<int>>, ts: int, k: nat)
    requires Rows(rows) && k <= |rows|
    ensures Balanced(EmitUpTo(rows, ts, k), k, ts)
  {
    for i := 0 to k
      invariant Balanced(EmitUpTo(rows, ts, i), i, ts)
    {
      EmitStepBalanced(rows, ts, i + 1);
    }
  }

  /** The same in ticks: after `k` rows, the track's ticks plus
      `steps_passed * ts` are `(k + 1) * ts`. */
  lemma EmitTicks(rows: seq<seq<int>>, ts: int, k: nat)
    requires Rows(rows) && k <= |rows|
    ensures var st := EmitUpTo(rows, ts, k);
            st.stepsPassed >= 1 && TickTotal(st.events) + st.stepsPassed * ts == (k + 1) * ts
  {
    EmitSteps(rows, ts, k);
    BalancedTicks(EmitUpTo(rows, ts, k), k, ts);
  }

  lemma BalancedTicks(st: EmitState, k: nat, ts: int)
    requires Balanced(st, k, ts)
    ensures TickTotal(st.events) + st.stepsPassed * ts == (k + 1) * ts
  {
    StepsAdd(k + 1 - st.stepsPassed, st.stepsPassed, ts);
    StepsIsProduct(k + 1, ts);
  }

  lemma StepTicks(on: seq<bool>, row: seq<int>, t0: int)
    requires |on| == |row| == NoteRange
    ensures TickTotal(StepEvents(on, row, t0)) == if StepEvents(on, row, t0) == [] then 0 else t0
  {
    StepEventsShape(on, row, t0);
  }

  /** Every event that row `k` produces lands at absolute tick `(k + 1) * ts`:
      the writer puts row `k` one step later than its index. */
  lemma StepLandsOnGrid(rows: seq<seq<int>>, ts: int, k: nat, j: nat)
    requires Rows(rows) && k < |rows|
    requires var st := EmitUpTo(rows, ts, k);
             j < |StepEvents(st.on, rows[k], st.stepsPassed * ts)|
    ensures var st := EmitUpTo(rows, ts, k);
            TickTotal(st.events + StepEvents(st.on, rows[k], st.stepsPassed * ts)[..j + 1]) == (k + 1) * ts
  {
    EmitSteps(rows, ts, k);
    BalancedLands(EmitUpTo(rows, ts, k), rows[k], k, ts, j);
  }

  lemma BalancedLands(st: EmitState, row: seq<int>, k: nat, ts: int, j: nat)
    requires |st.on| == |row| == NoteRange && Balanced(st, k, ts)
    requires j < |StepEvents(st.on, row, st.stepsPassed * ts)|
    ensures TickTotal(st.events + StepEvents(st.on, row, st.stepsPassed * ts)[..j + 1]) == (k + 1) * ts
  {
    var t0 := st.stepsPassed * ts;
    var es := StepEvents(st.on, row, t0);
    BalancedTicks(st, k, ts);
    StepEventsShape(st.on, row, t0);
    LeadingTick(es[..j + 1], t0);
    TickTotalAppend(st.events, es[..j + 1]);
  }

  /** The flush spans its pending delta, so the whole track spans one step
      more than the matrix has rows. */
  lemma EmitTotal(rows: seq<seq<int>>, ts: int)
    requires Rows(rows)
    ensures TickTotal(Emit(rows, ts)) == (|rows| + 1) * ts
  {
    var st := EmitUpTo(rows, ts, |rows|);
    EmitTicks(rows, ts, |rows|);
    LeadingTick(FlushEvents(st.stepsPassed * ts), st.stepsPassed * ts);
    TickTotalAppend(st.events, FlushEvents(st.stepsPassed * ts));
  }

  // ---------------------------------------------------------------------
  // Per pitch: NoteOns and NoteOffs alternate

  /** What event `e` says about pitch `p`: `[true]` for a NoteOn that
      starts it, `[false]` for one that ends it, `[]` otherwise. */
  function Kind(e: MidiEvent, p: Pitch): seq<bool>
  {
    if (e.NoteOn? || e.NoteOff?) && e.pitch == p then [e.Starts()] else []
  }

  /** The starts and ends of pitch `p` along `es`, in order. */
  function Kinds(es: seq<MidiEvent>, p: Pitch): seq<bool>
  {
    if es == [] then [] else Kind(es[0], p) + Kinds(es[1..], p)
  }

  /** start, end, start, end, ... : the first `n` entries. */
  function Alternation(n: nat): (ks: seq<bool>)
    ensures |ks| == n
  {
    seq(n, i requires 0 <= i < n => i % 2 == 0)
  }

  /** Starts and ends strictly alternate, beginning with a start, and the
      pitch is sounding exactly when there is one start more than ends. */
  predicate Alternating(ks: seq<bool>, sounding: bool)
  {
    ks == Alternation(|ks|) && sounding == (|ks| % 2 == 1)
  }

  lemma AlternationSnoc(n: nat)
    ensures Alternation(n + 1) == Alternation(n) + [n % 2 == 0]
  {
  }

  /** The same, entry by entry: the first entry is a start, neighbours
      differ, and the last entry is a start exactly when the pitch sounds. */
  lemma AlternatingSpec(ks: seq<bool>, sounding: bool)
    requires Alternating(ks, sounding)
    ensures ks != [] ==> ks[0]
    ensures forall i :: 0 <= i < |ks| - 1 ==> ks[i] != ks[i + 1]
    ensures sounding == (ks != [] && ks[|ks| - 1])
  {
  }

  lemma {:induction false} KindsAppend(a: seq<MidiEvent>, b: seq<MidiEvent>, p: Pitch)
    ensures Kinds(a + b, p) == Kinds(a, p) + Kinds(b, p)
  {
    if a == [] {
      assert a + b == b;
    } else {
      assert (a + b)[1..] == a[1..] + b;
      KindsAppend(a[1..], b, p);
    }
  }

  /** Only the tick of a step's first event is rewritten, which no pitch sees. */
  lemma KindsLead(es: seq<MidiEvent>, t0: int, p: Pitch)
    ensures Kinds(Lead(es, t0), p) == Kinds(es, p)
  {
    if es != [] {
      var e := es[0];
      assert ([e.(tick := t0)] + es[1..])[1..] == es[1..];
    }
  }

  /** A run of NoteOffs over distinct pitches ends `p` once if it lists `p`. */
  lemma {:induction false} KindsOffEvents(ps: seq<Pitch>, p: Pitch)
    requires Ascending(ps)
    ensures Kinds(OffEvents(ps), p) == if p in ps then [false] else []
  {
    if ps != [] {
      assert OffEvents(ps)[1..] == OffEvents(ps[1..]);
      KindsOffEvents(ps[1..], p);
    }
  }

  /** A run of NoteOns over distinct pitches starts `p` once if it lists `p`. */
  lemma {:induction false} KindsOnEvents(ps: seq<Pitch>, p: Pitch)
    requires Ascending(ps)
    ensures Kinds(OnEvents(ps), p) == if p in ps then [true] else []
  {
    if ps != [] {
      assert OnEvents(ps)[1..] == OnEvents(ps[1..]);
      KindsOnEvents(ps[1..], p);
    }
  }

  /** One step ends `p` exactly when it was on and its cell is now zero,
      starts it exactly when it was off and its cell is now non-zero, and
      otherwise says nothing about it. */
  lemma StepKinds(on: seq<bool>, row: seq<int>, t0: int, p: Pitch)
    requires |on| == |row| == NoteRange
    ensures Kinds(StepEvents(on, row, t0), p) ==
            if on[p] && row[p] == 0 then [false]
            else if !on[p] && row[p] != 0 then [true]
            else []
  {
    var offs, ons := OffPitches(on, row), OnPitches(on, row);
    OffPitchesSpec(on, row);
    OnPitchesSpec(on, row);
    KindsLead(OffEvents(offs) + OnEvents(ons), t0, p);
    KindsAppend(OffEvents(offs), OnEvents(ons), p);
    KindsOffEvents(offs, p);
    KindsOnEvents(ons, p);
  }

  lemma StepKeepsAlternating(st: EmitState, row: seq<int>, ts: int, p: Pitch)
    requires |st.on| == |row| == NoteRange
    requires Alternating(Kinds(st.events, p), st.on[p])
    ensures Alternating(Kinds(StepRow(st, row, ts).events, p), StepRow(st, row, ts).on[p])
  {
    var es := StepEvents(st.on, row, st.stepsPassed * ts);
    StepKinds(st.on, row, st.stepsPassed * ts, p);
    AppendKeepsAlternating(st.events, es, st.on[p], row[p] != 0, p);
  }

  lemma AppendKeepsAlternating(events: seq<MidiEvent>, es: seq<MidiEvent>, on: bool, on': bool, p: Pitch)
    requires Alternating(Kinds(events, p), on)
    requires Kinds(es, p) == if on && !on' then [false] else if !on && on' then [true] else []
    ensures Alternating(Kinds(events + es, p), on')
  {
    KindsAppend(events, es, p);
    var ks := Kinds(events, p);
    if on != on' {
      AlternationSnoc(|ks|);
    } else {
      assert ks + [] == ks;
    }
  }

  lemma EmitStepAlternates(rows: seq<seq<int>>, ts: int, k: nat, p: Pitch)
    requires Rows(rows) && 0 < k <= |rows|
    requires Alternating(Kinds(EmitUpTo(rows, ts, k - 1).events, p), EmitUpTo(rows, ts, k - 1).on[p])
    ensures Alternating(Kinds(EmitUpTo(rows, ts, k).events, p), EmitUpTo(rows, ts, k).on[p])
  {
    var st := EmitUpTo(rows, ts, k - 1);
    assert Alternating(Kinds(StepRow(st, rows[k - 1], ts).events, p), StepRow(st, rows[k - 1], ts).on[p]) by {
      StepKeepsAlternating(st, rows[k - 1], ts, p);
    }
    EmitUpToUnfold(rows, ts, k);
  }

  /** Before the flush, the writer never starts a sounding pitch nor ends a
      silent one: each pitch's NoteOns and NoteOffs alternate, and the pitch
      is on exactly when its last event is a NoteOn. */
  lemma EmitAlternates(rows: seq<seq<int>>, ts: int, k: nat, p: Pitch)
    requires Rows(rows) && k <= |rows|
    ensures Alternating(Kinds(EmitUpTo(rows, ts, k).events, p), EmitUpTo(rows, ts, k).on[p])
  {
    for i := 0 to k
      invariant Alternating(Kinds(EmitUpTo(rows, ts, i).events, p), EmitUpTo(rows, ts, i).on[p])
    {
      EmitStepAlternates(rows, ts, i + 1, p);
    }
  }

  /** All pitches, ascending. */
  function AllPitches(): (ps: seq<Pitch>)
    ensures |ps| == NoteRange && forall i :: 0 <= i < NoteRange ==> ps[i] == i
  {
    seq(NoteRange, i requires 0 <= i < NoteRange => i)
  }

  /** The flush is the NoteOff loop run over every pitch. */
  lemma FlushKinds(t0: int, p: Pitch)
    ensures FlushEvents(t0) == Lead(OffEvents(AllPitches()), t0)
    ensures Kinds(FlushEvents(t0), p) == [false]
  {
    var all := AllPitches();
    assert all[p] == p;
    KindsOffEvents(all, p);
    KindsLead(OffEvents(all), t0, p);
  }

  /** Every pitch ends the track silenced: its last event is a NoteOff,
      everything before it alternates NoteOn/NoteOff from a NoteOn, and the
      closing NoteOff follows a NoteOn exactly when the pitch sounds in the
      last row (otherwise it is a redundant second NoteOff, or the pitch's
      only event). */
  lemma EmitClosesEveryPitch(rows: seq<seq<int>>, ts: int, p: Pitch)
    requires Rows(rows)
    ensures var ks := Kinds(Emit(rows, ts), p);
            |ks| >= 1 && !ks[|ks| - 1] &&
            Alternating(ks[..|ks| - 1], |rows| > 0 && rows[|rows| - 1][p] != 0)
  {
    var st := EmitUpTo(rows, ts, |rows|);
    EmitAlternates(rows, ts, |rows|, p);
    KindsAppend(st.events, FlushEvents(st.stepsPassed * ts), p);
    FlushKinds(st.stepsPassed * ts, p);
    var ks := Kinds(st.events, p);
    assert (ks + [false])[..|ks|] == ks;
    if |rows| > 0 {
      EmitUpToUnfold(rows, ts, |rows|);
    }
  }

  // ---------------------------------------------------------------------
  // A worked example

  /** A row in which only middle C (pitch 60) sounds. */
  function MiddleC(): (row: seq<int>)
    ensures |row| == NoteRange && forall p :: 0 <= p < NoteRange ==> (row[p] != 0 <==> p == 60)
  {
    seq(NoteRange, p requires 0 <= p < NoteRange => if p == 60 then 1 else 0)
  }

  lemma Member(ps: seq<Pitch>, i: nat)
    requires i < |ps|
    ensures ps[i] in ps
  {
  }

  /** An ascending list whose only member is `x` is `[x]`. */
  lemma AscendingSingleton(ps: seq<Pitch>, x: Pitch)
    requires Ascending(ps) && forall p: Pitch :: p in ps <==> p == x
    ensures ps == [x]
  {
    assert x in ps;
    if |ps| > 1 {
      Member(ps, 0);
      Member(ps, 1);
      assert false;
    }
  }

  /** A list without members is empty. */
  lemma NoMembers(ps: seq<Pitch>)
    requires forall p: Pitch :: p !in ps
    ensures ps == []
  {
    if ps != [] {
      Member(ps, 0);
      assert false;
    }
  }

  /** Middle C from silence: no pitch to turn off, middle C to turn on. */
  lemma MiddleCStartEvents(t0: int)
    ensures StepEvents(seq(NoteRange, _ => false), MiddleC(), t0) == [NoteOn(t0, 60, OnVelocity)]
  {
    var r := MiddleC();
    var off := seq(NoteRange, _ => false);
    assert OffPitches(off, r) == [] by {
      OffPitchesSpec(off, r);
      NoMembers(OffPitches(off, r));
    }
    assert OnPitches(off, r) == [60] by {
      OnPitchesSpec(off, r);
      AscendingSingleton(OnPitches(off, r), 60);
    }
    assert OffEvents([]) + OnEvents([60]) == [NoteOn(0, 60, OnVelocity)];
  }

  /** Middle C held: nothing to turn off or on. */
  lemma MiddleCHeldEvents(t0: int)
    ensures var r := MiddleC();
            StepEvents(seq(NoteRange, p requires 0 <= p < NoteRange => r[p] != 0), r, t0) == []
  {
    var r := MiddleC();
    var on := seq(NoteRange, p requires 0 <= p < NoteRange => r[p] != 0);
    assert OffPitches(on, r) == [] by {
      OffPitchesSpec(on, r);
      NoMembers(OffPitches(on, r));
    }
    assert OnPitches(on, r) == [] by {
      OnPitchesSpec(on, r);
      NoMembers(OnPitches(on, r));
    }
    assert OffEvents([]) + OnEvents([]) == [];
  }

  /** The loop over two rows of middle C: one NoteOn, two pending steps. */
  lemma TwoRowsOfMiddleCLoop()
    ensures var st := EmitUpTo([MiddleC(), MiddleC()], 64, 2);
            st.events == [NoteOn(64, 60, OnVelocity)] && st.stepsPassed == 2
  {
    var r := MiddleC();
    var rows := [r, r];
    var on := seq(NoteRange, p requires 0 <= p < NoteRange => r[p] != 0);
    var s0 := EmitState(seq(NoteRange, _ => false), 1, []);
    var s1 := EmitState(on, 1, [NoteOn(64, 60, OnVelocity)]);
    var s2 := EmitState(on, 2, [NoteOn(64, 60, OnVelocity)]);
    assert EmitUpTo(rows, 64, 0) == s0;
    assert StepRow(s0, r, 64) == s1 by {
      MiddleCStartEvents(64);
    }
    assert EmitUpTo(rows, 64, 1) == s1 by {
      EmitUpToUnfold(rows, 64, 1);
    }
    assert StepRow(s1, r, 64) == s2 by {
      MiddleCHeldEvents(64);
    }
    EmitUpToUnfold(rows, 64, 2);
  }

  /** Two rows of middle C at 64 ticks a step: one NoteOn at tick 64, nothing
      for the held second row, and the flush's 128 NoteOffs, the first of
      them two steps (128 ticks) later. */
  lemma TwoRowsOfMiddleC()
    ensures var e := Emit([MiddleC(), MiddleC()], 64);
            e == [NoteOn(64, 60, OnVelocity)] + FlushEvents(128) &&
            |e| == 1 + NoteRange && e[1] == NoteOff(128, 0)
  {
    TwoRowsOfMiddleCLoop();
  }
}
