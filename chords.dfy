/** chord_on and the chord helpers: a chord is a 128-cell vector with a 1
    in the cell of each of its pitches and 0 elsewhere. */
module Chords {
  import opened MidiEvents
  import opened Arith

  /** An index numpy accepts into a vector of NoteRange cells: a negative
      index counts back from the end. */
  predicate InRange(n: int)
  {
    -NoteRange <= n < NoteRange
  }

  /** The cell that index `n` writes. */
  function Cell(n: int): (c: int)
    requires InRange(n)
    ensures 0 <= c < NoteRange
    ensures 0 <= n ==> c == n
    ensures n < 0 ==> c == n + NoteRange
  {
    if n < 0 then n + NoteRange else n
  }

  predicate AllInRange(notes: seq<int>)
  {
    forall i :: 0 <= i < |notes| ==> InRange(notes[i])
  }

  /** The first index of `notes` numpy rejects. */
  function FirstOutOfRange(notes: seq<int>): (k: nat)
    requires !AllInRange(notes)
    ensures k < |notes| && !InRange(notes[k])
    ensures AllInRange(notes[..k])
  {
    if !InRange(notes[0]) then 0
    else
      assert notes[1..][..FirstOutOfRange(notes[1..])] == notes[1..FirstOutOfRange(notes[1..]) + 1];
      FirstOutOfRange(notes[1..]) + 1
  }

  /** The vector after writing a 1 for each of `notes` in turn. */
  function ChordVector(notes: seq<int>): (v: seq<int>)
    requires AllInRange(notes)
    ensures |v| == NoteRange
  {
    if notes == [] then seq(NoteRange, _ => 0)
    else ChordVector(notes[..|notes| - 1])[Cell(notes[|notes| - 1]) := 1]
  }

  /** The cells `notes` name. */
  function Cells(notes: seq<int>): set<int>
    requires AllInRange(notes)
  {
    set i | 0 <= i < |notes| :: Cell(notes[i])
  }

  /** chord_on(notes): a fresh vector of zeros with a 1 written at each of
      `notes`; an index outside the vector raises. */
  method ChordOn(notes: seq<int>) returns (res: Result<array<int>>)
    ensures res.Err? <==> !AllInRange(notes)
    ensures res.Err? ==> res.failure == IndexOutOfRange(notes[FirstOutOfRange(notes)])
    ensures res.Ok? ==> fresh(res.value) && res.value[..] == ChordVector(notes)
  {
    var chord := new int[NoteRange](_ => 0);
    for i := 0 to |notes|
      invariant AllInRange(notes[..i])
      invariant chord[..] == ChordVector(notes[..i])
    {
      var n := notes[i];
      if !InRange(n) {
        assert !AllInRange(notes);
        FirstBadIs(notes, i);
        return Err(IndexOutOfRange(n));
      }
      assert notes[..i + 1][..i] == notes[..i];
      chord[Cell(n)] := 1;
    }
    assert notes[..|notes|] == notes;
    return Ok(chord);
  }

  /** When every index before `i` is accepted and `i` is not, `i` is the
      first rejected index. */
  lemma {:induction false} FirstBadIs(notes: seq<int>, i: nat)
    requires i < |notes| && AllInRange(notes[..i]) && !InRange(notes[i])
    ensures FirstOutOfRange(notes) == i
  {
    if i > 0 {
      assert notes[0] == notes[..i][0];
      assert notes[1..][..i - 1] == notes[..i][1..];
      FirstBadIs(notes[1..], i - 1);
    }
  }

  /** chord_on sets exactly the listed cells to 1 and every other cell to 0. */
  lemma {:induction false} ChordVectorSpec(notes: seq<int>)
    requires AllInRange(notes)
    ensures forall c :: 0 <= c < NoteRange ==> ChordVector(notes)[c] == if c in Cells(notes) then 1 else 0
  {
    if notes != [] {
      var init := notes[..|notes| - 1];
      ChordVectorSpec(init);
      assert Cells(notes) == Cells(init) + {Cell(notes[|notes| - 1])} by {
        forall c | c in Cells(notes)
          ensures c in Cells(init) + {Cell(notes[|notes| - 1])}
        {
          var i :| 0 <= i < |notes| && Cell(notes[i]) == c;
          if i < |notes| - 1 {
            assert init[i] == notes[i];
          }
        }
        forall c | c in Cells(init)
          ensures c in Cells(notes)
        {
          var i :| 0 <= i < |init| && Cell(init[i]) == c;
          assert notes[i] == init[i];
        }
      }
    }
  }

  /** Two index lists that name the same cells give the same vector, so
      neither the order of the notes nor repeats change the chord. */
  lemma ChordVectorSameCells(a: seq<int>, b: seq<int>)
    requires AllInRange(a) && AllInRange(b) && Cells(a) == Cells(b)
    ensures ChordVector(a) == ChordVector(b)
  {
    ChordVectorSpec(a);
    ChordVectorSpec(b);
  }

  /** In particular, a chord does not depend on the order its notes are given in. */
  lemma ChordVectorCommutes(a: seq<int>, b: seq<int>)
    requires AllInRange(a) && AllInRange(b)
    ensures AllInRange(a + b) && AllInRange(b + a)
    ensures ChordVector(a + b) == ChordVector(b + a)
  {
    assert AllInRange(a + b) && AllInRange(b + a) by {
      forall i | 0 <= i < |a + b|
        ensures InRange((a + b)[i]) && InRange((b + a)[i])
      {
        if i < |a| {
          assert (a + b)[i] == a[i];
        } else {
          assert (a + b)[i] == b[i - |a|];
        }
        if i < |b| {
          assert (b + a)[i] == b[i];
        } else {
          assert (b + a)[i] == a[i - |b|];
        }
      }
    }
    CellsAppend(a, b);
    CellsAppend(b, a);
    ChordVectorSameCells(a + b, b + a);
  }

  lemma CellsAppend(a: seq<int>, b: seq<int>)
    requires AllInRange(a) && AllInRange(b) && AllInRange(a + b)
    ensures Cells(a + b) == Cells(a) + Cells(b)
  {
    forall c | c in Cells(a + b)
      ensures c in Cells(a) + Cells(b)
    {
      var i :| 0 <= i < |a + b| && Cell((a + b)[i]) == c;
      if i < |a| {
        assert (a + b)[i] == a[i];
      } else {
        assert (a + b)[i] == b[i - |a|];
      }
    }
    forall c | c in Cells(a)
      ensures c in Cells(a + b)
    {
      var i :| 0 <= i < |a| && Cell(a[i]) == c;
      assert (a + b)[i] == a[i];
    }
    forall c | c in Cells(b)
      ensures c in Cells(a + b)
    {
      var i :| 0 <= i < |b| && Cell(b[i]) == c;
      assert (a + b)[i + |a|] == b[i];
    }
  }

  // ---------------------------------------------------------------------
  // The chords of a I-vi-IV-V progression in C

  function Cmaj(): seq<int>
  {
    ChordVector([72, 76, 79])
  }

  function Amin(): seq<int>
  {
    ChordVector([72, 76, 81])
  }

  function Fmaj(): seq<int>
  {
    ChordVector([72, 77, 81])
  }

  function Gmaj(): seq<int>
  {
    ChordVector([74, 79, 83])
  }

  /** A three-note chord sounds exactly its three pitches. */
  lemma ThreeNotes(a: Pitch, b: Pitch, d: Pitch, c: int)
    requires 0 <= c < NoteRange
    ensures ChordVector([a, b, d])[c] == if c == a || c == b || c == d then 1 else 0
  {
    var notes := [a, b, d];
    ChordVectorSpec(notes);
    if c in Cells(notes) {
      var i :| 0 <= i < 3 && Cell(notes[i]) == c;
    }
    if c == a {
      assert Cell(notes[0]) == c;
    } else if c == b {
      assert Cell(notes[1]) == c;
    } else if c == d {
      assert Cell(notes[2]) == c;
    }
  }

  /** Each helper sounds exactly its three pitches. */
  lemma ChordPitches(c: int)
    requires 0 <= c < NoteRange
    ensures Cmaj()[c] == if c == 72 || c == 76 || c == 79 then 1 else 0
    ensures Amin()[c] == if c == 72 || c == 76 || c == 81 then 1 else 0
    ensures Fmaj()[c] == if c == 72 || c == 77 || c == 81 then 1 else 0
    ensures Gmaj()[c] == if c == 74 || c == 79 || c == 83 then 1 else 0
  {
    ThreeNotes(72, 76, 79, c);
    ThreeNotes(72, 76, 81, c);
    ThreeNotes(72, 77, 81, c);
    ThreeNotes(74, 79, 83, c);
  }

  /** Python's `list * n`: `n` copies of `xs` end to end, none when n <= 0. */
  function Repeat<T>(xs: seq<T>, n: int): (r: seq<T>)
    decreases n
  {
    if n <= 0 then [] else xs + Repeat(xs, n - 1)
  }

  /** i_vi_iv_v(n): the four chords, `n` times over. */
  function IViIvV(n: int): seq<seq<int>>
  {
    Repeat([Cmaj(), Amin(), Fmaj(), Gmaj()], n)
  }

  /** `n` copies of a list of length m: length n * m, entry k is entry k % m. */
  lemma {:induction false} RepeatSpec<T>(xs: seq<T>, n: nat)
    requires |xs| > 0
    ensures |Repeat(xs, n)| == n * |xs|
    ensures forall k :: 0 <= k < |Repeat(xs, n)| ==> Repeat(xs, n)[k] == xs[k % |xs|]
  {
    if n > 0 {
      RepeatSpec(xs, n - 1);
      var r, rest, m := Repeat(xs, n), Repeat(xs, n - 1), |xs|;
      assert r == xs + rest;
      MulSub(n, 1, m);
      forall k | 0 <= k < |r|
        ensures r[k] == xs[k % m]
      {
        if k < m {
          ModUnique(k, m, 0, k);
        } else {
          assert r[k] == rest[k - m];
          ModShift(k, m);
        }
      }
    }
  }

  /** The progression has 4n rows; row k is the (k mod 4)-th chord of
      C, Am, F, G; and every row is a 128-cell vector the writer accepts. */
  lemma IViIvVShape(n: nat)
    ensures |IViIvV(n)| == 4 * n
    ensures forall k :: 0 <= k < 4 * n ==> IViIvV(n)[k] == [Cmaj(), Amin(), Fmaj(), Gmaj()][k % 4]
    ensures forall k :: 0 <= k < 4 * n ==> |IViIvV(n)[k]| == NoteRange
  {
    RepeatSpec([Cmaj(), Amin(), Fmaj(), Gmaj()], n);
  }
}
