/** Pitch annotation of the feature extractor: `freq_to_note`, and the loop
    that labels each beat with the note of the strongest pitch bin in the
    beat's analysis frame. */
module PitchAnnotation {
  import opened Common
  import opened Numerals

  /** The twelve pitch classes, starting at C. */
  const NoteNames: seq<string> := ["C", "C#", "D", "D#", "E", "F", "F#", "G", "G#", "A", "A#", "B"]

  /** The label of MIDI note `m`: its pitch class and its octave, MIDI 60 being C4. */
  function Label(m: int): string
  {
    NoteNames[m % 12] + IntToString(m / 12 - 1)
  }

  /** The label of a frequency, given the rounded MIDI number of a positive
      frequency as `midiOf`; "N/A" when there is no positive frequency. */
  function FreqToNote(freq: real, midiOf: real -> int): (s: string)
    ensures freq <= 0.0 ==> s == "N/A"
    ensures freq > 0.0 ==> ParseLabel(s) == Some(midiOf(freq))
  {
    if freq <= 0.0 then "N/A"
    else
      LabelRoundTrip(midiOf(freq));
      Label(midiOf(freq))
  }

  /** The position of `name` in `NoteNames` at or after `k`. */
  function FindName(name: string, k: nat): (r: Option<nat>)
    requires k <= 12
    ensures r.Some? ==> k <= r.value < 12 && NoteNames[r.value] == name
    ensures r.None? ==> forall j :: k <= j < 12 ==> NoteNames[j] != name
    decreases 12 - k
  {
    if k == 12 then None
    else if NoteNames[k] == name then Some(k)
    else FindName(name, k + 1)
  }

  /** Reads a label back as a MIDI number: a pitch class (two characters when
      the second is `#`) followed by a signed octave numeral. */
  function ParseLabel(s: string): Option<int>
  {
    var nameLen := if |s| >= 2 && s[1] == '#' then 2 else 1;
    if |s| < nameLen then None
    else
      match (FindName(s[..nameLen], 0), ParseInt(s[nameLen..]))
      case (Some(k), Some(octave)) => Some(12 * (octave + 1) + k)
      case _ => None
  }

  /** Each pitch class is named exactly once. */
  lemma NoteNamesDistinct(i: nat)
    requires i < 12
    ensures FindName(NoteNames[i], 0) == Some(i)
  {
  }

  /** The label determines the MIDI number: `ParseLabel` inverts `Label`. */
  lemma LabelRoundTrip(m: int)
    ensures ParseLabel(Label(m)) == Some(m)
  {
    var k, octave := m % 12, m / 12 - 1;
    var name, digits := NoteNames[k], IntToString(octave);
    var s := Label(m);
    assert s == name + digits;
    IntToStringRoundTrip(octave);
    NoteNamesDistinct(k);
    var nameLen := |name|;
    assert nameLen == 1 || nameLen == 2;
    if nameLen == 2 {
      assert s[1] == '#';
    } else {
      assert s[1] == digits[0];
    }
    assert s[..nameLen] == name && s[nameLen..] == digits;
  }

  /** "N/A" reads back as no note, so it is never the label of a MIDI number. */
  lemma NotApplicableIsNoLabel()
    ensures ParseLabel("N/A") == None
  {
    assert "N/A"[..1] == "N";
    assert FindName("N", 0) == None;
  }

  /** A label is "N/A" exactly when the frequency is not positive. */
  lemma FreqToNoteNotApplicableIff(freq: real, midiOf: real -> int)
    ensures FreqToNote(freq, midiOf) == "N/A" <==> freq <= 0.0
  {
    NotApplicableIsNoLabel();
  }

  /** Concert A, 440 Hz, is MIDI 69: A4. */
  lemma LabelOfConcertA()
    ensures Label(69) == "A4"
  {
    assert IntToString(4) == "4";
  }

  /** Middle C, MIDI 60: C4. */
  lemma LabelOfMiddleC()
    ensures Label(60) == "C4"
  {
    assert IntToString(4) == "4";
  }

  /** The pitch/magnitude grid of the tracker: one row per frequency bin, one
      column per frame, at least one bin. */
  predicate WellShaped(pitches: seq<seq<real>>, magnitudes: seq<seq<real>>)
  {
    && |magnitudes| > 0
    && |pitches| == |magnitudes|
    && (forall b :: 0 <= b < |magnitudes| ==> |magnitudes[b]| == |magnitudes[0]|)
    && (forall b :: 0 <= b < |pitches| ==> |pitches[b]| == |magnitudes[0]|)
  }

  /** The number of frames, `magnitudes.shape[1]`. */
  function Columns(magnitudes: seq<seq<real>>): nat
    requires |magnitudes| > 0
  {
    |magnitudes[0]|
  }

  /** Column `t` of the grid, `grid[:, t]`. */
  function Column(grid: seq<seq<real>>, t: nat): (c: seq<real>)
    requires forall b :: 0 <= b < |grid| ==> t < |grid[b]|
    ensures |c| == |grid|
    ensures forall b :: 0 <= b < |grid| ==> c[b] == grid[b][t]
  {
    seq(|grid|, b requires 0 <= b < |grid| => grid[b][t])
  }

  /** The frequency heard in frame `t`: the pitch of the first bin of largest
      magnitude, or 0 when that magnitude is not positive. */
  function FrameFrequency(pitches: seq<seq<real>>, magnitudes: seq<seq<real>>, t: nat): real
    requires WellShaped(pitches, magnitudes) && t < Columns(magnitudes)
  {
    var index := ArgMax(Column(magnitudes, t));
    if magnitudes[index][t] > 0.0 then pitches[index][t] else 0.0
  }

  /** The label of frame `t`. */
  function FrameNote(pitches: seq<seq<real>>, magnitudes: seq<seq<real>>, t: nat, midiOf: real -> int): string
    requires WellShaped(pitches, magnitudes) && t < Columns(magnitudes)
  {
    FreqToNote(FrameFrequency(pitches, magnitudes, t), midiOf)
  }

  /** The frames that lie inside the grid. */
  function InGrid(cols: nat): nat -> bool
  {
    t => t < cols
  }

  /** The beat frames inside the grid, in order: `frames` at exactly the
      positions whose frame is below the column count, repeats included. */
  function InGridFrames(frames: seq<nat>, magnitudes: seq<seq<real>>): (r: seq<nat>)
    requires |magnitudes| > 0
    ensures forall k :: 0 <= k < |r| ==> r[k] < Columns(magnitudes)
    ensures SubsequenceAt(r, frames, FilterIndices(frames, InGrid(Columns(magnitudes))))
    ensures forall i: nat :: i in FilterIndices(frames, InGrid(Columns(magnitudes)))
                             <==> i < |frames| && frames[i] < Columns(magnitudes)
  {
    var r := Filter(frames, InGrid(Columns(magnitudes)));
    assert forall k :: 0 <= k < |r| ==> r[k] in r;
    FilterSubsequence(frames, InGrid(Columns(magnitudes)));
    FilterIndicesExact(frames, InGrid(Columns(magnitudes)));
    r
  }

  /** The labels of the in-grid frames among `frames`, in their order. */
  function Annotated(frames: seq<nat>, pitches: seq<seq<real>>, magnitudes: seq<seq<real>>,
                     midiOf: real -> int): seq<string>
    requires WellShaped(pitches, magnitudes)
  {
    if frames == [] then []
    else
      var t := frames[|frames| - 1];
      Annotated(frames[..|frames| - 1], pitches, magnitudes, midiOf)
      + (if t < Columns(magnitudes) then [FrameNote(pitches, magnitudes, t, midiOf)] else [])
  }

  /** The notes loop: one label for each beat frame inside the grid. */
  method AnnotateNotes(frames: seq<nat>, pitches: seq<seq<real>>, magnitudes: seq<seq<real>>,
                       midiOf: real -> int) returns (notes: seq<string>)
    requires WellShaped(pitches, magnitudes)
    ensures notes == Annotated(frames, pitches, magnitudes, midiOf)
    ensures |notes| <= |frames|
  {
    notes := [];
    var cols := |magnitudes[0]|;
    for i := 0 to |frames|
      invariant notes == Annotated(frames[..i], pitches, magnitudes, midiOf)
    {
      assert frames[..i + 1][..i] == frames[..i];
      var t := frames[i];
      if t >= cols {
        continue;
      }
      var index := ArgMax(Column(magnitudes, t));
      var freq := if magnitudes[index][t] > 0.0 then pitches[index][t] else 0.0;
      notes := notes + [FreqToNote(freq, midiOf)];
    }
    assert frames[..|frames|] == frames;
    AnnotatedIsInGridLabels(frames, pitches, magnitudes, midiOf);
  }

  /** The label of each of the frames `ts`, all inside the grid. */
  function FrameNotes(ts: seq<nat>, pitches: seq<seq<real>>, magnitudes: seq<seq<real>>,
                      midiOf: real -> int): (r: seq<string>)
    requires WellShaped(pitches, magnitudes)
    requires forall k :: 0 <= k < |ts| ==> ts[k] < Columns(magnitudes)
    ensures |r| == |ts|
    ensures forall k :: 0 <= k < |ts| ==> r[k] == FrameNote(pitches, magnitudes, ts[k], midiOf)
  {
    seq(|ts|, k requires 0 <= k < |ts| => FrameNote(pitches, magnitudes, ts[k], midiOf))
  }

  lemma FrameNotesAppend(ts: seq<nat>, t: nat, pitches: seq<seq<real>>, magnitudes: seq<seq<real>>,
                          midiOf: real -> int)
    requires WellShaped(pitches, magnitudes)
    requires forall k :: 0 <= k < |ts| ==> ts[k] < Columns(magnitudes)
    requires t < Columns(magnitudes)
    ensures FrameNotes(ts + [t], pitches, magnitudes, midiOf)
            == FrameNotes(ts, pitches, magnitudes, midiOf) + [FrameNote(pitches, magnitudes, t, midiOf)]
  {
  }

  /** The labels are those of the in-grid frames, one each, in order. */
  lemma {:induction false} AnnotatedIsInGridLabels(frames: seq<nat>, pitches: seq<seq<real>>,
                                                   magnitudes: seq<seq<real>>, midiOf: real -> int)
    requires WellShaped(pitches, magnitudes)
    ensures Annotated(frames, pitches, magnitudes, midiOf)
            == FrameNotes(InGridFrames(frames, magnitudes), pitches, magnitudes, midiOf)
  {
    if frames != [] {
      var init, t := frames[..|frames| - 1], frames[|frames| - 1];
      AnnotatedIsInGridLabels(init, pitches, magnitudes, midiOf);
      var cols := Columns(magnitudes);
      var before := InGridFrames(init, magnitudes);
      assert init + [t] == frames;
      FilterAppend(init, t, InGrid(cols));
      if t < cols {
        assert InGridFrames(frames, magnitudes) == before + [t];
        FrameNotesAppend(before, t, pitches, magnitudes, midiOf);
      } else {
        assert InGridFrames(frames, magnitudes) == before;
      }
    }
  }

  /** When every beat frame lies inside the grid, every beat gets a label. */
  lemma AllInGridAllLabelled(frames: seq<nat>, pitches: seq<seq<real>>, magnitudes: seq<seq<real>>,
                             midiOf: real -> int)
    requires WellShaped(pitches, magnitudes)
    requires forall i :: 0 <= i < |frames| ==> frames[i] < Columns(magnitudes)
    ensures |Annotated(frames, pitches, magnitudes, midiOf)| == |frames|
  {
    FilterKeepsAll(frames, InGrid(Columns(magnitudes)));
    assert InGridFrames(frames, magnitudes) == frames;
    AnnotatedIsInGridLabels(frames, pitches, magnitudes, midiOf);
  }

  /** A frame is labelled "N/A" exactly when its strongest bin has no positive
      magnitude or carries no positive pitch. */
  lemma FrameNoteNotApplicableIff(pitches: seq<seq<real>>, magnitudes: seq<seq<real>>, t: nat,
                                  midiOf: real -> int)
    requires WellShaped(pitches, magnitudes) && t < Columns(magnitudes)
    ensures var index := ArgMax(Column(magnitudes, t));
            FrameNote(pitches, magnitudes, t, midiOf) == "N/A"
            <==> magnitudes[index][t] <= 0.0 || pitches[index][t] <= 0.0
  {
    FreqToNoteNotApplicableIff(FrameFrequency(pitches, magnitudes, t), midiOf);
  }
}
