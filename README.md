# Beat, note and Luau-table core of the audio-to-Luau feature extractor

The feature extractor turns an audio file into a Luau source file that
returns a table of beat timestamps, one note label per beat, the tempo and
the duration. This project models, and proves properties of, the parts of
that pipeline that are plain logic rather than signal processing:

- **Beat-time corrector** (`adjust_beat_times`, module `BeatCorrection`,
  `beats.dfy`). The beat tracker's timestamps refer to the padded signal. The
  corrector:
  - removes the padding offset and drops negative times;
  - passes degenerate data through unchanged;
  - may recover one leading beat at a strong onset-envelope peak in a
    three-frame lookback window;
  - appends one extrapolated beat;
  - clips at the track duration.

  It is modelled as composed functions over `seq<real>`: `Depad`,
  `LeadingBeat`, `WithLeadingBeat`, `Extrapolated`, `Corrected` and
  `AdjustBeatTimes`. These follow the source's whole-array rebinding steps.
- **Silence gate** (`filter_silence`, module `SilenceGate`, `silence.dfy`). It
  keeps a beat when the waveform is loud in the short window starting at it,
  and always keeps the final beat. It is modelled as a method with the
  source's loop, proved against the specification function `Gated`. The
  list properties are proved for any per-beat keep test (`loud`). The
  source's test enters through `LoudOf`.
- **Pitch annotation** (`freq_to_note` and the notes loop of the pipeline,
  module `PitchAnnotation`, `pitch.dfy`). It labels each beat frame with the
  note of its strongest pitch bin. The loop is a method proved against the
  function `Annotated`. `ParseLabel` reads a label back as its MIDI number.
- **Luau writer** (`to_lua_value` / `to_lua_table` of `luau_writer.py`,
  module `LuauWriter`, `luau.dfy`). It is a recursive pretty-printer over a
  closed value type: tables, lists, strings, booleans, integers, floats and
  other values. The proofs cover:
  - its frame and its per-entry lines;
  - how keys are written;
  - a line-by-line reading of the output;
  - brace balance.
- **The second writer** (the copy in `extractData.py`, module `ExtractData`,
  `extract_data.dfy`). It has no string test on keys, so a non-string key
  raises there; here that is a `None` result. It is proved to agree with
  the first writer exactly on data whose keys are all strings.

Shared pieces:
- `common.dfy` (module `Common`):
  - Python's `int()` on reals, as truncation;
  - `np.argmax`, as the first maximal index;
  - boolean-mask selection, as `Filter`;
  - `np.mean`.
- `numerals.dfy` (module `Numerals`): `str` on integers, with a parser that reads
  it back.
- `constants.dfy` (module `Constants`): the extractor's tuning constants.

## Behaviour of the code

The model follows the code as written. Three consequences are worth stating:
- At the extractor's 44100 Hz and hop of 512 the leading-beat branch
  (feature_extractor.py:88-91) never fires, although the comments on its
  constants (feature_extractor.py:28-29) describe it as recovering an
  earlier onset.
  - The code searches frames `first_frame - 3` through `first_frame`
    inclusive (feature_extractor.py:82-83).
  - It inserts a peak only when the peak lies more than 0.2 s before the
    first beat (feature_extractor.py:90).
  - The whole window spans about 0.046 s, so the test at line 90 always
    fails.
  - This is proved as `BeatCorrection.LeadingBeatNeverAtDefaultRates` and
    `BeatCorrection.EnvelopeIrrelevantAtDefaultRates`.
- The degenerate return (no beats left, or a tempo of at most 0;
  feature_extractor.py:72-73) skips the clip at lines 99-100, so its
  result may exceed the duration. `BeatCorrection.DegenerateNotClipped`
  shows a beat after the end of the track surviving.
- The frame index of the first beat is computed from the de-padded time, but
  it indexes an envelope that was computed on the padded signal
  (feature_extractor.py:80, 123). The model keeps this offset as the code
  has it.

## Model

| member | source | states |
|---|---|---|
| Common.ArgMax | feature_extractor.py:83 | `np.argmax`: the index is in range; no element exceeds the element there; and every earlier element is strictly smaller (the first maximum) |
| Common.Trunc | feature_extractor.py:58 | no contract; Python's `int()` on a float, truncation toward zero, specified by `Common.TruncBounds` |
| Common.TruncBounds | feature_extractor.py:58 | `int(x)` moves `x` toward zero by less than one: for `x >= 0` it is the floor, for `x < 0` the ceiling |
| Common.Mean | feature_extractor.py:87 | no contract; `np.mean`, the sum divided by the length |
| Common.Filter | feature_extractor.py:70 | boolean-mask selection: no longer than its input, and holds exactly the input's elements that pass the test |
| Common.FilterSubsequence | feature_extractor.py:70 | the selection is the input at strictly increasing positions, element for element: order and repeats are kept |
| Common.FilterIndicesExact | feature_extractor.py:70 | those positions are exactly the ones whose element passes the test |
| Common.FilterIncreasing | feature_extractor.py:70 | mask selection keeps a strictly increasing sequence strictly increasing |
| Numerals.IntToString | luau_writer.py:12-13 | `str` on an integer: non-empty; a leading `-` exactly for negative numbers, otherwise it starts with a digit |
| Numerals.NatToString | feature_extractor.py:46 | decimal numeral of a natural number: non-empty, all digits, no leading zero |
| Numerals.IntToStringRoundTrip | luau_writer.py:12-13 | the numeral parses back to the integer, so `str` on integers loses nothing |
| BeatCorrection.Depad | feature_extractor.py:69-70 | a time is kept exactly when it is non-negative after removing `pad_len / sr` from a tracker time; no beat is added |
| BeatCorrection.FirstFrame | feature_extractor.py:80 | no contract; `int(first_beat * sr / hop_length)`, bounded by `BeatCorrection.FirstFrameBounds` |
| BeatCorrection.FirstFrameBounds | feature_extractor.py:80 | the first beat's frame `ff` satisfies `ff * hop <= first * sr < (ff + 1) * hop` |
| BeatCorrection.SearchStart | feature_extractor.py:82 | no contract; `max(0, first_frame - 3)` |
| BeatCorrection.SearchEnd | feature_extractor.py:83 | no contract; the slice end `first_frame + 1`, clamped to the envelope as numpy clamps it |
| BeatCorrection.FrameTime | feature_extractor.py:89 | the time `k * hop_length / sr` of a frame is non-negative |
| BeatCorrection.PadOffset | feature_extractor.py:69 | no contract; `pad_len / sr` |
| BeatCorrection.DefaultPadOffset | feature_extractor.py:112 | the extractor pads by `int(44100 * 0.5)` = 22050 samples, so de-padding removes exactly the 0.5 s of padding |
| BeatCorrection.Shifted | feature_extractor.py:69 | every time minus the offset, one for one: same length, `r[i] == s[i] - d` |
| BeatCorrection.Degenerate | feature_extractor.py:72 | no contract; `len(beat_times) < 1 or tempo <= 0` |
| BeatCorrection.DepadIncreasing | feature_extractor.py:69-70 | de-padding keeps strictly increasing beats strictly increasing |
| BeatCorrection.PeakFrame | feature_extractor.py:80-84 | the argmax frame lies in the lookback window `[max(0, first_frame - 3), first_frame]`, holds the window's maximum, and every earlier window frame is strictly weaker |
| BeatCorrection.LeadingBeat | feature_extractor.py:78-91 | a recovered beat is non-negative and more than the duplicate gap before the first beat |
| BeatCorrection.LeadingBeatIsStrongPeak | feature_extractor.py:83-89 | a recovered beat is the time of the earliest window peak (every earlier window frame is strictly weaker), and that peak is stronger than 1.5 times the mean envelope |
| BeatCorrection.LeadingBeatNoneIff | feature_extractor.py:83-91 | no beat is recovered exactly when every window peak is weak or within the duplicate gap of the first beat |
| BeatCorrection.EarliestPeakDecides | feature_extractor.py:83-90 | taking the first of several equal peaks decides for all of them |
| BeatCorrection.LookbackFrameWithinGap | feature_extractor.py:80-83 | once four frames fit in the duplicate gap, every frame from the window start on begins within the gap before the first beat |
| BeatCorrection.LeadingBeatUnreachable | feature_extractor.py:78-91 | when the lookback window plus the first beat's own frame spans no more than the duplicate gap, no leading beat is recovered, for any envelope |
| BeatCorrection.LeadingBeatNeverAtDefaultRates | feature_extractor.py:15-16 | at 44100 Hz with a hop of 512, no leading beat is ever recovered |
| BeatCorrection.RecoveredBeat | feature_extractor.py:78-91 | no contract; no beat without an envelope, otherwise `LeadingBeat` of the first beat (`onset_env is not None` branch) |
| BeatCorrection.WithLeadingBeat | feature_extractor.py:78-91 | the beats after the insertion step are the old beats plus the recovered one; the last beat is unchanged; the order is preserved |
| BeatCorrection.Extrapolated | feature_extractor.py:93-97 | `last + interval` is appended exactly when it is at most `duration + 0.25 * interval`; at most one beat is added; the order is preserved |
| BeatCorrection.Corrected | feature_extractor.py:75-100 | after clipping, no beat exceeds the duration |
| BeatCorrection.AdjustBeatTimes | feature_extractor.py:67-102 | all results are non-negative; degenerate input is returned de-padded and unclipped; otherwise no result exceeds the duration |
| BeatCorrection.NextBeat | feature_extractor.py:94-95 | no contract; `last + interval` with `interval = 60 / tempo` |
| BeatCorrection.CorrectedMembership | feature_extractor.py:75-100 | the corrected beats are exactly the de-padded beats, the recovered beat and `last + 60 / tempo`, each kept only when at most the duration |
| BeatCorrection.CorrectedNonNegative | feature_extractor.py:75-100 | the correction steps add no negative time |
| BeatCorrection.AdjustMembership | feature_extractor.py:67-102 | on non-degenerate input, a time is in the result exactly when it is at most the duration and is a de-padded beat, the recovered beat or the extrapolated beat |
| BeatCorrection.TrailingBeatKeptIff | feature_extractor.py:94-100 | the extrapolated beat survives exactly when it is at most the duration, although it is appended up to the margin beyond |
| BeatCorrection.AdjustLength | feature_extractor.py:67-102 | at most two beats more than the de-padded beats |
| BeatCorrection.AdjustIncreasing | feature_extractor.py:67-102 | strictly increasing tracker beats give strictly increasing corrected beats |
| BeatCorrection.CorrectionStagesIncreasing | feature_extractor.py:78-100 | insertion, extrapolation and clipping keep strictly increasing beats strictly increasing |
| BeatCorrection.EnvelopeIrrelevantAtDefaultRates | feature_extractor.py:137-139 | at the extractor's rates, the corrected beats are the same with and without the onset envelope |
| BeatCorrection.DegenerateNotClipped | feature_extractor.py:72-73 | with a zero tempo, a beat after the end of the track is returned |
| BeatCorrection.NoExtrapolationPastMargin | feature_extractor.py:94-100 | beats 1.0, 1.5, 2.0 at 120 BPM over 2.2 s are returned unchanged, because 2.5 lies past the margin |
| BeatCorrection.AppendThenClip | feature_extractor.py:94-100 | over 2.45 s the beat 2.5 is appended and then clipped, so the beats are unchanged |
| BeatCorrection.ExtrapolatedThenClipped | feature_extractor.py:94-100 | when every beat is within the duration and `last + interval` is past it, extrapolation followed by clipping returns the beats unchanged, whether or not the margin test appended the beat |
| BeatCorrection.DepadUnpadded | feature_extractor.py:69-70 | with no padding, non-negative beats pass through de-padding unchanged |
| SilenceGate.WindowSamples | feature_extractor.py:54 | no contract; `int(window_sec * sr)` |
| SilenceGate.WindowStart | feature_extractor.py:58 | no contract; `max(0, int(b * sr))`, a natural number |
| SilenceGate.WindowEnd | feature_extractor.py:59 | no contract; `min(len(y), start + window)` |
| SilenceGate.Loud | feature_extractor.py:62 | no contract; the peak test, specified by `SilenceGate.LoudIff` |
| SilenceGate.KeepAt | feature_extractor.py:60-62 | no contract; `is_final or` the per-beat test, specified by `SilenceGate.KeptIndicesExact` and `SilenceGate.KeptIff` |
| SilenceGate.Gated | feature_extractor.py:57-63 | no contract; the beats kept among the first `n`, specified by `SilenceGate.GatedSubsequence`, `SilenceGate.KeptIndicesExact` and `SilenceGate.FinalBeatKept` |
| SilenceGate.Magnitudes | feature_extractor.py:62 | `np.abs`, elementwise |
| SilenceGate.MaxAbs | feature_extractor.py:62 | `np.max(np.abs(s))`: bounds every magnitude from above, and some sample reaches it |
| SilenceGate.FilterSilence | feature_extractor.py:48-65 | the loop computes `Gated`; empty input gives empty output; the final beat is the last output; no beat is added |
| SilenceGate.KeptIndicesExact | feature_extractor.py:57-63 | the kept indices are exactly those whose keep test holds |
| SilenceGate.GatedSubsequence | feature_extractor.py:57-63 | the output is the input at strictly increasing indices, the kept ones: an order-preserving subsequence |
| SilenceGate.GatedLength | feature_extractor.py:57-63 | the gate never adds beats |
| SilenceGate.FinalBeatKept | feature_extractor.py:49-52 | the final beat is always the last beat returned |
| SilenceGate.LoudIff | feature_extractor.py:58-62 | the peak test holds exactly when some sample in the clamped window `[max(0, int(b*sr)), min(len(y), start + window))` exceeds the threshold in magnitude |
| SilenceGate.KeptIff | feature_extractor.py:57-63 | beat `i` survives exactly when it is the final beat or its window holds a sample louder than the threshold |
| SilenceGate.GatedLoudButLast | feature_extractor.py:57-63 | every returned beat but the last passed the loudness test |
| SilenceGate.GatedKeepsLoud | feature_extractor.py:57-63 | beats that are all loud, except possibly the last, are kept entirely |
| SilenceGate.GatedIdempotent | feature_extractor.py:57-63 | for any keep test that looks at one beat only, with the final beat always kept, gating the output again changes nothing |
| SilenceGate.FilterSilenceIdempotent | feature_extractor.py:48-65 | `filter_silence` applied to its own output, with the same waveform and settings, returns that output |
| SilenceGate.DefaultWindowSamples | feature_extractor.py:22-23 | at the extractor's 44100 Hz and 0.05 s window, the window is 2205 samples |
| SilenceGate.KeptAtDefaults | feature_extractor.py:57-63 | with the extractor's settings a beat survives exactly when it is final or one of the 2205 samples from its own (clamped to the waveform) exceeds 0.01 in magnitude |
| SilenceGate.GatedIncreasing | feature_extractor.py:57-63 | strictly increasing beats stay strictly increasing |
| PitchAnnotation.NoteNames | feature_extractor.py:43-44 | no contract; the twelve pitch-class names from C, shown distinct by `PitchAnnotation.NoteNamesDistinct` |
| PitchAnnotation.Label | feature_extractor.py:46 | no contract; `note_names[m % 12] + str(m // 12 - 1)`, specified by `PitchAnnotation.LabelRoundTrip` and the two concrete labels |
| PitchAnnotation.FreqToNote | feature_extractor.py:40-46 | a frequency of at most 0 gives "N/A"; a positive one gives a label that `ParseLabel` reads back as its MIDI number |
| PitchAnnotation.FindName | feature_extractor.py:43-44 | finds the position of a pitch-class name, or establishes that it is absent |
| PitchAnnotation.NoteNamesDistinct | feature_extractor.py:43-44 | the twelve pitch-class names are pairwise distinct |
| PitchAnnotation.LabelRoundTrip | feature_extractor.py:46 | `note_names[m % 12] + str(m // 12 - 1)` determines `m`: parsing the label returns it |
| PitchAnnotation.NotApplicableIsNoLabel | feature_extractor.py:41-42 | "N/A" is the label of no MIDI number |
| PitchAnnotation.FreqToNoteNotApplicableIff | feature_extractor.py:40-46 | the label is "N/A" exactly when the frequency is at most 0 |
| PitchAnnotation.LabelOfConcertA | feature_extractor.py:46 | MIDI 69 is "A4" |
| PitchAnnotation.LabelOfMiddleC | feature_extractor.py:46 | MIDI 60 is "C4" |
| PitchAnnotation.Column | feature_extractor.py:153 | `magnitudes[:, t]`: one value per bin, taken from column `t` |
| PitchAnnotation.FrameFrequency | feature_extractor.py:153-154 | no contract; the pitch of the first strongest bin, or 0 when its magnitude is at most 0, specified by `PitchAnnotation.FrameNoteNotApplicableIff` |
| PitchAnnotation.FrameNote | feature_extractor.py:153-155 | no contract; the label of one in-range frame, specified by `PitchAnnotation.FrameNoteNotApplicableIff` |
| PitchAnnotation.InGridFrames | feature_extractor.py:150-152 | the frames kept by the range test all lie below the column count; they are the beat frames at exactly the in-range positions, in order, repeats included |
| PitchAnnotation.Annotated | feature_extractor.py:149-155 | no contract; the notes after the first `n` frames, specified by `PitchAnnotation.AnnotatedIsInGridLabels` |
| PitchAnnotation.AnnotateNotes | feature_extractor.py:149-155 | the loop computes `Annotated`, with at most one label per beat frame |
| PitchAnnotation.FrameNotes | feature_extractor.py:153-155 | labels frames one for one |
| PitchAnnotation.AnnotatedIsInGridLabels | feature_extractor.py:149-155 | the labels are those of the in-range frames, one each, in beat order; out-of-range frames are skipped |
| PitchAnnotation.AllInGridAllLabelled | feature_extractor.py:149-155 | when every frame is in range, there is one label per beat |
| PitchAnnotation.FrameNoteNotApplicableIff | feature_extractor.py:153-155 | a frame is "N/A" exactly when its first strongest bin has magnitude at most 0 or pitch at most 0 |
| LuauWriter.IsIdentifier | luau_writer.py:20 | no contract; `str.isidentifier` on ASCII: non-empty, a letter or `_` first, then letters, digits or `_` |
| LuauWriter.Join | luau_writer.py:22 | no contract; `sep.join(parts)`, used for list elements (line 7) and table lines |
| LuauWriter.KeyText | luau_writer.py:20 | no contract; the key as written, specified by `LuauWriter.KeyBareIff` and `LuauWriter.KeyTextInjective` |
| LuauWriter.Quoted | luau_writer.py:9 | no contract; `f'"{v}"'`, also used at lines 15 and 20, specified by `LuauWriter.QuotedTextVerbatim` |
| LuauWriter.RenderItems | luau_writer.py:7 | no contract; the generator inside the join, specified by `LuauWriter.ItemsRenderedInOrder` |
| LuauWriter.EntryLine | luau_writer.py:20-21 | no contract; the line `key = value,`, specified by `LuauWriter.EntryLinesOnePerEntry` |
| LuauWriter.EntryLines | luau_writer.py:18-21 | no contract; the `lines` loop, specified by `LuauWriter.EntryLinesOnePerEntry` |
| LuauWriter.ToLuaValue | luau_writer.py:3-15 | no contract; `to_lua_value`, specified by the list, string, boolean, integer and balance lemmas below |
| LuauWriter.ToLuaTable | luau_writer.py:17-22 | no contract; `to_lua_table`, specified by `LuauWriter.TableFrame`, `LuauWriter.EntryLinesOnePerEntry` and `LuauWriter.TableLines` |
| LuauWriter.TableFrame | luau_writer.py:22 | a table starts with `{\n  ` and ends with `\n}`; the empty table is `{\n  \n}` |
| LuauWriter.EntryLinesOnePerEntry | luau_writer.py:18-21 | one `key = value,` line per entry, in map order |
| LuauWriter.TableLines | luau_writer.py:17-22 | read line by line, a table whose entries hold no newline is `{`, then each entry line indented by two spaces, then `}` |
| LuauWriter.EmptyTableSplit | luau_writer.py:22 | read line by line, the empty table that line 22 produces is the lines `{`, two spaces, `}` |
| LuauWriter.SplitAtNewline | luau_writer.py:22 | for reading the text of line 22 line by line: text joined at a newline reads as the lines of each side |
| LuauWriter.SplitJoinedLines | luau_writer.py:22 | the lines joined with a newline and indent, as line 22 joins them, read back line by line as the indented lines |
| LuauWriter.ItemsRenderedInOrder | luau_writer.py:6-7 | list elements are rendered one by one, in order |
| LuauWriter.ListText | luau_writer.py:6-7 | an empty list is `{}`; a one-element list is its element in braces |
| LuauWriter.QuotedTextVerbatim | luau_writer.py:8-9 | a string, or the `str` of an unrecognised value, is written between double quotes with its text copied verbatim |
| LuauWriter.QuoteNotEscaped | luau_writer.py:8-9 | a double quote inside a string is written unescaped |
| LuauWriter.KeyBareIff | luau_writer.py:20 | a key is written bare exactly when it is a string that is an identifier, and bracketed and quoted otherwise |
| LuauWriter.KeyTextInjective | luau_writer.py:20 | distinct string keys are written distinctly |
| LuauWriter.KeyTextConflatesStr | luau_writer.py:20 | the string key "1" and the integer key 1 are written alike, as `["1"]` |
| LuauWriter.ResultKeysBare | feature_extractor.py:158-166 | the seven keys of the result record are all written bare |
| LuauWriter.IntTextRoundTrip | luau_writer.py:12-13 | an integer is written as a numeral that reads back as the integer |
| LuauWriter.BoolNeverNumeral | luau_writer.py:10-13 | a boolean is written `true` or `false`, never like an integer |
| LuauWriter.ValueBalanced | luau_writer.py:3-22 | on data whose texts hold no braces, the output has as many `{` as `}` |
| LuauWriter.TableBalanced | luau_writer.py:17-22 | a table of brace-free data is balanced |
| LuauWriter.ListBalanced | luau_writer.py:6-7 | a list of brace-free data is balanced |
| LuauWriter.EntryLineBalanced | luau_writer.py:21 | an entry line of brace-free data is balanced |
| LuauWriter.JoinBalanced | luau_writer.py:7 | joining balanced parts with a balanced separator is balanced |
| LuauWriter.SplitLines | luau_writer.py:22 | the line-by-line reading of the text line 22 produces (the writer never splits; this is an independent reading in the manner of `split("\n")`): at least one piece |
| ExtractData.ExportKeyText | extractData.py:42 | no contract; the key as written, or failure for a non-string key, specified by `ExtractData.ExportKeyBareIff` and `ExtractData.NonStringKeyFails` |
| ExtractData.ExportValue | extractData.py:25-37 | no contract; `to_lua_value` of the export script, specified by `ExtractData.ExportAgrees` |
| ExtractData.ExportItems | extractData.py:29 | no contract; the rendered elements, or failure if one fails, specified by `ExtractData.ExportItemsAgree` |
| ExtractData.ExportLine | extractData.py:42-43 | no contract; one line, or failure on a non-string key, specified by `ExtractData.ExportLineAgrees` |
| ExtractData.ExportLines | extractData.py:40-43 | no contract; the `lines` loop, specified by `ExtractData.ExportLinesAgree` |
| ExtractData.ExportTable | extractData.py:39-44 | no contract; `to_lua_table` of the export script, specified by `ExtractData.ExportTableAgrees` |
| ExtractData.ExportAgrees | extractData.py:25-44 | the export copy renders exactly what the Luau writer renders when every key is a string, and fails otherwise |
| ExtractData.ExportItemsAgree | extractData.py:28-29 | lists agree with the Luau writer, under the same condition |
| ExtractData.ExportLinesAgree | extractData.py:40-43 | table lines agree with the Luau writer, under the same condition |
| ExtractData.ExportLineAgrees | extractData.py:42-43 | a single line agrees exactly when its key is a string and its value's keys are strings |
| ExtractData.ExportTableAgrees | extractData.py:39-44 | on string-keyed data, the table is the Luau writer's table: the same frame and the same lines |
| ExtractData.ExportKeyBareIff | extractData.py:42 | a string key is written as in the Luau writer: bare exactly when it is an identifier |
| ExtractData.DottedNameBracketed | extractData.py:42 | a dotted descriptor name such as `lowlevel.x` is bracketed |
| ExtractData.NonStringKeyFails | extractData.py:42 | a non-string key makes the export fail |

## Left out

- Low-pass filter and reflect padding (feature_extractor.py:34-38, 112-120): floating-point signal processing. The padding length reaches the corrector as the parameter `padLen`.
- Every librosa call (`load`, `onset_strength`, `beat_track`, `frames_to_time`, `get_duration`, `piptrack`, `time_to_frames`): black-box analysers. Their outputs are inputs to the model. The beat frames of the notes loop are a `seq<nat>`, since beat times are non-negative.
- The `log2`/`round` step of `freq_to_note` (feature_extractor.py:45): a parameter `midiOf: real -> int`.
- The rounding of beats, tempo and duration in the result record, and the result record as a whole (feature_extractor.py:158-166): float rounding is not modelled. The record's keys appear only in `LuauWriter.ResultKeys`.
- The pipeline `extract_features_to_luau` (feature_extractor.py:106-175) as one function: glue around librosa, with the file write and the debug plot. Its pieces are modelled one by one.
- plot_features.py, file_to_luau.py, roblox-id-to-luau.py and roblox_id_to_luau.py, and the top-level script parts of extractData.py: command-line handling, HTTP, file I/O and plotting.
- Floats: times, waveform samples, envelope values, pitches and magnitudes are exact reals. NaN, infinities and rounding are not modelled.
- `str` on floats (luau_writer.py:12-13): a formatter parameter `floatText`. It is exact only for integers.
- `str.isidentifier`: restricted to ASCII letters, digits and `_`.
- Dictionary keys are a sequence of entries in insertion order. Key uniqueness is not enforced, and no property depends on it.
- `BeatCorrection.AdjustBeatTimes`: it requires that the lookback window starts inside the envelope (`LookbackInRange`); otherwise `np.argmax` of an empty slice raises. That error path is not modelled.
- `PitchAnnotation.AnnotateNotes`: it requires a rectangular grid with at least one frequency bin; `argmax` of an empty column raises. That error path is not modelled.
- Alignment of beats and notes (`len(beats) == len(notes)`) is not a property of the code: out-of-range frames are skipped. `PitchAnnotation.AllInGridAllLabelled` states when it does hold.
