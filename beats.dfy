/** The beat-time corrector: `adjust_beat_times` of the feature extractor.
    Beat times come from a tracker that ran on the padded signal; the
    corrector removes the padding offset, may recover one leading beat from
    the onset-strength envelope, extrapolates one trailing beat and clips
    at the track duration. */
module BeatCorrection {
  import opened Common
  import opened Constants

  /** Seconds of padding at the start of the analysed signal. */
  function PadOffset(padLen: nat, sr: int): real
    requires sr > 0
  {
    padLen as real / sr as real
  }

  /** The extractor pads by `int(sr * PADDING_SEC)` = 22050 samples at
      44100 Hz, so de-padding removes exactly `PADDING_SEC` seconds. */
  lemma DefaultPadOffset()
    ensures Trunc(SampleRate as real * PaddingSec) == 22050
    ensures PadOffset(22050, SampleRate) == PaddingSec
  {
    assert SampleRate as real * PaddingSec == 22050.0;
  }

  function Shifted(s: seq<real>, d: real): (r: seq<real>)
    ensures |r| == |s|
    ensures forall i :: 0 <= i < |s| ==> r[i] == s[i] - d
  {
    seq(|s|, i requires 0 <= i < |s| => s[i] - d)
  }

  /** The clipping test `beat_times <= duration`, as one named term. */
  function AtMost(bound: real): real -> bool
  {
    x => x <= bound
  }

  /** The test `beat_times >= 0`. */
  function NonNegative(): real -> bool
  {
    x => x >= 0.0
  }

  /** Removes the padding offset and drops the times that became negative. */
  function Depad(beats: seq<real>, padLen: nat, sr: int): (r: seq<real>)
    requires sr > 0
    ensures |r| <= |beats|
    ensures forall x :: x in r <==> 0.0 <= x && x + PadOffset(padLen, sr) in beats
  {
    var off := PadOffset(padLen, sr);
    var shifted := Shifted(beats, off);
    assert forall x :: x in shifted <==> x + off in beats by {
      forall x | x + off in beats ensures x in shifted {
        var i :| 0 <= i < |beats| && beats[i] == x + off;
        assert shifted[i] == x;
      }
    }
    Filter(shifted, NonNegative())
  }

  lemma DepadIncreasing(beats: seq<real>, padLen: nat, sr: int)
    requires sr > 0 && StrictlyIncreasing(beats)
    ensures StrictlyIncreasing(Depad(beats, padLen, sr))
  {
    var shifted := Shifted(beats, PadOffset(padLen, sr));
    assert StrictlyIncreasing(shifted);
    FilterIncreasing(shifted, NonNegative());
  }

  /** The analysis frame of a time, as `int(t * sr / hop_length)`. */
  function FirstFrame(first: real, sr: int, hop: int): int
    requires sr > 0 && hop > 0
  {
    Trunc(first * sr as real / hop as real)
  }

  /** First frame of the lookback window. */
  function SearchStart(first: real, sr: int, hop: int): nat
    requires sr > 0 && hop > 0
  {
    Max(0, FirstFrame(first, sr, hop) - FirstBeatLookbackFrames)
  }

  /** End (exclusive) of the lookback window: one past the first beat's own
      frame, clamped to the envelope as a numpy slice is. */
  function SearchEnd(first: real, sr: int, hop: int, n: nat): int
    requires sr > 0 && hop > 0
  {
    Min(FirstFrame(first, sr, hop) + 1, n)
  }

  /** Start time of frame `k` of the envelope. */
  function FrameTime(k: nat, sr: int, hop: int): (t: real)
    requires sr > 0 && hop > 0
    ensures 0.0 <= t
  {
    k as real * hop as real / sr as real
  }

  /** `k` is a frame of the lookback window where the envelope is maximal. */
  predicate IsLookbackPeak(first: real, sr: int, hop: int, env: seq<real>, k: int)
    requires sr > 0 && hop > 0
  {
    var start, end := SearchStart(first, sr, hop), SearchEnd(first, sr, hop, |env|);
    && start <= k < end
    && forall j :: start <= j < end ==> env[j] <= env[k]
  }

  /** The frame `np.argmax` picks in the lookback window: the earliest peak. */
  function PeakFrame(first: real, sr: int, hop: int, env: seq<real>): (k: nat)
    requires sr > 0 && hop > 0 && 0.0 <= first
    requires SearchStart(first, sr, hop) < |env|
    ensures IsLookbackPeak(first, sr, hop, env, k)
    ensures k <= FirstFrame(first, sr, hop)
    ensures forall j :: SearchStart(first, sr, hop) <= j < k ==> env[j] < env[k]
  {
    var start := SearchStart(first, sr, hop);
    var window := env[start..SearchEnd(first, sr, hop, |env|)];
    var p := ArgMax(window);
    assert forall j :: start <= j < SearchEnd(first, sr, hop, |env|) ==> env[j] == window[j - start];
    start + p
  }

  lemma FrameTimeMonotone(k: nat, l: nat, sr: int, hop: int)
    requires sr > 0 && hop > 0 && k <= l
    ensures FrameTime(k, sr, hop) <= FrameTime(l, sr, hop)
  {
    assert k as real * hop as real <= l as real * hop as real;
  }

  /** Among equal peaks the earliest has the earliest time, so if the
      earliest peak is weak or too close to the first beat, so is every peak. */
  lemma EarliestPeakDecides(first: real, sr: int, hop: int, env: seq<real>, threshold: real, k: int)
    requires sr > 0 && hop > 0 && 0.0 <= first
    requires SearchStart(first, sr, hop) < |env|
    requires IsLookbackPeak(first, sr, hop, env, k)
    requires var p := PeakFrame(first, sr, hop, env);
             env[p] <= threshold || FrameTime(p, sr, hop) >= first - FirstBeatDuplicateGap
    ensures env[k] <= threshold || FrameTime(k, sr, hop) >= first - FirstBeatDuplicateGap
  {
    var p := PeakFrame(first, sr, hop, env);
    assert env[k] == env[p];
    if k > p { FrameTimeMonotone(p, k, sr, hop); }
  }

  /** The leading beat recovered from the onset envelope, if any: the time of
      the lookback peak, when that peak is strong enough and lies more than
      the duplicate gap before the first beat. */
  function LeadingBeat(first: real, sr: int, hop: int, env: seq<real>): (r: Option<real>)
    requires sr > 0 && hop > 0 && 0.0 <= first
    requires SearchStart(first, sr, hop) < |env|
    ensures r.Some? ==> 0.0 <= r.value < first - FirstBeatDuplicateGap
  {
    var p := PeakFrame(first, sr, hop, env);
    var t := FrameTime(p, sr, hop);
    if env[p] > Mean(env) * OnsetPeakRatio && t < first - FirstBeatDuplicateGap then Some(t) else None
  }

  /** A recovered beat is the time of the earliest lookback-window peak (the
      one `np.argmax` picks), and that peak is stronger than the ratio times
      the mean onset strength. */
  lemma LeadingBeatIsStrongPeak(first: real, sr: int, hop: int, env: seq<real>)
    requires sr > 0 && hop > 0 && 0.0 <= first
    requires SearchStart(first, sr, hop) < |env|
    ensures var r := LeadingBeat(first, sr, hop, env);
            r.Some? ==> exists k :: IsLookbackPeak(first, sr, hop, env, k)
                                    && (forall j :: SearchStart(first, sr, hop) <= j < k ==> env[j] < env[k])
                                    && r.value == FrameTime(k, sr, hop)
                                    && env[k] > Mean(env) * OnsetPeakRatio
  {
    var p := PeakFrame(first, sr, hop, env);
    assert IsLookbackPeak(first, sr, hop, env, p);
  }

  /** No beat is recovered only when no peak of the window is both strong
      enough and far enough before the first beat. */
  lemma LeadingBeatNoneIff(first: real, sr: int, hop: int, env: seq<real>)
    requires sr > 0 && hop > 0 && 0.0 <= first
    requires SearchStart(first, sr, hop) < |env|
    ensures LeadingBeat(first, sr, hop, env).None? <==>
            forall k :: IsLookbackPeak(first, sr, hop, env, k) ==>
              env[k] <= Mean(env) * OnsetPeakRatio
              || FrameTime(k, sr, hop) >= first - FirstBeatDuplicateGap
  {
    var p := PeakFrame(first, sr, hop, env);
    var threshold := Mean(env) * OnsetPeakRatio;
    if LeadingBeat(first, sr, hop, env).None? {
      forall k | IsLookbackPeak(first, sr, hop, env, k)
        ensures env[k] <= threshold || FrameTime(k, sr, hop) >= first - FirstBeatDuplicateGap
      {
        EarliestPeakDecides(first, sr, hop, env, threshold, k);
      }
    } else {
      assert IsLookbackPeak(first, sr, hop, env, p);
    }
  }

  /** The first beat's frame in multiplied-out form: `ff * hop <= first * sr < (ff + 1) * hop`. */
  lemma FirstFrameBounds(first: real, sr: int, hop: int)
    requires sr > 0 && hop > 0 && 0.0 <= first
    ensures var ff := FirstFrame(first, sr, hop);
            0 <= ff && ff as real * hop as real <= first * sr as real < ff as real * hop as real + hop as real
  {
    var y := first * sr as real;
    assert 0.0 <= y;
    var x := y / hop as real;
    TruncBounds(x);
    ScaleBounds(y, Trunc(x) as real, hop as real);
  }

  lemma ScaleBounds(y: real, n: real, b: real)
    requires 0.0 < b && n <= y / b < n + 1.0
    ensures n * b <= y < n * b + b
  {
    ScaleLower(y, n, b);
    ScaleUpper(y, n, b);
  }

  lemma ScaleLower(y: real, n: real, b: real)
    requires 0.0 < b && n <= y / b
    ensures n * b <= y
  {
    var q := y / b;
    assert q * b == y;
    MulMonotone(n, q, b);
  }

  lemma ScaleUpper(y: real, n: real, b: real)
    requires 0.0 < b && y / b < n + 1.0
    ensures y < n * b + b
  {
    var q := y / b;
    assert q * b == y;
    var m := n + 1.0;
    MulStrictMonotone(q, m, b);
    assert m * b == n * b + b;
  }

  lemma FrameTimeScaled(k: nat, sr: int, hop: int)
    requires sr > 0 && hop > 0
    ensures FrameTime(k, sr, hop) * sr as real == k as real * hop as real
  {
  }

  /** The arithmetic core of `LeadingBeatUnreachable`, over plain reals:
      a frame `p` at most three before the frame `ff` of `first` has a time
      `t` within `gap` of `first` once four frames fit in the gap. */
  lemma LookbackWithinGap(p: real, ff: real, first: real, t: real, a: real, b: real, gap: real)
    requires 0.0 < a && 0.0 < b
    requires ff - 3.0 <= p && first * a < ff * b + b
    requires 4.0 * b <= gap * a && t * a == p * b
    ensures first - gap <= t
  {
    MulMonotone(ff - 3.0, p, b);
    if t < first - gap {
      MulStrictMonotone(t, first - gap, a);
    }
  }

  /** Whenever the whole lookback window (lookback frames plus the first
      beat's own) spans no more than the duplicate gap, no leading beat can
      ever be inserted: every candidate lies within the gap of the first beat. */
  lemma LeadingBeatUnreachable(first: real, sr: int, hop: int, env: seq<real>)
    requires sr > 0 && hop > 0 && 0.0 <= first
    requires SearchStart(first, sr, hop) < |env|
    requires (FirstBeatLookbackFrames + 1) as real * hop as real <= FirstBeatDuplicateGap * sr as real
    ensures LeadingBeat(first, sr, hop, env) == None
  {
    PeakWithinGap(first, sr, hop, env);
  }

  lemma PeakWithinGap(first: real, sr: int, hop: int, env: seq<real>)
    requires sr > 0 && hop > 0 && 0.0 <= first
    requires SearchStart(first, sr, hop) < |env|
    requires (FirstBeatLookbackFrames + 1) as real * hop as real <= FirstBeatDuplicateGap * sr as real
    ensures first - FirstBeatDuplicateGap <= FrameTime(PeakFrame(first, sr, hop, env), sr, hop)
  {
    LookbackFrameWithinGap(first, sr, hop, PeakFrame(first, sr, hop, env));
  }

  /** Every frame from the lookback start on begins within the gap before
      the first beat, once the whole window fits in the gap. */
  lemma LookbackFrameWithinGap(first: real, sr: int, hop: int, k: nat)
    requires sr > 0 && hop > 0 && 0.0 <= first
    requires FirstFrame(first, sr, hop) - FirstBeatLookbackFrames <= k
    requires (FirstBeatLookbackFrames + 1) as real * hop as real <= FirstBeatDuplicateGap * sr as real
    ensures first - FirstBeatDuplicateGap <= FrameTime(k, sr, hop)
  {
    var ff := FirstFrame(first, sr, hop);
    FirstFrameBounds(first, sr, hop);
    FrameTimeScaled(k, sr, hop);
    var t := FrameTime(k, sr, hop);
    LookbackWithinGap(k as real, ff as real, first, t, sr as real, hop as real, FirstBeatDuplicateGap);
  }

  lemma MulMonotone(u: real, v: real, a: real)
    requires u <= v && 0.0 < a
    ensures u * a <= v * a
  {
  }

  lemma MulStrictMonotone(u: real, v: real, a: real)
    requires u < v && 0.0 < a
    ensures u * a < v * a
  {
  }

  /** With the extractor's sample rate and hop length the lookback window is
      about 0.046 s wide, so the leading-beat recovery never fires. */
  lemma LeadingBeatNeverAtDefaultRates(first: real, env: seq<real>)
    requires 0.0 <= first
    requires SearchStart(first, SampleRate, HopLength) < |env|
    ensures LeadingBeat(first, SampleRate, HopLength, env) == None
  {
    LeadingBeatUnreachable(first, SampleRate, HopLength, env);
  }

  /** No beats survived de-padding, or the tempo is unknown. */
  predicate Degenerate(d: seq<real>, tempo: real)
  {
    |d| < 1 || tempo <= 0.0
  }

  /** The beat recovered before `d[0]` (none without an envelope). */
  function RecoveredBeat(d: seq<real>, sr: int, hop: int, onsetEnv: Option<seq<real>>): Option<real>
    requires sr > 0 && hop > 0 && |d| > 0 && 0.0 <= d[0]
    requires onsetEnv.Some? ==> SearchStart(d[0], sr, hop) < |onsetEnv.value|
  {
    if onsetEnv.None? then None else LeadingBeat(d[0], sr, hop, onsetEnv.value)
  }

  function WithLeadingBeat(d: seq<real>, sr: int, hop: int, onsetEnv: Option<seq<real>>): (w: seq<real>)
    requires sr > 0 && hop > 0 && |d| > 0 && 0.0 <= d[0]
    requires onsetEnv.Some? ==> SearchStart(d[0], sr, hop) < |onsetEnv.value|
    ensures |w| > 0 && w[|w| - 1] == d[|d| - 1]
    ensures forall x :: x in w <==> x in d || RecoveredBeat(d, sr, hop, onsetEnv) == Some(x)
    ensures StrictlyIncreasing(d) ==> StrictlyIncreasing(w)
  {
    match RecoveredBeat(d, sr, hop, onsetEnv)
    case None => d
    case Some(t) =>
      assert t < d[0];
      assert StrictlyIncreasing(d) ==> forall i :: 0 <= i < |d| ==> d[0] <= d[i];
      [t] + d
  }

  /** Appends `last + interval` when it lies within the margin past `duration`. */
  function Extrapolated(s: seq<real>, interval: real, duration: real): (r: seq<real>)
    requires |s| > 0 && interval > 0.0
    ensures var next := s[|s| - 1] + interval;
            forall x :: x in r <==> x in s || (x == next && next <= duration + ExtrapolationMargin * interval)
    ensures |r| <= |s| + 1
    ensures StrictlyIncreasing(s) ==> StrictlyIncreasing(r)
  {
    var next := s[|s| - 1] + interval;
    if next <= duration + ExtrapolationMargin * interval then
      assert StrictlyIncreasing(s) ==> forall i :: 0 <= i < |s| ==> s[i] <= s[|s| - 1];
      s + [next]
    else s
  }

  /** What the corrector needs of its envelope: the lookback window must start
      inside it (otherwise `np.argmax` is given an empty slice). */
  predicate LookbackInRange(beats: seq<real>, tempo: real, padLen: nat, sr: int,
                            onsetEnv: Option<seq<real>>, hop: int)
    requires sr > 0 && hop > 0
  {
    var d := Depad(beats, padLen, sr);
    onsetEnv.Some? && !Degenerate(d, tempo) ==> SearchStart(d[0], sr, hop) < |onsetEnv.value|
  }

  /** The non-degenerate branch of the corrector: recover a leading beat,
      extrapolate a trailing one, clip at the duration. */
  function Corrected(d: seq<real>, tempo: real, duration: real, sr: int, hop: int,
                     onsetEnv: Option<seq<real>>): (r: seq<real>)
    requires sr > 0 && hop > 0 && |d| > 0 && 0.0 <= d[0] && 0.0 < tempo
    requires onsetEnv.Some? ==> SearchStart(d[0], sr, hop) < |onsetEnv.value|
    ensures forall x :: x in r ==> x <= duration
  {
    var w := WithLeadingBeat(d, sr, hop, onsetEnv);
    Filter(Extrapolated(w, 60.0 / tempo, duration), AtMost(duration))
  }

  /** `adjust_beat_times`. */
  function AdjustBeatTimes(beats: seq<real>, tempo: real, duration: real, padLen: nat, sr: int,
                           onsetEnv: Option<seq<real>>, hop: int): (r: seq<real>)
    requires sr > 0 && hop > 0
    requires LookbackInRange(beats, tempo, padLen, sr, onsetEnv, hop)
    ensures forall x :: x in r ==> 0.0 <= x
    ensures Degenerate(Depad(beats, padLen, sr), tempo) ==> r == Depad(beats, padLen, sr)
    ensures !Degenerate(Depad(beats, padLen, sr), tempo) ==> forall x :: x in r ==> x <= duration
  {
    var d := Depad(beats, padLen, sr);
    if Degenerate(d, tempo) then d
    else
      assert d[0] in d;
      var r := Corrected(d, tempo, duration, sr, hop, onsetEnv);
      CorrectedNonNegative(d, tempo, duration, sr, hop, onsetEnv);
      r
  }

  /** The trailing beat the corrector may add. */
  function NextBeat(d: seq<real>, tempo: real): real
    requires |d| > 0 && tempo != 0.0
  {
    d[|d| - 1] + 60.0 / tempo
  }

  /** The corrected beats are exactly the de-padded beats, the recovered
      leading beat and the extrapolated beat that do not exceed the duration. */
  lemma CorrectedMembership(d: seq<real>, tempo: real, duration: real, sr: int, hop: int,
                            onsetEnv: Option<seq<real>>)
    requires sr > 0 && hop > 0 && |d| > 0 && 0.0 <= d[0] && 0.0 < tempo
    requires onsetEnv.Some? ==> SearchStart(d[0], sr, hop) < |onsetEnv.value|
    ensures var lead := RecoveredBeat(d, sr, hop, onsetEnv);
            forall x :: x in Corrected(d, tempo, duration, sr, hop, onsetEnv) <==>
              x <= duration && (x in d || lead == Some(x) || x == NextBeat(d, tempo))
  {
    var w := WithLeadingBeat(d, sr, hop, onsetEnv);
    var interval := 60.0 / tempo;
    assert 0.0 < interval;
    var next := NextBeat(d, tempo);
    assert w[|w| - 1] == d[|d| - 1];
    var e := Extrapolated(w, interval, duration);
    assert forall x :: x in e <==> x in w || (x == next && next <= duration + ExtrapolationMargin * interval);
    assert next <= duration ==> next <= duration + ExtrapolationMargin * interval;
  }

  lemma CorrectedNonNegative(d: seq<real>, tempo: real, duration: real, sr: int, hop: int,
                             onsetEnv: Option<seq<real>>)
    requires sr > 0 && hop > 0 && |d| > 0 && 0.0 <= d[0] && 0.0 < tempo
    requires onsetEnv.Some? ==> SearchStart(d[0], sr, hop) < |onsetEnv.value|
    requires forall x :: x in d ==> 0.0 <= x
    ensures forall x :: x in Corrected(d, tempo, duration, sr, hop, onsetEnv) ==> 0.0 <= x
  {
    CorrectedMembership(d, tempo, duration, sr, hop, onsetEnv);
    assert d[|d| - 1] in d;
    assert 0.0 < 60.0 / tempo;
  }

  /** Outside the degenerate case, the corrected beats are exactly the
      de-padded beats, the recovered leading beat and the extrapolated beat
      that do not exceed the duration. */
  lemma AdjustMembership(beats: seq<real>, tempo: real, duration: real, padLen: nat, sr: int,
                         onsetEnv: Option<seq<real>>, hop: int)
    requires sr > 0 && hop > 0
    requires LookbackInRange(beats, tempo, padLen, sr, onsetEnv, hop)
    requires !Degenerate(Depad(beats, padLen, sr), tempo)
    ensures var d := Depad(beats, padLen, sr);
            assert d[0] in d;
            var lead := RecoveredBeat(d, sr, hop, onsetEnv);
            var r := AdjustBeatTimes(beats, tempo, duration, padLen, sr, onsetEnv, hop);
            forall x :: x in r <==> x <= duration && (x in d || lead == Some(x) || x == NextBeat(d, tempo))
  {
    var d := Depad(beats, padLen, sr);
    assert d[0] in d;
    CorrectedMembership(d, tempo, duration, sr, hop, onsetEnv);
  }

  /** The extrapolated beat is appended whenever it is within the margin, but
      it survives only if it does not exceed the duration. */
  lemma TrailingBeatKeptIff(beats: seq<real>, tempo: real, duration: real, padLen: nat, sr: int,
                            onsetEnv: Option<seq<real>>, hop: int)
    requires sr > 0 && hop > 0
    requires LookbackInRange(beats, tempo, padLen, sr, onsetEnv, hop)
    requires !Degenerate(Depad(beats, padLen, sr), tempo)
    ensures var d := Depad(beats, padLen, sr);
            NextBeat(d, tempo) in AdjustBeatTimes(beats, tempo, duration, padLen, sr, onsetEnv, hop)
            <==> NextBeat(d, tempo) <= duration
  {
    AdjustMembership(beats, tempo, duration, padLen, sr, onsetEnv, hop);
  }

  /** The corrector adds at most one beat at each end. */
  lemma AdjustLength(beats: seq<real>, tempo: real, duration: real, padLen: nat, sr: int,
                     onsetEnv: Option<seq<real>>, hop: int)
    requires sr > 0 && hop > 0
    requires LookbackInRange(beats, tempo, padLen, sr, onsetEnv, hop)
    ensures |AdjustBeatTimes(beats, tempo, duration, padLen, sr, onsetEnv, hop)|
            <= |Depad(beats, padLen, sr)| + 2
  {
  }

  /** Strictly increasing tracker output gives strictly increasing corrected
      beats: the recovered beat lies before the first beat and the
      extrapolated one after the last. */
  lemma AdjustIncreasing(beats: seq<real>, tempo: real, duration: real, padLen: nat, sr: int,
                         onsetEnv: Option<seq<real>>, hop: int)
    requires sr > 0 && hop > 0
    requires LookbackInRange(beats, tempo, padLen, sr, onsetEnv, hop)
    requires StrictlyIncreasing(beats)
    ensures StrictlyIncreasing(AdjustBeatTimes(beats, tempo, duration, padLen, sr, onsetEnv, hop))
  {
    var d := Depad(beats, padLen, sr);
    DepadIncreasing(beats, padLen, sr);
    if !Degenerate(d, tempo) {
      assert d[0] in d;
      CorrectionStagesIncreasing(d, tempo, duration, sr, hop, onsetEnv);
    }
  }

  lemma CorrectionStagesIncreasing(d: seq<real>, tempo: real, duration: real, sr: int, hop: int,
                                   onsetEnv: Option<seq<real>>)
    requires sr > 0 && hop > 0 && |d| > 0 && 0.0 <= d[0] && 0.0 < tempo
    requires onsetEnv.Some? ==> SearchStart(d[0], sr, hop) < |onsetEnv.value|
    requires StrictlyIncreasing(d)
    ensures StrictlyIncreasing(Corrected(d, tempo, duration, sr, hop, onsetEnv))
  {
    var w := WithLeadingBeat(d, sr, hop, onsetEnv);
    var interval := 60.0 / tempo;
    assert 0.0 < interval;
    var e := Extrapolated(w, interval, duration);
    FilterIncreasing(e, AtMost(duration));
  }

  /** At the extractor's sample rate and hop length the onset envelope has no
      influence on the corrected beats. */
  lemma EnvelopeIrrelevantAtDefaultRates(beats: seq<real>, tempo: real, duration: real, padLen: nat,
                                         env: seq<real>)
    requires LookbackInRange(beats, tempo, padLen, SampleRate, Some(env), HopLength)
    ensures AdjustBeatTimes(beats, tempo, duration, padLen, SampleRate, Some(env), HopLength)
         == AdjustBeatTimes(beats, tempo, duration, padLen, SampleRate, None, HopLength)
  {
    var d := Depad(beats, padLen, SampleRate);
    if !Degenerate(d, tempo) {
      assert d[0] in d;
      LeadingBeatNeverAtDefaultRates(d[0], env);
    }
  }

  /** The degenerate path returns the de-padded beats without clipping: with
      a zero tempo a beat after the end of the track is kept. */
  lemma DegenerateNotClipped()
    ensures AdjustBeatTimes([3.0], 0.0, 2.0, 0, SampleRate, None, HopLength) == [3.0]
  {
    var d := Depad([3.0], 0, SampleRate);
    assert 3.0 in d;
    assert |d| <= 1;
    assert d == [3.0];
  }

  /** Beats [1.0, 1.5, 2.0] at 120 BPM over 2.2 s: 2.5 is past the margin and
      is not appended. */
  lemma NoExtrapolationPastMargin()
    ensures AdjustBeatTimes([1.0, 1.5, 2.0], 120.0, 2.2, 0, SampleRate, None, HopLength) == [1.0, 1.5, 2.0]
  {
    ThreeBeatsUnchanged(2.2);
  }

  /** The same beats over 2.45 s: 2.5 is appended within the margin and then
      clipped again, so the beats are unchanged. */
  lemma AppendThenClip()
    ensures Extrapolated([1.0, 1.5, 2.0], 0.5, 2.45) == [1.0, 1.5, 2.0, 2.5]
    ensures AdjustBeatTimes([1.0, 1.5, 2.0], 120.0, 2.45, 0, SampleRate, None, HopLength) == [1.0, 1.5, 2.0]
  {
    ThreeBeatsUnchanged(2.45);
  }

  /** Over any duration from the last beat up to (not including) 2.5 s, the
      beats [1.0, 1.5, 2.0] at 120 BPM come back unchanged. */
  lemma ThreeBeatsUnchanged(duration: real)
    requires 2.0 <= duration < 2.5
    ensures AdjustBeatTimes([1.0, 1.5, 2.0], 120.0, duration, 0, SampleRate, None, HopLength) == [1.0, 1.5, 2.0]
  {
    var b := [1.0, 1.5, 2.0];
    assert forall i :: 0 <= i < |b| ==> b[i] <= duration;
    ExtrapolatedThenClipped(b, 0.5, duration);
    ThreeBeatsCorrected(duration);
  }

  /** When every beat is within the duration and the next one is past it,
      extrapolating and clipping leaves the beats as they were, whether or
      not the next beat was appended. */
  lemma ExtrapolatedThenClipped(s: seq<real>, interval: real, duration: real)
    requires |s| > 0 && interval > 0.0
    requires forall i :: 0 <= i < |s| ==> s[i] <= duration
    requires s[|s| - 1] + interval > duration
    ensures Filter(Extrapolated(s, interval, duration), AtMost(duration)) == s
  {
    var next := s[|s| - 1] + interval;
    FilterKeepsAll(s, AtMost(duration));
    if next <= duration + ExtrapolationMargin * interval {
      FilterAppend(s, next, AtMost(duration));
    }
  }

  /** The beats [1.0, 1.5, 2.0] at 120 BPM, unpadded and without an envelope,
      go straight to extrapolation with an interval of 0.5 s. */
  lemma ThreeBeatsCorrected(duration: real)
    ensures AdjustBeatTimes([1.0, 1.5, 2.0], 120.0, duration, 0, SampleRate, None, HopLength)
         == Filter(Extrapolated([1.0, 1.5, 2.0], 0.5, duration), AtMost(duration))
  {
    var b := [1.0, 1.5, 2.0];
    DepadUnpadded(b);
    assert !Degenerate(b, 120.0);
    assert WithLeadingBeat(b, SampleRate, HopLength, None) == b;
    assert 60.0 / 120.0 == 0.5;
  }

  /** Without padding, non-negative beats pass de-padding unchanged. */
  lemma DepadUnpadded(beats: seq<real>)
    requires forall i :: 0 <= i < |beats| ==> 0.0 <= beats[i]
    ensures Depad(beats, 0, SampleRate) == beats
  {
    var shifted := Shifted(beats, PadOffset(0, SampleRate));
    assert shifted == beats;
    FilterKeepsAll(beats, NonNegative());
  }
}
