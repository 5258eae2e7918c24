/** The silence gate `filter_silence` of the feature extractor: a beat is
    kept when the waveform is loud somewhere in the short window that
    starts at it, and the final beat is kept whatever the waveform does. */
module SilenceGate {
  import opened Common
  import opened Constants

  /** The waveform and the settings of one gate: `y`, `sr`, `threshold`, `window_sec`. */
  datatype Gate = Gate(y: seq<real>, sr: int, threshold: real, windowSec: real)

  /** Window length in samples, `int(window_sec * sr)`. */
  function WindowSamples(g: Gate): int
  {
    Trunc(g.windowSec * g.sr as real)
  }

  /** First sample of the window of beat `b`, `max(0, int(b * sr))`. */
  function WindowStart(g: Gate, b: real): nat
  {
    Max(0, Trunc(b * g.sr as real))
  }

  /** End (exclusive) of the window of beat `b`, clamped to the waveform. */
  function WindowEnd(g: Gate, b: real): int
  {
    Min(|g.y|, WindowStart(g, b) + WindowSamples(g))
  }

  /** `np.abs` over a sequence. */
  function Magnitudes(s: seq<real>): (a: seq<real>)
    ensures |a| == |s|
    ensures forall k :: 0 <= k < |s| ==> a[k] == Abs(s[k])
  {
    seq(|s|, k requires 0 <= k < |s| => Abs(s[k]))
  }

  /** `np.max(np.abs(s))`: the largest magnitude, reached at some sample. */
  function MaxAbs(s: seq<real>): (m: real)
    requires |s| > 0
    ensures forall k :: 0 <= k < |s| ==> Abs(s[k]) <= m
    ensures exists k :: 0 <= k < |s| && Abs(s[k]) == m
  {
    var a := Magnitudes(s);
    var k := ArgMax(a);
    assert Abs(s[k]) == a[k];
    a[k]
  }

  /** The window of beat `b` is non-empty and its peak magnitude exceeds the threshold. */
  predicate Loud(g: Gate, b: real)
  {
    var start, end := WindowStart(g, b), WindowEnd(g, b);
    end > start && MaxAbs(g.y[start..end]) > g.threshold
  }

  /** The loudness test of the gate as a test on beats: it looks at the beat
      and the waveform only, never at the other beats. */
  function LoudOf(g: Gate): real -> bool
  {
    b => Loud(g, b)
  }

  /** The keep test for the beat at index `i`, for a per-beat test `loud`. */
  predicate KeepAt(loud: real -> bool, beats: seq<real>, i: nat)
    requires i < |beats|
  {
    i == |beats| - 1 || loud(beats[i])
  }

  /** What the gate has kept after looking at the first `n` beats. */
  function Gated(loud: real -> bool, beats: seq<real>, n: nat): seq<real>
    requires n <= |beats|
  {
    if n == 0 then []
    else Gated(loud, beats, n - 1) + (if KeepAt(loud, beats, n - 1) then [beats[n - 1]] else [])
  }

  /** The indices of the beats kept among the first `n`, in increasing order. */
  function KeptIndices(loud: real -> bool, beats: seq<real>, n: nat): seq<nat>
    requires n <= |beats|
  {
    if n == 0 then []
    else KeptIndices(loud, beats, n - 1) + (if KeepAt(loud, beats, n - 1) then [n - 1] else [])
  }

  /** `filter_silence`. */
  method FilterSilence(y: seq<real>, beats: seq<real>, sr: int, threshold: real, windowSec: real)
    returns (filtered: seq<real>)
    ensures filtered == Gated(LoudOf(Gate(y, sr, threshold, windowSec)), beats, |beats|)
    ensures beats == [] ==> filtered == []
    ensures beats != [] ==> filtered != [] && filtered[|filtered| - 1] == beats[|beats| - 1]
    ensures |filtered| <= |beats|
  {
    var g := Gate(y, sr, threshold, windowSec);
    filtered := [];
    for i := 0 to |beats|
      invariant filtered == Gated(LoudOf(g), beats, i)
    {
      var b := beats[i];
      var start, end := WindowStart(g, b), WindowEnd(g, b);
      var isFinal := i == |beats| - 1;
      ghost var keep := KeepAt(LoudOf(g), beats, i);
      assert keep == (isFinal || Loud(g, b));
      if isFinal || (end > start && MaxAbs(y[start..end]) > threshold) {
        filtered := filtered + [b];
      }
      assert Gated(LoudOf(g), beats, i + 1) == Gated(LoudOf(g), beats, i) + (if keep then [b] else []);
    }
    GatedLength(LoudOf(g), beats, |beats|);
    if beats != [] {
      FinalBeatKept(LoudOf(g), beats);
    }
  }

  /** The kept indices among the first `n` beats are below `n`. */
  lemma {:induction false} KeptIndicesBelow(loud: real -> bool, beats: seq<real>, n: nat)
    requires n <= |beats|
    ensures forall j :: 0 <= j < |KeptIndices(loud, beats, n)| ==> KeptIndices(loud, beats, n)[j] < n
  {
    if n > 0 {
      KeptIndicesBelow(loud, beats, n - 1);
    }
  }

  /** The kept indices are exactly those below `n` whose keep test holds. */
  lemma {:induction false} KeptIndicesExact(loud: real -> bool, beats: seq<real>, n: nat)
    requires n <= |beats|
    ensures forall i: nat :: i in KeptIndices(loud, beats, n) <==> i < n && KeepAt(loud, beats, i)
  {
    if n > 0 {
      KeptIndicesExact(loud, beats, n - 1);
      KeptIndicesBelow(loud, beats, n - 1);
      var idx := KeptIndices(loud, beats, n - 1);
      assert KeptIndices(loud, beats, n) == idx + (if KeepAt(loud, beats, n - 1) then [n - 1] else []);
    }
  }

  /** The gate keeps an order-preserving subsequence of the beats, at the kept indices. */
  lemma {:induction false} GatedSubsequence(loud: real -> bool, beats: seq<real>, n: nat)
    requires n <= |beats|
    ensures SubsequenceAt(Gated(loud, beats, n), beats, KeptIndices(loud, beats, n))
  {
    if n > 0 {
      GatedSubsequence(loud, beats, n - 1);
      KeptIndicesBelow(loud, beats, n - 1);
    }
  }

  /** The gate never adds beats. */
  lemma {:induction false} GatedLength(loud: real -> bool, beats: seq<real>, n: nat)
    requires n <= |beats|
    ensures |Gated(loud, beats, n)| <= n
  {
    if n > 0 {
      GatedLength(loud, beats, n - 1);
    }
  }

  /** "Always keeps the final beat": it is the last beat the gate returns. */
  lemma FinalBeatKept(loud: real -> bool, beats: seq<real>)
    requires beats != []
    ensures var r := Gated(loud, beats, |beats|);
            r != [] && r[|r| - 1] == beats[|beats| - 1]
  {
  }

  /** The peak test in elementwise form: some sample of the window exceeds the threshold in magnitude. */
  lemma LoudIff(g: Gate, b: real)
    ensures Loud(g, b) <==>
            exists k :: WindowStart(g, b) <= k < WindowEnd(g, b) && Abs(g.y[k]) > g.threshold
  {
    var start, end := WindowStart(g, b), WindowEnd(g, b);
    if end > start {
      var w := g.y[start..end];
      var m := MaxAbs(w);
      if m > g.threshold {
        var k :| 0 <= k < |w| && Abs(w[k]) == m;
        assert g.y[start + k] == w[k];
      }
      forall k | start <= k < end ensures Abs(g.y[k]) <= m {
        assert g.y[k] == w[k - start];
      }
    }
  }

  /** Beat `i` survives exactly when it is the final beat or its window holds
      a sample louder than the threshold. */
  lemma KeptIff(g: Gate, beats: seq<real>, i: nat)
    requires i < |beats|
    ensures i in KeptIndices(LoudOf(g), beats, |beats|) <==>
            i == |beats| - 1
            || exists k :: WindowStart(g, beats[i]) <= k < WindowEnd(g, beats[i]) && Abs(g.y[k]) > g.threshold
  {
    KeptIndicesExact(LoudOf(g), beats, |beats|);
    LoudIff(g, beats[i]);
  }

  /** Every returned beat but the last passed the per-beat test on its own. */
  lemma GatedLoudButLast(loud: real -> bool, beats: seq<real>)
    ensures forall j :: 0 <= j < |Gated(loud, beats, |beats|)| - 1 ==> loud(Gated(loud, beats, |beats|)[j])
  {
    var r := Gated(loud, beats, |beats|);
    var idx := KeptIndices(loud, beats, |beats|);
    GatedSubsequence(loud, beats, |beats|);
    KeptIndicesBelow(loud, beats, |beats|);
    KeptIndicesExact(loud, beats, |beats|);
    forall j | 0 <= j < |r| - 1 ensures loud(r[j]) {
      assert idx[j] < idx[|r| - 1] && idx[j] in idx;
    }
  }

  /** On beats that all pass the test except possibly the last, the gate keeps everything. */
  lemma {:induction false} GatedKeepsLoud(loud: real -> bool, s: seq<real>, n: nat)
    requires n <= |s|
    requires forall j :: 0 <= j < |s| - 1 ==> loud(s[j])
    ensures Gated(loud, s, n) == s[..n]
  {
    if n > 0 {
      GatedKeepsLoud(loud, s, n - 1);
      assert s[..n - 1] + [s[n - 1]] == s[..n];
    }
  }

  /** Because the keep test looks at one beat only, gating the gate's output
      again with the same test changes nothing. */
  lemma GatedIdempotent(loud: real -> bool, beats: seq<real>)
    ensures var r := Gated(loud, beats, |beats|);
            Gated(loud, r, |r|) == r
  {
    var r := Gated(loud, beats, |beats|);
    GatedLoudButLast(loud, beats);
    assert forall j :: 0 <= j < |r| - 1 ==> loud(r[j]);
    GatedKeepsLoud(loud, r, |r|);
    assert r[..|r|] == r;
  }

  /** `filter_silence` applied to its own output, with the same waveform and
      settings, returns that output. */
  lemma FilterSilenceIdempotent(g: Gate, beats: seq<real>)
    ensures var r := Gated(LoudOf(g), beats, |beats|);
            Gated(LoudOf(g), r, |r|) == r
  {
    GatedIdempotent(LoudOf(g), beats);
  }

  /** Strictly increasing beats stay strictly increasing. */
  lemma GatedIncreasing(loud: real -> bool, beats: seq<real>)
    requires StrictlyIncreasing(beats)
    ensures StrictlyIncreasing(Gated(loud, beats, |beats|))
  {
    GatedSubsequence(loud, beats, |beats|);
  }

  /** The extractor's own gate: a window of `int(0.05 * 44100)` = 2205 samples. */
  lemma DefaultWindowSamples(y: seq<real>)
    ensures WindowSamples(Gate(y, SampleRate, SilenceThreshold, SilenceWindowSec)) == 2205
  {
    assert SilenceWindowSec * SampleRate as real == 2205.0;
  }

  /** With the extractor's settings, beat `i` survives exactly when it is the
      final beat or a sample among the 2205 from its own (clamped to the
      waveform) is louder than 0.01 in magnitude. */
  lemma KeptAtDefaults(y: seq<real>, beats: seq<real>, i: nat)
    requires i < |beats|
    ensures var g := Gate(y, SampleRate, SilenceThreshold, SilenceWindowSec);
            var start := WindowStart(g, beats[i]);
            i in KeptIndices(LoudOf(g), beats, |beats|) <==>
            i == |beats| - 1 || exists k :: start <= k < Min(|y|, start + 2205) && Abs(y[k]) > 0.01
  {
    var g := Gate(y, SampleRate, SilenceThreshold, SilenceWindowSec);
    DefaultWindowSamples(y);
    KeptIff(g, beats, i);
  }
}
