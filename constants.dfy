/** The tuning constants of the feature extractor, defined once. */
module Constants {
  /** Audio sample rate in Hz. */
  const SampleRate: int := 44100
  /** Samples between successive analysis frames. */
  const HopLength: int := 512
  /** Seconds of reflect padding added at each end before onset analysis. */
  const PaddingSec: real := 0.5

  /** Peak amplitude at or below which a beat's window counts as silent. */
  const SilenceThreshold: real := 0.01
  /** Length in seconds of the window that follows each beat. */
  const SilenceWindowSec: real := 0.05

  /** How much stronger than the mean onset strength a leading onset must be. */
  const OnsetPeakRatio: real := 1.5
  /** Fraction of a beat interval by which the extrapolated beat may overshoot. */
  const ExtrapolationMargin: real := 0.25
  /** Frames searched before the first beat's frame for a missed onset. */
  const FirstBeatLookbackFrames: int := 3
  /** Minimum distance in seconds between a recovered beat and the first beat. */
  const FirstBeatDuplicateGap: real := 0.2
}
