/** The numeric audio settings of config.py and the detector parameters
    derived from them. */
module AudioConfig {

  /** Capture rate of the input stream, in samples per second. */
  const SampleRate: nat := 16000

  /** Samples per block read from the stream: int(SAMPLE_RATE * 0.1), which
      is exactly 1600 in IEEE double arithmetic. */
  const RecordingBlockSize: nat := SampleRate / 10

  /** RMS energy a block must exceed to count as speech. */
  const SpeakingThreshold: real := 0.005

  /** Seconds since the last loud block after which an utterance ends. */
  const SilenceTimeoutSeconds: real := 1.5

  /** Seconds of the "initial listening" cap on the same timer. */
  const InitialListeningTimeout: real := 5.0

  /** The detector's tunables, kept as parameters so that every property is
      stated for all settings and instantiated with the reference ones. */
  datatype Params = Params(threshold: real, silenceTimeout: real, initialTimeout: real)

  const Reference: Params := Params(SpeakingThreshold, SilenceTimeoutSeconds, InitialListeningTimeout)

  /** Timeouts that cannot fire on a zero elapsed time. */
  predicate NonNegativeTimeouts(p: Params) {
    0.0 <= p.silenceTimeout && 0.0 <= p.initialTimeout
  }

  /** The relation between the two timeouts that the reference values keep:
      the silence timeout is the shorter one. */
  predicate SilenceFirst(p: Params) {
    0.0 <= p.silenceTimeout <= p.initialTimeout
  }
}
