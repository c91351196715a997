/** One tick's measurement: the aggregate CPU reading and whether it is an alert.
    The reading itself (a one-second OS measurement) is an input. */
module Sampler {
  import opened Config

  datatype Sample = Sample(isAlert: bool, cpuPercent: real)

  /** Classifies a reading: an alert exactly when it is strictly above the threshold. */
  function Analyze(reading: real): (s: Sample)
    ensures s.cpuPercent == reading
    ensures s.isAlert <==> reading > CPU_THRESHOLD
  {
    Sample(reading > CPU_THRESHOLD, reading)
  }

  /** The boundary is exclusive: exactly 80.0 is stable, anything above it alerts. */
  lemma ThresholdIsStrict(reading: real)
    ensures !Analyze(80.0).isAlert
    ensures reading <= 80.0 ==> !Analyze(reading).isAlert
    ensures reading > 80.0 ==> Analyze(reading).isAlert
  {
  }
}
