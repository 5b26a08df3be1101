/** The detection thresholds of src/config.rs. */
module Config {
  /** Minimum objectness and minimum best-class score for a row to be kept. */
  const ConfThreshold: real := 0.5

  /** Overlap threshold handed to non-maximum suppression. */
  const NmsThreshold: real := 0.4
}
