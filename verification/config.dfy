/** The fixed configuration of the shield: thresholds, limits and the whitelist.
    The source keeps these as module-level constants; here they are immutable. */
module Config {

  /** A reading strictly above this percentage is an alert. */
  const CPU_THRESHOLD: real := 80.0

  /** A candidate strictly above this percentage is a termination target. */
  const KILL_THRESHOLD: real := 90.0

  /** Consecutive alert ticks after which the session hibernates. */
  const MAX_CONSECUTIVE: nat := 3

  /** How many heavy processes a report lists. */
  const TOP_K: nat := 3

  /** Process names that are never reported nor terminated (compared ignoring case). */
  const WHITELIST: seq<string> := [
    "explorer.exe", "cpumonitor.py", "kernel_task.exe", "System Idle Process", "System",
    "python.exe", "taskhostw.exe", "services.exe", "wininit.exe"
  ]
}
