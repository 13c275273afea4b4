/** Values shared by the thermal modules. */
module ThermalTypes {
  /** A C++ float: temperatures are reals here, with NaN kept apart. */
  datatype Float = NaN | Num(value: real)

  /** ThrottlingSeverity, NONE (0) up to SHUTDOWN (6). */
  type Severity = s: int | 0 <= s <= 6

  const NONE: Severity := 0
  const SHUTDOWN: Severity := 6

  /** ThrottlingArray: one threshold per severity, NaN where a level is not configured. */
  type Thresholds = a: seq<Float> | |a| == 7 witness [NaN, NaN, NaN, NaN, NaN, NaN, NaN]

  /** The hysteresis arrays: the configuration parser refuses NaN in them. */
  type Hysteresis = a: seq<real> | |a| == 7 witness [0.0, 0.0, 0.0, 0.0, 0.0, 0.0, 0.0]

  predicate AtLeast(severity: Severity, level: int) {
    severity >= level
  }

  function MaxSeverity(a: Severity, b: Severity): Severity {
    if a > b then a else b
  }
}
