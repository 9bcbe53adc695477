/** The environment clamps of `src/lib/ai-sdk/limits.ts`. */
module Limits {
  /** `Number(process.env[name] ?? fallback)`: any text may stand in the environment. */
  datatype EnvNumber = Finite(value: real) | NotFinite

  function IntegerEnv(value: EnvNumber, fallback: int, minimum: int, maximum: int): (r: int)
    requires minimum <= fallback <= maximum
    ensures minimum <= r <= maximum
    ensures value.NotFinite? ==> r == fallback
    ensures value.Finite? && value.value < minimum as real ==> r == minimum
    ensures value.Finite? && value.value >= maximum as real ==> r == maximum
    ensures value.Finite? && minimum as real <= value.value < maximum as real + 1.0 ==>
              r as real <= value.value < r as real + 1.0
  {
    if value.NotFinite? then fallback
    else
      var floor := value.value.Floor;
      var raised := if floor < minimum then minimum else floor;
      if maximum < raised then maximum else raised
  }

  const TOTAL_TOOL_CALLS_CAP := 32

  function MaxTotalToolCallsPerRun(value: EnvNumber): (r: int)
    ensures value.NotFinite? ==> r == 12
    ensures value.Finite? && value.value < 1.0 ==> r == 1
    ensures value.Finite? && value.value >= 33.0 ==> r == 32
    ensures value.Finite? && 1.0 <= value.value < 33.0 ==> 1 <= r <= 32 && r as real <= value.value < r as real + 1.0
  {
    IntegerEnv(value, 12, 1, TOTAL_TOOL_CALLS_CAP)
  }
}
