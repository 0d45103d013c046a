/** The host-side evaluator of offset formulas (racelink/domain/offset_formula.py). */
module OffsetFormula {
  import opened Common

  const OFFSET_MS_MAX := 0xFFFF
  const OFFSET_BASE_MIN := -32768
  const OFFSET_BASE_MAX := 32767
  const OFFSET_CENTER_MAX := 254
  const OFFSET_CYCLE_MAX := 255

  /** The `mode` string of an offset block, after `.lower()`. */
  datatype Mode = ModeNone | ModeExplicit | ModeLinear | ModeVshape | ModeModulo | ModeUnknown(name: string)

  /** A persisted offset block. An absent key is the default that the code reads for it:
      zero, `cycle` one and an empty `values` list. */
  datatype OffsetSpec = OffsetSpec(
    mode: Mode, offsetMs: int, baseMs: int, stepMs: int, center: int, cycle: int,
    values: seq<(int, int)>)

  function ClampMs(v: int): int {
    Clamp(0, OFFSET_MS_MAX, v)
  }

  function Abs(v: int): nat {
    if v < 0 then -v else v
  }

  /** `evaluate_offset_ms`; an unknown mode raises. */
  function EvaluateOffsetMs(spec: OffsetSpec, groupId: int): (r: Result<int, string>)
    ensures r.Failure? <==> spec.mode.ModeUnknown?
    ensures r.Success? ==> 0 <= r.value <= OFFSET_MS_MAX
  {
    if spec.mode.ModeUnknown? then Failure("unknown offset formula mode") else Success(FormulaMs(spec, groupId))
  }

  /** The value `EvaluateOffsetMs` returns for a mode it knows. */
  function FormulaMs(spec: OffsetSpec, groupId: int): int
    requires !spec.mode.ModeUnknown?
  {
    var gid := U8(groupId);
    match spec.mode
    case ModeNone => 0
    case ModeExplicit => ClampMs(spec.offsetMs)
    case ModeLinear => ClampMs(spec.baseMs + gid * spec.stepMs)
    case ModeVshape => ClampMs(spec.baseMs + Abs(gid - U8(spec.center)) * spec.stepMs)
    case ModeModulo =>
      var cycle := if spec.cycle > 0 then spec.cycle else 1;
      ClampMs(spec.baseMs + (gid % cycle) * spec.stepMs)
  }

  /** What scenes_service._canonical_offset_block lets through (racelink/services/scenes_service.py:592-606). */
  predicate InRange(spec: OffsetSpec) {
    && OFFSET_BASE_MIN <= spec.baseMs <= OFFSET_BASE_MAX
    && OFFSET_BASE_MIN <= spec.stepMs <= OFFSET_BASE_MAX
    && 0 <= spec.center <= OFFSET_CENTER_MAX
    && 1 <= spec.cycle <= OFFSET_CYCLE_MAX
  }
}
