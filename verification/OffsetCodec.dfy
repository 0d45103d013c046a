/** The OPC_OFFSET body: builder, parser, and the formula the receiver evaluates.
    Sources: racelink/protocol/packets.py and racelink_proto.h. */
module OffsetCodec {
  import opened Common
  import opened OffsetFormula

  /** The mode-specific arguments of `build_offset_body`, and what a parsed body carries. */
  datatype OffsetPayload =
    | ClearOffset
    | Explicit(offsetMs: int)
    | Linear(baseMs: int, stepMs: int)
    | Vshape(baseMs: int, stepMs: int, center: int)
    | Modulo(baseMs: int, stepMs: int, cycle: int)

  // -- little-endian 16-bit fields ------------------------------------------

  /** `struct.pack("<H", v)`. */
  function PackU16(v: int): Bytes
    requires 0 <= v <= 0xFFFF
  {
    [v % 256, v / 256]
  }

  /** `struct.pack("<h", v)`: two's complement. */
  function PackI16(v: int): Bytes
    requires -32768 <= v <= 32767
  {
    PackU16(if v < 0 then v + 0x1_0000 else v)
  }

  function UnpackU16(lo: Byte, hi: Byte): int {
    lo + 256 * hi
  }

  function UnpackI16(lo: Byte, hi: Byte): int {
    var u := UnpackU16(lo, hi);
    if u >= 0x8000 then u - 0x1_0000 else u
  }

  lemma PackUnpack(v: int)
    ensures 0 <= v <= 0xFFFF ==> UnpackU16(PackU16(v)[0], PackU16(v)[1]) == v
    ensures -32768 <= v <= 32767 ==> UnpackI16(PackI16(v)[0], PackI16(v)[1]) == v
  {
  }

  lemma UnpackPack(lo: Byte, hi: Byte)
    ensures 0 <= UnpackU16(lo, hi) <= 0xFFFF && PackU16(UnpackU16(lo, hi)) == [lo, hi]
    ensures -32768 <= UnpackI16(lo, hi) <= 32767 && PackI16(UnpackI16(lo, hi)) == [lo, hi]
  {
  }

  // -- builder and parser ----------------------------------------------------

  /** The bounds the builder forces every argument into. */
  function ClampPayload(p: OffsetPayload): OffsetPayload {
    match p
    case ClearOffset => ClearOffset
    case Explicit(ms) => Explicit(ClampMs(ms))
    case Linear(b, s) => Linear(ClampI16(b), ClampI16(s))
    case Vshape(b, s, c) => Vshape(ClampI16(b), ClampI16(s), Clamp(0, OFFSET_CENTER_MAX, c))
    case Modulo(b, s, cy) => Modulo(ClampI16(b), ClampI16(s), Clamp(1, OFFSET_CYCLE_MAX, cy))
  }

  function ClampI16(v: int): int {
    Clamp(OFFSET_BASE_MIN, OFFSET_BASE_MAX, v)
  }

  /** `build_offset_body`. */
  function BuildOffsetBody(groupId: int, p: OffsetPayload): Bytes {
    var g := U8(groupId);
    match p
    case ClearOffset => [g, 0]
    case Explicit(ms) => [g, 1] + PackU16(ClampMs(ms))
    case Linear(b, s) => [g, 2] + PackI16(ClampI16(b)) + PackI16(ClampI16(s))
    case Vshape(b, s, c) => [g, 3] + PackI16(ClampI16(b)) + PackI16(ClampI16(s)) + [Clamp(0, OFFSET_CENTER_MAX, c)]
    case Modulo(b, s, cy) => [g, 4] + PackI16(ClampI16(b)) + PackI16(ClampI16(s)) + [Clamp(1, OFFSET_CYCLE_MAX, cy)]
  }

  datatype ParseError = TooShort | BadLength(mode: Byte) | UnknownModeByte(mode: Byte)

  /** `parse_offset_body`. */
  function ParseOffsetBody(body: Bytes): Result<(Byte, OffsetPayload), ParseError> {
    if |body| < 2 then Failure(TooShort)
    else
      var g, m := body[0], body[1];
      if m == 0 then
        if |body| != 2 then Failure(BadLength(m)) else Success((g, ClearOffset))
      else if m == 1 then
        if |body| != 4 then Failure(BadLength(m))
        else Success((g, Explicit(UnpackU16(body[2], body[3]))))
      else if m == 2 then
        if |body| != 6 then Failure(BadLength(m))
        else Success((g, Linear(UnpackI16(body[2], body[3]), UnpackI16(body[4], body[5]))))
      else if m == 3 then
        if |body| != 7 then Failure(BadLength(m))
        else Success((g, Vshape(UnpackI16(body[2], body[3]), UnpackI16(body[4], body[5]), body[6])))
      else if m == 4 then
        if |body| != 7 then Failure(BadLength(m))
        else Success((g, Modulo(UnpackI16(body[2], body[3]), UnpackI16(body[4], body[5]), body[6])))
      else Failure(UnknownModeByte(m))
  }

  /** Parsing what was built yields the clamped arguments, for every integer input. */
  lemma ParseAfterBuild(groupId: int, p: OffsetPayload)
    ensures ParseOffsetBody(BuildOffsetBody(groupId, p)) == Success((U8(groupId), ClampPayload(p)))
    ensures 2 <= |BuildOffsetBody(groupId, p)| <= 7
  {
    match p
    case ClearOffset =>
    case Explicit(ms) => PackUnpack(ClampMs(ms));
    case Linear(b, s) => PackUnpack(ClampI16(b)); PackUnpack(ClampI16(s));
    case Vshape(b, s, c) => PackUnpack(ClampI16(b)); PackUnpack(ClampI16(s));
    case Modulo(b, s, cy) => PackUnpack(ClampI16(b)); PackUnpack(ClampI16(s));
  }

  /** Building what was parsed gives the same bytes back, except for the two byte values
      the builder never emits: a V-shape centre of 255 and a modulo cycle of 0. */
  lemma BuildAfterParse(body: Bytes)
    requires ParseOffsetBody(body).Success?
    ensures var (g, p) := ParseOffsetBody(body).value;
            BuildOffsetBody(g, p) == body <==> !(body[1] == 3 && body[6] == 255) && !(body[1] == 4 && body[6] == 0)
  {
    var (g, p) := ParseOffsetBody(body).value;
    if body[1] >= 1 {
      UnpackPack(body[2], body[3]);
    }
    if body[1] >= 2 {
      UnpackPack(body[4], body[5]);
    }
    if body[1] >= 3 {
      assert BuildOffsetBody(g, p)[6] == if p.Vshape? then Clamp(0, OFFSET_CENTER_MAX, body[6]) else Clamp(1, OFFSET_CYCLE_MAX, body[6]);
    }
  }

  // -- the receiver's formula ------------------------------------------------

  /** The offset a receiver computes from its stored configuration and its own group. */
  function DeviceOffsetMs(p: OffsetPayload, groupId: Byte): int {
    match p
    case ClearOffset => 0
    case Explicit(ms) => ms
    case Linear(b, s) => ClampMs(b + groupId * s)
    case Vshape(b, s, c) => ClampMs(b + Abs(groupId - c) * s)
    case Modulo(b, s, cy) => ClampMs(b + (groupId % (if cy <= 0 then 1 else cy)) * s)
  }

  /** `_offset_payload_kwargs`: the builder arguments taken from an offset block. */
  function PayloadOf(spec: OffsetSpec): OffsetPayload
    requires !spec.mode.ModeUnknown?
  {
    match spec.mode
    case ModeNone => ClearOffset
    case ModeExplicit => Explicit(spec.offsetMs)
    case ModeLinear => Linear(spec.baseMs, spec.stepMs)
    case ModeVshape => Vshape(spec.baseMs, spec.stepMs, spec.center)
    case ModeModulo => Modulo(spec.baseMs, spec.stepMs, if spec.cycle < 1 then 1 else spec.cycle)
  }

  /** Inside the validated ranges the builder's clamps change nothing but an explicit offset. */
  lemma InRangeSurvivesClamp(spec: OffsetSpec)
    requires !spec.mode.ModeUnknown? && InRange(spec)
    ensures spec.mode.ModeExplicit? ==> ClampPayload(PayloadOf(spec)) == Explicit(ClampMs(spec.offsetMs))
    ensures !spec.mode.ModeExplicit? ==> ClampPayload(PayloadOf(spec)) == PayloadOf(spec)
  {
  }

  lemma SameFormula(spec: OffsetSpec, deviceGroup: Byte)
    requires !spec.mode.ModeUnknown? && !spec.mode.ModeExplicit? && InRange(spec)
    ensures DeviceOffsetMs(PayloadOf(spec), deviceGroup) == FormulaMs(spec, deviceGroup)
  {
    assert U8(deviceGroup) == deviceGroup && U8(spec.center) == spec.center;
    match spec.mode
    case ModeNone =>
    case ModeLinear => assert PayloadOf(spec) == Linear(spec.baseMs, spec.stepMs);
    case ModeVshape => assert PayloadOf(spec) == Vshape(spec.baseMs, spec.stepMs, spec.center);
    case ModeModulo => assert PayloadOf(spec) == Modulo(spec.baseMs, spec.stepMs, spec.cycle);
  }

  /** Host and receiver agree: decoding the bytes the host sent and evaluating them on the device
      gives what `evaluate_offset_ms` gives on the host, for every block the validator accepts. */
  lemma HostAndDeviceAgree(spec: OffsetSpec, wireGroup: int, deviceGroup: Byte)
    requires !spec.mode.ModeUnknown? && InRange(spec)
    ensures var parsed := ParseOffsetBody(BuildOffsetBody(wireGroup, PayloadOf(spec)));
            && parsed.Success?
            && EvaluateOffsetMs(spec, deviceGroup) == Success(DeviceOffsetMs(parsed.value.1, deviceGroup))
  {
    ParseAfterBuild(wireGroup, PayloadOf(spec));
    InRangeSurvivesClamp(spec);
    if !spec.mode.ModeExplicit? {
      SameFormula(spec, deviceGroup);
    }
  }
}
