/** The variable-length OPC_CONTROL body: builder (racelink/protocol/packets.py) and the decoder
    that racelink_proto.h lays down for receivers. */
module ControlCodec {
  import opened Common
  import opened Flags

  const RL_CTRL_F_BRIGHTNESS := 0x01
  const RL_CTRL_F_MODE := 0x02
  const RL_CTRL_F_SPEED := 0x04
  const RL_CTRL_F_INTENSITY := 0x08
  const RL_CTRL_F_CUSTOM1 := 0x10
  const RL_CTRL_F_CUSTOM2 := 0x20
  const RL_CTRL_F_CUSTOM3_CHECKS := 0x40
  const RL_CTRL_F_EXT := 0x80
  const RL_CTRL_E_PALETTE := 0x01
  const RL_CTRL_E_COLOR1 := 0x02
  const RL_CTRL_E_COLOR2 := 0x04
  const RL_CTRL_E_COLOR3 := 0x08
  const RL_CTRL_BODY_MAX := 22

  datatype Rgb = Rgb(r: int, g: int, b: int)

  /** The keyword arguments of `build_control_body`; `None` means "not present". */
  datatype ControlFields = ControlFields(
    brightness: Option<int>, mode: Option<int>, speed: Option<int>, intensity: Option<int>,
    custom1: Option<int>, custom2: Option<int>, custom3: Option<int>,
    check1: Option<bool>, check2: Option<bool>, check3: Option<bool>,
    palette: Option<int>, color1: Option<Rgb>, color2: Option<Rgb>, color3: Option<Rgb>)

  /** The shared custom3-and-checks byte, unpacked. */
  datatype Custom3 = Custom3(custom3: Byte, check1: bool, check2: bool, check3: bool)

  /** What a receiver learns from a body: every present field at its wire width. */
  datatype ControlPacket = ControlPacket(
    groupId: Byte, flags: Byte,
    brightness: Option<Byte>, mode: Option<Byte>, speed: Option<Byte>, intensity: Option<Byte>,
    custom1: Option<Byte>, custom2: Option<Byte>, custom3: Option<Custom3>,
    palette: Option<Byte>, color1: Option<Bytes>, color2: Option<Bytes>, color3: Option<Bytes>)

  // -- presence masks over a fixed list of fields ------------------------------

  /** A field of a block: absent, or its bytes. */
  type Slot = Option<Bytes>

  function Pow2(n: nat): nat {
    if n == 0 then 1 else 2 * Pow2(n - 1)
  }

  /** Bit i of the mask says whether field i is present. */
  function Mask(slots: seq<Slot>): nat {
    if slots == [] then 0 else Bit(slots[0].Some?) + 2 * Mask(slots[1..])
  }

  /** The present fields, in their fixed order. */
  function Tail(slots: seq<Slot>): Bytes {
    if slots == [] then [] else slots[0].GetOr([]) + Tail(slots[1..])
  }

  predicate HasWidths(slots: seq<Slot>, widths: seq<nat>) {
    |slots| == |widths| && forall i :: 0 <= i < |slots| && slots[i].Some? ==> |slots[i].value| == widths[i]
  }

  /** Reads the fields that `mask` announces; returns them, the mask bits left, and the bytes left. */
  function TakeSlots(mask: nat, widths: seq<nat>, s: Bytes): Option<(seq<Slot>, nat, Bytes)> {
    if widths == [] then Some(([], mask, s))
    else if mask % 2 == 0 then
      var (slots, m, rest) :- TakeSlots(mask / 2, widths[1..], s);
      Some(([None] + slots, m, rest))
    else if |s| < widths[0] then None
    else
      var (slots, m, rest) :- TakeSlots(mask / 2, widths[1..], s[widths[0]..]);
      Some(([Some(s[..widths[0]])] + slots, m, rest))
  }

  /** Reading back what was written, with any bits above the block and any bytes after it. */
  lemma {:induction false} TakeAfterWrite(slots: seq<Slot>, widths: seq<nat>, high: nat, rest: Bytes, mask: nat, s: Bytes)
    requires HasWidths(slots, widths)
    requires mask == Mask(slots) + Pow2(|slots|) * high && s == Tail(slots) + rest
    ensures TakeSlots(mask, widths, s) == Some((slots, high, rest))
  {
    if slots == [] {
      assert s == rest;
    } else {
      TakeAfterWrite(slots[1..], widths[1..], high, rest, Mask(slots[1..]) + Pow2(|slots| - 1) * high, Tail(slots[1..]) + rest);
      HalveMask(Bit(slots[0].Some?), Mask(slots[1..]), Pow2(|slots| - 1), high);
      assert [slots[0]] + slots[1..] == slots;
      if slots[0].Some? {
        assert s[..widths[0]] == slots[0].value;
        assert s[widths[0]..] == Tail(slots[1..]) + rest;
      } else {
        assert s == Tail(slots[1..]) + rest;
      }
    }
  }

  lemma HalveMask(b: int, m: nat, p: nat, high: nat)
    requires b == 0 || b == 1
    ensures (b + 2 * m + (2 * p) * high) % 2 == b
    ensures (b + 2 * m + (2 * p) * high) / 2 == m + p * high
  {
    assert (2 * p) * high == 2 * (p * high);
  }

  lemma {:induction false} MaskSnoc(slots: seq<Slot>, v: Slot)
    ensures Mask(slots + [v]) == Mask(slots) + if v.Some? then Pow2(|slots|) else 0
    ensures Mask(slots) < Pow2(|slots|)
    ensures Tail(slots + [v]) == Tail(slots) + v.GetOr([])
  {
    if slots == [] {
      assert slots + [v] == [v];
      assert [v][1..] == [];
    } else {
      MaskSnoc(slots[1..], v);
      assert (slots + [v])[0] == slots[0] && (slots + [v])[1..] == slots[1..] + [v];
      assert Tail(slots + [v]) == slots[0].GetOr([]) + (Tail(slots[1..]) + v.GetOr([]));
    }
  }

  /** The bytes that the present fields from index `i` on take. */
  function Width(slots: seq<Slot>, widths: seq<nat>, i: nat): nat
    requires i <= |slots| == |widths|
    decreases |slots| - i
  {
    if i == |slots| then 0 else (if slots[i].Some? then widths[i] else 0) + Width(slots, widths, i + 1)
  }

  lemma {:induction false} TailLength(slots: seq<Slot>, widths: seq<nat>, i: nat)
    requires i <= |slots| && HasWidths(slots, widths)
    ensures |Tail(slots[i..])| == Width(slots, widths, i)
    decreases |slots| - i
  {
    if i < |slots| {
      TailLength(slots, widths, i + 1);
      assert slots[i..][1..] == slots[i + 1..];
    }
  }

  // -- the two blocks of a control body -----------------------------------------

  const MAIN_WIDTHS: seq<nat> := [1, 1, 1, 1, 1, 1, 1]
  const EXT_WIDTHS: seq<nat> := [1, 3, 3, 3]

  function ByteSlot(v: Option<int>): Slot {
    if v.None? then None else Some([U8(v.value)])
  }

  function RgbSlot(c: Option<Rgb>): Slot {
    if c.None? then None else Some([U8(c.value.r), U8(c.value.g), U8(c.value.b)])
  }

  predicate HasCustom3(f: ControlFields) {
    f.custom3.Some? || f.check1.Some? || f.check2.Some? || f.check3.Some?
  }

  function Custom3Byte(f: ControlFields): Byte {
    f.custom3.GetOr(0) % 32 + Bit(f.check1.GetOr(false)) * 0x20 + Bit(f.check2.GetOr(false)) * 0x40 + Bit(f.check3.GetOr(false)) * 0x80
  }

  function Custom3Slot(f: ControlFields): Slot {
    if HasCustom3(f) then Some([Custom3Byte(f)]) else None
  }

  function MainSlots(f: ControlFields): seq<Slot> {
    [ByteSlot(f.brightness), ByteSlot(f.mode), ByteSlot(f.speed), ByteSlot(f.intensity),
     ByteSlot(f.custom1), ByteSlot(f.custom2), Custom3Slot(f)]
  }

  function ExtSlots(f: ControlFields): seq<Slot> {
    [ByteSlot(f.palette), RgbSlot(f.color1), RgbSlot(f.color2), RgbSlot(f.color3)]
  }

  predicate HasExt(f: ControlFields) {
    f.palette.Some? || f.color1.Some? || f.color2.Some? || f.color3.Some?
  }

  function ExtBlock(f: ControlFields): Bytes {
    ExtMaskFits(f);
    if HasExt(f) then [Mask(ExtSlots(f))] + Tail(ExtSlots(f)) else []
  }

  /** The body racelink_proto.h describes for these arguments. */
  function ControlBody(groupId: int, flags: int, f: ControlFields): Bytes {
    MainMaskFits(f);
    [U8(groupId), U8(flags), Mask(MainSlots(f)) + Bit(HasExt(f)) * RL_CTRL_F_EXT] + (Tail(MainSlots(f)) + ExtBlock(f))
  }

  lemma {:induction false} MaskBound(slots: seq<Slot>)
    ensures Mask(slots) < Pow2(|slots|)
    ensures Mask(slots) == 0 <==> forall i :: 0 <= i < |slots| ==> slots[i].None?
  {
    if slots != [] {
      MaskBound(slots[1..]);
      assert (forall i :: 0 <= i < |slots| ==> slots[i].None?) <==>
        slots[0].None? && (forall i :: 0 <= i < |slots[1..]| ==> slots[1..][i].None?) by {
        assert forall i :: 0 < i < |slots| ==> slots[i] == slots[1..][i - 1];
      }
    }
  }

  lemma MainMaskFits(f: ControlFields)
    ensures Mask(MainSlots(f)) < 0x80
  {
    MaskBound(MainSlots(f));
    assert Pow2(7) == 0x80;
  }

  lemma ExtMaskFits(f: ControlFields)
    ensures Mask(ExtSlots(f)) < 0x10
    ensures Mask(ExtSlots(f)) == 0 <==> !HasExt(f)
  {
    var s := ExtSlots(f);
    MaskBound(s);
    assert Pow2(4) == 0x10;
    assert s[0].Some? == f.palette.Some? && s[1].Some? == f.color1.Some?;
    assert s[2].Some? == f.color2.Some? && s[3].Some? == f.color3.Some?;
  }

  // -- builder ---------------------------------------------------------------

  /** `build_control_body`: grows two byte tails and two presence masks. */
  method BuildControlBody(groupId: int, flags: int, f: ControlFields) returns (body: Bytes)
    ensures body == ControlBody(groupId, flags, f)
    ensures |body| <= RL_CTRL_BODY_MAX
  {
    var fieldMask, tailMain := BuildMain(f);
    var extMask, tailExt := BuildExt(f);
    ExtMaskFits(f);
    MainMaskFits(f);
    body := Assemble(U8(groupId), U8(flags), fieldMask, tailMain, extMask, tailExt);
    BodyLength(groupId, flags, f);
  }

  /** The extended block is announced and appended only when its mask has a bit. */
  method Assemble(g: Byte, flags: Byte, mask: Byte, main: Bytes, extMask: Byte, ext: Bytes) returns (body: Bytes)
    requires mask < RL_CTRL_F_EXT
    ensures body == [g, flags, mask + if extMask != 0 then RL_CTRL_F_EXT else 0]
                    + (main + if extMask != 0 then [extMask] + ext else [])
  {
    var fieldMask := mask;
    body := [g];
    body := body + [flags];
    if extMask != 0 {
      OrNewBit(mask, RL_CTRL_F_EXT);
      fieldMask := OrBit(fieldMask, RL_CTRL_F_EXT);
      body := body + [fieldMask];
      body := body + main;
      body := body + [extMask];
      body := body + ext;
    } else {
      body := body + [fieldMask];
      body := body + main;
    }
    BodyConcat(g, flags, fieldMask, main, [extMask], ext);
  }

  lemma BodyConcat(g: Byte, flags: Byte, mask: Byte, main: Bytes, extMask: Bytes, ext: Bytes)
    ensures [g] + [flags] + [mask] + main + extMask + ext == [g, flags, mask] + (main + (extMask + ext))
    ensures [g] + [flags] + [mask] + main == [g, flags, mask] + (main + [])
  {
  }

  method BuildMain(f: ControlFields) returns (fieldMask: Byte, tailMain: Bytes)
    ensures fieldMask == Mask(MainSlots(f)) && tailMain == Tail(MainSlots(f))
  {
    ghost var slots := MainSlots(f);
    fieldMask, tailMain := 0, [];
    fieldMask, tailMain := AppendField(fieldMask, RL_CTRL_F_BRIGHTNESS, tailMain, ByteSlot(f.brightness), slots, 0);
    fieldMask, tailMain := AppendField(fieldMask, RL_CTRL_F_MODE, tailMain, ByteSlot(f.mode), slots, 1);
    fieldMask, tailMain := AppendField(fieldMask, RL_CTRL_F_SPEED, tailMain, ByteSlot(f.speed), slots, 2);
    fieldMask, tailMain := AppendField(fieldMask, RL_CTRL_F_INTENSITY, tailMain, ByteSlot(f.intensity), slots, 3);
    fieldMask, tailMain := AppendField(fieldMask, RL_CTRL_F_CUSTOM1, tailMain, ByteSlot(f.custom1), slots, 4);
    fieldMask, tailMain := AppendField(fieldMask, RL_CTRL_F_CUSTOM2, tailMain, ByteSlot(f.custom2), slots, 5);
    var custom3 := PackCustom3(f);
    fieldMask, tailMain := AppendField(fieldMask, RL_CTRL_F_CUSTOM3_CHECKS, tailMain, custom3, slots, 6);
    assert slots[..7] == slots;
  }

  method BuildExt(f: ControlFields) returns (extMask: Byte, tailExt: Bytes)
    ensures extMask == Mask(ExtSlots(f)) && tailExt == Tail(ExtSlots(f))
  {
    ghost var slots := ExtSlots(f);
    extMask, tailExt := 0, [];
    extMask, tailExt := AppendField(extMask, RL_CTRL_E_PALETTE, tailExt, ByteSlot(f.palette), slots, 0);
    extMask, tailExt := AppendField(extMask, RL_CTRL_E_COLOR1, tailExt, RgbSlot(f.color1), slots, 1);
    extMask, tailExt := AppendField(extMask, RL_CTRL_E_COLOR2, tailExt, RgbSlot(f.color2), slots, 2);
    extMask, tailExt := AppendField(extMask, RL_CTRL_E_COLOR3, tailExt, RgbSlot(f.color3), slots, 3);
    assert slots[..4] == slots;
  }

  /** The custom3 byte is built when any of its four parts is given, one bit at a time. */
  method PackCustom3(f: ControlFields) returns (slot: Slot)
    ensures slot == Custom3Slot(f)
  {
    if !HasCustom3(f) {
      return None;
    }
    var packed := if f.custom3.Some? then f.custom3.value % 32 else 0;
    if f.check1 == Some(true) {
      packed := OrBit(packed, 0x20);
    }
    if f.check2 == Some(true) {
      packed := OrBit(packed, 0x40);
    }
    if f.check3 == Some(true) {
      packed := OrBit(packed, 0x80);
    }
    return Some([packed]);
  }

  /** One `if v is not None` step of the builder: field `i` of the block `slots`. */
  method AppendField(mask: Byte, bit: Byte, tail: Bytes, v: Slot, ghost slots: seq<Slot>, ghost i: nat)
    returns (mask': Byte, tail': Bytes)
    requires i < |slots| && v == slots[i]
    requires bit == Pow2(i) && bit <= 0x80
    requires mask == Mask(slots[..i]) && tail == Tail(slots[..i])
    ensures mask' == Mask(slots[..i + 1]) && tail' == Tail(slots[..i + 1])
  {
    MaskSnoc(slots[..i], v);
    assert slots[..i] + [v] == slots[..i + 1];
    mask', tail' := mask, tail;
    if v.Some? {
      OrNewBit(mask, bit);
      mask', tail' := OrBit(mask, bit), tail + v.value;
    }
  }

  /** How many bytes the presence of each field costs. */
  function PresenceLength(f: ControlFields): nat {
    3 + Bit(f.brightness.Some?) + Bit(f.mode.Some?) + Bit(f.speed.Some?) + Bit(f.intensity.Some?)
    + Bit(f.custom1.Some?) + Bit(f.custom2.Some?) + Bit(HasCustom3(f))
    + if HasExt(f) then 1 + Bit(f.palette.Some?) + 3 * (Bit(f.color1.Some?) + Bit(f.color2.Some?) + Bit(f.color3.Some?)) else 0
  }

  /** The length depends on presence only and always fits, so the builder's assertion never fires. */
  lemma BodyLength(groupId: int, flags: int, f: ControlFields)
    ensures |ControlBody(groupId, flags, f)| == PresenceLength(f)
    ensures 3 <= PresenceLength(f) <= 21
  {
    MainLength(f);
    ExtLength(f);
  }

  lemma SevenBytes(s: seq<Slot>)
    requires HasWidths(s, MAIN_WIDTHS)
    ensures |Tail(s)| == Bit(s[0].Some?) + Bit(s[1].Some?) + Bit(s[2].Some?) + Bit(s[3].Some?)
                       + Bit(s[4].Some?) + Bit(s[5].Some?) + Bit(s[6].Some?)
  {
    var w := MAIN_WIDTHS;
    TailLength(s, w, 0);
    assert s[0..] == s;
    assert Width(s, w, 7) == 0;
    assert Width(s, w, 5) == Bit(s[5].Some?) + Bit(s[6].Some?) + Width(s, w, 7);
    assert Width(s, w, 3) == Bit(s[3].Some?) + Bit(s[4].Some?) + Width(s, w, 5);
    assert Width(s, w, 1) == Bit(s[1].Some?) + Bit(s[2].Some?) + Width(s, w, 3);
  }

  lemma MainWidths(f: ControlFields)
    ensures HasWidths(MainSlots(f), MAIN_WIDTHS)
  {
  }

  lemma MainLength(f: ControlFields)
    ensures |Tail(MainSlots(f))|
         == Bit(f.brightness.Some?) + Bit(f.mode.Some?) + Bit(f.speed.Some?) + Bit(f.intensity.Some?)
          + Bit(f.custom1.Some?) + Bit(f.custom2.Some?) + Bit(HasCustom3(f))
  {
    MainWidths(f);
    SevenBytes(MainSlots(f));
  }

  lemma ExtLength(f: ControlFields)
    ensures |Tail(ExtSlots(f))| == Bit(f.palette.Some?) + 3 * (Bit(f.color1.Some?) + Bit(f.color2.Some?) + Bit(f.color3.Some?))
  {
    var s, w := ExtSlots(f), EXT_WIDTHS;
    TailLength(s, w, 0);
    assert s[0..] == s;
    assert Width(s, w, 4) == 0;
    assert Width(s, w, 2) == 3 * Bit(s[2].Some?) + 3 * Bit(s[3].Some?);
  }

  // -- decoder ---------------------------------------------------------------

  function SlotByte(s: Slot): Option<Byte> {
    if s.Some? && s.value != [] then Some(s.value[0]) else None
  }

  function UnpackCustom3(b: Option<Byte>): Option<Custom3> {
    if b.None? then None
    else Some(Custom3(b.value % 32, HasBit(b.value, 0x20), HasBit(b.value, 0x40), HasBit(b.value, 0x80)))
  }

  function NamePacket(groupId: Byte, flags: Byte, m: seq<Slot>, e: seq<Slot>): ControlPacket
    requires |m| == 7 && |e| == 4
  {
    ControlPacket(
      groupId, flags, SlotByte(m[0]), SlotByte(m[1]), SlotByte(m[2]), SlotByte(m[3]), SlotByte(m[4]), SlotByte(m[5]),
      UnpackCustom3(SlotByte(m[6])), SlotByte(e[0]), e[1], e[2], e[3])
  }

  /** Reads the fields that the two masks announce, in their fixed order; a body that is too short
      or has bytes left over is not a control packet. */
  function DecodeControl(body: Bytes): Option<ControlPacket> {
    if |body| < 3 then None
    else
      var (main, ext, afterMain) :- TakeSlots(body[2], MAIN_WIDTHS, body[3..]);
      if ext == 0 then
        if afterMain != [] || |main| != 7 then None
        else Some(NamePacket(body[0], body[1], main, [None, None, None, None]))
      else if afterMain == [] then None
      else
        var (extra, _, rest) :- TakeSlots(afterMain[0], EXT_WIDTHS, afterMain[1..]);
        if rest != [] || |main| != 7 || |extra| != 4 then None else Some(NamePacket(body[0], body[1], main, extra))
  }

  // -- round trip ------------------------------------------------------------

  function Narrow(v: Option<int>): Option<Byte> {
    if v.None? then None else Some(U8(v.value))
  }

  function NarrowCustom3(f: ControlFields): Option<Custom3> {
    if HasCustom3(f)
    then Some(Custom3(f.custom3.GetOr(0) % 32, f.check1.GetOr(false), f.check2.GetOr(false), f.check3.GetOr(false)))
    else None
  }

  /** The arguments reduced to their bit widths. */
  function Reduced(groupId: int, flags: int, f: ControlFields): ControlPacket {
    ControlPacket(
      U8(groupId), U8(flags),
      Narrow(f.brightness), Narrow(f.mode), Narrow(f.speed), Narrow(f.intensity),
      Narrow(f.custom1), Narrow(f.custom2), NarrowCustom3(f),
      Narrow(f.palette), RgbSlot(f.color1), RgbSlot(f.color2), RgbSlot(f.color3))
  }

  lemma Custom3Unpacks(f: ControlFields)
    ensures UnpackCustom3(SlotByte(Custom3Slot(f))) == NarrowCustom3(f)
  {
  }

  lemma SevenReadBack(slots: seq<Slot>, high: nat, rest: Bytes, mask: nat, s: Bytes)
    requires HasWidths(slots, MAIN_WIDTHS) && mask == Mask(slots) + high * RL_CTRL_F_EXT && s == Tail(slots) + rest
    ensures TakeSlots(mask, MAIN_WIDTHS, s) == Some((slots, high, rest))
  {
    assert Pow2(7) == RL_CTRL_F_EXT;
    TakeAfterWrite(slots, MAIN_WIDTHS, high, rest, mask, s);
  }

  lemma MainReadsBack(f: ControlFields, mask: nat, s: Bytes)
    requires mask == Mask(MainSlots(f)) + Bit(HasExt(f)) * RL_CTRL_F_EXT
    requires s == Tail(MainSlots(f)) + ExtBlock(f)
    ensures TakeSlots(mask, MAIN_WIDTHS, s) == Some((MainSlots(f), Bit(HasExt(f)), ExtBlock(f)))
  {
    MainWidths(f);
    SevenReadBack(MainSlots(f), Bit(HasExt(f)), ExtBlock(f), mask, s);
  }

  lemma ExtReadsBack(f: ControlFields)
    requires HasExt(f)
    ensures TakeSlots(ExtBlock(f)[0], EXT_WIDTHS, ExtBlock(f)[1..]) == Some((ExtSlots(f), 0, []))
  {
    ExtMaskFits(f);
    assert Tail(ExtSlots(f)) + [] == Tail(ExtSlots(f)) == ExtBlock(f)[1..];
    TakeAfterWrite(ExtSlots(f), EXT_WIDTHS, 0, [], ExtBlock(f)[0], ExtBlock(f)[1..]);
  }

  lemma NamesAgree(groupId: int, flags: int, f: ControlFields)
    ensures NamePacket(U8(groupId), U8(flags), MainSlots(f), ExtSlots(f)) == Reduced(groupId, flags, f)
  {
    Custom3Unpacks(f);
  }

  /** Decoding a built body recovers every argument at its bit width, for every presence combination. */
  lemma DecodeAfterBuild(groupId: int, flags: int, f: ControlFields)
    ensures DecodeControl(ControlBody(groupId, flags, f)) == Some(Reduced(groupId, flags, f))
  {
    var body := ControlBody(groupId, flags, f);
    assert body[3..] == Tail(MainSlots(f)) + ExtBlock(f);
    MainReadsBack(f, body[2], body[3..]);
    NamesAgree(groupId, flags, f);
    if HasExt(f) {
      ExtReadsBack(f);
    } else {
      assert ExtSlots(f) == [None, None, None, None];
    }
  }
}
