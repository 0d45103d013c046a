/** The behaviour flags shared by OPC_PRESET and OPC_CONTROL (racelink/domain/flags.py). */
module Flags {
  import opened Common

  const RL_FLAG_POWER_ON := 0x01
  const RL_FLAG_ARM_ON_SYNC := 0x02
  const RL_FLAG_HAS_BRI := 0x04
  const RL_FLAG_FORCE_TT0 := 0x08
  const RL_FLAG_FORCE_REAPPLY := 0x10
  const RL_FLAG_OFFSET_MODE := 0x20

  /** The four flags a user may persist or override. */
  datatype FlagKey = ArmOnSync | ForceTt0 | ForceReapply | OffsetMode

  const USER_FLAG_KEYS: seq<FlagKey> := [ArmOnSync, ForceTt0, ForceReapply, OffsetMode]

  /** `1 if b else 0`. */
  function Bit(b: bool): Byte {
    if b then 1 else 0
  }

  /** Whether the single-bit value `bit` is set in `mask`. */
  predicate HasBit(mask: Byte, bit: Byte)
    requires bit > 0
  {
    (mask / bit) % 2 == 1
  }

  /** `mask | bit` for a single-bit value `bit`. */
  function OrBit(mask: int, bit: Byte): int
    requires bit > 0
  {
    if (mask / bit) % 2 == 1 then mask else mask + bit
  }

  /** A bit above every bit of the mask is simply added. */
  lemma OrNewBit(mask: nat, bit: Byte)
    requires mask < bit
    ensures OrBit(mask, bit) == mask + bit
  {
    assert mask / bit == 0;
  }

  /** `build_flags_byte`; `user` holds the user flags that are true. */
  function FlagsByte(powerOn: bool, hasBri: bool, user: set<FlagKey>): Byte {
    Bit(powerOn) * RL_FLAG_POWER_ON
    + Bit(ArmOnSync in user) * RL_FLAG_ARM_ON_SYNC
    + Bit(hasBri) * RL_FLAG_HAS_BRI
    + Bit(ForceTt0 in user) * RL_FLAG_FORCE_TT0
    + Bit(ForceReapply in user) * RL_FLAG_FORCE_REAPPLY
    + Bit(OffsetMode in user) * RL_FLAG_OFFSET_MODE
  }

  /** A receiver reads back exactly the flags that went in. */
  lemma FlagsReadBack(powerOn: bool, hasBri: bool, user: set<FlagKey>)
    ensures var b := FlagsByte(powerOn, hasBri, user);
            && b < 0x40
            && (HasBit(b, RL_FLAG_POWER_ON) <==> powerOn)
            && (HasBit(b, RL_FLAG_ARM_ON_SYNC) <==> ArmOnSync in user)
            && (HasBit(b, RL_FLAG_HAS_BRI) <==> hasBri)
            && (HasBit(b, RL_FLAG_FORCE_TT0) <==> ForceTt0 in user)
            && (HasBit(b, RL_FLAG_FORCE_REAPPLY) <==> ForceReapply in user)
            && (HasBit(b, RL_FLAG_OFFSET_MODE) <==> OffsetMode in user)
  {
  }

  /** The flags left after an override: an override wins over a persisted flag, either way. */
  predicate FlagAfterMerge(persisted: set<FlagKey>, override: map<FlagKey, bool>, k: FlagKey) {
    if k in override then override[k] else k in persisted
  }

  function MergedFlags(persisted: set<FlagKey>, override: map<FlagKey, bool>): (merged: set<FlagKey>)
    ensures forall k: FlagKey :: k in merged <==> FlagAfterMerge(persisted, override, k)
  {
    set k: FlagKey | FlagAfterMerge(persisted, override, k)
  }

  /** `_merge_flags`: starts from the flags already in the params and rewrites every user flag. */
  method MergeFlags(base: set<FlagKey>, persisted: set<FlagKey>, override: map<FlagKey, bool>) returns (merged: set<FlagKey>)
    ensures merged == MergedFlags(persisted, override)
  {
    merged := base;
    for i := 0 to |USER_FLAG_KEYS|
      invariant forall j :: 0 <= j < i ==>
                  (USER_FLAG_KEYS[j] in merged <==> USER_FLAG_KEYS[j] in MergedFlags(persisted, override))
    {
      var key := USER_FLAG_KEYS[i];
      var value := if key in override then override[key] else key in persisted;
      if value {
        merged := merged + {key};
      } else {
        merged := merged - {key};
      }
    }
    forall k: FlagKey
      ensures k in merged <==> k in MergedFlags(persisted, override)
    {
      var j := match k case ArmOnSync => 0 case ForceTt0 => 1 case ForceReapply => 2 case OffsetMode => 3;
      assert USER_FLAG_KEYS[j] == k;
    }
  }
}
