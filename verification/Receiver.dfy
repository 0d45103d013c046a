/** The receiver that racelink_proto.h specifies: pending and active offset configuration, the strict
    symmetric acceptance gate, arm-on-sync and the trigger-gated SYNC. Packets arrive as bytes. */
module Receiver {
  import opened Common
  import opened Flags
  import opened OffsetCodec
  import opened ControlCodec
  import opened WireOps

  const BROADCAST_RECEIVER := 0xFFFFFF
  const SYNC_FLAG_TRIGGER_ARMED := 0x01

  datatype Packet = Packet(receiver: nat, opcode: Opcode, body: Bytes)

  // -- the two fixed bodies (racelink/protocol/packets.py) ---------------------

  function BuildPresetBody(groupId: int, flags: int, presetId: int, brightness: int): Bytes {
    [U8(groupId), U8(flags), U8(presetId), U8(brightness)]
  }

  /** Four bytes when no flag is set (a clock tick), five otherwise. */
  function BuildSyncBody(ts24: int, brightness: int, flags: int): Bytes {
    Ts24Bytes(ts24) + [U8(brightness)] + (if U8(flags) == 0 then [] else [U8(flags)])
  }

  /** The low 24 bits of the clock, low byte first. */
  function Ts24Bytes(ts24: int): (r: Bytes)
    ensures |r| == 3
  {
    var ts := ts24 % 0x100_0000;
    [ts % 256, (ts / 0x100) % 256, (ts / 0x1_0000) % 256]
  }

  // -- device state ------------------------------------------------------------

  type GroupId = g: int | 0 <= g < 255

  datatype Effect = ControlEffect(control: ControlPacket) | PresetEffect(presetId: Byte, brightness: Byte)

  /** An effect with the start delay that was computed for it. */
  datatype Cue = Cue(effect: Effect, offsetMs: int)

  datatype Node = Node(
    last3: nat, group: GroupId,
    active: OffsetPayload, pending: Option<OffsetPayload>,
    armed: Option<Cue>, playing: Option<Cue>,
    timebase: nat)

  /** The configuration the gate looks at: the pending one if there is one. */
  function Effective(d: Node): OffsetPayload {
    if d.pending.Some? then d.pending.value else d.active
  }

  predicate InOffsetMode(d: Node) {
    Effective(d) != ClearOffset
  }

  predicate HeaderMatches(d: Node, p: Packet) {
    p.receiver == BROADCAST_RECEIVER || p.receiver == d.last3
  }

  predicate GroupMatches(d: Node, groupId: Byte) {
    groupId == BROADCAST_GROUP || groupId == d.group
  }

  // -- what a packet says --------------------------------------------------------

  datatype EffectRequest = EffectRequest(groupId: Byte, flags: Byte, effect: Effect)

  /** The effect a PRESET or CONTROL packet asks for, if its body is well formed. */
  function RequestOf(p: Packet): Option<EffectRequest> {
    match p.opcode
    case OpcPreset =>
      if |p.body| != 4 then None
      else Some(EffectRequest(p.body[0], p.body[1], PresetEffect(p.body[2], p.body[3])))
    case OpcControl =>
      var c :- DecodeControl(p.body);
      Some(EffectRequest(c.groupId, c.flags, ControlEffect(c)))
    case _ => None
  }

  /** The offset configuration a packet carries for this device, if any. */
  function OffsetFor(d: Node, p: Packet): Option<OffsetPayload> {
    if p.opcode != OpcOffset || !HeaderMatches(d, p) then None
    else
      match ParseOffsetBody(p.body)
      case Failure(_) => None
      case Success((g, cfg)) => if GroupMatches(d, g) then Some(cfg) else None
  }

  /** Addressed by header and group filter; the gate is a separate question. */
  predicate Addressed(d: Node, p: Packet) {
    HeaderMatches(d, p) && RequestOf(p).Some? && GroupMatches(d, RequestOf(p).value.groupId)
  }

  predicate WantsOffset(p: Packet) {
    RequestOf(p).Some? && HasBit(RequestOf(p).value.flags, RL_FLAG_OFFSET_MODE)
  }

  /** The strict symmetric gate. */
  predicate Accepts(d: Node, p: Packet) {
    Addressed(d, p) && (WantsOffset(p) <==> InOffsetMode(d))
  }

  predicate IsArm(p: Packet) {
    RequestOf(p).Some? && HasBit(RequestOf(p).value.flags, RL_FLAG_ARM_ON_SYNC)
  }

  /** The clock a SYNC of either length carries. */
  function TimeOf(p: Packet): Option<nat> {
    if p.opcode == OpcSync && (|p.body| == 4 || |p.body| == 5) then
      var low: int, middle: int, high: int := p.body[0], p.body[1], p.body[2];
      Some(low + 0x100 * middle + 0x1_0000 * high)
    else None
  }

  /** A SYNC whose flags byte is present and has the trigger bit. */
  predicate IsTrigger(p: Packet) {
    p.opcode == OpcSync && |p.body| == 5 && HasBit(p.body[4], SYNC_FLAG_TRIGGER_ARMED)
  }

  // -- transitions -----------------------------------------------------------------

  /** Pending becomes active. */
  function Materialise(d: Node): Node {
    d.(active := Effective(d), pending := None)
  }

  function Snapshot(d: Node): int {
    DeviceOffsetMs(Effective(d), d.group)
  }

  function Receive(d: Node, p: Packet): Node {
    var offset := OffsetFor(d, p);
    if offset.Some? then d.(pending := offset)
    else if Accepts(d, p) then
      var cue := Cue(RequestOf(p).value.effect, Snapshot(d));
      if IsArm(p) then d.(armed := Some(cue)) else Materialise(d).(playing := Some(cue))
    else if HeaderMatches(d, p) && TimeOf(p).Some? then
      var fired := if IsTrigger(p) && d.armed.Some? then Materialise(d).(playing := d.armed, armed := None) else d;
      fired.(timebase := TimeOf(p).value)
    else d
  }

  function Run(d: Node, packets: seq<Packet>): Node
    decreases packets
  {
    if packets == [] then d else Run(Receive(d, packets[0]), packets[1..])
  }

  /** Which of the packets are accepted, in order. */
  function AcceptLog(d: Node, packets: seq<Packet>): (log: seq<bool>)
    ensures |log| == |packets|
    decreases packets
  {
    if packets == [] then [] else [Accepts(d, packets[0])] + AcceptLog(Receive(d, packets[0]), packets[1..])
  }

  // -- properties of every run -------------------------------------------------------

  lemma {:induction false} RunAppend(d: Node, ps: seq<Packet>, qs: seq<Packet>)
    ensures Run(d, ps + qs) == Run(Run(d, ps), qs)
    decreases ps
  {
    if ps == [] {
      assert ps + qs == qs;
    } else {
      assert (ps + qs)[1..] == ps[1..] + qs;
      RunAppend(Receive(d, ps[0]), ps[1..], qs);
    }
  }

  /** The last offset configuration among the packets that was meant for the device, or `cfg`. */
  function LastOffset(d: Node, cfg: OffsetPayload, packets: seq<Packet>): OffsetPayload {
    if packets == [] then cfg
    else
      var last := packets[|packets| - 1];
      if OffsetFor(d, last).Some? then OffsetFor(d, last).value else LastOffset(d, cfg, packets[..|packets| - 1])
  }

  /** Identity and group never change, and only a matching OPC_OFFSET changes the effective configuration. */
  lemma StepKeepsIdentity(d: Node, p: Packet)
    ensures Receive(d, p).last3 == d.last3 && Receive(d, p).group == d.group
    ensures Effective(Receive(d, p)) == if OffsetFor(d, p).Some? then OffsetFor(d, p).value else Effective(d)
  {
  }

  /** Over any packet sequence the effective configuration is exactly that of the last OPC_OFFSET meant
      for the device: no PRESET, CONTROL or SYNC, accepted or not, moves it. */
  lemma {:induction false} EffectiveIsLastOffset(d: Node, packets: seq<Packet>)
    ensures Run(d, packets).last3 == d.last3 && Run(d, packets).group == d.group
    ensures Effective(Run(d, packets)) == LastOffset(d, Effective(d), packets)
  {
    if packets != [] {
      var init, last := packets[..|packets| - 1], packets[|packets| - 1];
      assert packets == init + [last];
      EffectiveIsLastOffset(d, init);
      RunAppend(d, init, [last]);
      assert Run(Run(d, init), [last]) == Receive(Run(d, init), last);
      StepKeepsIdentity(Run(d, init), last);
    }
  }

  /** A packet that fails the gate changes nothing at all. */
  lemma DroppedPacketChangesNothing(d: Node, p: Packet)
    requires p.opcode == OpcPreset || p.opcode == OpcControl
    ensures !Accepts(d, p) ==> Receive(d, p) == d
    ensures Accepts(d, p) ==> (if IsArm(p) then Receive(d, p).armed != None && Receive(d, p).playing == d.playing
                               else Receive(d, p).playing != None && Receive(d, p).pending == None)
  {
  }

  /** The traffic that may pass between arming and firing: OPC_OFFSETs, packets the gate drops, clock ticks. */
  predicate KeepsCue(d: Node, p: Packet) {
    !Accepts(d, p) && !IsTrigger(p)
  }

  predicate AllKeepCue(d: Node, packets: seq<Packet>)
    decreases packets
  {
    packets != [] ==> KeepsCue(d, packets[0]) && AllKeepCue(Receive(d, packets[0]), packets[1..])
  }

  /** However many OPC_OFFSETs, dropped packets and clock ticks follow, an armed effect keeps the offset it
      was armed with, nothing fires, and a later trigger plays exactly that cue. */
  lemma {:induction false} ArmedCueSurvives(d: Node, packets: seq<Packet>, trigger: Packet)
    requires AllKeepCue(d, packets)
    requires IsTrigger(trigger) && HeaderMatches(d, trigger)
    ensures Run(d, packets).armed == d.armed && Run(d, packets).playing == d.playing
    ensures d.armed.Some? ==> Receive(Run(d, packets), trigger).playing == d.armed
    ensures d.armed.Some? ==> Receive(Run(d, packets), trigger).armed == None
    decreases packets
  {
    if packets != [] {
      ArmedCueSurvives(Receive(d, packets[0]), packets[1..], trigger);
    } else {
      assert OffsetFor(d, trigger) == None;
    }
  }

  /** A host tick is a SYNC without flags: four bytes, never a trigger, whatever time it carries. */
  lemma TicksNeverFire(ts24: int, brightness: int, flags: int)
    ensures |BuildSyncBody(ts24, brightness, flags)| == if U8(flags) == 0 then 4 else 5
    ensures IsTrigger(Packet(BROADCAST_RECEIVER, OpcSync, BuildSyncBody(ts24, brightness, flags))) <==> flags % 2 == 1
  {
    var body := BuildSyncBody(ts24, brightness, flags);
    LowBit(flags);
    if U8(flags) != 0 {
      assert body[4] == U8(flags);
    }
  }

  lemma LowBit(flags: int)
    ensures HasBit(U8(flags), SYNC_FLAG_TRIGGER_ARMED) <==> flags % 2 == 1
  {
    assert flags == 256 * (flags / 256) + U8(flags);
  }

  function Tick(ts24: int): Packet {
    Packet(BROADCAST_RECEIVER, OpcSync, BuildSyncBody(ts24, 0, 0))
  }

  function Ticks(times: seq<int>): (r: seq<Packet>)
    ensures |r| == |times|
  {
    if times == [] then [] else [Tick(times[0])] + Ticks(times[1..])
  }

  /** Three bytes carry the low 24 bits of the clock. */
  lemma TimeReadsBack(ts24: int)
    ensures TimeOf(Tick(ts24)) == Some(ts24 % 0x100_0000)
  {
    var ts := ts24 % 0x100_0000;
    assert ts == ts % 256 + 256 * (ts / 256) && ts / 256 == (ts / 0x100) % 256 + 256 * (ts / 0x1_0000);
    assert ts / 0x1_0000 < 256;
    assert BuildSyncBody(ts24, 0, 0)[..3] == Ts24Bytes(ts24);
  }

  lemma TickSetsTime(d: Node, ts24: int)
    ensures Receive(d, Tick(ts24)) == d.(timebase := ts24 % 0x100_0000)
  {
    TicksNeverFire(ts24, 0, 0);
    TimeReadsBack(ts24);
  }

  /** Any number of autosync ticks leaves a device as it was, armed effect included, but for its timebase, which is
      the last tick's. */
  lemma {:induction false} AutosyncIsHarmless(d: Node, times: seq<int>)
    ensures Run(d, Ticks(times)) == if times == [] then d else d.(timebase := times[|times| - 1] % 0x100_0000)
    decreases times
  {
    if times != [] {
      TickSetsTime(d, times[0]);
      AutosyncIsHarmless(d.(timebase := times[0] % 0x100_0000), times[1..]);
      assert Ticks(times)[1..] == Ticks(times[1..]);
    }
  }

  /** Effect packets never change the gate, so whether one is accepted does not depend on those before it. */
  lemma {:induction false} GateIsStable(d: Node, packets: seq<Packet>)
    requires forall i :: 0 <= i < |packets| ==> packets[i].opcode != OpcOffset
    ensures Effective(Run(d, packets)) == Effective(d)
    ensures forall i :: 0 <= i < |packets| ==> AcceptLog(d, packets)[i] == Accepts(d, packets[i])
    decreases packets
  {
    if packets != [] {
      var d' := Receive(d, packets[0]);
      StepKeepsIdentity(d, packets[0]);
      GateIsStable(d', packets[1..]);
      forall i | 0 < i < |packets|
        ensures AcceptLog(d, packets)[i] == Accepts(d, packets[i])
      {
        assert packets[i] == packets[1..][i - 1];
        assert Accepts(d', packets[i]) == Accepts(d, packets[i]);
      }
    }
  }

  /** Among effect packets, one that the gate would accept at the start and that arms is what a later trigger
      plays, with the offset the device had at the start, provided the traffic in between keeps the cue. */
  lemma ArmedThenFired(d: Node, effects: seq<Packet>, i: nat, later: seq<Packet>, trigger: Packet)
    requires i < |effects| && forall k :: 0 <= k < |effects| ==> effects[k].opcode != OpcOffset
    requires Accepts(d, effects[i]) && IsArm(effects[i])
    requires AllKeepCue(Run(d, effects[..i + 1]), later)
    requires IsTrigger(trigger) && HeaderMatches(d, trigger)
    ensures Receive(Run(Run(d, effects[..i + 1]), later), trigger).playing
         == Some(Cue(RequestOf(effects[i]).value.effect, Snapshot(d)))
  {
    var before := effects[..i];
    var d2 := Run(d, before);
    GateIsStable(d, before);
    EffectiveIsLastOffset(d, before);
    var d3 := Run(d, effects[..i + 1]);
    assert d3 == Receive(d2, effects[i]) by {
      assert effects[..i + 1] == before + [effects[i]];
      RunAppend(d, before, [effects[i]]);
      assert Run(d2, [effects[i]]) == Run(Receive(d2, effects[i]), []);
    }
    ArmingStores(d2, effects[i]);
    StepKeepsIdentity(d2, effects[i]);
    ArmedCueSurvives(d3, later, trigger);
  }

  lemma ArmingStores(d: Node, p: Packet)
    requires Accepts(d, p) && IsArm(p)
    ensures Receive(d, p).armed == Some(Cue(RequestOf(p).value.effect, Snapshot(d)))
  {
  }
}
