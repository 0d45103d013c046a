/** Planned wire sends: the shapes shared by the offset optimizer and the dispatch planner. */
module WireOps {
  import opened Common
  import opened Flags
  import opened OffsetCodec
  import opened ControlCodec

  const BROADCAST_GROUP := 255

  /** A canonical `target`; `OtherTarget` is any shape without a known kind. */
  datatype Target = Broadcast | Groups(ids: seq<int>) | Device(mac: string) | OtherTarget

  datatype Opcode = OpcOffset | OpcControl | OpcPreset | OpcSync

  datatype Sender = SendOffset | SendControl | SendWledPreset | SendStartblock | SendSync

  /** A device as the host's repository knows it: the last three address bytes and its stored group. */
  datatype HostDevice = HostDevice(last3: nat, groupId: int)

  datatype Recipient = ToGroup(group: int) | ToDevice(device: HostDevice)

  /** The `params` of an effect: the effect fields, a WLED preset number, and the user flags that are true. */
  datatype EffectParams = EffectParams(fields: ControlFields, presetId: Option<int>, flags: set<FlagKey>)

  datatype Payload =
    | OffsetArgs(offset: OffsetPayload)
    | EffectArgs(params: EffectParams, recipient: Recipient)
    | SyncArgs(brightness: int, triggerArmed: bool)

  /** The `detail` tags by which the runner groups the packets of a container. */
  datatype Phase = NoPhase | OffsetPhase | ChildPhase(index: nat)

  /** `WireOp`. */
  datatype WireOp = WireOp(
    opcode: Opcode, targetGroup: int, payload: Payload, bodyBytes: nat, sender: Sender,
    phase: Phase, approximate: bool)

  function TotalBytes(ops: seq<WireOp>): nat {
    if ops == [] then 0 else ops[0].bodyBytes + TotalBytes(ops[1..])
  }

  lemma {:induction false} TotalBytesOfEqual(ops: seq<WireOp>, n: nat)
    requires forall i :: 0 <= i < |ops| ==> ops[i].bodyBytes == n
    ensures TotalBytes(ops) == n * |ops|
  {
    if ops != [] {
      TotalBytesOfEqual(ops[1..], n);
    }
  }
}
