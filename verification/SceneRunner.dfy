/** Planned ops turned into packets, and what a whole container does to the devices on air.
    Sources: racelink/services/scene_runner_service.py, control_service.py, sync_service.py. */
module SceneRunner {
  import opened Common
  import opened Flags
  import opened OffsetFormula
  import opened OffsetCodec
  import opened ControlCodec
  import opened WireOps
  import opened OffsetOptimizer
  import opened Receiver
  import opened StrategyEquivalence
  import opened DispatchPlanner

  // -- the senders -----------------------------------------------------------------

  function ReceiverOf(r: Recipient): nat {
    match r
    case ToGroup(_) => BROADCAST_RECEIVER
    case ToDevice(dev) => dev.last3
  }

  function GroupByte(r: Recipient): Byte {
    match r
    case ToGroup(g) => U8(g)
    case ToDevice(dev) => U8(dev.groupId)
  }

  /** `send_control`: power-on derives from the masked brightness, has-bri is always set. */
  function SendControlPacket(params: EffectParams, r: Recipient): Packet {
    var brightness := U8(params.fields.brightness.GetOr(0));
    Packet(ReceiverOf(r), OpcControl,
           ControlBody(GroupByte(r), FlagsByte(brightness > 0, true, params.flags), CollectedFields(params.fields)))
  }

  /** `send_wled_preset`: preset 1 and brightness 0 when absent. */
  function SendPresetPacket(params: EffectParams, r: Recipient): Packet {
    var brightness := params.fields.brightness.GetOr(0);
    Packet(ReceiverOf(r), OpcPreset,
           BuildPresetBody(GroupByte(r), FlagsByte(brightness > 0, true, params.flags), params.presetId.GetOr(1), brightness))
  }

  /** `send_sync`. */
  function SendSyncPacket(ts24: int, brightness: int, triggerArmed: bool): Packet {
    Packet(BROADCAST_RECEIVER, OpcSync, BuildSyncBody(ts24, brightness, if triggerArmed then SYNC_FLAG_TRIGGER_ARMED else 0))
  }

  /** `_dispatch_op` at clock `ts24`; startblock control has a sender of its own. */
  function DispatchOp(op: WireOp, ts24: int): Option<Packet> {
    match (op.sender, op.payload)
    case (SendOffset, OffsetArgs(_)) => Some(EmitOffset(op))
    case (SendControl, EffectArgs(params, r)) => Some(SendControlPacket(params, r))
    case (SendWledPreset, EffectArgs(params, r)) => Some(SendPresetPacket(params, r))
    case (SendSync, SyncArgs(brightness, armed)) => Some(SendSyncPacket(ts24, brightness, armed))
    case (_, _) => None
  }

  predicate Dispatchable(ops: seq<WireOp>) {
    forall i :: 0 <= i < |ops| ==> DispatchOp(ops[i], 0).Some?
  }

  function DispatchAll(ops: seq<WireOp>, ts24: int): (packets: seq<Packet>)
    requires Dispatchable(ops)
    ensures |packets| == |ops|
    ensures forall i :: 0 <= i < |ops| ==> DispatchOp(ops[i], ts24) == Some(packets[i])
  {
    seq(|ops|, i requires 0 <= i < |ops| => DispatchOp(ops[i], ts24).value)
  }

  /** `_execute_plan`: a degraded plan sends nothing. */
  function Execute(plan: ActionPlan, ts24: int): seq<Packet>
    requires Dispatchable(plan.ops)
  {
    if plan.degraded then [] else DispatchAll(plan.ops, ts24)
  }

  // -- predicted sizes are the emitted sizes -------------------------------------------

  /** Either the op is an approximated startblock, or it is sent with exactly the predicted length. */
  predicate SizedRight(op: WireOp, ts24: int) {
    if op.approximate then op.sender.SendStartblock?
    else DispatchOp(op, ts24).Some? && |DispatchOp(op, ts24).value.body| == op.bodyBytes
  }

  predicate AllSizedRight(ops: seq<WireOp>, ts24: int) {
    forall i :: 0 <= i < |ops| ==> SizedRight(ops[i], ts24)
  }

  lemma EffectOpSized(kind: EffectKind, r: Recipient, params: EffectParams, ts24: int)
    ensures SizedRight(EffectOp(kind, r, params), ts24)
  {
    if kind.RlPreset? || kind.RlEffect? {
      var f := CollectedFields(params.fields);
      BodyLength(0, 0, f);
      BodyLength(GroupByte(r), FlagsByte(U8(params.fields.brightness.GetOr(0)) > 0, true, params.flags), f);
    }
  }

  lemma OffsetOpSized(g: int, p: OffsetPayload, ts24: int)
    ensures SizedRight(MakeOffsetOp(g, p), ts24)
  {
  }

  lemma OptimizerOpsSized(target: Target, spec: OffsetSpec, known: seq<int>, ts24: int)
    requires PlanOffsetSetup(target, spec, known).Success?
    ensures AllSizedRight(PlanOffsetSetup(target, spec, known).value.ops, ts24)
  {
    var ops := PlanOffsetSetup(target, spec, known).value.ops;
    if !spec.mode.ModeUnknown? && Candidates(target, spec, known) != [] {
      PlanIsCheapest(target, spec, known);
      forall i | 0 <= i < |ops|
        ensures SizedRight(ops[i], ts24)
      {
        var g, p := OpsAreOffsetOps(target, spec, known, OptimizerPlan(PlanOffsetSetup(target, spec, known).value.strategy, ops), i);
        OffsetOpSized(g, p, ts24);
      }
    }
  }

  lemma OpsAreOffsetOps(target: Target, spec: OffsetSpec, known: seq<int>, plan: OptimizerPlan, i: nat) returns (g: int, p: OffsetPayload)
    requires !spec.mode.ModeUnknown? && plan in Candidates(target, spec, known) && i < |plan.ops|
    ensures plan.ops[i] == MakeOffsetOp(g, p)
  {
    CandidateIsAStrategy(target, spec, known, plan);
    if Some(plan) == StrategyA(target, spec) {
      g, p := BROADCAST_GROUP, PayloadOf(spec);
    } else if Some(plan) == StrategyB(target, spec, known) {
      g, p := StrategyBOp(target, spec, known, i);
    } else {
      g, p := StrategyCOp(target, spec, known, i);
    }
  }

  lemma CandidateIsAStrategy(target: Target, spec: OffsetSpec, known: seq<int>, plan: OptimizerPlan)
    requires !spec.mode.ModeUnknown? && plan in Candidates(target, spec, known)
    ensures Some(plan) == StrategyA(target, spec) || Some(plan) == StrategyB(target, spec, known)
            || Some(plan) == StrategyC(target, spec, known)
  {
  }

  lemma StrategyBOp(target: Target, spec: OffsetSpec, known: seq<int>, i: nat) returns (g: int, p: OffsetPayload)
    requires !spec.mode.ModeUnknown? && StrategyB(target, spec, known).Some? && i < |StrategyB(target, spec, known).value.ops|
    ensures StrategyB(target, spec, known).value.ops[i] == MakeOffsetOp(g, p)
  {
    g := ConcreteGroups(target, known)[i];
    p := PerGroupPayload(target, spec, g);
  }

  lemma StrategyCOp(target: Target, spec: OffsetSpec, known: seq<int>, i: nat) returns (g: int, p: OffsetPayload)
    requires StrategyC(target, spec, known).Some? && i < |StrategyC(target, spec, known).value.ops|
    ensures StrategyC(target, spec, known).value.ops[i] == MakeOffsetOp(g, p)
  {
    if i == 0 {
      g, p := BROADCAST_GROUP, PayloadOf(spec);
    } else {
      g, p := NonParticipants(known, target.ids)[i - 1], ClearOffset;
    }
  }

  lemma EffectBytesAreSent(a: Action, env: Env, force: Option<bool>, ts24: int)
    requires a.EffectAction?
    ensures AllSizedRight(EffectPlan(a, env, force).ops, ts24)
  {
    var plan := EffectPlan(a, env, force);
    forall i | 0 <= i < |plan.ops|
      ensures SizedRight(plan.ops[i], ts24)
    {
      var recipients := ResolveTarget(a.target, env).value;
      var (base, persisted) := MaterialiseParams(a.kind, a.params, env).value;
      EffectOpSized(a.kind, recipients[i], base.(flags := MergedFlags(persisted, WithForce(a.override, force))), ts24);
    }
  }

  lemma TaggedSized(ops: seq<WireOp>, phase: Phase, rest: seq<WireOp>, ts24: int)
    requires AllSizedRight(ops, ts24) && AllSizedRight(rest, ts24)
    ensures AllSizedRight(Tagged(ops, phase) + rest, ts24)
  {
    forall i | 0 <= i < |ops|
      ensures SizedRight(Tagged(ops, phase)[i], ts24)
    {
      assert SizedRight(ops[i], ts24);
    }
  }

  /** What the cost estimator adds up is what the runner puts on air, for every action that plans at all,
      nested containers included. */
  lemma {:induction false} PredictedBytesAreSent(a: Action, env: Env, force: Option<bool>, ts24: int)
    requires Plan(a, env, force).Success?
    ensures AllSizedRight(Plan(a, env, force).value.ops, ts24)
    decreases a, 1
  {
    match a
    case Delay =>
    case Sync => TicksNeverFire(ts24, 0, SYNC_FLAG_TRIGGER_ARMED);
    case OffsetGroup(_, _, children) =>
      OptimizerOpsSized(ContainerTarget(a), ContainerSpec(a), env.known, ts24);
      ChildBytesAreSent(children, env, Some(!ContainerSpec(a).mode.ModeNone?), 0, ts24);
      TaggedSized(PlanOffsetSetup(ContainerTarget(a), ContainerSpec(a), env.known).value.ops, OffsetPhase,
                  PlanChildren(children, env, Some(!ContainerSpec(a).mode.ModeNone?), 0).value.0, ts24);
    case EffectAction(_, _, _, _) => EffectBytesAreSent(a, env, force, ts24);
    case UnknownAction =>
  }

  lemma {:induction false} ChildBytesAreSent(children: seq<Action>, env: Env, force: Option<bool>, index: nat, ts24: int)
    requires PlanChildren(children, env, force, index).Success?
    ensures AllSizedRight(PlanChildren(children, env, force, index).value.0, ts24)
    decreases children, 0
  {
    if children != [] {
      PredictedBytesAreSent(children[0], env, force, ts24);
      ChildBytesAreSent(children[1..], env, force, index + 1, ts24);
      TaggedSized(Plan(children[0], env, force).value.ops, ChildPhase(index),
                  PlanChildren(children[1..], env, force, index + 1).value.0, ts24);
    }
  }

  // -- what a child's packets say ----------------------------------------------------------

  /** The kinds a container may hold: all of them carry flags (racelink/services/scenes_service.py:90-94). */
  predicate IsChild(a: Action) {
    a.EffectAction? && !a.kind.Startblock?
  }

  predicate AreChildren(children: seq<Action>) {
    forall i :: 0 <= i < |children| ==> IsChild(children[i])
  }

  /** An effect op that asks for offset mode exactly when `wanted`. */
  predicate EffectOpWants(op: WireOp, wanted: bool) {
    && op.payload.EffectArgs?
    && (op.sender == SendControl || op.sender == SendWledPreset)
    && (OffsetMode in op.payload.params.flags <==> wanted)
  }

  lemma ControlRequest(p: Packet, g: int, flags: Byte, f: ControlFields)
    requires p.opcode == OpcControl && p.body == ControlBody(g, flags, f)
    ensures RequestOf(p) == Some(EffectRequest(U8(g), flags, ControlEffect(Reduced(g, flags, f))))
  {
    DecodeAfterBuild(g, flags, f);
  }

  lemma ControlOnTheWire(params: EffectParams, r: Recipient)
    ensures var p := SendControlPacket(params, r);
            && RequestOf(p).Some? && RequestOf(p).value.groupId == GroupByte(r)
            && (WantsOffset(p) <==> OffsetMode in params.flags)
            && (IsArm(p) <==> ArmOnSync in params.flags)
  {
    var power := U8(params.fields.brightness.GetOr(0)) > 0;
    FlagsReadBack(power, true, params.flags);
    ControlRequest(SendControlPacket(params, r), GroupByte(r), FlagsByte(power, true, params.flags), CollectedFields(params.fields));
  }

  lemma PresetRequest(p: Packet, g: int, flags: Byte, presetId: int, brightness: int)
    requires p.opcode == OpcPreset && p.body == BuildPresetBody(g, flags, presetId, brightness)
    ensures RequestOf(p) == Some(EffectRequest(U8(g), flags, PresetEffect(U8(presetId), U8(brightness))))
  {
  }

  lemma PresetOnTheWire(params: EffectParams, r: Recipient)
    ensures var p := SendPresetPacket(params, r);
            && RequestOf(p).Some? && RequestOf(p).value.groupId == GroupByte(r)
            && (WantsOffset(p) <==> OffsetMode in params.flags)
            && (IsArm(p) <==> ArmOnSync in params.flags)
  {
    var brightness := params.fields.brightness.GetOr(0);
    FlagsReadBack(brightness > 0, true, params.flags);
    PresetRequest(SendPresetPacket(params, r), GroupByte(r), FlagsByte(brightness > 0, true, params.flags),
                  params.presetId.GetOr(1), brightness);
  }

  /** Masking the params to bytes first loses nothing that the wire could have carried. */
  lemma CollectingIsHarmless(g: int, flags: int, f: ControlFields)
    ensures Reduced(g, flags, CollectedFields(f)) == Reduced(g, flags, f)
  {
    assert forall v: int {:trigger U8(v)} :: U8(U8(v)) == U8(v) && U8(v) % 32 == v % 32;
  }

  /** A device decodes from a sent control exactly the params at their bit widths, with the power bit on exactly
      when the brightness byte is not zero. */
  lemma ControlCarriesParams(params: EffectParams, r: Recipient)
    ensures var q := RequestOf(SendControlPacket(params, r));
            && q.Some? && q.value.effect == ControlEffect(Reduced(GroupByte(r), q.value.flags, params.fields))
            && (HasBit(q.value.flags, RL_FLAG_POWER_ON) <==> params.fields.brightness.Some? && U8(params.fields.brightness.value) != 0)
            && HasBit(q.value.flags, RL_FLAG_HAS_BRI)
  {
    var power := U8(params.fields.brightness.GetOr(0)) > 0;
    var flags := FlagsByte(power, true, params.flags);
    FlagsReadBack(power, true, params.flags);
    ControlRequest(SendControlPacket(params, r), GroupByte(r), flags, CollectedFields(params.fields));
    CollectingIsHarmless(GroupByte(r), flags, params.fields);
  }

  /** On the wire an effect op is a well-formed request with the recipient's group, and its flag bits are its flags. */
  lemma EffectOnTheWire(op: WireOp, wanted: bool, ts24: int)
    requires EffectOpWants(op, wanted)
    ensures DispatchOp(op, ts24).Some?
    ensures var p := DispatchOp(op, ts24).value;
            && p.opcode != OpcOffset
            && p.receiver == ReceiverOf(op.payload.recipient)
            && RequestOf(p).Some? && RequestOf(p).value.groupId == GroupByte(op.payload.recipient)
            && (WantsOffset(p) <==> wanted)
            && (IsArm(p) <==> ArmOnSync in op.payload.params.flags)
  {
    if op.sender == SendControl {
      ControlOnTheWire(op.payload.params, op.payload.recipient);
    } else {
      PresetOnTheWire(op.payload.params, op.payload.recipient);
    }
  }

  lemma ChildOpsWant(a: Action, env: Env, force: bool)
    requires IsChild(a)
    ensures var ops := EffectPlan(a, env, Some(force)).ops;
            forall i :: 0 <= i < |ops| ==> EffectOpWants(ops[i], force)
  {
  }

  lemma {:induction false} ChildrenOpsWant(children: seq<Action>, env: Env, force: bool, index: nat)
    requires AreChildren(children)
    ensures PlanChildren(children, env, Some(force), index).Success?
    ensures var ops := PlanChildren(children, env, Some(force), index).value.0;
            forall i :: 0 <= i < |ops| ==> EffectOpWants(ops[i], force)
    decreases children
  {
    if children != [] {
      ChildOpsWant(children[0], env, force);
      ChildrenOpsWant(children[1..], env, force, index + 1);
    }
  }

  // -- end to end ------------------------------------------------------------------------------

  /** A container as the validator stores it. */
  predicate Admitted(a: Action) {
    a.OffsetGroup? && AreChildren(a.children) && ValidContainer(ContainerTarget(a), ContainerSpec(a))
  }

  /** The flag every child of the container is forced to carry. */
  function ForcedFlag(a: Action): bool
    requires a.OffsetGroup?
  {
    !ContainerSpec(a).mode.ModeNone?
  }

  lemma PlannedOpsAreOffsets(target: Target, spec: OffsetSpec, known: seq<int>)
    requires ValidContainer(target, spec)
    ensures PlanOffsetSetup(target, spec, known).Success? && AllOffsets(PlanOffsetSetup(target, spec, known).value.ops)
  {
    var plan := PlanOffsetSetup(target, spec, known).value;
    if Candidates(target, spec, known) != [] {
      PlanIsCheapest(target, spec, known);
      forall i | 0 <= i < |plan.ops|
        ensures plan.ops[i].payload.OffsetArgs? && plan.ops[i].opcode == OpcOffset && plan.ops[i].sender == SendOffset
      {
        var g, p := OpsAreOffsetOps(target, spec, known, plan, i);
      }
    }
  }

  /** The packets of the offset phase. */
  function SetupPackets(a: Action, env: Env): (r: seq<Packet>)
    requires Admitted(a)
    ensures forall i :: 0 <= i < |r| ==> r[i].opcode == OpcOffset
  {
    PlannedOpsAreOffsets(ContainerTarget(a), ContainerSpec(a), env.known);
    EmitOffsets(PlanOffsetSetup(ContainerTarget(a), ContainerSpec(a), env.known).value.ops)
  }

  function ChildOps(a: Action, env: Env): (ops: seq<WireOp>)
    requires Admitted(a)
    ensures forall i :: 0 <= i < |ops| ==> EffectOpWants(ops[i], ForcedFlag(a))
  {
    ChildrenOpsWant(a.children, env, ForcedFlag(a), 0);
    PlanChildren(a.children, env, Some(ForcedFlag(a)), 0).value.0
  }

  lemma EffectOpsDispatch(ops: seq<WireOp>, wanted: bool, ts24: int)
    requires forall i :: 0 <= i < |ops| ==> EffectOpWants(ops[i], wanted)
    ensures Dispatchable(ops)
    ensures forall i :: 0 <= i < |ops| ==>
              var p := DispatchAll(ops, ts24)[i];
              p.opcode != OpcOffset && RequestOf(p).Some? && (WantsOffset(p) <==> wanted)
  {
    forall i | 0 <= i < |ops|
      ensures DispatchOp(ops[i], 0).Some? && DispatchOp(ops[i], ts24).Some?
      ensures var p := DispatchOp(ops[i], ts24).value;
              p.opcode != OpcOffset && RequestOf(p).Some? && (WantsOffset(p) <==> wanted)
    {
      EffectOnTheWire(ops[i], wanted, 0);
      EffectOnTheWire(ops[i], wanted, ts24);
    }
  }

  /** The packets of the children, in order. */
  function ChildPackets(a: Action, env: Env, ts24: int): (r: seq<Packet>)
    requires Admitted(a)
    ensures forall i :: 0 <= i < |r| ==>
              r[i].opcode != OpcOffset && RequestOf(r[i]).Some? && (WantsOffset(r[i]) <==> ForcedFlag(a))
  {
    EffectOpsDispatch(ChildOps(a, env), ForcedFlag(a), ts24);
    DispatchAll(ChildOps(a, env), ts24)
  }

  lemma DispatchAppend(first: seq<WireOp>, second: seq<WireOp>, ts24: int)
    requires Dispatchable(first) && Dispatchable(second)
    ensures Dispatchable(first + second)
    ensures DispatchAll(first + second, ts24) == DispatchAll(first, ts24) + DispatchAll(second, ts24)
  {
    var all := first + second;
    forall i | 0 <= i < |all|
      ensures DispatchOp(all[i], 0).Some?
    {
      if i < |first| {
        assert DispatchOp(first[i], 0).Some?;
      } else {
        assert DispatchOp(second[i - |first|], 0).Some?;
      }
    }
  }

  /** Tagging the offset ops with their phase does not change what is sent. */
  lemma OffsetOpsDispatch(ops: seq<WireOp>, ts24: int)
    requires AllOffsets(ops)
    ensures Dispatchable(Tagged(ops, OffsetPhase))
    ensures DispatchAll(Tagged(ops, OffsetPhase), ts24) == EmitOffsets(ops)
  {
    forall i | 0 <= i < |ops|
      ensures DispatchOp(Tagged(ops, OffsetPhase)[i], 0) == Some(EmitOffset(ops[i]))
      ensures DispatchOp(Tagged(ops, OffsetPhase)[i], ts24) == Some(EmitOffset(ops[i]))
    {
    }
  }

  lemma ContainerOps(a: Action, env: Env)
    requires Admitted(a)
    ensures PlanOffsetSetup(ContainerTarget(a), ContainerSpec(a), env.known).Success? && Plan(a, env, None).Success?
    ensures Plan(a, env, None).value.ops
         == Tagged(PlanOffsetSetup(ContainerTarget(a), ContainerSpec(a), env.known).value.ops, OffsetPhase) + ChildOps(a, env)
  {
    PlannedOpsAreOffsets(ContainerTarget(a), ContainerSpec(a), env.known);
    ChildrenOpsWant(a.children, env, ForcedFlag(a), 0);
  }

  /** Running an admitted container that is not degraded puts its two phases on air and nothing else. */
  lemma ContainerPhases(a: Action, env: Env, ts24: int)
    requires Admitted(a)
    ensures Plan(a, env, None).Success? && Dispatchable(Plan(a, env, None).value.ops)
    ensures Execute(Plan(a, env, None).value, ts24)
         == if Plan(a, env, None).value.degraded then [] else SetupPackets(a, env) + ChildPackets(a, env, ts24)
  {
    ContainerOps(a, env);
    PlannedOpsAreOffsets(ContainerTarget(a), ContainerSpec(a), env.known);
    var planned, children := PlanOffsetSetup(ContainerTarget(a), ContainerSpec(a), env.known).value.ops, ChildOps(a, env);
    OffsetOpsDispatch(planned, ts24);
    EffectOpsDispatch(children, ForcedFlag(a), ts24);
    DispatchAppend(Tagged(planned, OffsetPhase), children, ts24);
  }

  /** Whether the container serves devices of that group. */
  predicate Serves(a: Action, env: Env, group: int)
    requires a.OffsetGroup?
  {
    Served(ContainerTarget(a), ContainerSpec(a), env.known, group)
  }

  /** Whether the container's setup leaves the device in offset mode. */
  predicate SetsUp(a: Action, env: Env, d: Node)
    requires a.OffsetGroup?
  {
    EndsInOffsetMode(ContainerTarget(a), ContainerSpec(a), env.known, d)
  }

  /** After the offset phase a device still is itself and only its pending configuration can have moved. */
  lemma AfterSetup(a: Action, env: Env, d: Node)
    requires Admitted(a) && GroupIds(env.known)
    ensures var d' := Run(d, SetupPackets(a, env));
            && d'.(pending := d.pending) == d
            && (Serves(a, env, d.group) ==> ParticipantServed(ContainerSpec(a), d'))
            && (InOffsetMode(d') <==> SetsUp(a, env, d))
  {
    SetupEffect(ContainerTarget(a), ContainerSpec(a), env.known, d);
  }

  /** Whom a container selects: whatever children it has, however many, immediate or armed, for whatever recipients, and
      whatever state a device is in and whether or not the host knows its group, the device accepts a child's packet if
      and only if the packet is addressed to it and the setup leaves it in the mode the children want. */
  lemma ContainerSelects(a: Action, env: Env, ts24: int, d: Node)
    requires Admitted(a) && GroupIds(env.known)
    ensures forall i :: 0 <= i < |ChildPackets(a, env, ts24)| ==>
              (AcceptLog(Run(d, SetupPackets(a, env)), ChildPackets(a, env, ts24))[i]
               <==> Addressed(d, ChildPackets(a, env, ts24)[i]) && (SetsUp(a, env, d) <==> ForcedFlag(a)))
  {
    AfterSetup(a, env, d);
    GateIsStable(Run(d, SetupPackets(a, env)), ChildPackets(a, env, ts24));
  }

  /** So for devices of known groups a formula container selects exactly its participants if and only if no other device
      is left in offset mode by an earlier one, or the formula goes out with its clears. */
  lemma SelectsExactlyIff(a: Action, env: Env, ts24: int, d: Node, i: nat)
    requires Admitted(a) && ForcedFlag(a) && GroupIds(env.known) && d.group in env.known
    requires i < |ChildPackets(a, env, ts24)| && Addressed(d, ChildPackets(a, env, ts24)[i])
    ensures (AcceptLog(Run(d, SetupPackets(a, env)), ChildPackets(a, env, ts24))[i] <==> Participates(ContainerTarget(a), d.group))
       <==> || Participates(ContainerTarget(a), d.group) || !InOffsetMode(d)
            || GoesOutAsFormula(ContainerTarget(a).ids, ContainerSpec(a), env.known)
  {
    ContainerSelects(a, env, ts24, d);
    KnownAreServed(a, env, d);
  }

  /** A participant of a known group is served. */
  lemma KnownAreServed(a: Action, env: Env, d: Node)
    requires Admitted(a) && d.group in env.known
    ensures Serves(a, env, d.group) <==> Participates(ContainerTarget(a), d.group)
  {
    if |env.known| == 1 {
      assert env.known == [env.known[0]];
    }
  }

  /** In particular a device of a known group that starts out of offset mode accepts a child's packet if and only if it
      is in a participating group and the packet is addressed to it. */
  lemma FormulaContainerSelects(a: Action, env: Env, ts24: int, d: Node)
    requires Admitted(a) && ForcedFlag(a)
    requires GroupIds(env.known) && d.group in env.known && !InOffsetMode(d)
    ensures forall i :: 0 <= i < |ChildPackets(a, env, ts24)| ==>
              (AcceptLog(Run(d, SetupPackets(a, env)), ChildPackets(a, env, ts24))[i]
               <==> Participates(ContainerTarget(a), d.group) && Addressed(d, ChildPackets(a, env, ts24)[i]))
  {
    ContainerSelects(a, env, ts24, d);
    KnownAreServed(a, env, d);
  }

  /** A clearing container makes every listed device accept every child addressed to it, whatever state the
      device was in; an unlisted device accepts exactly what it would have accepted anyway. */
  lemma ClearContainerSelects(a: Action, env: Env, ts24: int, d: Node)
    requires Admitted(a) && !ForcedFlag(a) && GroupIds(env.known)
    ensures forall i :: 0 <= i < |ChildPackets(a, env, ts24)| ==>
              (AcceptLog(Run(d, SetupPackets(a, env)), ChildPackets(a, env, ts24))[i]
               <==> Addressed(d, ChildPackets(a, env, ts24)[i])
                    && (Participates(ContainerTarget(a), d.group) || !InOffsetMode(d)))
  {
    ContainerSelects(a, env, ts24, d);
  }

  lemma BroadcastIsAddressed(d: Node, p: Packet)
    requires p.receiver == BROADCAST_RECEIVER && RequestOf(p).Some? && RequestOf(p).value.groupId == BROADCAST_GROUP
    ensures Addressed(d, p)
  {
  }

  /** A broadcast child is addressed to every device. */
  lemma BroadcastChildReachesAll(op: WireOp, wanted: bool, ts24: int, d: Node)
    requires EffectOpWants(op, wanted) && op.payload.recipient == ToGroup(BROADCAST_GROUP)
    ensures DispatchOp(op, ts24).Some? && Addressed(d, DispatchOp(op, ts24).value)
  {
    EffectOnTheWire(op, wanted, ts24);
    BroadcastIsAddressed(d, DispatchOp(op, ts24).value);
  }

  /** What the scene's SYNC action sends. */
  function SyncPackets(ts24: int): (r: seq<Packet>)
    ensures r == [SendSyncPacket(ts24, 0, true)]
  {
    assert DispatchOp(SyncPlan().ops[0], ts24) == Some(SendSyncPacket(ts24, 0, true));
    Execute(SyncPlan(), ts24)
  }

  lemma SyncActionTriggers(ts24: int, d: Node)
    ensures IsTrigger(SendSyncPacket(ts24, 0, true)) && HeaderMatches(d, SendSyncPacket(ts24, 0, true))
  {
    TicksNeverFire(ts24, 0, SYNC_FLAG_TRIGGER_ARMED);
  }

  /** The delay a container means for a group. */
  function IntendedDelay(a: Action, group: int): int
    requires Admitted(a)
  {
    ClampMs(IntendedMs(ContainerSpec(a), group))
  }

  function EffectOf(p: Packet): Effect
    requires RequestOf(p).Some?
  {
    RequestOf(p).value.effect
  }

  /** A whole scene: a formula container arms child `i` on a device it serves; then come the container's remaining
      packets and any later traffic that is neither accepted by the device nor a trigger (reconfigurations by
      OPC_OFFSET and clock ticks included); then the scene's SYNC action. The device starts exactly that child's
      effect, with exactly the delay the container means for the device's group. */
  lemma ArmedChildFires(a: Action, env: Env, ts24: int, d: Node, setup: seq<Packet>, effects: seq<Packet>, i: nat,
                        later: seq<Packet>, fireTs: int)
    requires Admitted(a) && ForcedFlag(a)
    requires GroupIds(env.known) && Serves(a, env, d.group)
    requires setup == SetupPackets(a, env) && effects == ChildPackets(a, env, ts24)
    requires i < |effects| && IsArm(effects[i]) && Addressed(d, effects[i])
    requires AllKeepCue(Run(Run(d, setup), effects[..i + 1]), effects[i + 1..] + later)
    ensures Run(d, setup + effects + later + SyncPackets(fireTs)).playing
         == Some(Cue(EffectOf(effects[i]), IntendedDelay(a, d.group)))
  {
    var trigger := SendSyncPacket(fireTs, 0, true);
    SyncActionTriggers(fireTs, d);
    AfterSetup(a, env, d);
    ArmedThenFired(Run(d, setup), effects, i, effects[i + 1..] + later, trigger);
    SceneSplits(d, setup, effects, i, later, trigger);
  }

  /** One preset for everybody, armed, inside a linear container for group 3. */
  const EXAMPLE: Action := OffsetGroup(
    Some(Groups([3])), Some(OffsetSpec(ModeLinear, 0, 0, 100, 0, 1, [])),
    [EffectAction(WledPreset, Broadcast, EffectParams(NO_FIELDS, Some(5), {}), map[ArmOnSync := true])])

  const NO_FIELDS: ControlFields :=
    ControlFields(None, None, None, None, None, None, None, None, None, None, None, None, None, None)

  /** The container of `EXAMPLE` arms its child on any device of group 3: what ArmedChildFires asks for does happen. */
  lemma ArmedChildHappens(d: Node, ts24: int)
    requires d.group == 3
    ensures var env := Env([3], None, None);
            && Admitted(EXAMPLE) && ForcedFlag(EXAMPLE) && Serves(EXAMPLE, env, d.group)
            && |ChildPackets(EXAMPLE, env, ts24)| == 1
            && IsArm(ChildPackets(EXAMPLE, env, ts24)[0]) && Addressed(d, ChildPackets(EXAMPLE, env, ts24)[0])
            && AllKeepCue(Run(Run(d, SetupPackets(EXAMPLE, env)), ChildPackets(EXAMPLE, env, ts24)[..1]),
                          ChildPackets(EXAMPLE, env, ts24)[1..] + [])
  {
    var env := Env([3], None, None);
    assert Admitted(EXAMPLE) by {
      assert EXAMPLE.children[0].kind == WledPreset;
    }
    var ops := ChildOps(EXAMPLE, env);
    OnlyChild(EXAMPLE.children[0], env);
    EffectOnTheWire(ops[0], true, ts24);
    EffectOpsDispatch(ops, true, ts24);
    BroadcastIsAddressed(d, DispatchAll(ops, ts24)[0]);
    assert ChildPackets(EXAMPLE, env, ts24)[1..] + [] == [];
  }

  lemma OnlyChild(child: Action, env: Env)
    requires IsChild(child) && child.target.Broadcast? && !child.kind.RlPreset?
    ensures var r := PlanChildren([child], env, Some(true), 0);
            && r.Success? && |r.value.0| == 1 && r.value.0[0].payload.EffectArgs?
            && r.value.0[0].payload.recipient == ToGroup(BROADCAST_GROUP)
            && r.value.0[0].payload.params.flags == MergedFlags({}, child.override[OffsetMode := true])
  {
    assert [child][1..] == [];
    assert PlanChildren([], env, Some(true), 1) == Success(([], false));
  }

  lemma SceneSplits(d: Node, setup: seq<Packet>, effects: seq<Packet>, i: nat, later: seq<Packet>, trigger: Packet)
    requires i < |effects|
    ensures Run(d, setup + effects + later + [trigger])
         == Receive(Run(Run(Run(d, setup), effects[..i + 1]), effects[i + 1..] + later), trigger)
  {
    var rest := effects[i + 1..] + later;
    assert setup + effects + later + [trigger] == setup + (effects[..i + 1] + (rest + [trigger]));
    RunAppend(d, setup, effects[..i + 1] + (rest + [trigger]));
    RunAppend(Run(d, setup), effects[..i + 1], rest + [trigger]);
    RunAppend(Run(Run(d, setup), effects[..i + 1]), rest, [trigger]);
    var last := Run(Run(Run(d, setup), effects[..i + 1]), rest);
    assert Run(last, [trigger]) == Run(Receive(last, trigger), []);
  }
}
