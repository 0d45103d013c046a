/** What the runner would send for a scene action (racelink/services/dispatch_planner.py). */
module DispatchPlanner {
  import opened Common
  import opened Flags
  import opened OffsetFormula
  import opened ControlCodec
  import opened WireOps
  import opened OffsetOptimizer
  import opened Receiver

  datatype EffectKind = RlPreset | WledPreset | RlEffect | Startblock

  /** A scene action. For `RlPreset` the params' `presetId` is the reference that is looked up. */
  datatype Action =
    | Delay
    | Sync
    | OffsetGroup(container: Option<Target>, offset: Option<OffsetSpec>, children: seq<Action>)
    | EffectAction(kind: EffectKind, target: Target, params: EffectParams, override: map<FlagKey, bool>)
    | UnknownAction

  datatype Preset = Preset(params: EffectParams, flags: set<FlagKey>)

  /** The host state the planner is given; an absent lookup is `None`. */
  datatype Env = Env(known: seq<int>, presets: Option<map<int, Preset>>, devices: Option<map<string, HostDevice>>)

  datatype Degradation = TargetNotFound | MissingPresetId | PresetNotFound | UnknownKind

  datatype ActionPlan = ActionPlan(ops: seq<WireOp>, degraded: bool, error: Option<Degradation>)

  function Degraded(e: Degradation): ActionPlan {
    ActionPlan([], true, Some(e))
  }

  // -- helpers -------------------------------------------------------------------

  /** `_resolve_target`. */
  function ResolveTarget(target: Target, env: Env): Option<seq<Recipient>> {
    match target
    case Broadcast => Some([ToGroup(BROADCAST_GROUP)])
    case Groups(ids) => if ids == [] then None else Some(seq(|ids|, i requires 0 <= i < |ids| => ToGroup(ids[i])))
    case Device(mac) =>
      if env.devices.Some? && mac in env.devices.value then Some([ToDevice(env.devices.value[mac])]) else None
    case OtherTarget => None
  }

  /** `_target_group_for_op`. */
  function TargetGroupForOp(r: Recipient): int {
    match r
    case ToGroup(g) => g
    case ToDevice(dev) => if 0 <= dev.groupId <= 254 then dev.groupId else BROADCAST_GROUP
  }

  /** The params and persisted flags an effect starts from; an RL preset is looked up by reference and
      keeps only a brightness of its own. */
  function MaterialiseParams(kind: EffectKind, params: EffectParams, env: Env): Result<(EffectParams, set<FlagKey>), Degradation> {
    if !kind.RlPreset? then Success((params, {}))
    else if params.presetId.None? then Failure(MissingPresetId)
    else if env.presets.None? then Success((params.(presetId := None), {}))
    else if params.presetId.value !in env.presets.value then Failure(PresetNotFound)
    else
      var preset := env.presets.value[params.presetId.value];
      var own := params.fields.brightness;
      Success((if own.Some? then preset.params.(fields := preset.params.fields.(brightness := own)) else preset.params,
               preset.flags))
  }

  /** A container's verdict on the offset flag beats the child's own override. */
  function WithForce(override: map<FlagKey, bool>, force: Option<bool>): map<FlagKey, bool> {
    if force.Some? then override[OffsetMode := force.value] else override
  }

  function MaskInt(v: Option<int>): Option<int> {
    if v.None? then None else Some(U8(v.value))
  }

  function MaskRgb(c: Option<Rgb>): Option<Rgb> {
    if c.None? then None else Some(Rgb(U8(c.value.r), U8(c.value.g), U8(c.value.b)))
  }

  /** The builder arguments collected from the params, each masked to a byte. */
  function CollectedFields(f: ControlFields): ControlFields {
    ControlFields(
      MaskInt(f.brightness), MaskInt(f.mode), MaskInt(f.speed), MaskInt(f.intensity),
      MaskInt(f.custom1), MaskInt(f.custom2), MaskInt(f.custom3), f.check1, f.check2, f.check3,
      MaskInt(f.palette), MaskRgb(f.color1), MaskRgb(f.color2), MaskRgb(f.color3))
  }

  /** `_control_body_len`: sized with group 0 and no flags. */
  function ControlBodyLen(params: EffectParams): nat {
    |ControlBody(0, 0, CollectedFields(params.fields))|
  }

  /** `_build_effect_op`. */
  function EffectOp(kind: EffectKind, recipient: Recipient, params: EffectParams): WireOp {
    var payload := EffectArgs(params, recipient);
    if kind.WledPreset? then
      WireOp(OpcPreset, TargetGroupForOp(recipient), payload, |BuildPresetBody(0, 0, 0, 0)|, SendWledPreset, NoPhase, false)
    else
      WireOp(OpcControl, TargetGroupForOp(recipient), payload, ControlBodyLen(params),
             if kind.Startblock? then SendStartblock else SendControl, NoPhase, kind.Startblock?)
  }

  // -- the plan as a function --------------------------------------------------------

  function EffectOps(kind: EffectKind, recipients: seq<Recipient>, params: EffectParams): (ops: seq<WireOp>)
    ensures |ops| == |recipients|
    ensures forall i :: 0 <= i < |ops| ==> ops[i] == EffectOp(kind, recipients[i], params)
  {
    seq(|recipients|, i requires 0 <= i < |recipients| => EffectOp(kind, recipients[i], params))
  }

  function EffectPlan(a: Action, env: Env, force: Option<bool>): ActionPlan
    requires a.EffectAction?
  {
    var recipients := ResolveTarget(a.target, env);
    if recipients.None? then Degraded(TargetNotFound)
    else
      match MaterialiseParams(a.kind, a.params, env)
      case Failure(e) => Degraded(e)
      case Success((base, persisted)) =>
        var params := base.(flags := MergedFlags(persisted, WithForce(a.override, force)));
        ActionPlan(EffectOps(a.kind, recipients.value, params), false, None)
  }

  function SyncPlan(): ActionPlan {
    ActionPlan([WireOp(OpcSync, BROADCAST_GROUP, SyncArgs(0, true), |BuildSyncBody(0, 0, SYNC_FLAG_TRIGGER_ARMED)|, SendSync, NoPhase, false)],
               false, None)
  }

  function Tagged(ops: seq<WireOp>, phase: Phase): (r: seq<WireOp>)
    ensures |r| == |ops|
    ensures forall i :: 0 <= i < |ops| ==> r[i] == ops[i].(phase := phase)
  {
    seq(|ops|, i requires 0 <= i < |ops| => ops[i].(phase := phase))
  }

  function ContainerTarget(a: Action): Target
    requires a.OffsetGroup?
  {
    a.container.GetOr(Broadcast)
  }

  function ContainerSpec(a: Action): OffsetSpec
    requires a.OffsetGroup?
  {
    a.offset.GetOr(OffsetSpec(ModeNone, 0, 0, 0, 0, 1, []))
  }

  /** `plan_action_dispatch`. */
  function Plan(a: Action, env: Env, force: Option<bool>): Result<ActionPlan, PlanError>
    decreases a, 1
  {
    match a
    case Delay => Success(ActionPlan([], false, None))
    case Sync => Success(SyncPlan())
    case OffsetGroup(_, _, children) =>
      var optimized :- PlanOffsetSetup(ContainerTarget(a), ContainerSpec(a), env.known);
      var (ops, anyDegraded) :- PlanChildren(children, env, Some(!ContainerSpec(a).mode.ModeNone?), 0);
      Success(ActionPlan(Tagged(optimized.ops, OffsetPhase) + ops, anyDegraded, None))
    case EffectAction(_, _, _, _) => Success(EffectPlan(a, env, force))
    case UnknownAction => Success(Degraded(UnknownKind))
  }

  /** The children's sends in order, tagged with their index, and whether any child is degraded. */
  function PlanChildren(children: seq<Action>, env: Env, force: Option<bool>, index: nat): Result<(seq<WireOp>, bool), PlanError>
    decreases children, 0
  {
    if children == [] then Success(([], false))
    else
      var first :- Plan(children[0], env, force);
      var (ops, degraded) :- PlanChildren(children[1..], env, force, index + 1);
      Success((Tagged(first.ops, ChildPhase(index)) + ops, first.degraded || degraded))
  }

  // -- the planner -------------------------------------------------------------------

  /** `plan_action_dispatch`. */
  method PlanActionDispatch(a: Action, env: Env, force: Option<bool>) returns (plan: Result<ActionPlan, PlanError>)
    ensures plan == Plan(a, env, force)
    decreases a, 1
  {
    match a
    case Delay => return Success(ActionPlan([], false, None));
    case Sync => return Success(SyncPlan());
    case OffsetGroup(_, _, _) => plan := PlanOffsetGroup(a, env, force);
    case EffectAction(_, _, _, _) =>
      var p := PlanEffect(a, env, force);
      return Success(p);
    case UnknownAction => return Success(Degraded(UnknownKind));
  }

  /** `_plan_effect`: resolves target and params once, then builds one op per recipient. */
  method PlanEffect(a: Action, env: Env, force: Option<bool>) returns (plan: ActionPlan)
    requires a.EffectAction?
    ensures plan == EffectPlan(a, env, force)
  {
    var recipients := ResolveTarget(a.target, env);
    if recipients.None? {
      return Degraded(TargetNotFound);
    }
    var materialised := MaterialiseParams(a.kind, a.params, env);
    if materialised.Failure? {
      return Degraded(materialised.error);
    }
    var (base, persisted) := materialised.value;
    var override := a.override;
    if force.Some? {
      override := override[OffsetMode := force.value];
    }
    var merged := MergeFlags(base.flags, persisted, override);
    var params := base.(flags := merged);
    var ops := [];
    for i := 0 to |recipients.value|
      invariant |ops| == i
      invariant forall j :: 0 <= j < i ==> ops[j] == EffectOp(a.kind, recipients.value[j], params)
    {
      ops := ops + [EffectOp(a.kind, recipients.value[i], params)];
    }
    assert ops == EffectOps(a.kind, recipients.value, params);
    return ActionPlan(ops, false, None);
  }

  /** `_plan_offset_group`: the offset phase, then every child with the offset flag forced. */
  method PlanOffsetGroup(a: Action, env: Env, force: Option<bool>) returns (plan: Result<ActionPlan, PlanError>)
    requires a.OffsetGroup?
    ensures plan == Plan(a, env, force)
    decreases a, 0
  {
    var spec := ContainerSpec(a);
    var optimized := PlanOffsetSetup(ContainerTarget(a), spec, env.known);
    if optimized.Failure? {
      return Failure(optimized.error);
    }
    var ops := AppendTagged([], optimized.value.ops, OffsetPhase);
    assert ops == Tagged(optimized.value.ops, OffsetPhase);
    var rest := PlanChildOps(a.children, env, Some(!spec.mode.ModeNone?));
    if rest.Failure? {
      return Failure(rest.error);
    }
    return Success(ActionPlan(ops + rest.value.0, rest.value.1, None));
  }

  /** The inner loops that copy a plan's ops with a `detail` tag. */
  method AppendTagged(done: seq<WireOp>, ops: seq<WireOp>, phase: Phase) returns (r: seq<WireOp>)
    ensures r == done + Tagged(ops, phase)
  {
    r := done;
    for i := 0 to |ops|
      invariant r == done + Tagged(ops[..i], phase)
    {
      r := r + [ops[i].(phase := phase)];
    }
    assert ops[..|ops|] == ops;
  }

  /** What the loop over the children has so far, put before what is still to come. */
  ghost function Resume(done: seq<WireOp>, degraded: bool, rest: Result<(seq<WireOp>, bool), PlanError>): Result<(seq<WireOp>, bool), PlanError> {
    match rest
    case Failure(e) => Failure(e)
    case Success((ops, d)) => Success((done + ops, degraded || d))
  }

  lemma ResumeChild(done: seq<WireOp>, degraded: bool, children: seq<Action>, env: Env, force: Option<bool>, index: nat)
    requires children != []
    ensures Resume(done, degraded, PlanChildren(children, env, force, index))
         == match Plan(children[0], env, force)
            case Failure(e) => Failure(e)
            case Success(p) =>
              Resume(done + Tagged(p.ops, ChildPhase(index)), degraded || p.degraded,
                     PlanChildren(children[1..], env, force, index + 1))
  {
    var first := Plan(children[0], env, force);
    var rest := PlanChildren(children[1..], env, force, index + 1);
    if first.Success? && rest.Success? {
      var tagged := Tagged(first.value.ops, ChildPhase(index));
      assert done + (tagged + rest.value.0) == (done + tagged) + rest.value.0;
    }
  }

  method PlanChildOps(children: seq<Action>, env: Env, force: Option<bool>) returns (r: Result<(seq<WireOp>, bool), PlanError>)
    ensures r == PlanChildren(children, env, force, 0)
    decreases children, 0
  {
    var ops, anyDegraded := [], false;
    assert children[0..] == children;
    ghost var all := PlanChildren(children, env, force, 0);
    assert all.Success? ==> [] + all.value.0 == all.value.0;
    for index := 0 to |children|
      invariant PlanChildren(children, env, force, 0)
             == Resume(ops, anyDegraded, PlanChildren(children[index..], env, force, index))
    {
      assert children[index..][0] == children[index] && children[index..][1..] == children[index + 1..];
      ResumeChild(ops, anyDegraded, children[index..], env, force, index);
      var child := PlanActionDispatch(children[index], env, force);
      if child.Failure? {
        return Failure(child.error);
      }
      if child.value.degraded {
        anyDegraded := true;
      }
      ops := AppendTagged(ops, child.value.ops, ChildPhase(index));
    }
    assert ops + [] == ops;
    return Success((ops, anyDegraded));
  }
}
