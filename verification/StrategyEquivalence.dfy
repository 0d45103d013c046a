/** What the receivers make of an offset plan: every eligible strategy means the same. */
module StrategyEquivalence {
  import opened Common
  import opened OffsetFormula
  import opened OffsetCodec
  import opened WireOps
  import opened OffsetOptimizer
  import opened Receiver

  /** `send_offset`: the bytes of one planned OPC_OFFSET. */
  function EmitOffset(op: WireOp): Packet
    requires op.payload.OffsetArgs?
  {
    Packet(BROADCAST_RECEIVER, OpcOffset, BuildOffsetBody(U8(op.targetGroup), op.payload.offset))
  }

  predicate AllOffsets(ops: seq<WireOp>) {
    forall i :: 0 <= i < |ops| ==> ops[i].payload.OffsetArgs? && ops[i].opcode == OpcOffset && ops[i].sender == SendOffset
  }

  function EmitOffsets(ops: seq<WireOp>): (r: seq<Packet>)
    requires AllOffsets(ops)
    ensures |r| == |ops|
    ensures forall i :: 0 <= i < |ops| ==> r[i] == EmitOffset(ops[i])
  {
    if ops == [] then [] else [EmitOffset(ops[0])] + EmitOffsets(ops[1..])
  }

  predicate GroupIds(groups: seq<int>) {
    forall g :: g in groups ==> 0 <= g < BROADCAST_GROUP
  }

  /** A container as the scene validator stores it (racelink/services/scenes_service.py:303-309, 536-605). */
  predicate ValidContainer(target: Target, spec: OffsetSpec) {
    && (target.Broadcast? || (target.Groups? && target.ids != [] && GroupIds(target.ids)))
    && !spec.mode.ModeUnknown? && InRange(spec)
  }

  predicate Participates(target: Target, group: int) {
    target.Broadcast? || (target.Groups? && group in target.ids)
  }

  // -- one packet, one list of packets -------------------------------------------

  lemma OffsetBodyEffect(d: Node, body: Bytes, g: Byte, cfg: OffsetPayload)
    requires ParseOffsetBody(body) == Success((g, cfg))
    ensures Receive(d, Packet(BROADCAST_RECEIVER, OpcOffset, body))
         == if GroupMatches(d, g) then d.(pending := Some(cfg)) else d
  {
    assert OffsetFor(d, Packet(BROADCAST_RECEIVER, OpcOffset, body)) == if GroupMatches(d, g) then Some(cfg) else None;
  }

  lemma EmittedBodyParses(g: Byte, p: OffsetPayload) returns (body: Bytes)
    ensures EmitOffset(MakeOffsetOp(g, p)) == Packet(BROADCAST_RECEIVER, OpcOffset, body)
    ensures ParseOffsetBody(body) == Success((g, ClampPayload(p)))
  {
    body := BuildOffsetBody(g, p);
    assert U8(g) == g;
    ParseAfterBuild(g, p);
  }

  lemma OffsetPacketEffect(d: Node, g: int, p: OffsetPayload)
    requires 0 <= g <= BROADCAST_GROUP
    ensures Receive(d, EmitOffset(MakeOffsetOp(g, p)))
         == if GroupMatches(d, g) then d.(pending := Some(ClampPayload(p))) else d
  {
    var body := EmittedBodyParses(g, p);
    OffsetBodyEffect(d, body, g, ClampPayload(p));
  }

  /** Per-group packets: a listed device takes its own group's payload, every other device is untouched. */
  lemma {:induction false} PerGroupEffect(d: Node, groups: seq<int>, payload: int -> OffsetPayload)
    requires GroupIds(groups)
    ensures AllOffsets(PerGroupOps(groups, payload))
    ensures Run(d, EmitOffsets(PerGroupOps(groups, payload)))
         == if d.group in groups then d.(pending := Some(ClampPayload(payload(d.group)))) else d
    decreases groups
  {
    if groups != [] {
      var ops := PerGroupOps(groups, payload);
      assert groups[0] in groups && forall g :: g in groups[1..] ==> g in groups;
      var d' := Receive(d, EmitOffset(ops[0]));
      OffsetPacketEffect(d, groups[0], payload(groups[0]));
      PerGroupEffect(d', groups[1..], payload);
      assert ops[1..] == PerGroupOps(groups[1..], payload);
      assert EmitOffsets(ops)[1..] == EmitOffsets(ops[1..]);
      assert d.group in groups <==> d.group == groups[0] || d.group in groups[1..];
    }
  }

  // -- the strategies ------------------------------------------------------------

  /** What a container asks for on device `d`: participants of a formula end up in offset mode with the
      intended delay, participants of a clear end up out of it. */
  predicate ParticipantServed(spec: OffsetSpec, d: Node)
    requires !spec.mode.ModeUnknown?
  {
    && (InOffsetMode(d) <==> !spec.mode.ModeNone?)
    && Snapshot(d) == if spec.mode.ModeNone? then 0 else ClampMs(IntendedMs(spec, d.group))
  }

  lemma StrategyAMeaning(spec: OffsetSpec, d: Node)
    requires ValidContainer(Broadcast, spec) && IsFormulaMode(spec.mode)
    ensures var ops := StrategyA(Broadcast, spec).value.ops;
            AllOffsets(ops) && Run(d, EmitOffsets(ops)) == d.(pending := Some(PayloadOf(spec)))
            && ParticipantServed(spec, Run(d, EmitOffsets(ops)))
  {
    var ops := StrategyA(Broadcast, spec).value.ops;
    OffsetPacketEffect(d, BROADCAST_GROUP, PayloadOf(spec));
    InRangeSurvivesClamp(spec);
    SameFormula(spec, d.group);
    assert EmitOffsets(ops) == [EmitOffset(ops[0])];
    assert Run(d, [EmitOffset(ops[0])]) == Receive(d, EmitOffset(ops[0]));
  }

  lemma StrategyBMeaning(target: Target, spec: OffsetSpec, known: seq<int>, d: Node)
    requires ValidContainer(target, spec) && GroupIds(known) && StrategyB(target, spec, known).Some?
    requires !(target.Broadcast? && spec.mode.ModeNone?)
    ensures var ops := StrategyB(target, spec, known).value.ops;
            && AllOffsets(ops)
            && (d.group in ConcreteGroups(target, known) ==> ParticipantServed(spec, Run(d, EmitOffsets(ops))))
            && (d.group !in ConcreteGroups(target, known) ==> Run(d, EmitOffsets(ops)) == d)
            && Run(d, EmitOffsets(ops)).(pending := d.pending) == d
  {
    PerGroupEffect(d, ConcreteGroups(target, known), g => PerGroupPayload(target, spec, g));
  }

  lemma EmitConcat(head: WireOp, rest: seq<WireOp>)
    requires head.payload.OffsetArgs? && head.opcode == OpcOffset && head.sender == SendOffset && AllOffsets(rest)
    ensures AllOffsets([head] + rest) && EmitOffsets([head] + rest) == [EmitOffset(head)] + EmitOffsets(rest)
  {
    assert ([head] + rest)[1..] == rest;
  }

  /** A broadcast formula followed by clears for `others`. */
  lemma FormulaThenClears(d: Node, p: OffsetPayload, others: seq<int>)
    requires GroupIds(others)
    ensures var ops := [MakeOffsetOp(BROADCAST_GROUP, p)] + PerGroupOps(others, _ => ClearOffset);
            && AllOffsets(ops)
            && Run(d, EmitOffsets(ops)) == d.(pending := Some(if d.group in others then ClearOffset else ClampPayload(p)))
  {
    var head, rest := MakeOffsetOp(BROADCAST_GROUP, p), PerGroupOps(others, _ => ClearOffset);
    var d' := Receive(d, EmitOffset(head));
    OffsetPacketEffect(d, BROADCAST_GROUP, p);
    PerGroupEffect(d', others, _ => ClearOffset);
    EmitConcat(head, rest);
    RunAppend(d, [EmitOffset(head)], EmitOffsets(rest));
    assert Run(d, [EmitOffset(head)]) == d';
  }

  /** Strategy C: participants get the formula; a device outside the list is cleared if the host knows its
      group and is caught by the broadcast formula if it does not. */
  lemma StrategyCMeaning(ids: seq<int>, spec: OffsetSpec, known: seq<int>, d: Node)
    requires ValidContainer(Groups(ids), spec) && GroupIds(known) && StrategyC(Groups(ids), spec, known).Some?
    ensures var ops := StrategyC(Groups(ids), spec, known).value.ops;
            && AllOffsets(ops)
            && Run(d, EmitOffsets(ops))
               == d.(pending := Some(if d.group in ids || d.group !in known then PayloadOf(spec) else ClearOffset))
            && (d.group in ids ==> ParticipantServed(spec, Run(d, EmitOffsets(ops))))
  {
    FormulaThenClears(d, PayloadOf(spec), NonParticipants(known, ids));
    InRangeSurvivesClamp(spec);
    SameFormula(spec, d.group);
  }

  /** Every eligible strategy, executed byte by byte, serves every participating device of a known group; and of the
      others with a known group those that start out of offset mode end out of it. */
  lemma EveryStrategyMeansTheSame(target: Target, spec: OffsetSpec, known: seq<int>, plan: OptimizerPlan, d: Node)
    requires ValidContainer(target, spec) && GroupIds(known) && d.group in known
    requires !(target.Broadcast? && spec.mode.ModeNone?)
    requires plan in Candidates(target, spec, known)
    ensures AllOffsets(plan.ops)
    ensures Participates(target, d.group) ==> ParticipantServed(spec, Run(d, EmitOffsets(plan.ops)))
    ensures !Participates(target, d.group) && !InOffsetMode(d) ==> !InOffsetMode(Run(d, EmitOffsets(plan.ops)))
    ensures Run(d, EmitOffsets(plan.ops)).(pending := d.pending) == d
  {
    if Some(plan) == StrategyA(target, spec) {
      StrategyAMeaning(spec, d);
    } else if Some(plan) == StrategyB(target, spec, known) {
      StrategyBMeaning(target, spec, known, d);
    } else {
      assert Some(plan) == StrategyC(target, spec, known);
      StrategyCMeaning(target.ids, spec, known, d);
    }
  }

  /** The plan that `plan_offset_setup` returns does that, for every valid container; and a clear leaves all unlisted
      devices exactly as they were. */
  lemma ChosenPlanMeaning(target: Target, spec: OffsetSpec, known: seq<int>, d: Node)
    requires ValidContainer(target, spec) && GroupIds(known) && d.group in known
    ensures PlanOffsetSetup(target, spec, known).Success?
    ensures var ops := PlanOffsetSetup(target, spec, known).value.ops;
            && AllOffsets(ops)
            && (Participates(target, d.group) ==> ParticipantServed(spec, Run(d, EmitOffsets(ops))))
            && (!Participates(target, d.group) && !InOffsetMode(d) ==> !InOffsetMode(Run(d, EmitOffsets(ops))))
            && (!Participates(target, d.group) && spec.mode.ModeNone? ==> Run(d, EmitOffsets(ops)) == d)
            && Run(d, EmitOffsets(ops)).(pending := d.pending) == d
  {
    var plan := PlanOffsetSetup(target, spec, known).value;
    if target.Broadcast? && spec.mode.ModeNone? {
      BroadcastClear(spec, known);
      StrategyAMeaning(spec, d);
      assert plan.ops == StrategyA(Broadcast, spec).value.ops;
    } else {
      assert StrategyB(target, spec, known).Some?;
      assert StrategyB(target, spec, known).value in Candidates(target, spec, known);
      PlanIsCheapest(target, spec, known);
      EveryStrategyMeansTheSame(target, spec, known, plan, d);
      if spec.mode.ModeNone? {
        assert Some(plan) == StrategyB(target, spec, known);
        StrategyBMeaning(target, spec, known, d);
      }
    }
  }

  // -- groups the host does not know ------------------------------------------------

  /** Whether a listed formula container goes out as a formula for everybody and clears for the others. */
  predicate GoesOutAsFormula(ids: seq<int>, spec: OffsetSpec, known: seq<int>) {
    var others := |NonParticipants(known, ids)|;
    && IsFormulaMode(spec.mode) && known != []
    && (1 + others < |ids| || (1 + others == |ids| && |ids| >= 3))
  }

  lemma ListedChoice(ids: seq<int>, spec: OffsetSpec, known: seq<int>)
    requires ValidContainer(Groups(ids), spec) && !spec.mode.ModeNone?
    ensures StrategyB(Groups(ids), spec, known).Some?
    ensures GoesOutAsFormula(ids, spec, known) ==> StrategyC(Groups(ids), spec, known).Some?
    ensures PlanOffsetSetup(Groups(ids), spec, known)
         == Success(if GoesOutAsFormula(ids, spec, known) then StrategyC(Groups(ids), spec, known).value
                    else StrategyB(Groups(ids), spec, known).value)
  {
    if IsFormulaMode(spec.mode) {
      ListedFormulaChoice(ids, spec, known);
      if known != [] {
        ListedFormulaCosts(ids, spec, known);
      }
    } else {
      assert Candidates(Groups(ids), spec, known) == [StrategyB(Groups(ids), spec, known).value];
    }
  }

  /** A device outside the list that starts out of offset mode is pulled into it if and only if the host does not know
      its group while it knows some, and the list is longer than the formula with its clears, or as long and at least
      three. */
  lemma UnknownGroupLeak(ids: seq<int>, spec: OffsetSpec, known: seq<int>, d: Node)
    requires ValidContainer(Groups(ids), spec) && GroupIds(known) && !spec.mode.ModeNone?
    requires d.group !in ids && !InOffsetMode(d)
    ensures PlanOffsetSetup(Groups(ids), spec, known).Success?
    ensures var ops := PlanOffsetSetup(Groups(ids), spec, known).value.ops;
            && AllOffsets(ops)
            && (InOffsetMode(Run(d, EmitOffsets(ops))) <==> d.group !in known && GoesOutAsFormula(ids, spec, known))
  {
    ListedChoice(ids, spec, known);
    if GoesOutAsFormula(ids, spec, known) {
      StrategyCMeaning(ids, spec, known, d);
    } else {
      StrategyBMeaning(Groups(ids), spec, known, d);
    }
  }

  /** It happens: a linear container for the three known groups also configures a device of group 9. */
  lemma UnknownGroupPulledIn(d: Node)
    requires d.group == 9 && !InOffsetMode(d)
    ensures var ops := PlanOffsetSetup(Groups([1, 2, 3]), OffsetSpec(ModeLinear, 0, 0, 100, 0, 1, []), [1, 2, 3]).value.ops;
            AllOffsets(ops) && InOffsetMode(Run(d, EmitOffsets(ops)))
  {
    var spec := OffsetSpec(ModeLinear, 0, 0, 100, 0, 1, []);
    assert forall g :: g in [1, 2, 3] ==> g == 1 || g == 2 || g == 3;
    NoneLeftOut();
    UnknownGroupLeak([1, 2, 3], spec, [1, 2, 3], d);
  }

  lemma NoneLeftOut()
    ensures NonParticipants([1, 2, 3], [1, 2, 3]) == []
  {
    assert 1 in [1, 2, 3] && 2 in [1, 2, 3] && 3 in [1, 2, 3];
    assert NonParticipants([3], [1, 2, 3]) == [];
    assert NonParticipants([2, 3], [1, 2, 3]) == [] by {
      assert [2, 3][1..] == [3];
    }
    assert [1, 2, 3][1..] == [2, 3];
  }

  /** The groups a broadcast container reaches: all of them, but for an explicit block, which needs known groups, and
      for a formula with exactly one known group, which goes out to that group alone. */
  predicate ReachedByBroadcast(spec: OffsetSpec, known: seq<int>, group: int) {
    match spec.mode
    case ModeNone => true
    case ModeExplicit => group in known
    case _ => |known| != 1 || group == known[0]
  }

  lemma BroadcastExplicit(spec: OffsetSpec, known: seq<int>)
    requires spec.mode.ModeExplicit?
    ensures PlanOffsetSetup(Broadcast, spec, known).Success?
    ensures var plan := PlanOffsetSetup(Broadcast, spec, known).value;
            if known == [] then plan.ops == [] else Some(plan) == StrategyB(Broadcast, spec, known)
  {
    if known != [] {
      assert Candidates(Broadcast, spec, known) == [StrategyB(Broadcast, spec, known).value];
    } else {
      assert Candidates(Broadcast, spec, known) == [];
    }
  }

  /** A broadcast container serves exactly the devices it reaches, whether or not the host knows their group, and
      leaves every other device as it was. */
  lemma BroadcastServes(spec: OffsetSpec, known: seq<int>, d: Node)
    requires ValidContainer(Broadcast, spec) && GroupIds(known)
    ensures PlanOffsetSetup(Broadcast, spec, known).Success?
    ensures var ops := PlanOffsetSetup(Broadcast, spec, known).value.ops;
            && AllOffsets(ops)
            && (ReachedByBroadcast(spec, known, d.group) ==> ParticipantServed(spec, Run(d, EmitOffsets(ops))))
            && (!ReachedByBroadcast(spec, known, d.group) ==> Run(d, EmitOffsets(ops)) == d)
            && Run(d, EmitOffsets(ops)).(pending := d.pending) == d
  {
    if spec.mode.ModeExplicit? {
      BroadcastExplicit(spec, known);
      if known != [] {
        StrategyBMeaning(Broadcast, spec, known, d);
      }
    } else {
      BroadcastFormulaOptimum(spec, known);
      if spec.mode.ModeNone? || |known| != 1 {
        StrategyAMeaning(spec, d);
        assert PlanOffsetSetup(Broadcast, spec, known).value.ops == StrategyA(Broadcast, spec).value.ops;
      } else {
        OneKnownGroup(spec, known, d);
      }
    }
  }

  lemma OneKnownGroup(spec: OffsetSpec, known: seq<int>, d: Node)
    requires ValidContainer(Broadcast, spec) && GroupIds(known) && |known| == 1
    requires IsFormulaMode(spec.mode) && !spec.mode.ModeNone?
    ensures var ops := [MakeOffsetOp(known[0], Explicit(FormulaMs(spec, known[0])))];
            && AllOffsets(ops)
            && (d.group == known[0] ==> ParticipantServed(spec, Run(d, EmitOffsets(ops))))
            && (d.group != known[0] ==> Run(d, EmitOffsets(ops)) == d)
            && Run(d, EmitOffsets(ops)).(pending := d.pending) == d
  {
    assert known == [known[0]] && known[0] in known;
    var ops := StrategyB(Broadcast, spec, known).value.ops;
    assert ops == [MakeOffsetOp(known[0], Explicit(FormulaMs(spec, known[0])))];
    StrategyBMeaning(Broadcast, spec, known, d);
    assert d.group in known <==> d.group == known[0];
  }

  /** So of the devices out of offset mode a broadcast formula brings into it exactly those it reaches. */
  lemma BroadcastSelects(spec: OffsetSpec, known: seq<int>, d: Node)
    requires ValidContainer(Broadcast, spec) && GroupIds(known) && !spec.mode.ModeNone? && !InOffsetMode(d)
    ensures PlanOffsetSetup(Broadcast, spec, known).Success?
    ensures var ops := PlanOffsetSetup(Broadcast, spec, known).value.ops;
            AllOffsets(ops) && (InOffsetMode(Run(d, EmitOffsets(ops))) <==> ReachedByBroadcast(spec, known, d.group))
  {
    BroadcastServes(spec, known, d);
  }

  // -- any device, whatever state it is in ---------------------------------------------------

  /** Whether the container serves a device of that group, told from the inputs. */
  predicate Served(target: Target, spec: OffsetSpec, known: seq<int>, group: int) {
    if target.Broadcast? then ReachedByBroadcast(spec, known, group) else target.Groups? && group in target.ids
  }

  /** Whether a device is in offset mode once the container is set up: those served as the container wants it; then,
      if a listed formula goes out as one, those of unknown groups; and the others if they were before. */
  predicate EndsInOffsetMode(target: Target, spec: OffsetSpec, known: seq<int>, d: Node) {
    if Served(target, spec, known, d.group) then !spec.mode.ModeNone?
    else if target.Groups? && !spec.mode.ModeNone? && GoesOutAsFormula(target.ids, spec, known) then d.group !in known
    else InOffsetMode(d)
  }

  lemma ListedClear(ids: seq<int>, spec: OffsetSpec, known: seq<int>)
    requires ValidContainer(Groups(ids), spec) && spec.mode.ModeNone?
    ensures StrategyB(Groups(ids), spec, known).Some?
    ensures PlanOffsetSetup(Groups(ids), spec, known) == Success(StrategyB(Groups(ids), spec, known).value)
  {
    assert Candidates(Groups(ids), spec, known) == [StrategyB(Groups(ids), spec, known).value];
  }

  lemma ListedSetup(ids: seq<int>, spec: OffsetSpec, known: seq<int>, d: Node)
    requires ValidContainer(Groups(ids), spec) && GroupIds(known)
    ensures PlanOffsetSetup(Groups(ids), spec, known).Success?
    ensures var ops := PlanOffsetSetup(Groups(ids), spec, known).value.ops;
            && AllOffsets(ops)
            && (d.group in ids ==> ParticipantServed(spec, Run(d, EmitOffsets(ops))))
            && (InOffsetMode(Run(d, EmitOffsets(ops))) <==> EndsInOffsetMode(Groups(ids), spec, known, d))
            && Run(d, EmitOffsets(ops)).(pending := d.pending) == d
  {
    if spec.mode.ModeNone? {
      ListedClear(ids, spec, known);
      StrategyBMeaning(Groups(ids), spec, known, d);
    } else {
      ListedChoice(ids, spec, known);
      if GoesOutAsFormula(ids, spec, known) {
        StrategyCMeaning(ids, spec, known, d);
      } else {
        StrategyBMeaning(Groups(ids), spec, known, d);
      }
    }
  }

  /** What the setup of any valid container makes of any device, known or not, in offset mode or not. */
  lemma SetupEffect(target: Target, spec: OffsetSpec, known: seq<int>, d: Node)
    requires ValidContainer(target, spec) && GroupIds(known)
    ensures PlanOffsetSetup(target, spec, known).Success?
    ensures var ops := PlanOffsetSetup(target, spec, known).value.ops;
            && AllOffsets(ops)
            && (Served(target, spec, known, d.group) ==> ParticipantServed(spec, Run(d, EmitOffsets(ops))))
            && (InOffsetMode(Run(d, EmitOffsets(ops))) <==> EndsInOffsetMode(target, spec, known, d))
            && Run(d, EmitOffsets(ops)).(pending := d.pending) == d
  {
    if target.Broadcast? {
      BroadcastServes(spec, known, d);
    } else {
      ListedSetup(target.ids, spec, known, d);
    }
  }

  /** The two strategies for a listed formula leave a device alike in mode if and only if it is listed, or is in offset
      mode exactly when the host does not know its group. */
  lemma StrategiesAgreeIff(ids: seq<int>, spec: OffsetSpec, known: seq<int>, d: Node)
    requires ValidContainer(Groups(ids), spec) && GroupIds(known) && StrategyC(Groups(ids), spec, known).Some?
    ensures StrategyB(Groups(ids), spec, known).Some?
    ensures var b, c := StrategyB(Groups(ids), spec, known).value.ops, StrategyC(Groups(ids), spec, known).value.ops;
            && AllOffsets(b) && AllOffsets(c)
            && ((InOffsetMode(Run(d, EmitOffsets(b))) <==> InOffsetMode(Run(d, EmitOffsets(c))))
                <==> d.group in ids || (InOffsetMode(d) <==> d.group !in known))
  {
    StrategyBMeaning(Groups(ids), spec, known, d);
    StrategyCMeaning(ids, spec, known, d);
  }

  /** It happens that a device plays on: a linear container for group 4, then one for group 1, and the devices of group
      4 are in offset mode after both. */
  lemma EarlierContainerLingers(d: Node)
    requires d.group == 4
    ensures var spec := OffsetSpec(ModeLinear, 0, 0, 100, 0, 1, []);
            var first, second := PlanOffsetSetup(Groups([4]), spec, [1, 4]).value.ops, PlanOffsetSetup(Groups([1]), spec, [1, 4]).value.ops;
            && AllOffsets(first) && AllOffsets(second)
            && InOffsetMode(Run(Run(d, EmitOffsets(first)), EmitOffsets(second)))
  {
    var spec := OffsetSpec(ModeLinear, 0, 0, 100, 0, 1, []);
    assert forall g :: g in [1, 4] ==> g == 1 || g == 4;
    SetupEffect(Groups([4]), spec, [1, 4], d);
    SetupEffect(Groups([1]), spec, [1, 4], Run(d, EmitOffsets(PlanOffsetSetup(Groups([4]), spec, [1, 4]).value.ops)));
  }
}
