/** The OPC_OFFSET phase of a container: three strategies, the cheapest wins
    (racelink/services/offset_dispatch_optimizer.py). */
module OffsetOptimizer {
  import opened Common
  import opened OffsetFormula
  import opened OffsetCodec
  import opened WireOps

  datatype Strategy = BroadcastFormula | PerGroupExplicit | FormulaPlusOverrides

  datatype OptimizerPlan = OptimizerPlan(strategy: Strategy, ops: seq<WireOp>)

  datatype PlanError = UnsupportedTarget | UnknownMode

  /** The modes a receiver can evaluate by itself. */
  predicate IsFormulaMode(mode: Mode) {
    mode.ModeLinear? || mode.ModeVshape? || mode.ModeModulo? || mode.ModeNone?
  }

  /** `_make_offset_op`: one send, sized by the canonical builder. */
  function MakeOffsetOp(targetGroup: int, p: OffsetPayload): WireOp {
    WireOp(OpcOffset, targetGroup, OffsetArgs(p), |BuildOffsetBody(targetGroup, p)|, SendOffset, NoPhase, false)
  }

  /** One send per listed group, carrying that group's payload. */
  function PerGroupOps(groups: seq<int>, payload: int -> OffsetPayload): (ops: seq<WireOp>)
    ensures |ops| == |groups|
    ensures forall i :: 0 <= i < |groups| ==> ops[i] == MakeOffsetOp(groups[i], payload(groups[i]))
  {
    if groups == [] then []
    else [MakeOffsetOp(groups[0], payload(groups[0]))] + PerGroupOps(groups[1..], payload)
  }

  /** The last value listed for a group in an explicit block, or zero. */
  function ExplicitValue(values: seq<(int, int)>, groupId: int): int {
    if values == [] then 0
    else if values[|values| - 1].0 == groupId then values[|values| - 1].1
    else ExplicitValue(values[..|values| - 1], groupId)
  }

  /** The offset a container means for a group it lists, before the wire clamps it. */
  function IntendedMs(spec: OffsetSpec, groupId: int): int
    requires !spec.mode.ModeUnknown?
  {
    if spec.mode.ModeExplicit? then ExplicitValue(spec.values, groupId) else FormulaMs(spec, groupId)
  }

  /** What strategy B sends to one listed group. */
  function PerGroupPayload(target: Target, spec: OffsetSpec, groupId: int): OffsetPayload
    requires !spec.mode.ModeUnknown?
  {
    if spec.mode.ModeNone? && target.Groups? then ClearOffset else Explicit(IntendedMs(spec, groupId))
  }

  function NonParticipants(known: seq<int>, participants: seq<int>): (r: seq<int>)
    ensures forall g :: g in r <==> g in known && g !in participants
  {
    if known == [] then []
    else (if known[0] in participants then [] else [known[0]]) + NonParticipants(known[1..], participants)
  }

  // -- the three strategies --------------------------------------------------

  function StrategyA(target: Target, spec: OffsetSpec): Option<OptimizerPlan> {
    if target.Broadcast? && IsFormulaMode(spec.mode)
    then Some(OptimizerPlan(BroadcastFormula, [MakeOffsetOp(BROADCAST_GROUP, PayloadOf(spec))]))
    else None
  }

  function ConcreteGroups(target: Target, known: seq<int>): seq<int> {
    if target.Groups? then target.ids else known
  }

  function StrategyB(target: Target, spec: OffsetSpec, known: seq<int>): Option<OptimizerPlan>
    requires !spec.mode.ModeUnknown?
  {
    var groups := ConcreteGroups(target, known);
    if groups != [] || (spec.mode.ModeNone? && target.Groups?)
    then Some(OptimizerPlan(PerGroupExplicit, PerGroupOps(groups, g => PerGroupPayload(target, spec, g))))
    else None
  }

  function StrategyC(target: Target, spec: OffsetSpec, known: seq<int>): Option<OptimizerPlan> {
    if target.Groups? && IsFormulaMode(spec.mode) && !spec.mode.ModeNone? && known != []
    then Some(OptimizerPlan(FormulaPlusOverrides,
                            [MakeOffsetOp(BROADCAST_GROUP, PayloadOf(spec))]
                            + PerGroupOps(NonParticipants(known, target.ids), _ => ClearOffset)))
    else None
  }

  function Listed(p: Option<OptimizerPlan>): seq<OptimizerPlan> {
    if p.Some? then [p.value] else []
  }

  function Candidates(target: Target, spec: OffsetSpec, known: seq<int>): seq<OptimizerPlan>
    requires !spec.mode.ModeUnknown?
  {
    Listed(StrategyA(target, spec)) + Listed(StrategyB(target, spec, known)) + Listed(StrategyC(target, spec, known))
  }

  // -- the choice ------------------------------------------------------------

  /** Fewer packets, then fewer bytes. */
  predicate Cheaper(p: OptimizerPlan, q: OptimizerPlan) {
    |p.ops| < |q.ops| || (|p.ops| == |q.ops| && TotalBytes(p.ops) < TotalBytes(q.ops))
  }

  /** The head of the stably sorted candidates. */
  function Cheapest(candidates: seq<OptimizerPlan>): OptimizerPlan
    requires candidates != []
  {
    if |candidates| == 1 then candidates[0]
    else
      var rest := Cheapest(candidates[1..]);
      if Cheaper(rest, candidates[0]) then rest else candidates[0]
  }

  /** `plan_offset_setup`. An unknown mode raises only where a group has to be evaluated. */
  function PlanOffsetSetup(target: Target, spec: OffsetSpec, known: seq<int>): Result<OptimizerPlan, PlanError> {
    if !target.Broadcast? && !target.Groups? then Failure(UnsupportedTarget)
    else if spec.mode.ModeUnknown? then
      if ConcreteGroups(target, known) != [] then Failure(UnknownMode)
      else Success(OptimizerPlan(BroadcastFormula, []))
    else
      var candidates := Candidates(target, spec, known);
      Success(if candidates == [] then OptimizerPlan(BroadcastFormula, []) else Cheapest(candidates))
  }

  // -- cost optimum ----------------------------------------------------------

  lemma {:induction false} CheapestIsFirstMinimum(candidates: seq<OptimizerPlan>) returns (i: nat)
    requires candidates != []
    ensures i < |candidates| && Cheapest(candidates) == candidates[i]
    ensures forall j :: 0 <= j < |candidates| ==> !Cheaper(candidates[j], candidates[i])
    ensures forall j :: 0 <= j < i ==> Cheaper(candidates[i], candidates[j])
  {
    if |candidates| == 1 {
      i := 0;
    } else {
      var k := CheapestIsFirstMinimum(candidates[1..]);
      var rest := candidates[1..];
      assert forall j :: 0 < j < |candidates| ==> candidates[j] == rest[j - 1];
      if Cheaper(rest[k], candidates[0]) {
        i := k + 1;
      } else {
        i := 0;
      }
    }
  }

  lemma CheapestOfTwo(p: OptimizerPlan, q: OptimizerPlan)
    ensures Cheapest([p, q]) == if Cheaper(q, p) then q else p
  {
    assert [p, q][1..] == [q];
  }

  /** The returned plan is one of the eligible strategies and no eligible strategy is cheaper;
      there is no plan to send only when no strategy is eligible. */
  lemma PlanIsCheapest(target: Target, spec: OffsetSpec, known: seq<int>)
    requires !spec.mode.ModeUnknown? && (target.Broadcast? || target.Groups?)
    ensures var plan := PlanOffsetSetup(target, spec, known).value;
            && (forall c :: c in Candidates(target, spec, known) ==> !Cheaper(c, plan))
            && (plan in Candidates(target, spec, known) || (Candidates(target, spec, known) == [] && plan.ops == []))
  {
    var candidates := Candidates(target, spec, known);
    if candidates != [] {
      var i := CheapestIsFirstMinimum(candidates);
    }
  }

  lemma {:induction false} NonParticipantsDistinct(known: seq<int>, participants: seq<int>)
    requires NoDuplicates(known)
    ensures NoDuplicates(NonParticipants(known, participants))
  {
    if known != [] {
      NonParticipantsDistinct(known[1..], participants);
      assert known[0] !in known[1..];
    }
  }

  lemma NonParticipantCount(known: seq<int>, participants: seq<int>)
    requires NoDuplicates(known)
    ensures |NonParticipants(known, participants)| == |Elements(known) - Elements(participants)|
  {
    NonParticipantsDistinct(known, participants);
    DistinctCount(NonParticipants(known, participants));
    assert Elements(NonParticipants(known, participants)) == Elements(known) - Elements(participants);
  }

  /** The body length of the formula that a broadcast carries. */
  lemma FormulaLength(spec: OffsetSpec)
    requires IsFormulaMode(spec.mode)
    ensures |BuildOffsetBody(BROADCAST_GROUP, PayloadOf(spec))|
         == if spec.mode.ModeNone? then 2 else if spec.mode.ModeLinear? then 6 else 7
  {
  }

  lemma PerGroupCost(groups: seq<int>, payload: int -> OffsetPayload, n: nat)
    requires forall g :: g in groups ==> |BuildOffsetBody(g, payload(g))| == n
    ensures TotalBytes(PerGroupOps(groups, payload)) == n * |groups|
  {
    var ops := PerGroupOps(groups, payload);
    forall i | 0 <= i < |ops|
      ensures ops[i].bodyBytes == n
    {
      assert groups[i] in groups;
    }
    TotalBytesOfEqual(ops, n);
  }

  /** Costs of the two strategies open to a listed formula container. */
  lemma ListedFormulaCosts(ids: seq<int>, spec: OffsetSpec, known: seq<int>)
    requires IsFormulaMode(spec.mode) && !spec.mode.ModeNone? && ids != [] && known != []
    ensures var b := StrategyB(Groups(ids), spec, known); var c := StrategyC(Groups(ids), spec, known);
            && b.Some? && |b.value.ops| == |ids| && TotalBytes(b.value.ops) == 4 * |ids|
            && c.Some? && |c.value.ops| == 1 + |NonParticipants(known, ids)|
            && TotalBytes(c.value.ops) == (if spec.mode.ModeLinear? then 6 else 7) + 2 * |NonParticipants(known, ids)|
  {
    PerGroupCost(ids, g => PerGroupPayload(Groups(ids), spec, g), 4);
    var others := NonParticipants(known, ids);
    PerGroupCost(others, _ => ClearOffset, 2);
    FormulaLength(spec);
    var head := MakeOffsetOp(BROADCAST_GROUP, PayloadOf(spec));
    var tail := PerGroupOps(others, _ => ClearOffset);
    assert ([head] + tail)[1..] == tail;
  }

  lemma ListedFormulaChoice(ids: seq<int>, spec: OffsetSpec, known: seq<int>)
    requires IsFormulaMode(spec.mode) && !spec.mode.ModeNone? && ids != []
    ensures StrategyB(Groups(ids), spec, known).Some?
    ensures StrategyC(Groups(ids), spec, known).Some? <==> known != []
    ensures PlanOffsetSetup(Groups(ids), spec, known)
         == Success(if known != [] && Cheaper(StrategyC(Groups(ids), spec, known).value, StrategyB(Groups(ids), spec, known).value)
                    then StrategyC(Groups(ids), spec, known).value else StrategyB(Groups(ids), spec, known).value)
  {
    var b := StrategyB(Groups(ids), spec, known);
    var c := StrategyC(Groups(ids), spec, known);
    if known == [] {
      assert Candidates(Groups(ids), spec, known) == [b.value];
    } else {
      assert Candidates(Groups(ids), spec, known) == [b.value, c.value];
      CheapestOfTwo(b.value, c.value);
    }
  }

  /** Closed form of the optimum for a listed formula container with participants P and known groups K:
      min(|P|, 1 + |K - P|) packets, and on a tie of n packets strategy C is chosen exactly when n >= 3.
      When the host knows no group at all, C is not eligible and B's |P| packets are sent. */
  lemma ListedFormulaOptimum(ids: seq<int>, spec: OffsetSpec, known: seq<int>, others: nat)
    requires IsFormulaMode(spec.mode) && !spec.mode.ModeNone? && ids != [] && NoDuplicates(known)
    requires others == |Elements(known) - Elements(ids)|
    ensures var plan := PlanOffsetSetup(Groups(ids), spec, known).value;
            && (known == [] ==> plan.strategy == PerGroupExplicit && |plan.ops| == |ids|)
            && (known != [] ==>
                  && |plan.ops| == (if |ids| <= 1 + others then |ids| else 1 + others)
                  && (plan.strategy == FormulaPlusOverrides <==> 1 + others < |ids| || (1 + others == |ids| && |ids| >= 3)))
            && (plan.strategy == PerGroupExplicit <==> plan.strategy != FormulaPlusOverrides)
  {
    NonParticipantCount(known, ids);
    ListedFormulaChoice(ids, spec, known);
    if known != [] {
      ListedFormulaCosts(ids, spec, known);
    }
  }

  /** A broadcast container with a formula is one packet. It is the broadcast formula except when the
      host knows exactly one group: then the four-byte EXPLICIT to that group undercuts the formula. */
  lemma BroadcastFormulaOptimum(spec: OffsetSpec, known: seq<int>)
    requires IsFormulaMode(spec.mode)
    ensures var plan := PlanOffsetSetup(Broadcast, spec, known).value;
            && |plan.ops| == 1
            && (plan.strategy == BroadcastFormula <==> spec.mode.ModeNone? || |known| != 1)
            && (plan.strategy == BroadcastFormula ==> plan.ops == [MakeOffsetOp(BROADCAST_GROUP, PayloadOf(spec))])
            && (plan.strategy != BroadcastFormula ==> plan.ops == [MakeOffsetOp(known[0], Explicit(FormulaMs(spec, known[0])))])
  {
    var a := StrategyA(Broadcast, spec);
    FormulaLength(spec);
    assert TotalBytes(a.value.ops) == a.value.ops[0].bodyBytes + TotalBytes([]);
    if known != [] {
      var b := StrategyB(Broadcast, spec, known);
      PerGroupCost(known, g => PerGroupPayload(Broadcast, spec, g), 4);
      assert Candidates(Broadcast, spec, known) == [a.value, b.value];
      CheapestOfTwo(a.value, b.value);
    } else {
      assert Candidates(Broadcast, spec, known) == [a.value];
    }
  }

  /** The exception is reached: a V-shape over the whole fleet, with group 3 the only one known, goes out as a
      four-byte EXPLICIT to group 3 alone. */
  lemma OneKnownGroupGetsExplicit()
    ensures var spec := OffsetSpec(ModeVshape, 0, 1000, -100, 5, 1, []);
            PlanOffsetSetup(Broadcast, spec, [3]).value.ops == [MakeOffsetOp(3, Explicit(800))]
  {
    var spec := OffsetSpec(ModeVshape, 0, 1000, -100, 5, 1, []);
    BroadcastFormulaOptimum(spec, [3]);
  }

  /** Clearing every group is always one two-byte NONE packet, never an EXPLICIT of zero. */
  lemma BroadcastClear(spec: OffsetSpec, known: seq<int>)
    requires spec.mode.ModeNone?
    ensures var plan := PlanOffsetSetup(Broadcast, spec, known).value;
            plan.ops == [MakeOffsetOp(BROADCAST_GROUP, ClearOffset)] && TotalBytes(plan.ops) == 2
  {
    BroadcastFormulaOptimum(spec, known);
  }
}
