/** Whether a gateway runs on the settings of the network its record names, after each answer and over runs
    (racelink/services/gateway_bind_service.py:622-1032). */
module BindAgreement {
  import opened Common
  import opened RfPolicy
  import opened BindModel
  import opened BindSafety
  import opened BindOutcome
  import opened GatewayTruth

  /** The network a gateway's record names, if it is there. */
  function NamedNet(sys: Sys, mac: Mac): (k: Option<nat>)
    ensures k.Some? ==> k.value < |sys.nets| && mac in sys.recs && sys.recs[mac].networkId == Some(sys.nets[k.value].id)
  {
    if mac in sys.recs && sys.recs[mac].networkId.Some? then FindById(sys.nets, sys.recs[mac].networkId.value) else None
  }

  /** The settings the record gives for the gateway are those of the network it names. */
  ghost predicate Agrees(sys: Sys, mac: Mac) {
    && NamedNet(sys, mac).Some?
    && Same(sys.recs[mac].actual, sys.nets[NamedNet(sys, mac).value].rfConfig)
  }

  /** The gateway really is on the settings of the network its record names. */
  ghost predicate OnItsNetwork(sys: Sys, mac: Mac) {
    && NamedNet(sys, mac).Some? && mac in sys.gateways
    && Same(Some(sys.gateways[mac]), sys.nets[NamedNet(sys, mac).value].rfConfig)
  }

  lemma {:induction false} FoundByItsId(nets: seq<NetInfo>, k: nat)
    requires UniqueIds(nets) && k < |nets|
    ensures FindById(nets, nets[k].id) == Some(k)
  {
    if k > 0 {
      assert nets[0].id != nets[k].id;
      assert UniqueIds(nets[1..]) by {
        assert forall i :: 0 <= i < |nets[1..]| ==> nets[1..][i] == nets[i + 1];
      }
      FoundByItsId(nets[1..], k - 1);
    }
  }

  // -- one answer ---------------------------------------------------------------------------------

  lemma DrivenAgrees(sys: Sys, mac: Mac, k: nat)
    requires Inv(sys) && Drives(sys, mac, k) && sys.recs[mac].state == Bound
    ensures Agrees(sys, mac)
  {
    FoundByItsId(sys.nets, k);
    assert RecordOk(sys.recs[mac]);
  }

  lemma AdoptAgrees(sys: Sys, mac: Mac, k: nat)
    requires Inv(sys) && mac in sys.recs && k < |sys.nets| && sys.recs[mac].networkId == Some(sys.nets[k].id)
    requires DoAdopt(sys, mac, k).ok
    ensures Agrees(DoAdopt(sys, mac, k).sys, mac)
  {
    var after := DoAdopt(sys, mac, k).sys;
    AdoptKeeps(sys, mac, k);
    FoundByItsId(after.nets, k);
  }

  predicate EndsBound(out: Outcome, mac: Mac) {
    out.ok && mac in out.sys.recs && out.sys.recs[mac].state == Bound
  }

  /** Accepting the gateway's settings, founding a network and rebinding end in BOUND only on the settings of the
      network the record then names. */
  lemma AnswerAgrees(sys: Sys, mac: Mac, action: Action, token: Option<nat>)
    requires Inv(sys) && Enabled(sys, ResolveStep(mac, action, token)) && EndsBound(Resolve(sys, mac, action, token), mac)
    requires action.AcceptGateway? || action.CreateNetwork? || action.Rebind?
    ensures Agrees(Resolve(sys, mac, action, token).sys, mac)
  {
    var after := Resolve(sys, mac, action, token).sys;
    ResolveKeeps(sys, mac, action, token);
    match action
    case AcceptGateway => AdoptAgrees(sys, mac, FindById(sys.nets, sys.recs[mac].networkId.value).value);
    case CreateNetwork(name, channel, newId, fate) =>
      CreateDrives(sys, mac, name, channel, newId, fate);
      DrivenAgrees(after, mac, |sys.nets|);
    case Rebind(targetId, onMismatch, fate) =>
      RebindDrives(sys, mac, targetId, onMismatch, fate);
      DrivenAgrees(after, mac, RebindTarget(sys, mac, targetId, onMismatch).value);
  }

  /** The network still has the settings that the record expects of it. */
  ghost predicate StillExpected(sys: Sys, mac: Mac) {
    && NamedNet(sys, mac).Some?
    && Same(sys.recs[mac].expected, sys.nets[NamedNet(sys, mac).value].rfConfig)
  }

  /** A retune sends what the record expects, so it ends on the network's settings if and only if the network still
      has those. */
  lemma RetuneAgreesIff(sys: Sys, mac: Mac, fate: WriteFate)
    requires mac in sys.recs && DoRetune(sys, mac, fate).ok
    ensures Agrees(DoRetune(sys, mac, fate).sys, mac) <==> StillExpected(sys, mac)
  {
  }

  lemma TrackedMeansOn(sys: Sys, mac: Mac)
    requires Tracks(sys, mac)
    ensures Agrees(sys, mac) <==> OnItsNetwork(sys, mac)
  {
  }

  /** So when an answer ends in BOUND and its record says what the gateway runs on, the gateway is on the settings of
      the network it is bound to, with one exception: a retune for which the network no longer has what the record
      expected. */
  lemma BoundMeansOnNetwork(sys: Sys, mac: Mac, action: Action, token: Option<nat>)
    requires Inv(sys) && ConflictsReal(sys) && Enabled(sys, ResolveStep(mac, action, token))
    requires EndsBound(Resolve(sys, mac, action, token), mac)
    requires PutsRight(sys, ResolveStep(mac, action, token), mac)
             || (Tracks(sys, mac) && !PutsWrong(sys, ResolveStep(mac, action, token), mac))
    ensures OnItsNetwork(Resolve(sys, mac, action, token).sys, mac) <==> (action.RetuneGateway? ==> StillExpected(sys, mac))
  {
    ResolveTracks(sys, mac, action, token, mac);
    TrackedMeansOn(Resolve(sys, mac, action, token).sys, mac);
    if action.RetuneGateway? {
      RetuneAgreesIff(sys, mac, action.fate);
    } else {
      assert action.AcceptGateway? || action.CreateNetwork? || action.Rebind?;
      AnswerAgrees(sys, mac, action, token);
    }
  }

  // -- over runs -----------------------------------------------------------------------------------

  /** The network that an evaluation, if it is on first contact, moves to the gateway's settings. */
  function ContactWrite(sys: Sys, tr: Transport, heard: Option<RfConfig>): (r: Option<(nat, Option<RfConfig>)>)
    ensures r.Some? ==> r.value.0 < |sys.nets|
  {
    if AdoptsOnContact(sys, tr, heard) then Some((StampedNet(sys, tr).value, heard)) else None
  }

  /** The network that an answer moves to the gateway's settings: by accepting them, by a rebind to a network without
      any, or by one that settles the mismatch so. */
  function AnswerWrite(sys: Sys, mac: Mac, action: Action, token: Option<nat>): (r: Option<(nat, Option<RfConfig>)>)
    ensures r.Some? ==> r.value.0 < |sys.nets|
  {
    if !Resolve(sys, mac, action, token).ok then None
    else
      var actual := sys.recs[mac].actual;
      match action
      case AcceptGateway => Some((FindById(sys.nets, sys.recs[mac].networkId.value).value, actual))
      case Rebind(targetId, onMismatch, _) =>
        var k := RebindTarget(sys, mac, targetId, onMismatch).value;
        var held := sys.nets[k].rfConfig;
        if actual.Some? && (held.None? || (!Same(actual, held) && onMismatch.Adopt?)) then Some((k, actual)) else None
      case _ => None
  }

  /** Which network's settings a step writes, and what it writes: an adoption, a migration's switch or an edit that
      passes the audit. */
  ghost function ConfigWrite(sys: Sys, step: Step): (r: Option<(nat, Option<RfConfig>)>)
    requires Enabled(sys, step)
    ensures r.Some? ==> r.value.0 < |sys.nets|
  {
    match step
    case EvaluateStep(t, heard) => ContactWrite(sys, sys.transports[t], heard)
    case ResolveStep(mac, action, token) => AnswerWrite(sys, mac, action, token)
    case SwitchStep(fate) =>
      var k := FindById(sys.nets, sys.task.value.networkId);
      if fate.acked && k.Some? then Some((k.value, Some(sys.task.value.target))) else None
    case CloseStep(heard) =>
      var ident := sys.task.value.ident;
      var t := if ident.None? then None else FirstCarrying(sys.transports, ident.value);
      if t.Some? then ContactWrite(sys, sys.transports[t.value], heard) else None
    case EditStep(networkId, settings) =>
      var k := FindById(sys.nets, networkId);
      if k.Some? && (settings.None? || Separated(sys.nets[k.value := sys.nets[k.value].(rfConfig := settings)]))
      then Some((k.value, settings)) else None
    case _ => None
  }

  /** Network `i` is the same network, with the settings written if it was the one written to. */
  ghost predicate Written(nets: seq<NetInfo>, after: seq<NetInfo>, write: Option<(nat, Option<RfConfig>)>, i: nat)
    requires i < |nets|
  {
    && i < |after| && after[i].id == nets[i].id
    && after[i].rfConfig == if write.Some? && write.value.0 == i then write.value.1 else nets[i].rfConfig
  }

  lemma ContactWrites(sys: Sys, tr: Transport, heard: Option<RfConfig>, i: nat)
    requires i < |sys.nets|
    ensures Written(sys.nets, Evaluate(sys, tr, heard).nets, ContactWrite(sys, tr, heard), i)
  {
  }

  lemma EditWrites(sys: Sys, networkId: string, settings: Option<RfConfig>, i: nat)
    requires i < |sys.nets|
    ensures Written(sys.nets, Edit(sys, networkId, settings).nets, ConfigWrite(sys, EditStep(networkId, settings)), i)
  {
    var k := FindById(sys.nets, networkId);
    if k.Some? {
      SpeculativeAudit(sys.nets, k.value, settings);
    }
  }

  lemma RebindMoves(sys: Sys, mac: Mac, action: Action, token: Option<nat>, i: nat)
    requires action.Rebind? && i < |sys.nets|
    ensures Written(sys.nets, Resolve(sys, mac, action, token).sys.nets, AnswerWrite(sys, mac, action, token), i)
  {
    if mac in sys.recs && (token.None? || token.value == sys.recs[mac].token) {
      var k := RebindTarget(sys, mac, action.targetId, action.onMismatch);
      if k.Some? {
        var taken := TakeOver(sys, mac, k.value);
        assert taken.nets[i].id == sys.nets[i].id && taken.nets[i].rfConfig == sys.nets[i].rfConfig;
        SettleMoves(taken, mac, k.value, action.onMismatch, action.fate, i);
      }
    }
  }

  lemma SettleMoves(sys: Sys, mac: Mac, k: nat, onMismatch: OnMismatch, fate: WriteFate, i: nat)
    requires mac in sys.recs && k < |sys.nets| && i < |sys.nets| && sys.recs[mac].expected == sys.nets[k].rfConfig
    ensures var out := SettleRebind(sys, mac, k, onMismatch, fate); var rec := sys.recs[mac];
            && i < |out.sys.nets| && out.sys.nets[i].id == sys.nets[i].id
            && out.sys.nets[i].rfConfig
               == if i == k && out.ok && rec.actual.Some?
                     && (rec.expected.None? || (!Same(rec.actual, rec.expected) && onMismatch.Adopt?))
                  then rec.actual else sys.nets[i].rfConfig
  {
  }

  lemma AnswerMoves(sys: Sys, mac: Mac, action: Action, token: Option<nat>, i: nat)
    requires !action.Rebind? && i < |sys.nets|
    ensures Written(sys.nets, Resolve(sys, mac, action, token).sys.nets, AnswerWrite(sys, mac, action, token), i)
  {
    if mac in sys.recs && action.CreateNetwork? {
      CreateMoves(sys, mac, action.name, action.channel, action.newId, action.fate, i);
    }
  }

  lemma CreateMoves(sys: Sys, mac: Mac, name: string, channel: ChannelChoice, newId: string, fate: WriteFate, i: nat)
    requires mac in sys.recs && i < |sys.nets|
    ensures var after := DoCreate(sys, mac, name, channel, newId, fate).sys;
            i < |after.nets| && after.nets[i].id == sys.nets[i].id && after.nets[i].rfConfig == sys.nets[i].rfConfig
  {
    if DoCreate(sys, mac, name, channel, newId, fate).ok {
      CreateShape(sys, mac, name, channel, newId, fate);
    }
  }

  /** Of the steps modelled only adoptions, switches and edits write a network's settings, each only its own. */
  lemma OnlyWritesMove(sys: Sys, step: Step, i: nat)
    requires Enabled(sys, step) && i < |sys.nets|
    ensures Written(sys.nets, Next(sys, step).nets, ConfigWrite(sys, step), i)
  {
    match step
    case EvaluateStep(t, heard) => ContactWrites(sys, sys.transports[t], heard, i);
    case ResolveStep(mac, action, token) =>
      if action.Rebind? {
        RebindMoves(sys, mac, action, token, i);
      } else {
        AnswerMoves(sys, mac, action, token, i);
      }
    case CloseStep(heard) => CloseWrites(sys, heard, i);
    case EditStep(networkId, settings) => EditWrites(sys, networkId, settings, i);
    case _ =>
  }

  lemma CloseWrites(sys: Sys, heard: Option<RfConfig>, i: nat)
    requires Enabled(sys, CloseStep(heard)) && i < |sys.nets|
    ensures Written(sys.nets, Next(sys, CloseStep(heard)).nets, ConfigWrite(sys, CloseStep(heard)), i)
  {
    var ident := sys.task.value.ident;
    if ident.Some? && FirstCarrying(sys.transports, ident.value).Some? {
      ContactWrites(sys.(task := None), sys.transports[FirstCarrying(sys.transports, ident.value).value], heard, i);
    }
  }

  /** What the last of the first `n` steps that wrote network `i`'s settings wrote. */
  ghost function LastWritten(states: seq<Sys>, steps: seq<Step>, i: nat, n: nat): Option<Option<RfConfig>>
    requires IsRun(states, steps) && n <= |steps|
  {
    if n == 0 then None
    else
      var w := ConfigWrite(states[n - 1], steps[n - 1]);
      if w.Some? && w.value.0 == i then Some(w.value.1) else LastWritten(states, steps, i, n - 1)
  }

  /** Over any run a network is on the settings last written to it, or on those it started with. */
  lemma {:induction false} ConfigIsLastWritten(states: seq<Sys>, steps: seq<Step>, i: nat, n: nat)
    requires IsRun(states, steps) && n <= |steps| && i < |states[0].nets|
    ensures i < |states[n].nets| && states[n].nets[i].id == states[0].nets[i].id
    ensures states[n].nets[i].rfConfig == LastWritten(states, steps, i, n).GetOr(states[0].nets[i].rfConfig)
    decreases n
  {
    if n > 0 {
      ConfigIsLastWritten(states, steps, i, n - 1);
      OnlyWritesMove(states[n - 1], steps[n - 1], i);
    }
  }

  /** A record that no step rewrites agrees with its network at the end of a run if and only if the last write to that
      network's settings, by whatever gateway, migration or edit, was of the settings the record gives; without one,
      if it agreed before. */
  lemma AgreementOverRun(states: seq<Sys>, steps: seq<Step>, mac: Mac, n: nat)
    requires IsRun(states, steps) && n <= |steps| && Inv(states[0]) && NamedNet(states[0], mac).Some?
    requires mac in states[n].recs && states[n].recs[mac] == states[0].recs[mac]
    ensures var last := LastWritten(states, steps, NamedNet(states[0], mac).value, n);
            Agrees(states[n], mac) <==> if last.Some? then Same(states[0].recs[mac].actual, last.value) else Agrees(states[0], mac)
  {
    var k := NamedNet(states[0], mac).value;
    ConfigIsLastWritten(states, steps, k, n);
    RunKeepsInv(states, steps, n);
    FoundByItsId(states[n].nets, k);
  }

  // -- the exception happens ---------------------------------------------------------------------

  const ARRIVED: Rec := Rec(Unbound, None, None, Some(CONFIG_F), None, [], false, 1)
  const WAITING: Rec := Rec(Unbound, None, None, Some(CONFIG_E), None, [], false, 2)

  const TUNED: map<Mac, RfConfig> := map["A" := CONFIG_A, "B" := CONFIG_F, "C" := CONFIG_E]

  /** Gateway A is in conflict with network "n"; gateways B and C, bound to nothing, run on F and E. */
  const RIVALS: Sys := Sys(
    [NetInfo("n", "", Rf, Some("A"), Some(CONFIG_E))], map["A" := RAISED, "B" := ARRIVED, "C" := WAITING],
    [Transport(Some("A"), Some("n")), Transport(Some("B"), None), Transport(Some("C"), None)], 3, TUNED, None)

  /** After B has taken "n" over and moved it to its own settings. */
  const OVERTAKEN: Sys := Sys(
    [NetInfo("n", "", Rf, Some("B"), Some(CONFIG_F))],
    map["A" := RAISED, "B" := Rec(Bound, Some("n"), Some(""), Some(CONFIG_F), Some(CONFIG_F), [], false, 3), "C" := WAITING],
    [Transport(Some("A"), Some("n")), Transport(Some("B"), Some("n")), Transport(Some("C"), None)], 4, TUNED, None)

  lemma RivalsOrderly()
    ensures Inv(RIVALS)
  {
    FreqDiffers(CONFIG_A, CONFIG_E);
  }

  /** Halfway: the claim and the stamp are B's, the settings not yet. */
  const HALFWAY: Sys := RIVALS.(
    nets := [NetInfo("n", "", Rf, Some("B"), Some(CONFIG_E))],
    recs := RIVALS.recs["B" := ARRIVED.(networkId := Some("n"), networkName := Some(""), expected := Some(CONFIG_E))],
    transports := OVERTAKEN.transports)

  lemma TakesOver()
    ensures RebindTarget(RIVALS, "B", "n", Adopt) == Some(0) && TakeOver(RIVALS, "B", 0) == HALFWAY
  {
    StampExact(RIVALS.transports, "B", "n", 0);
    StampExact(RIVALS.transports, "B", "n", 1);
    StampExact(RIVALS.transports, "B", "n", 2);
    assert Stamp(RIVALS.transports, "B", "n") == HALFWAY.transports;
  }

  lemma Overtaking(fate: WriteFate)
    ensures Resolve(RIVALS, "B", Rebind("n", Adopt, fate), Some(1)) == Outcome(OVERTAKEN, true, None)
  {
    TakesOver();
    FreqDiffers(CONFIG_F, CONFIG_E);
    OccupantsExact(HALFWAY.nets, Some(CONFIG_F), "n");
    assert DoAdopt(HALFWAY, "B", 0) == Outcome(OVERTAKEN, true, None);
  }

  lemma LateRetune(fate: WriteFate)
    requires fate == WriteFate(true, true)
    ensures var out := Resolve(OVERTAKEN, "A", RetuneGateway(fate), Some(0));
            && out.ok && out.sys.recs["A"].state == Bound && out.sys.recs["A"].networkId == Some("n")
            && Tracks(out.sys, "A") && !Agrees(out.sys, "A")
  {
    FreqDiffers(CONFIG_E, CONFIG_F);
    assert OVERTAKEN.transports[0].ident == Some("A");
    assert CONFIG_E != map[];
    var out := Resolve(OVERTAKEN, "A", RetuneGateway(fate), Some(0));
    assert out.sys.recs["A"].actual == Some(CONFIG_E) && out.sys.nets == OVERTAKEN.nets;
  }

  /** B takes "n" over and moves it to F; then A's wizard, its token still good, retunes A to what "n" used to have.
      Both answers succeed, and A ends BOUND to a network on other settings than its own. */
  lemma RetuneCanMissItsNetwork(fate: WriteFate)
    requires fate == WriteFate(true, true)
    ensures Inv(RIVALS)
    ensures var first := Resolve(RIVALS, "B", Rebind("n", Adopt, fate), Some(1));
            var second := Resolve(first.sys, "A", RetuneGateway(fate), Some(0));
            && first.ok && second.ok
            && second.sys.recs["A"].state == Bound && second.sys.recs["A"].networkId == Some("n")
            && Tracks(second.sys, "A") && !OnItsNetwork(second.sys, "A")
  {
    RivalsOrderly();
    Overtaking(fate);
    LateRetune(fate);
    TrackedMeansOn(Resolve(OVERTAKEN, "A", RetuneGateway(fate), Some(0)).sys, "A");
  }
}
