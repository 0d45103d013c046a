/** What every run of the gateway bind machine keeps. */
module BindSafety {
  import opened Common
  import opened RfPolicy
  import opened BindModel

  // -- the invariant ----------------------------------------------------------------------

  /** No gateway is claimed by two networks. */
  ghost predicate ExclusiveMacs(nets: seq<NetInfo>) {
    forall i, j :: 0 <= i < j < |nets| && nets[i].gatewayMac.Some? ==> nets[i].gatewayMac != nets[j].gatewayMac
  }

  /** BOUND means the two configurations agree, CONFLICT has something to show, and nothing else does. */
  predicate RecordOk(rec: Rec) {
    && (rec.state == Bound ==> Same(rec.actual, rec.expected))
    && (rec.state == InConflict <==> rec.conflictFields != [])
  }

  ghost predicate RecordsOk(recs: map<Mac, Rec>) {
    forall m :: m in recs ==> RecordOk(recs[m])
  }

  /** Tokens in use were drawn earlier and are all different. */
  ghost predicate TokensOk(sys: Sys) {
    && (forall m :: m in sys.recs ==> sys.recs[m].token < sys.nextToken)
    && (forall m, n :: m in sys.recs && n in sys.recs && m != n ==> sys.recs[m].token != sys.recs[n].token)
  }

  ghost predicate Inv(sys: Sys) {
    UniqueIds(sys.nets) && ExclusiveMacs(sys.nets) && RecordsOk(sys.recs) && TokensOk(sys)
  }

  // -- building blocks -----------------------------------------------------------------------

  lemma SettleKeeps(sys: Sys, mac: Mac, rec: Rec)
    requires Inv(sys) && RecordOk(rec)
    ensures Inv(Settle(sys, mac, rec))
  {
    var sys' := Settle(sys, mac, rec);
    forall m | m in sys'.recs
      ensures RecordOk(sys'.recs[m])
    {
    }
  }

  /** Changing a network's configuration is invisible to ids and gateway claims. */
  lemma SetConfigKeeps(sys: Sys, k: nat, cfg: Option<RfConfig>)
    requires Inv(sys) && k < |sys.nets|
    ensures Inv(SetNet(sys, k, sys.nets[k].(rfConfig := cfg)))
  {
  }

  lemma ReleaseKeeps(nets: seq<NetInfo>, mac: Mac, keep: Option<nat>)
    requires UniqueIds(nets) && ExclusiveMacs(nets)
    ensures UniqueIds(Release(nets, mac, keep)) && ExclusiveMacs(Release(nets, mac, keep))
    ensures forall i :: 0 <= i < |nets| && keep != Some(i) ==> Release(nets, mac, keep)[i].gatewayMac != Some(mac)
  {
  }

  /** Claiming a gateway after releasing it everywhere else leaves it claimed once. */
  lemma ClaimKeeps(nets: seq<NetInfo>, mac: Mac, k: nat)
    requires UniqueIds(nets) && ExclusiveMacs(nets) && k < |nets|
    ensures var nets' := Release(nets, mac, Some(k))[k := nets[k].(gatewayMac := Some(mac))];
            UniqueIds(nets') && ExclusiveMacs(nets')
  {
    ReleaseKeeps(nets, mac, Some(k));
  }

  lemma TakeOverKeeps(sys: Sys, mac: Mac, k: nat)
    requires Inv(sys) && mac in sys.recs && k < |sys.nets| && sys.recs[mac].state != Bound
    ensures Inv(TakeOver(sys, mac, k))
  {
    ClaimKeeps(sys.nets, mac, k);
    var sys' := TakeOver(sys, mac, k);
    forall m | m in sys'.recs
      ensures RecordOk(sys'.recs[m]) && sys'.recs[m].token == sys.recs[m].token
    {
    }
  }

  lemma AppendKeeps(nets: seq<NetInfo>, mac: Mac, n: NetInfo)
    requires UniqueIds(nets) && ExclusiveMacs(nets) && n.gatewayMac == Some(mac)
    requires n.id != "" && forall i :: 0 <= i < |nets| ==> nets[i].id != n.id
    ensures UniqueIds(Release(nets, mac, None) + [n]) && ExclusiveMacs(Release(nets, mac, None) + [n])
  {
    ReleaseKeeps(nets, mac, None);
  }

  // -- every step keeps the invariant -----------------------------------------------------------

  lemma AutoBindKeeps(sys: Sys, t: nat)
    requires Inv(sys) && t < |sys.transports|
    ensures Inv(AutoBind(sys, t))
  {
  }

  /** An evaluation that adopts nothing only settles a proper record. */
  lemma EvaluateSettles(sys: Sys, tr: Transport, actual: Option<RfConfig>) returns (rec: Rec)
    requires tr.ident.Some? && !AdoptsOnContact(sys, tr, actual)
    ensures Evaluate(sys, tr, actual) == Settle(sys, tr.ident.value, rec) && RecordOk(rec)
  {
    var k := StampedNet(sys, tr);
    if k.None? {
      rec := Rec(Unbound, None, None, actual, None, [], false, 0);
    } else {
      var net := sys.nets[k.value];
      var state := if net.rfConfig.None? then Bound else if actual.None? then Pending else if Same(actual, net.rfConfig) then Bound else InConflict;
      rec := Rec(state, Some(net.id), Some(net.name), actual, net.rfConfig, if state == InConflict then RfDiff(actual, net.rfConfig) else [], false, 0);
    }
  }

  lemma EvaluateAdopts(sys: Sys, tr: Transport, actual: Option<RfConfig>) returns (rec: Rec)
    requires AdoptsOnContact(sys, tr, actual)
    ensures var k := StampedNet(sys, tr).value;
            Evaluate(sys, tr, actual) == Settle(SetNet(sys, k, sys.nets[k].(rfConfig := actual)), tr.ident.value, rec)
    ensures RecordOk(rec)
  {
    var net := sys.nets[StampedNet(sys, tr).value];
    rec := Rec(Bound, Some(net.id), Some(net.name), actual, actual, [], false, 0);
  }

  lemma EvaluateKeeps(sys: Sys, tr: Transport, actual: Option<RfConfig>)
    requires Inv(sys)
    ensures Inv(Evaluate(sys, tr, actual))
  {
    if AdoptsOnContact(sys, tr, actual) {
      var k := StampedNet(sys, tr).value;
      var rec := EvaluateAdopts(sys, tr, actual);
      SetConfigKeeps(sys, k, actual);
      SettleKeeps(SetNet(sys, k, sys.nets[k].(rfConfig := actual)), tr.ident.value, rec);
    } else if tr.ident.Some? {
      var rec := EvaluateSettles(sys, tr, actual);
      SettleKeeps(sys, tr.ident.value, rec);
    }
  }

  lemma AdoptKeeps(sys: Sys, mac: Mac, k: nat)
    requires Inv(sys) && mac in sys.recs && k < |sys.nets|
    ensures Inv(DoAdopt(sys, mac, k).sys)
  {
    var rec := sys.recs[mac];
    var out := DoAdopt(sys, mac, k);
    if out.ok {
      SetConfigKeeps(sys, k, rec.actual);
      SettleKeeps(SetNet(sys, k, sys.nets[k].(rfConfig := rec.actual)), mac, out.sys.recs[mac]);
    }
  }

  lemma FoundedKeeps(sys: Sys, mac: Mac, newId: string, name: string, seeded: Option<RfConfig>)
    requires Inv(sys) && newId != "" && forall i :: 0 <= i < |sys.nets| ==> sys.nets[i].id != newId
    ensures Inv(Founded(sys, mac, newId, name, seeded))
  {
    AppendKeeps(sys.nets, mac, NetInfo(newId, name, Rf, Some(mac), seeded));
  }

  /** The record of a gateway that has just founded a network. */
  function Founder(rec: Rec, newId: string, name: string, seeded: Option<RfConfig>): Rec {
    rec.(networkId := Some(newId), networkName := Some(name), expected := seeded, actual := seeded, state := Bound, conflictFields := [])
  }

  lemma CreateShape(sys: Sys, mac: Mac, name: string, channel: ChannelChoice, newId: string, fate: WriteFate)
    requires mac in sys.recs && DoCreate(sys, mac, name, channel, newId, fate).ok
    ensures var after := DoCreate(sys, mac, name, channel, newId, fate).sys; var seeded := Seed(sys.recs[mac], channel);
            after == Settle(Founded(sys.(gateways := after.gateways), mac, newId, name, seeded), mac,
                            Founder(sys.recs[mac], newId, name, seeded))
  {
  }

  lemma CreateKeeps(sys: Sys, mac: Mac, name: string, channel: ChannelChoice, newId: string, fate: WriteFate)
    requires Inv(sys) && mac in sys.recs
    requires newId != "" && forall i :: 0 <= i < |sys.nets| ==> sys.nets[i].id != newId
    ensures Inv(DoCreate(sys, mac, name, channel, newId, fate).sys)
  {
    var out := DoCreate(sys, mac, name, channel, newId, fate);
    if out.ok {
      var seeded := Seed(sys.recs[mac], channel);
      CreateShape(sys, mac, name, channel, newId, fate);
      FoundedSettles(sys.(gateways := out.sys.gateways), mac, newId, name, seeded);
    }
  }

  lemma FoundedSettles(sys: Sys, mac: Mac, newId: string, name: string, seeded: Option<RfConfig>)
    requires Inv(sys) && mac in sys.recs && newId != "" && forall i :: 0 <= i < |sys.nets| ==> sys.nets[i].id != newId
    ensures Inv(Settle(Founded(sys, mac, newId, name, seeded), mac, Founder(sys.recs[mac], newId, name, seeded)))
  {
    FoundedKeeps(sys, mac, newId, name, seeded);
    SettleKeeps(Founded(sys, mac, newId, name, seeded), mac, Founder(sys.recs[mac], newId, name, seeded));
  }

  /** The first-contact branch of a rebind. */
  lemma FirstContactKeeps(sys: Sys, mac: Mac, k: nat, onMismatch: OnMismatch, fate: WriteFate)
    requires Inv(sys) && mac in sys.recs && k < |sys.nets|
    requires sys.recs[mac].expected.None? && sys.recs[mac].actual.Some?
    ensures Inv(SettleRebind(sys, mac, k, onMismatch, fate).sys)
  {
    var rec := sys.recs[mac];
    SetConfigKeeps(sys, k, rec.actual);
    SettleKeeps(SetNet(sys, k, sys.nets[k].(rfConfig := rec.actual)), mac,
                rec.(state := Bound, conflictFields := [], expected := rec.actual));
  }

  lemma SettleRebindKeeps(sys: Sys, mac: Mac, k: nat, onMismatch: OnMismatch, fate: WriteFate)
    requires Inv(sys) && mac in sys.recs && k < |sys.nets|
    ensures Inv(SettleRebind(sys, mac, k, onMismatch, fate).sys)
  {
    var rec := sys.recs[mac];
    if rec.expected.None? && rec.actual.Some? {
      FirstContactKeeps(sys, mac, k, onMismatch, fate);
    } else {
      var bound := rec.(state := Bound, conflictFields := []);
      if Same(rec.actual, rec.expected) {
        SettleKeeps(sys, mac, bound);
      } else if onMismatch.Retune? {
        SettleKeeps(sys, mac, bound.(actual := rec.expected));
      } else if onMismatch.Adopt? {
        AdoptKeeps(sys, mac, k);
      } else {
        SettleKeeps(sys, mac, rec.(state := InConflict, conflictFields := RfDiff(rec.actual, rec.expected)));
      }
    }
  }

  lemma RetuneKeeps(sys: Sys, mac: Mac, fate: WriteFate)
    requires Inv(sys) && mac in sys.recs
    ensures Inv(DoRetune(sys, mac, fate).sys)
  {
    var rec, out := sys.recs[mac], DoRetune(sys, mac, fate);
    if out.ok {
      SettleKeeps(sys, mac, rec.(actual := rec.expected, state := Bound, conflictFields := [], migrationPending := false));
    }
  }

  lemma RebindKeeps(sys: Sys, mac: Mac, targetId: string, onMismatch: OnMismatch, fate: WriteFate)
    requires Inv(sys) && mac in sys.recs
    ensures Inv(DoRebind(sys, mac, targetId, onMismatch, fate).sys)
  {
    var k := RebindTarget(sys, mac, targetId, onMismatch);
    if k.Some? {
      TakeOverKeeps(sys, mac, k.value);
      SettleRebindKeeps(TakeOver(sys, mac, k.value), mac, k.value, onMismatch, fate);
    }
  }

  lemma AcceptHostKeeps(sys: Sys, mac: Mac, host: MigrationHost)
    requires Inv(sys) && mac in sys.recs
    ensures Inv(DoAcceptHost(sys, mac, host).sys)
  {
    SettleKeeps(sys, mac, sys.recs[mac].(migrationPending := host.Started?));
  }

  lemma ResolveKeeps(sys: Sys, mac: Mac, action: Action, token: Option<nat>)
    requires Inv(sys) && Enabled(sys, ResolveStep(mac, action, token))
    ensures Inv(Resolve(sys, mac, action, token).sys)
  {
    if mac in sys.recs && (token.None? || token.value == sys.recs[mac].token) {
      match action
      case RetuneGateway(fate) => RetuneKeeps(sys, mac, fate);
      case AcceptGateway =>
        var id := sys.recs[mac].networkId;
        if id.Some? && FindById(sys.nets, id.value).Some? {
          AdoptKeeps(sys, mac, FindById(sys.nets, id.value).value);
        }
      case AcceptHost(host) => AcceptHostKeeps(sys, mac, host);
      case CreateNetwork(name, channel, newId, fate) => CreateKeeps(sys, mac, name, channel, newId, fate);
      case Rebind(targetId, onMismatch, fate) => RebindKeeps(sys, mac, targetId, onMismatch, fate);
      case UnknownAction =>
    }
  }

  lemma SwitchKeeps(sys: Sys, networkId: string, ident: Option<Mac>, target: RfConfig, fate: WriteFate)
    requires Inv(sys)
    ensures Inv(Switch(sys, networkId, ident, target, fate))
  {
    var k := FindById(sys.nets, networkId);
    if k.Some? {
      SetConfigKeeps(sys, k.value, Some(target));
    }
  }

  lemma CloseKeeps(sys: Sys, ident: Option<Mac>, heard: Option<RfConfig>)
    requires Inv(sys)
    ensures Inv(Close(sys, ident, heard))
  {
    if ident.Some? {
      var t := FirstCarrying(sys.transports, ident.value);
      if t.Some? {
        EvaluateKeeps(sys.(task := None), sys.transports[t.value], heard);
      }
    }
  }

  lemma EditKeeps(sys: Sys, networkId: string, cfg: Option<RfConfig>)
    requires Inv(sys)
    ensures Inv(Edit(sys, networkId, cfg))
  {
    var k := FindById(sys.nets, networkId);
    if k.Some? {
      SetConfigKeeps(sys, k.value, cfg);
    }
  }

  lemma NextKeeps(sys: Sys, step: Step)
    requires Inv(sys) && Enabled(sys, step)
    ensures Inv(Next(sys, step))
  {
    match step
    case Attach(_) =>
    case Detach(_) =>
    case BindStep(t) => AutoBindKeeps(sys, t);
    case EvaluateStep(t, heard) => EvaluateKeeps(sys, sys.transports[t], heard);
    case ResolveStep(mac, action, token) => ResolveKeeps(sys, mac, action, token);
    case SwitchStep(fate) => SwitchKeeps(sys, sys.task.value.networkId, sys.task.value.ident, sys.task.value.target, fate);
    case CloseStep(heard) => CloseKeeps(sys, sys.task.value.ident, heard);
    case EditStep(networkId, settings) => EditKeeps(sys, networkId, settings);
    case _ =>
  }

  /** In every state of every run, whatever fails midway: no gateway is claimed twice, a BOUND record's two
      configurations agree, exactly the CONFLICT records list differences, and no token repeats. */
  lemma {:induction false} RunKeepsInv(states: seq<Sys>, steps: seq<Step>, i: nat)
    requires IsRun(states, steps) && i < |states| && Inv(states[0])
    ensures Inv(states[i])
  {
    if i > 0 {
      RunKeepsInv(states, steps, i - 1);
      NextKeeps(states[i - 1], steps[i - 1]);
    }
  }

  /** No gateway is attached twice. */
  ghost predicate AttachedOnce(transports: seq<Transport>) {
    forall i, j :: 0 <= i < j < |transports| && transports[i].ident.Some? ==> transports[i].ident != transports[j].ident
  }

  ghost predicate SameIdents(a: seq<Transport>, b: seq<Transport>) {
    |a| == |b| && forall i :: 0 <= i < |a| ==> a[i].ident == b[i].ident
  }

  lemma {:induction false} StampKeepsIdents(transports: seq<Transport>, mac: Mac, networkId: string)
    ensures SameIdents(Stamp(transports, mac, networkId), transports)
  {
    if transports != [] && transports[0].ident != Some(mac) {
      StampKeepsIdents(transports[1..], mac, networkId);
    }
  }

  lemma ResolveKeepsIdents(sys: Sys, mac: Mac, action: Action, token: Option<nat>)
    ensures SameIdents(Resolve(sys, mac, action, token).sys.transports, sys.transports)
  {
    if mac in sys.recs {
      match action
      case CreateNetwork(name, channel, newId, fate) =>
        if DoCreate(sys, mac, name, channel, newId, fate).ok {
          CreateShape(sys, mac, name, channel, newId, fate);
          StampKeepsIdents(sys.transports, mac, newId);
        }
      case Rebind(targetId, onMismatch, fate) =>
        var k := RebindTarget(sys, mac, targetId, onMismatch);
        if k.Some? {
          StampKeepsIdents(sys.transports, mac, sys.nets[k.value].id);
          SettleKeepsTransports(TakeOver(sys, mac, k.value), mac, k.value, onMismatch, fate);
        }
      case _ =>
    }
  }

  lemma SettleKeepsTransports(sys: Sys, mac: Mac, k: nat, onMismatch: OnMismatch, fate: WriteFate)
    requires mac in sys.recs && k < |sys.nets|
    ensures SettleRebind(sys, mac, k, onMismatch, fate).sys.transports == sys.transports
  {
  }

  lemma DetachedOnce(transports: seq<Transport>, t: nat)
    requires AttachedOnce(transports) && t < |transports|
    ensures AttachedOnce(transports[..t] + transports[t + 1..])
  {
    var after := transports[..t] + transports[t + 1..];
    assert forall i :: 0 <= i < |after| ==> after[i] == if i < t then transports[i] else transports[i + 1];
  }

  lemma AttachOnce(sys: Sys, ident: Option<Mac>)
    requires AttachedOnce(sys.transports)
    ensures AttachedOnce(Next(sys, Attach(ident)).transports)
  {
  }

  lemma EvaluateKeepsTransports(sys: Sys, tr: Transport, actual: Option<RfConfig>)
    ensures Evaluate(sys, tr, actual).transports == sys.transports
  {
  }

  lemma NextAttachedOnce(sys: Sys, step: Step)
    requires AttachedOnce(sys.transports) && Enabled(sys, step)
    ensures AttachedOnce(Next(sys, step).transports)
  {
    match step
    case Attach(ident) => AttachOnce(sys, ident);
    case Detach(t) => DetachedOnce(sys.transports, t);
    case EvaluateStep(t, heard) => EvaluateKeepsTransports(sys, sys.transports[t], heard);
    case ResolveStep(mac, action, token) => ResolveKeepsIdents(sys, mac, action, token);
    case _ =>
  }

  /** In every state of every run each gateway is attached at most once. */
  lemma {:induction false} RunAttachedOnce(states: seq<Sys>, steps: seq<Step>, i: nat)
    requires IsRun(states, steps) && i < |states| && AttachedOnce(states[0].transports)
    ensures AttachedOnce(states[i].transports)
  {
    if i > 0 {
      RunAttachedOnce(states, steps, i - 1);
      NextAttachedOnce(states[i - 1], steps[i - 1]);
    }
  }

  // -- airwave separation ---------------------------------------------------------------------------

  lemma ReleaseSeparated(sys: Sys, mac: Mac, k: nat)
    requires mac in sys.recs && k < |sys.nets|
    ensures Separated(TakeOver(sys, mac, k).nets) <==> Separated(sys.nets)
  {
    SeparationIgnoresMacs(sys.nets, TakeOver(sys, mac, k).nets);
  }

  lemma AdoptSeparated(sys: Sys, mac: Mac, k: nat)
    requires UniqueIds(sys.nets) && Separated(sys.nets) && mac in sys.recs && k < |sys.nets|
    ensures Separated(DoAdopt(sys, mac, k).sys.nets)
  {
    MovingIsSafeIffFree(sys.nets, k, sys.recs[mac].actual);
  }

  lemma OccupantsIgnoreMacs(nets: seq<NetInfo>, mac: Mac, cfg: Option<RfConfig>)
    requires Occupants(nets, cfg, "") == []
    ensures Occupants(Release(nets, mac, None), cfg, "") == []
  {
    var released := Release(nets, mac, None);
    OccupantsExact(nets, cfg, "");
    OccupantsExact(released, cfg, "");
    if Usable(cfg) {
      forall i | 0 <= i < |released|
        ensures !Occupies(released[i], cfg.value, "")
      {
        assert !Occupies(nets[i], cfg.value, "");
      }
    }
  }

  /** Adding a network on a free channel, once its gateway was released elsewhere. */
  lemma AppendSeparated(nets: seq<NetInfo>, mac: Mac, n: NetInfo)
    requires UniqueIds(nets) && Separated(nets) && Occupants(nets, n.rfConfig, "") == []
    requires n.id != "" && forall i :: 0 <= i < |nets| ==> nets[i].id != n.id
    ensures Separated(Release(nets, mac, None) + [n])
  {
    var released := Release(nets, mac, None);
    SeparationIgnoresMacs(nets, released);
    OccupantsIgnoreMacs(nets, mac, n.rfConfig);
    AddingIsSafeIffFree(released, n);
  }

  lemma CreateSeparated(sys: Sys, mac: Mac, name: string, channel: ChannelChoice, newId: string, fate: WriteFate)
    requires UniqueIds(sys.nets) && Separated(sys.nets) && mac in sys.recs
    requires newId != "" && forall i :: 0 <= i < |sys.nets| ==> sys.nets[i].id != newId
    ensures Separated(DoCreate(sys, mac, name, channel, newId, fate).sys.nets)
  {
    var out := DoCreate(sys, mac, name, channel, newId, fate);
    if out.ok {
      CreateShape(sys, mac, name, channel, newId, fate);
      AppendSeparated(sys.nets, mac, NetInfo(newId, name, Rf, Some(mac), Seed(sys.recs[mac], channel)));
    }
  }

  lemma SettleRebindSeparated(sys: Sys, mac: Mac, k: nat, onMismatch: OnMismatch, fate: WriteFate)
    requires UniqueIds(sys.nets) && Separated(sys.nets) && mac in sys.recs && k < |sys.nets|
    ensures Separated(SettleRebind(sys, mac, k, onMismatch, fate).sys.nets)
  {
    AdoptSeparated(sys, mac, k);
    MovingIsSafeIffFree(sys.nets, k, sys.recs[mac].actual);
  }

  /** No answer of the operator, successful or refused midway, itself puts two networks on one air; a migration that it
      starts is a step of its own. */
  lemma ResolveKeepsSeparation(sys: Sys, mac: Mac, action: Action, token: Option<nat>)
    requires Inv(sys) && Separated(sys.nets) && Enabled(sys, ResolveStep(mac, action, token))
    ensures Separated(Resolve(sys, mac, action, token).sys.nets)
  {
    if mac in sys.recs && (token.None? || token.value == sys.recs[mac].token) {
      match action
      case AcceptGateway =>
        var id := sys.recs[mac].networkId;
        if id.Some? && FindById(sys.nets, id.value).Some? {
          AdoptSeparated(sys, mac, FindById(sys.nets, id.value).value);
        }
      case CreateNetwork(name, channel, newId, fate) => CreateSeparated(sys, mac, name, channel, newId, fate);
      case Rebind(targetId, onMismatch, fate) =>
        var k := FindById(sys.nets, targetId);
        if k.Some? && sys.recs[mac].state != Bound {
          ReleaseSeparated(sys, mac, k.value);
          TakeOverKeeps(sys, mac, k.value);
          SettleRebindSeparated(TakeOver(sys, mac, k.value), mac, k.value, onMismatch, fate);
        }
      case _ =>
    }
  }

  /** An evaluation that does not adopt, on first contact, a channel that another network already has. */
  predicate AdoptsFree(sys: Sys, tr: Transport, actual: Option<RfConfig>) {
    AdoptsOnContact(sys, tr, actual) ==> Occupants(sys.nets, actual, sys.nets[StampedNet(sys, tr).value].id) == []
  }

  /** First contact is unguarded: evaluating keeps the networks separated exactly if the channel adopted is free. */
  lemma EvaluateSeparationIff(sys: Sys, tr: Transport, actual: Option<RfConfig>)
    requires Inv(sys) && Separated(sys.nets)
    ensures Separated(Evaluate(sys, tr, actual).nets) <==> AdoptsFree(sys, tr, actual)
  {
    if AdoptsOnContact(sys, tr, actual) {
      MovingIsSafeIffFree(sys.nets, StampedNet(sys, tr).value, actual);
    }
  }

  /** A gateway that shows up on network "a"'s channel while stamped with the still channel-less network "b". */
  const NEWCOMER: Sys := Sys(
    [NetInfo("a", "", Rf, None, Some(map[FreqHz := 868_100_000, SyncWord := 18])), NetInfo("b", "", Rf, Some("M"), None)],
    map[], [Transport(Some("M"), Some("b"))], 0, map["M" := map[FreqHz := 868_100_000, SyncWord := 18]], None)

  lemma NewcomerAdopts()
    ensures var nets := Next(NEWCOMER, EvaluateStep(0, Some(NEWCOMER.gateways["M"]))).nets;
            |nets| == 2 && Collide(nets[0], nets[1])
  {
    assert FindById(NEWCOMER.nets, "b") == Some(1) by {
      assert FindById(NEWCOMER.nets[1..], "b") == Some(0);
    }
  }

  /** And so evaluating alone can put two networks on one air. */
  lemma FirstContactCanCollide()
    ensures Inv(NEWCOMER) && Conflicts(NEWCOMER.nets) == []
    ensures Conflicts(Next(NEWCOMER, EvaluateStep(0, Some(NEWCOMER.gateways["M"]))).nets) != []
  {
    var after := Next(NEWCOMER, EvaluateStep(0, Some(NEWCOMER.gateways["M"])));
    NewcomerAdopts();
    ConflictsAudit(NEWCOMER.nets);
    ConflictsAudit(after.nets);
  }

  /** A migration's switch, too, gives the network its settings unasked: it keeps the networks separated exactly if it
      fails, the network is gone, or the channel is free. */
  lemma SwitchSeparationIff(sys: Sys, networkId: string, ident: Option<Mac>, target: RfConfig, fate: WriteFate)
    requires Inv(sys) && Separated(sys.nets)
    ensures Separated(Switch(sys, networkId, ident, target, fate).nets) <==> SwitchesFree(sys, networkId, target, fate)
  {
    var k := FindById(sys.nets, networkId);
    if k.Some? {
      MovingIsSafeIffFree(sys.nets, k.value, Some(target));
    }
  }

  predicate SwitchesFree(sys: Sys, networkId: string, target: RfConfig, fate: WriteFate) {
    fate.acked && FindById(sys.nets, networkId).Some? ==> Occupants(sys.nets, Some(target), networkId) == []
  }

  lemma CollideEitherWay(a: NetInfo, b: NetInfo)
    ensures Collide(a, b) <==> Collide(b, a)
  {
  }

  /** Where the networks of a set with `k` edited stand once the edited one is put first. */
  function PlaceOf(i: nat, k: nat): nat {
    if i == k then 0 else if i < k then i + 1 else i
  }

  lemma SpeculativeAt(nets: seq<NetInfo>, k: nat, cfg: Option<RfConfig>, i: nat)
    requires k < |nets| && i < |nets|
    ensures |Speculative(nets, k, cfg)| == |nets|
    ensures Speculative(nets, k, cfg)[PlaceOf(i, k)] == nets[k := nets[k].(rfConfig := cfg)][i]
  {
  }

  lemma SpeculativeCollides(nets: seq<NetInfo>, k: nat, cfg: Option<RfConfig>, i: nat, j: nat)
    requires k < |nets| && i < j < |nets|
    ensures var spec, moved := Speculative(nets, k, cfg), nets[k := nets[k].(rfConfig := cfg)];
            && (Separated(spec) ==> !Collide(moved[i], moved[j]))
            && (Separated(moved) ==> !Collide(spec[i], spec[j]))
  {
    var spec, moved := Speculative(nets, k, cfg), nets[k := nets[k].(rfConfig := cfg)];
    SpeculativeAt(nets, k, cfg, i);
    SpeculativeAt(nets, k, cfg, j);
    CollideEitherWay(moved[i], moved[j]);
    var a, b := if i == 0 then k else if i <= k then i - 1 else i, if j <= k then j - 1 else j;
    SpeculativeAt(nets, k, cfg, a);
    SpeculativeAt(nets, k, cfg, b);
    CollideEitherWay(moved[a], moved[b]);
  }

  /** The network manager's audit puts the edited network first; that does not matter. */
  lemma SpeculativeAudit(nets: seq<NetInfo>, k: nat, cfg: Option<RfConfig>)
    requires k < |nets|
    ensures Conflicts(Speculative(nets, k, cfg)) == [] <==> Separated(nets[k := nets[k].(rfConfig := cfg)])
  {
    var spec, moved := Speculative(nets, k, cfg), nets[k := nets[k].(rfConfig := cfg)];
    ConflictsAudit(spec);
    SpeculativeAt(nets, k, cfg, k);
    forall i, j | 0 <= i < j < |nets|
      ensures Separated(spec) ==> !Collide(moved[i], moved[j])
      ensures Separated(moved) ==> !Collide(spec[i], spec[j])
    {
      SpeculativeCollides(nets, k, cfg, i, j);
    }
  }

  lemma EditSeparated(sys: Sys, networkId: string, cfg: Option<RfConfig>)
    requires Separated(sys.nets)
    ensures Separated(Edit(sys, networkId, cfg).nets)
  {
    var k := FindById(sys.nets, networkId);
    if k.Some? {
      SpeculativeAudit(sys.nets, k.value, cfg);
    }
  }

  /** A step that does not move a network, unasked, onto a channel that another one has. */
  predicate TakesFree(sys: Sys, step: Step)
    requires Enabled(sys, step)
  {
    match step
    case EvaluateStep(t, heard) => AdoptsFree(sys, sys.transports[t], heard)
    case SwitchStep(fate) => SwitchesFree(sys, sys.task.value.networkId, sys.task.value.target, fate)
    case CloseStep(heard) =>
      var ident := sys.task.value.ident;
      var t := if ident.None? then None else FirstCarrying(sys.transports, ident.value);
      t.Some? ==> AdoptsFree(sys, sys.transports[t.value], heard)
    case _ => true
  }

  lemma CloseSeparationIff(sys: Sys, heard: Option<RfConfig>)
    requires Inv(sys) && Separated(sys.nets) && Enabled(sys, CloseStep(heard))
    ensures Separated(Next(sys, CloseStep(heard)).nets) <==> TakesFree(sys, CloseStep(heard))
  {
    var ident, done := sys.task.value.ident, sys.(task := None);
    if ident.Some? && FirstCarrying(sys.transports, ident.value).Some? {
      EvaluateSeparationIff(done, sys.transports[FirstCarrying(sys.transports, ident.value).value], heard);
    }
  }

  /** Of the steps modelled exactly these can break separation, each exactly when the channel is taken. */
  lemma StepSeparation(sys: Sys, step: Step)
    requires Inv(sys) && Separated(sys.nets) && Enabled(sys, step)
    ensures Separated(Next(sys, step).nets) <==> TakesFree(sys, step)
  {
    match step
    case BindStep(t) => SeparationIgnoresMacs(sys.nets, AutoBind(sys, t).nets);
    case EvaluateStep(t, heard) => EvaluateSeparationIff(sys, sys.transports[t], heard);
    case ResolveStep(mac, action, token) => ResolveKeepsSeparation(sys, mac, action, token);
    case SwitchStep(fate) =>
      SwitchSeparationIff(sys, sys.task.value.networkId, sys.task.value.ident, sys.task.value.target, fate);
    case CloseStep(heard) => CloseSeparationIff(sys, heard);
    case EditStep(networkId, settings) => EditSeparated(sys, networkId, settings);
    case _ =>
  }

  ghost predicate Benign(sys: Sys, step: Step) {
    Enabled(sys, step) && TakesFree(sys, step)
  }

  lemma {:induction false} RunSeparated(states: seq<Sys>, steps: seq<Step>, i: nat)
    requires IsRun(states, steps) && i < |states| && Inv(states[0]) && Separated(states[0].nets)
    requires forall k :: 0 <= k < i ==> Benign(states[k], steps[k])
    ensures Separated(states[i].nets)
  {
    if i > 0 {
      RunSeparated(states, steps, i - 1);
      RunKeepsInv(states, steps, i - 1);
      var sys, step := states[i - 1], steps[i - 1];
      assert Benign(sys, step);
      StepSeparation(sys, step);
    }
  }

  /** Over any run the audit stays empty throughout if and only if every first-contact adoption and every migration
      takes a free channel; no other step needs such a proviso. */
  lemma RunKeepsSeparation(states: seq<Sys>, steps: seq<Step>)
    requires IsRun(states, steps) && Inv(states[0]) && Conflicts(states[0].nets) == []
    ensures (forall i :: 0 <= i < |states| ==> Conflicts(states[i].nets) == [])
       <==> forall k :: 0 <= k < |steps| ==> Benign(states[k], steps[k])
  {
    ConflictsAudit(states[0].nets);
    if forall k :: 0 <= k < |steps| ==> Benign(states[k], steps[k]) {
      forall i | 0 <= i < |states|
        ensures Conflicts(states[i].nets) == []
      {
        RunSeparated(states, steps, i);
        ConflictsAudit(states[i].nets);
      }
    }
    if forall i :: 0 <= i < |states| ==> Conflicts(states[i].nets) == [] {
      forall k | 0 <= k < |steps|
        ensures Benign(states[k], steps[k])
      {
        SeparatedMeansBenign(states, steps, k);
      }
    }
  }

  lemma SeparatedMeansBenign(states: seq<Sys>, steps: seq<Step>, k: nat)
    requires IsRun(states, steps) && Inv(states[0]) && k < |steps|
    requires Conflicts(states[k].nets) == [] && Conflicts(states[k + 1].nets) == []
    ensures Benign(states[k], steps[k])
  {
    RunKeepsInv(states, steps, k);
    ConflictsAudit(states[k].nets);
    ConflictsAudit(states[k + 1].nets);
    StepSeparation(states[k], steps[k]);
  }

  // -- wizard tokens --------------------------------------------------------------------------------------

  /** A token that was drawn and is no longer on any record. */
  ghost predicate Spent(sys: Sys, token: nat) {
    token < sys.nextToken && forall m :: m in sys.recs ==> sys.recs[m].token != token
  }

  /** From `sys` to `sys'` only the record of `mac` may have changed, and its token only to the next fresh one. */
  ghost predicate TouchesOnly(sys: Sys, sys': Sys, mac: Mac) {
    && (forall m :: m != mac ==> (m in sys'.recs <==> m in sys.recs) && (m in sys.recs ==> sys'.recs[m] == sys.recs[m]))
    && sys.nextToken <= sys'.nextToken
    && (mac in sys'.recs ==>
          || (mac in sys.recs && sys'.recs[mac].token == sys.recs[mac].token)
          || (sys'.recs[mac].token == sys.nextToken && sys.nextToken < sys'.nextToken))
  }

  ghost predicate Renews(sys: Sys, sys': Sys, mac: Mac) {
    mac in sys'.recs && sys'.recs[mac].token == sys.nextToken && sys.nextToken < sys'.nextToken
  }

  lemma AdoptTouches(sys: Sys, mac: Mac, k: nat)
    requires mac in sys.recs && k < |sys.nets|
    ensures TouchesOnly(sys, DoAdopt(sys, mac, k).sys, mac)
    ensures DoAdopt(sys, mac, k).ok ==> Renews(sys, DoAdopt(sys, mac, k).sys, mac)
  {
  }

  lemma CreateTouches(sys: Sys, mac: Mac, name: string, channel: ChannelChoice, newId: string, fate: WriteFate)
    requires mac in sys.recs
    ensures TouchesOnly(sys, DoCreate(sys, mac, name, channel, newId, fate).sys, mac)
    ensures DoCreate(sys, mac, name, channel, newId, fate).ok ==> Renews(sys, DoCreate(sys, mac, name, channel, newId, fate).sys, mac)
  {
  }

  lemma SettleTouches(sys: Sys, base: Sys, mac: Mac, rec: Rec)
    requires base.recs == sys.recs && base.nextToken == sys.nextToken
    ensures TouchesOnly(sys, Settle(base, mac, rec), mac) && Renews(sys, Settle(base, mac, rec), mac)
  {
  }

  lemma SettleRebindTouches(sys: Sys, mac: Mac, k: nat, onMismatch: OnMismatch, fate: WriteFate)
    requires mac in sys.recs && k < |sys.nets|
    ensures TouchesOnly(sys, SettleRebind(sys, mac, k, onMismatch, fate).sys, mac)
    ensures SettleRebind(sys, mac, k, onMismatch, fate).ok ==> Renews(sys, SettleRebind(sys, mac, k, onMismatch, fate).sys, mac)
  {
    var rec := sys.recs[mac];
    var bound := rec.(state := Bound, conflictFields := []);
    if rec.expected.None? && rec.actual.Some? {
      SettleTouches(sys, SetNet(sys, k, sys.nets[k].(rfConfig := rec.actual)), mac, bound.(expected := rec.actual));
    } else if Same(rec.actual, rec.expected) {
      SettleTouches(sys, sys, mac, bound);
    } else if onMismatch.Retune? {
      SettleTouches(sys, Push(sys, mac, rec.expected.GetOr(map[]), fate).sys, mac, bound.(actual := rec.expected));
    } else if onMismatch.Adopt? {
      AdoptTouches(sys, mac, k);
    } else {
      SettleTouches(sys, sys, mac, rec.(state := InConflict, conflictFields := RfDiff(rec.actual, rec.expected)));
    }
  }

  lemma RebindTouches(sys: Sys, mac: Mac, targetId: string, onMismatch: OnMismatch, fate: WriteFate)
    requires mac in sys.recs
    ensures TouchesOnly(sys, DoRebind(sys, mac, targetId, onMismatch, fate).sys, mac)
    ensures DoRebind(sys, mac, targetId, onMismatch, fate).ok ==> Renews(sys, DoRebind(sys, mac, targetId, onMismatch, fate).sys, mac)
  {
    var k := FindById(sys.nets, targetId);
    if k.Some? {
      SettleRebindTouches(TakeOver(sys, mac, k.value), mac, k.value, onMismatch, fate);
    }
  }

  lemma RetuneTouches(sys: Sys, mac: Mac, fate: WriteFate)
    requires mac in sys.recs
    ensures TouchesOnly(sys, DoRetune(sys, mac, fate).sys, mac)
    ensures DoRetune(sys, mac, fate).ok ==> Renews(sys, DoRetune(sys, mac, fate).sys, mac)
  {
  }

  lemma AcceptHostTouches(sys: Sys, mac: Mac, host: MigrationHost)
    requires mac in sys.recs
    ensures TouchesOnly(sys, DoAcceptHost(sys, mac, host).sys, mac)
    ensures DoAcceptHost(sys, mac, host).ok ==> Renews(sys, DoAcceptHost(sys, mac, host).sys, mac)
  {
  }

  lemma ResolveTouches(sys: Sys, mac: Mac, action: Action, token: Option<nat>)
    ensures TouchesOnly(sys, Resolve(sys, mac, action, token).sys, mac)
    ensures Resolve(sys, mac, action, token).ok ==> Renews(sys, Resolve(sys, mac, action, token).sys, mac)
  {
    if mac in sys.recs {
      match action
      case AcceptGateway =>
        var id := sys.recs[mac].networkId;
        if id.Some? && FindById(sys.nets, id.value).Some? {
          AdoptTouches(sys, mac, FindById(sys.nets, id.value).value);
        }
      case RetuneGateway(fate) => RetuneTouches(sys, mac, fate);
      case AcceptHost(host) => AcceptHostTouches(sys, mac, host);
      case CreateNetwork(name, channel, newId, fate) => CreateTouches(sys, mac, name, channel, newId, fate);
      case Rebind(targetId, onMismatch, fate) => RebindTouches(sys, mac, targetId, onMismatch, fate);
      case _ =>
    }
  }

  /** Every success renews the token it was given with. */
  lemma SuccessSpendsToken(sys: Sys, mac: Mac, action: Action, token: nat)
    requires Inv(sys) && Resolve(sys, mac, action, Some(token)).ok
    ensures Spent(Resolve(sys, mac, action, Some(token)).sys, token)
  {
    ResolveTouches(sys, mac, action, Some(token));
    assert sys.recs[mac].token == token;
  }

  /** A stale token opens nothing: the call fails and the state is exactly what it was. */
  lemma SpentTokenIsRefused(sys: Sys, mac: Mac, action: Action, token: nat)
    requires Spent(sys, token)
    ensures Resolve(sys, mac, action, Some(token)) == Refused(sys)
  {
  }

  lemma SpentThroughTouch(sys: Sys, sys': Sys, mac: Mac, token: nat)
    requires Spent(sys, token) && TouchesOnly(sys, sys', mac)
    ensures Spent(sys', token)
  {
  }

  lemma SpentThroughEvaluate(sys: Sys, tr: Transport, actual: Option<RfConfig>, token: nat)
    requires Spent(sys, token)
    ensures Spent(Evaluate(sys, tr, actual), token)
  {
    if tr.ident.Some? {
      SpentThroughTouch(sys, Evaluate(sys, tr, actual), tr.ident.value, token);
    }
  }

  lemma SpentThroughClose(sys: Sys, ident: Option<Mac>, heard: Option<RfConfig>, token: nat)
    requires Spent(sys, token)
    ensures Spent(Close(sys, ident, heard), token)
  {
    if ident.Some? && FirstCarrying(sys.transports, ident.value).Some? {
      SpentThroughEvaluate(sys.(task := None), sys.transports[FirstCarrying(sys.transports, ident.value).value], heard, token);
    }
  }

  lemma SpentStaysSpent(sys: Sys, step: Step, token: nat)
    requires Enabled(sys, step) && Spent(sys, token)
    ensures Spent(Next(sys, step), token)
  {
    match step
    case EvaluateStep(t, heard) => SpentThroughEvaluate(sys, sys.transports[t], heard, token);
    case CloseStep(heard) => SpentThroughClose(sys, sys.task.value.ident, heard, token);
    case ResolveStep(mac, action, tok) =>
      ResolveTouches(sys, mac, action, tok);
      SpentThroughTouch(sys, Next(sys, step), mac, token);
    case _ =>
  }

  /** One wizard, one answer: after a call with a token has succeeded at step `i` of a run, every later call with
      that token, for any gateway and any action, fails and changes nothing. */
  lemma {:induction false} TokenSucceedsOnce(states: seq<Sys>, steps: seq<Step>, i: nat, j: nat, token: nat)
    requires IsRun(states, steps) && Inv(states[0]) && i < j < |states|
    requires steps[i].ResolveStep? && steps[i].token == Some(token)
    requires Resolve(states[i], steps[i].mac, steps[i].action, Some(token)).ok
    ensures Spent(states[j], token)
    ensures j < |steps| && steps[j].ResolveStep? && steps[j].token == Some(token) ==>
              !Resolve(states[j], steps[j].mac, steps[j].action, Some(token)).ok && states[j + 1] == states[j]
    decreases j
  {
    if j == i + 1 {
      RunKeepsInv(states, steps, i);
      SuccessSpendsToken(states[i], steps[i].mac, steps[i].action, token);
    } else {
      TokenSucceedsOnce(states, steps, i, j - 1, token);
      SpentStaysSpent(states[j - 1], steps[j - 1], token);
    }
    if j < |steps| && steps[j].ResolveStep? && steps[j].token == Some(token) {
      SpentTokenIsRefused(states[j], steps[j].mac, steps[j].action, token);
    }
  }
}
