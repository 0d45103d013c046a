/** The bind service as the objects it is made of: network and record objects updated in place, each method
    proved to do exactly what BindModel says (racelink/services/gateway_bind_service.py). */
module GatewayBind {
  import opened Common
  import opened RfPolicy
  import opened BindModel

  /** `RL_Network`. */
  class Network {
    const id: string
    const name: string
    const kind: NetworkKind
    var gatewayMac: Option<Mac>
    var rfConfig: Option<RfConfig>

    constructor (id: string, name: string, kind: NetworkKind, gatewayMac: Option<Mac>, rfConfig: Option<RfConfig>)
      ensures Info() == NetInfo(id, name, kind, gatewayMac, rfConfig)
    {
      this.id, this.name, this.kind := id, name, kind;
      this.gatewayMac, this.rfConfig := gatewayMac, rfConfig;
    }

    function Info(): NetInfo
      reads this
    {
      NetInfo(id, name, kind, gatewayMac, rfConfig)
    }
  }

  /** An attached transport with the network it is stamped with. */
  class GatewayTransport {
    const ident: Option<Mac>
    var networkId: Option<string>

    constructor (ident: Option<Mac>)
      ensures this.ident == ident && networkId == None
    {
      this.ident, this.networkId := ident, None;
    }

    function Value(): Transport
      reads this
    {
      Transport(ident, networkId)
    }
  }

  class GatewayBindService {
    var networks: seq<Network>
    var transports: seq<GatewayTransport>
    var records: map<Mac, Rec>
    var nextToken: nat

    /** What each gateway runs on: the hardware, which the host only reaches by its writes. */
    var gateways: map<Mac, RfConfig>

    /** The task manager's migration, if one is under way. */
    var task: Option<Job>

    /** The whole state as one value; Valid ties it to the objects. */
    ghost var view: Sys

    constructor (networks: seq<Network>, gateways: map<Mac, RfConfig>)
      requires NoDuplicates(networks)
      ensures Valid() && view == Sys(seq(|networks|, i requires 0 <= i < |networks| reads networks => networks[i].Info()), map[], [], 0, gateways, None)
    {
      this.networks, transports, records, nextToken, this.gateways, task := networks, [], map[], 0, gateways, None;
      view := Sys(seq(|networks|, i requires 0 <= i < |networks| reads networks => networks[i].Info()), map[], [], 0, gateways, None);
    }

    ghost predicate Valid()
      reads this, networks, transports
    {
      && NetworksMatch() && TransportsMatch()
      && view.recs == records && view.nextToken == nextToken && view.gateways == gateways && view.task == task
    }

    ghost predicate NetworksMatch()
      reads this, networks
    {
      && NoDuplicates(networks) && |view.nets| == |networks|
      && forall i :: 0 <= i < |networks| ==> networks[i].Info() == view.nets[i]
    }

    ghost predicate TransportsMatch()
      reads this, transports
    {
      && NoDuplicates(transports) && |view.transports| == |transports|
      && forall i :: 0 <= i < |transports| ==> transports[i].Value() == view.transports[i]
    }

    function Infos(): (r: seq<NetInfo>)
      requires Valid()
      reads this, networks, transports
      ensures r == view.nets
    {
      seq(|networks|, i requires 0 <= i < |networks| reads this, networks => networks[i].Info())
    }

    // -- pieces shared by the actions ---------------------------------------------------

    /** Stores the record, which was just given new contents, under a fresh token. */
    method Renew(mac: Mac, rec: Rec)
      requires Valid()
      modifies this`records, this`nextToken, this`view
      ensures Valid() && view == Settle(old(view), mac, rec)
    {
      records := records[mac := rec.(token := nextToken)];
      nextToken := nextToken + 1;
      view := Settle(view, mac, rec);
    }

    method IsAttached(mac: Mac) returns (attached: bool)
      requires Valid()
      ensures attached == Attached(view, mac)
    {
      attached := false;
      for i := 0 to |transports|
        invariant attached <==> exists k :: 0 <= k < i && view.transports[k].ident == Some(mac)
      {
        if transports[i].ident == Some(mac) {
          attached := true;
        }
      }
    }

    /** `_push_rf_to_gateway`. */
    method PushRf(mac: Mac, cfg: RfConfig, fate: WriteFate) returns (ok: bool, sent: Option<RfConfig>)
      requires Valid()
      modifies this`gateways, this`view
      ensures Valid() && Outcome(view, ok, sent) == Push(old(view), mac, cfg, fate)
    {
      var attached := IsAttached(mac);
      if !attached {
        return false, None;
      }
      if fate.taken {
        gateways := gateways[mac := cfg];
        view := view.(gateways := gateways);
      }
      return fate.acked, Some(cfg);
    }

    /** The gateway has to be on a new network's settings before that is recorded. */
    method MoveOnto(mac: Mac, actual: Option<RfConfig>, cfg: RfConfig, fate: WriteFate) returns (ok: bool, sent: Option<RfConfig>)
      requires Valid()
      modifies this`gateways, this`view
      ensures Valid()
      ensures Outcome(view, ok, sent) == if Same(actual, Some(cfg)) then Outcome(old(view), true, None) else Push(old(view), mac, cfg, fate)
    {
      if RfDiff(actual, Some(cfg)) == [] {
        return true, None;
      }
      ok, sent := PushRf(mac, cfg, fate);
    }

    /** `_release_ident_from_networks`; `keep` is the index of the network that is about to take ownership. */
    method ReleaseIdent(mac: Mac, keep: Option<nat>)
      requires Valid()
      modifies this`view, networks
      ensures Valid() && view == old(view).(nets := Release(old(view.nets), mac, keep))
    {
      for i := 0 to |networks|
        invariant view == old(view)
        invariant forall k :: i <= k < |networks| ==> networks[k].Info() == view.nets[k]
        invariant forall k :: 0 <= k < i ==>
                    networks[k].Info() == if keep == Some(k) then view.nets[k] else Released(view.nets[k], mac)
      {
        if keep != Some(i) && networks[i].gatewayMac == Some(mac) {
          networks[i].gatewayMac := None;
        }
      }
      view := view.(nets := Release(view.nets, mac, keep));
    }

    /** `_bind_transport_to_network`. */
    method StampTransport(mac: Mac, networkId: string)
      requires Valid()
      modifies this`view, transports
      ensures Valid() && view == old(view).(transports := Stamp(old(view.transports), mac, networkId))
    {
      for i := 0 to |transports|
        invariant Valid() && view == old(view)
        invariant forall k :: 0 <= k < i ==> view.transports[k].ident != Some(mac)
      {
        if transports[i].ident == Some(mac) {
          StampsFirst(view.transports, mac, networkId, i);
          transports[i].networkId := Some(networkId);
          view := view.(transports := Stamp(view.transports, mac, networkId));
          return;
        }
      }
      StampsNone(view.transports, mac, networkId);
    }

    /** `network.rf_config = ...` on the network at `k`. */
    method WriteNetworkConfig(k: nat, cfg: Option<RfConfig>)
      requires Valid() && k < |networks|
      modifies this`view, networks[k]
      ensures Valid() && view == SetNet(old(view), k, old(view.nets[k]).(rfConfig := cfg))
    {
      networks[k].rfConfig := cfg;
      view := SetNet(view, k, view.nets[k].(rfConfig := cfg));
    }

    // -- the actions ------------------------------------------------------------------------

    /** `_action_retune_gateway`. */
    method RetuneGateway(mac: Mac, fate: WriteFate) returns (ok: bool, sent: Option<RfConfig>)
      requires Valid() && mac in records
      modifies this`gateways, this`records, this`nextToken, this`view
      ensures Valid() && Outcome(view, ok, sent) == DoRetune(old(view), mac, fate)
    {
      var rec := records[mac];
      if rec.state != InConflict || rec.expected.None? || rec.expected.value == map[] {
        return false, None;
      }
      ok, sent := PushRf(mac, rec.expected.value, fate);
      if ok {
        rec := rec.(actual := rec.expected, state := Bound, conflictFields := [], migrationPending := false);
        Renew(mac, rec);
      }
    }

    /** `_adopt_gateway_config` followed by a fresh token. */
    method AdoptGatewayConfig(mac: Mac, k: nat) returns (ok: bool, sent: Option<RfConfig>)
      requires Valid() && mac in records && k < |networks|
      modifies this`records, this`nextToken, this`view, networks[k]
      ensures Valid() && Outcome(view, ok, sent) == DoAdopt(old(view), mac, k)
    {
      var rec, network := records[mac], networks[k];
      if rec.actual.None? {
        return false, None;
      }
      var clash := OccupantsOf(Infos(), rec.actual, network.id);
      if clash != [] {
        return false, None;
      }
      WriteNetworkConfig(k, rec.actual);
      rec := rec.(expected := rec.actual, state := Bound, conflictFields := [], migrationPending := false);
      Renew(mac, rec);
      return true, None;
    }

    /** `_action_accept_gateway`. */
    method AcceptGatewayConfig(mac: Mac) returns (ok: bool, sent: Option<RfConfig>)
      requires Valid() && mac in records
      modifies this`records, this`nextToken, this`view, networks
      ensures Valid() && Outcome(view, ok, sent) == DoAcceptGateway(old(view), mac)
    {
      var rec := records[mac];
      if rec.state != InConflict || rec.actual.None? || rec.networkId.None? {
        return false, None;
      }
      var k := FindById(Infos(), rec.networkId.value);
      if k.None? {
        return false, None;
      }
      ok, sent := AdoptGatewayConfig(mac, k.value);
    }

    /** `_action_accept_host`. */
    method AcceptHostConfig(mac: Mac, host: MigrationHost) returns (ok: bool, sent: Option<RfConfig>)
      requires Valid() && mac in records
      modifies this`records, this`nextToken, this`task, this`view
      ensures Valid() && Outcome(view, ok, sent) == DoAcceptHost(old(view), mac, host)
    {
      var rec := records[mac];
      if rec.state != InConflict || rec.expected.None? || host.HostNotReady? || host.HostBusy? || task.Some? {
        return false, None;
      }
      rec := rec.(migrationPending := true);
      Renew(mac, rec);
      if host.StartLost? {
        records := records[mac := records[mac].(migrationPending := false)];
        view := WithRec(view, mac, records[mac]);
        return false, None;
      }
      task := Some(Ordered(rec.networkId.GetOr(""), rec.expected.value));
      view := view.(task := task);
      return true, None;
    }

    /** `_action_create_network` once nothing stands in the way: the new network takes the gateway over. */
    method FoundNetwork(mac: Mac, newId: string, name: string, seeded: Option<RfConfig>)
      requires Valid()
      modifies this`networks, this`view, networks, transports
      ensures Valid() && view == Founded(old(view), mac, newId, name, seeded)
    {
      var net := new Network(newId, name, Rf, Some(mac), seeded);
      ReleaseIdent(mac, None);
      networks := networks + [net];
      view := view.(nets := view.nets + [net.Info()]);
      StampTransport(mac, net.id);
    }

    /** `_action_create_network`. */
    method CreateNetworkFor(mac: Mac, name: string, channel: ChannelChoice, newId: string, fate: WriteFate) returns (ok: bool, sent: Option<RfConfig>)
      requires Valid() && mac in records
      modifies this`gateways, this`networks, this`records, this`nextToken, this`view, networks, transports
      ensures Valid() && Outcome(view, ok, sent) == DoCreate(old(view), mac, name, channel, newId, fate)
    {
      var rec := records[mac];
      var seeded := Seed(rec, channel);
      if (rec.state != Unbound && rec.state != InConflict) || name == "" || rec.actual.None? || seeded.None? {
        return false, None;
      }
      var clash := OccupantsOf(Infos(), seeded, "");
      if clash != [] {
        return false, None;
      }
      ok, sent := MoveOnto(mac, rec.actual, seeded.value, fate);
      if !ok {
        return;
      }
      FoundNetwork(mac, newId, name, seeded);
      rec := rec.(networkId := Some(newId), networkName := Some(name), expected := seeded, actual := seeded, state := Bound, conflictFields := []);
      Renew(mac, rec);
      return true, sent;
    }

    /** `_action_rebind`, up to the comparison of the two configurations. */
    method TakeOverNetwork(mac: Mac, k: nat)
      requires Valid() && mac in records && k < |networks|
      modifies this`records, this`view, networks, transports
      ensures Valid() && view == TakeOver(old(view), mac, k)
    {
      var rec, network := records[mac], networks[k];
      ReleaseIdent(mac, Some(k));
      network.gatewayMac := Some(mac);
      view := SetNet(view, k, network.Info());
      StampTransport(mac, network.id);
      rec := rec.(networkId := Some(network.id), networkName := Some(network.name), expected := network.rfConfig);
      records := records[mac := rec];
      view := WithRec(view, mac, rec);
    }

    /** `_action_rebind`, from there on. */
    method SettleMismatch(mac: Mac, k: nat, onMismatch: OnMismatch, fate: WriteFate) returns (ok: bool, sent: Option<RfConfig>)
      requires Valid() && mac in records && k < |networks|
      modifies this`gateways, this`records, this`nextToken, this`view, networks[k]
      ensures Valid() && Outcome(view, ok, sent) == SettleRebind(old(view), mac, k, onMismatch, fate)
    {
      var rec, network := records[mac], networks[k];
      if rec.expected.None? && rec.actual.Some? {
        var clash := OccupantsOf(Infos(), rec.actual, network.id);
        if clash != [] {
          return false, None;
        }
        WriteNetworkConfig(k, rec.actual);
        rec := rec.(expected := rec.actual, state := Bound, conflictFields := []);
        Renew(mac, rec);
        return true, None;
      }
      var diffs := RfDiff(rec.actual, rec.expected);
      if diffs == [] {
        rec := rec.(state := Bound, conflictFields := []);
        Renew(mac, rec);
        return true, None;
      }
      if onMismatch.Retune? {
        ok, sent := PushRf(mac, rec.expected.GetOr(map[]), fate);
        if ok {
          rec := rec.(actual := rec.expected, state := Bound, conflictFields := []);
          Renew(mac, rec);
        }
        return;
      }
      if onMismatch.Adopt? {
        ok, sent := AdoptGatewayConfig(mac, k);
        return;
      }
      rec := rec.(state := InConflict, conflictFields := diffs);
      Renew(mac, rec);
      return true, None;
    }

    /** `_action_rebind`. */
    method RebindTo(mac: Mac, targetId: string, onMismatch: OnMismatch, fate: WriteFate) returns (ok: bool, sent: Option<RfConfig>)
      requires Valid() && mac in records
      modifies this`gateways, this`records, this`nextToken, this`view, networks, transports
      ensures Valid() && Outcome(view, ok, sent) == DoRebind(old(view), mac, targetId, onMismatch, fate)
    {
      var rec := records[mac];
      var k := FindById(Infos(), targetId);
      if (rec.state != Unbound && rec.state != InConflict) || targetId == "" || onMismatch.UnknownMismatch?
         || k.None? || networks[k.value].kind != Rf {
        return false, None;
      }
      TakeOverNetwork(mac, k.value);
      ok, sent := SettleMismatch(mac, k.value, onMismatch, fate);
    }

    /** `resolve`. */
    method ResolveAction(mac: Mac, action: Action, token: Option<nat>) returns (ok: bool, sent: Option<RfConfig>)
      requires Valid()
      modifies this`gateways, this`networks, this`records, this`nextToken, this`task, this`view, networks, transports
      ensures Valid() && Outcome(view, ok, sent) == Resolve(old(view), mac, action, token)
    {
      if mac !in records {
        return false, None;
      }
      if token.Some? && token.value != records[mac].token {
        return false, None;
      }
      match action
      case RetuneGateway(fate) => ok, sent := RetuneGateway(mac, fate);
      case AcceptGateway => ok, sent := AcceptGatewayConfig(mac);
      case AcceptHost(host) => ok, sent := AcceptHostConfig(mac, host);
      case CreateNetwork(name, channel, newId, fate) => ok, sent := CreateNetworkFor(mac, name, channel, newId, fate);
      case Rebind(targetId, onMismatch, fate) => ok, sent := RebindTo(mac, targetId, onMismatch, fate);
      case UnknownAction => ok, sent := false, None;
    }

    // -- attach ---------------------------------------------------------------------------------

    /** `query_gateway_rf_config`. */
    method Query(first: seq<Event>, retry: seq<Event>) returns (actual: Option<RfConfig>)
      ensures actual == Heard(first, retry)
      ensures actual.Some? ==> RfChanged(actual) in first + retry
      ensures actual.None? ==> forall cfg :: RfChanged(Some(cfg)) !in first + retry
    {
      actual := Reported(first);
      if actual.None? {
        actual := Reported(retry);
      }
    }

    /** `evaluate` for an attached transport; `first` and `retry` are what its listener is given. */
    method EvaluateTransport(tr: GatewayTransport, first: seq<Event>, retry: seq<Event>)
      requires Valid() && tr in transports
      modifies this`records, this`nextToken, this`view, networks
      ensures Valid() && view == Evaluate(old(view), old(tr.Value()), Heard(first, retry))
    {
      if tr.ident.None? {
        return;
      }
      var mac := tr.ident.value;
      var k := if tr.networkId.None? then None else FindById(Infos(), tr.networkId.value);
      var actual := Query(first, retry);
      var rec := if mac in records then records[mac] else Rec(Pending, None, None, None, None, [], false, nextToken);
      rec := rec.(actual := actual, migrationPending := false);
      if k.None? {
        rec := rec.(state := Unbound, networkId := None, networkName := None, expected := None, conflictFields := []);
        Renew(mac, rec);
        return;
      }
      var network := networks[k.value];
      rec := rec.(networkId := Some(network.id), networkName := Some(network.name), expected := network.rfConfig);
      if rec.expected.None? {
        if actual.Some? {
          network.rfConfig := actual;
          rec := rec.(expected := actual);
          view := SetNet(view, k.value, network.Info());
        }
        rec := rec.(state := Bound, conflictFields := []);
      } else if actual.None? {
        rec := rec.(state := Pending, conflictFields := []);
      } else {
        var diffs := RfDiff(actual, rec.expected);
        if diffs == [] {
          rec := rec.(state := Bound, conflictFields := []);
        } else {
          rec := rec.(state := InConflict, conflictFields := diffs);
        }
      }
      Renew(mac, rec);
    }

    /** `_attach_transport`, up to the binding: a second transport of an attached gateway is turned away. */
    method AttachTransport(ident: Option<Mac>) returns (tr: Option<GatewayTransport>)
      requires Valid()
      modifies this`transports, this`view
      ensures Valid() && view == Next(old(view), Attach(ident))
      ensures tr.None? <==> ident.Some? && Attached(old(view), ident.value)
      ensures tr.Some? ==> fresh(tr.value) && transports == old(transports) + [tr.value]
    {
      if ident.Some? {
        var duplicate := IsAttached(ident.value);
        if duplicate {
          return None;
        }
      }
      var latest := new GatewayTransport(ident);
      transports := transports + [latest];
      view := view.(transports := view.transports + [latest.Value()]);
      return Some(latest);
    }

    /** A transport is closed and leaves the list. */
    method DetachTransport(t: nat)
      requires Valid() && t < |transports|
      modifies this`transports, this`view
      ensures Valid() && view == Next(old(view), Detach(t))
    {
      transports := transports[..t] + transports[t + 1..];
      view := view.(transports := view.transports[..t] + view.transports[t + 1..]);
    }

    /** `forget`. */
    method ForgetRecord(mac: Mac)
      requires Valid()
      modifies this`records, this`view
      ensures Valid() && view == Next(old(view), Forget(mac))
    {
      records := records - {mac};
      view := view.(recs := records);
    }

    /** The controller's auto-bind of a freshly attached transport (racelink/controller.py:851-919). */
    method AutoBindTransport(t: nat)
      requires Valid() && t < |transports|
      modifies this`view, networks, transports[t]
      ensures Valid() && view == AutoBind(old(view), t)
    {
      var tr := transports[t];
      var boundId: Option<string> := None;
      if tr.ident.Some? {
        var mine := FindByMac(Infos(), tr.ident.value);
        if mine.Some? {
          boundId := Some(networks[mine.value].id);
        } else if |transports| <= 1 {
          var free := FirstFree(Infos());
          if free.Some? {
            var target := networks[free.value];
            target.gatewayMac := tr.ident;
            boundId := Some(target.id);
            view := SetNet(view, free.value, target.Info());
          }
        }
      }
      tr.networkId := boundId;
      view := view.(transports := view.transports[t := tr.Value()]);
    }

    // -- migrating a network ----------------------------------------------------------------------

    /** The transports as values. */
    function Values(): (r: seq<Transport>)
      requires Valid()
      reads this, networks, transports
      ensures r == view.transports
    {
      seq(|transports|, i requires 0 <= i < |transports| reads this, transports => transports[i].Value())
    }

    /** `transport_for_network`. */
    method TransportForNetwork(network: Network, ghost k: nat) returns (t: Option<nat>)
      requires Valid() && k < |networks| && network == networks[k]
      ensures t == Route(view, k)
    {
      var stamped := FirstStamped(Values(), network.id);
      if stamped.Some? {
        return stamped;
      }
      if network.gatewayMac.None? {
        return if |transports| == 1 then Some(0) else None;
      }
      t := FirstCarrying(Values(), network.gatewayMac.value);
    }

    /** The task manager starts a migration ordered over the web interface, unless one is running. */
    method OrderMigration(networkId: string, target: RfConfig) returns (started: bool)
      requires Valid()
      modifies this`task, this`view
      ensures Valid() && view == Order(old(view), networkId, target) && started == old(task).None?
    {
      if task.Some? {
        return false;
      }
      task := Some(Ordered(networkId, target));
      view := view.(task := task);
      started := true;
    }

    /** The validation of `migrate_network_to`; then come the pushes to the devices. */
    method CheckMigration(networkId: string, target: RfConfig)
      requires Valid() && task == Some(Ordered(networkId, target))
      modifies this`task, this`view
      ensures Valid() && view == CheckOrder(old(view), networkId, target)
    {
      var k := FindById(Infos(), networkId);
      var t: Option<nat> := None;
      if Complete(target) && k.Some? && networks[k.value].kind == Rf {
        t := TransportForNetwork(networks[k.value], k.value);
      }
      task := if t.None? then None else Some(Checked(networkId, transports[t.value].ident, target));
      view := view.(task := task);
    }

    /** The gateway's switch and, on a good reply, the network's. */
    method SwitchNetwork(networkId: string, ident: Option<Mac>, target: RfConfig, fate: WriteFate)
      requires Valid() && task == Some(Checked(networkId, ident, target))
      modifies this`task, this`gateways, this`view, networks
      ensures Valid() && view == Switch(old(view), networkId, ident, target, fate)
    {
      if ident.Some? && fate.taken {
        gateways := gateways[ident.value := target];
        view := view.(gateways := gateways);
      }
      task := if fate.acked then Some(Switched(ident)) else None;
      view := view.(task := task);
      if fate.acked {
        var k := FindById(Infos(), networkId);
        if k.Some? {
          WriteNetworkConfig(k.value, Some(target));
        }
      }
    }

    /** `re_evaluate`, the migration's last act. */
    method CloseMigration(ident: Option<Mac>, first: seq<Event>, retry: seq<Event>)
      requires Valid() && task == Some(Switched(ident))
      modifies this`records, this`nextToken, this`task, this`view, networks
      ensures Valid() && view == Close(old(view), ident, Heard(first, retry))
    {
      task := None;
      view := view.(task := None);
      if ident.Some? {
        var t := FirstCarrying(Values(), ident.value);
        if t.None? {
          ForgetRecord(ident.value);
        } else {
          EvaluateTransport(transports[t.value], first, retry);
        }
      }
    }

    /** `api_network_update`'s change of a network's settings. */
    method EditNetwork(networkId: string, settings: Option<RfConfig>) returns (ok: bool)
      requires Valid()
      modifies this`view, networks
      ensures Valid() && view == Edit(old(view), networkId, settings)
      ensures var k := FindById(old(view.nets), networkId);
              ok <==> k.Some? && (settings.Some? ==> Conflicts(Speculative(old(view.nets), k.value, settings)) == [])
    {
      var k := FindById(Infos(), networkId);
      if k.None? {
        return false;
      }
      if settings.Some? {
        var conflicts := ValidateNetworksSeparation(Speculative(Infos(), k.value, settings));
        if conflicts != [] {
          return false;
        }
      }
      WriteNetworkConfig(k.value, settings);
      return true;
    }
  }
}
