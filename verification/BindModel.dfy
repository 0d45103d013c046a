/** The gateway bind state machine as functions on values: what every evaluation and operator action makes of
    the bind records and the network list (racelink/services/gateway_bind_service.py, controller.py). */
module BindModel {
  import opened Common
  import opened RfPolicy

  datatype BindState = Pending | Bound | InConflict | Unbound

  type Mac = string

  /** `BindRecord`; tokens are drawn from a counter, so every `uuid4` is new. */
  datatype Rec = Rec(
    state: BindState, networkId: Option<string>, networkName: Option<string>,
    actual: Option<RfConfig>, expected: Option<RfConfig>, conflictFields: seq<RfField>,
    migrationPending: bool, token: nat)

  datatype Transport = Transport(ident: Option<Mac>, networkId: Option<string>)

  /** A network's migration, from its order to its end: what was ordered; then, once checked, over which gateway it
      goes; then, with gateway and network switched, whose record is left to evaluate. */
  datatype Job =
    | Ordered(networkId: string, target: RfConfig)
    | Checked(networkId: string, ident: Option<Mac>, target: RfConfig)
    | Switched(ident: Option<Mac>)

  /** The network repository, the bind records, the attached transports and the migration under way; and, out of the
      host's sight, the settings each gateway really runs on. */
  datatype Sys = Sys(
    nets: seq<NetInfo>, recs: map<Mac, Rec>, transports: seq<Transport>, nextToken: nat, gateways: map<Mac, RfConfig>,
    task: Option<Job>)

  // -- comparing configurations --------------------------------------------------------

  /** The fields of a configuration; none for a missing one. */
  function Fields(cfg: Option<RfConfig>): RfConfig {
    cfg.GetOr(map[])
  }

  /** Both sides hold the same fields with the same values. */
  predicate Same(a: Option<RfConfig>, b: Option<RfConfig>) {
    Fields(a) == Fields(b)
  }

  /** `_RF_FIELDS`, by position. */
  function FieldAt(i: nat): RfField
    requires i < 7
  {
    match i
    case 0 => FreqHz case 1 => BwKhzX10 case 2 => Sf case 3 => CrDen case 4 => SyncWord case 5 => TxPowerDbm case _ => Preamble
  }

  function RfFields(): (r: seq<RfField>)
    ensures |r| == 7 && forall i :: 0 <= i < 7 ==> r[i] == FieldAt(i)
  {
    seq(7, i requires 0 <= i < 7 => FieldAt(i))
  }

  predicate Differs(f: RfField, actual: Option<RfConfig>, expected: Option<RfConfig>) {
    (f in Fields(actual)) != (f in Fields(expected)) || (f in Fields(actual) && Fields(actual)[f] != Fields(expected)[f])
  }

  function DiffOver(fields: seq<RfField>, actual: Option<RfConfig>, expected: Option<RfConfig>): (r: seq<RfField>)
    ensures forall f :: f in r <==> f in fields && Differs(f, actual, expected)
    decreases |fields|
  {
    if fields == [] then []
    else
      assert forall f :: f in fields <==> f == fields[0] || f in fields[1..];
      (if Differs(fields[0], actual, expected) then [fields[0]] else []) + DiffOver(fields[1..], actual, expected)
  }

  lemma SameMeansNoneDiffers(actual: Option<RfConfig>, expected: Option<RfConfig>)
    ensures Same(actual, expected) <==> forall f: RfField :: !Differs(f, actual, expected)
  {
    if forall f: RfField :: !Differs(f, actual, expected) {
      forall f: RfField
        ensures f in Fields(actual) <==> f in Fields(expected)
        ensures f in Fields(actual) ==> Fields(actual)[f] == Fields(expected)[f]
      {
        assert !Differs(f, actual, expected);
      }
      assert Fields(actual) == Fields(expected);
    }
  }

  /** `_rf_diff`: the fields on which the two sides disagree, a field missing on one side included. */
  function RfDiff(actual: Option<RfConfig>, expected: Option<RfConfig>): (r: seq<RfField>)
    ensures r == [] <==> Same(actual, expected)
  {
    SameMeansNoneDiffers(actual, expected);
    FieldsListed();
    var r := DiffOver(RfFields(), actual, expected);
    assert forall f: RfField :: f in r <==> Differs(f, actual, expected);
    assert r != [] ==> r[0] in r;
    r
  }

  lemma FieldsListed()
    ensures forall f: RfField :: f in RfFields()
  {
    forall f: RfField
      ensures f in RfFields()
    {
      var i: nat := match f
        case FreqHz => 0 case BwKhzX10 => 1 case Sf => 2 case CrDen => 3 case SyncWord => 4 case TxPowerDbm => 5 case Preamble => 6;
      assert RfFields()[i] == f;
    }
  }

  /** The list names exactly the fields that differ, so it is empty exactly when both sides hold the same. */
  lemma DiffExact(actual: Option<RfConfig>, expected: Option<RfConfig>, f: RfField)
    ensures f in RfDiff(actual, expected) <==> Differs(f, actual, expected)
    ensures RfDiff(actual, expected) == [] <==> Same(actual, expected)
  {
    FieldsListed();
  }

  // -- the repository -------------------------------------------------------------------

  /** `get_by_id`: the first network with that id. */
  function FindById(nets: seq<NetInfo>, id: string): (r: Option<nat>)
    ensures r.Some? ==> r.value < |nets| && nets[r.value].id == id
    ensures r.None? && id != "" ==> forall i :: 0 <= i < |nets| ==> nets[i].id != id
  {
    if id == "" || nets == [] then None
    else if nets[0].id == id then Some(0)
    else
      var r := FindById(nets[1..], id);
      assert forall i :: 0 < i < |nets| ==> nets[i] == nets[1..][i - 1];
      if r.None? then None else Some(r.value + 1)
  }

  /** `get_by_gateway_mac`. */
  function FindByMac(nets: seq<NetInfo>, mac: Mac): (r: Option<nat>)
    ensures r.Some? ==> r.value < |nets| && nets[r.value].gatewayMac == Some(mac)
    ensures r.None? ==> forall i :: 0 <= i < |nets| ==> nets[i].gatewayMac != Some(mac)
  {
    if nets == [] then None
    else if nets[0].gatewayMac == Some(mac) then Some(0)
    else
      var r := FindByMac(nets[1..], mac);
      assert forall i :: 0 < i < |nets| ==> nets[i] == nets[1..][i - 1];
      if r.None? then None else Some(r.value + 1)
  }

  function FirstFree(nets: seq<NetInfo>): (r: Option<nat>)
    ensures r.Some? ==> r.value < |nets| && nets[r.value].gatewayMac.None?
  {
    if nets == [] then None
    else if nets[0].gatewayMac.None? then Some(0)
    else
      var r := FirstFree(nets[1..]);
      if r.None? then None else Some(r.value + 1)
  }

  /** `_release_ident_from_networks`. */
  function Released(n: NetInfo, mac: Mac): NetInfo {
    if n.gatewayMac == Some(mac) then n.(gatewayMac := None) else n
  }

  function Release(nets: seq<NetInfo>, mac: Mac, keep: Option<nat>): (r: seq<NetInfo>)
    ensures |r| == |nets|
    ensures forall i :: 0 <= i < |nets| ==> r[i] == if keep == Some(i) then nets[i] else Released(nets[i], mac)
  {
    seq(|nets|, i requires 0 <= i < |nets| => if keep == Some(i) then nets[i] else Released(nets[i], mac))
  }

  /** `_bind_transport_to_network`: stamps the first transport with that ident. */
  function Stamp(transports: seq<Transport>, mac: Mac, networkId: string): (r: seq<Transport>)
    ensures |r| == |transports|
  {
    if transports == [] then []
    else if transports[0].ident == Some(mac) then [transports[0].(networkId := Some(networkId))] + transports[1..]
    else [transports[0]] + Stamp(transports[1..], mac, networkId)
  }

  lemma {:induction false} StampsFirst(transports: seq<Transport>, mac: Mac, networkId: string, i: nat)
    requires i < |transports| && transports[i].ident == Some(mac)
    requires forall k :: 0 <= k < i ==> transports[k].ident != Some(mac)
    ensures Stamp(transports, mac, networkId) == transports[i := Transport(Some(mac), Some(networkId))]
  {
    if i > 0 {
      StampsFirst(transports[1..], mac, networkId, i - 1);
    }
  }

  lemma {:induction false} StampsNone(transports: seq<Transport>, mac: Mac, networkId: string)
    requires forall k :: 0 <= k < |transports| ==> transports[k].ident != Some(mac)
    ensures Stamp(transports, mac, networkId) == transports
  {
    if transports != [] {
      StampsNone(transports[1..], mac, networkId);
    }
  }

  predicate Attached(sys: Sys, mac: Mac) {
    exists i :: 0 <= i < |sys.transports| && sys.transports[i].ident == Some(mac)
  }

  function WithRec(sys: Sys, mac: Mac, rec: Rec): Sys {
    sys.(recs := sys.recs[mac := rec])
  }

  /** Stores `rec` under a fresh token: what every settled answer does. */
  function Settle(sys: Sys, mac: Mac, rec: Rec): Sys {
    sys.(recs := sys.recs[mac := rec.(token := sys.nextToken)], nextToken := sys.nextToken + 1)
  }

  function SetNet(sys: Sys, k: nat, n: NetInfo): Sys
    requires k < |sys.nets|
  {
    sys.(nets := sys.nets[k := n])
  }

  // -- attach: auto-bind and evaluate -----------------------------------------------------

  /** The controller's auto-bind of transport `t` (racelink/controller.py:851-919). */
  function AutoBind(sys: Sys, t: nat): Sys
    requires t < |sys.transports|
  {
    var tr := sys.transports[t];
    if tr.ident.None? then sys.(transports := sys.transports[t := tr.(networkId := None)])
    else
      var mine := FindByMac(sys.nets, tr.ident.value);
      var free := if |sys.transports| <= 1 then FirstFree(sys.nets) else None;
      if mine.Some? then
        sys.(transports := sys.transports[t := tr.(networkId := Some(sys.nets[mine.value].id))])
      else if free.Some? then
        SetNet(sys, free.value, sys.nets[free.value].(gatewayMac := tr.ident))
          .(transports := sys.transports[t := tr.(networkId := Some(sys.nets[free.value].id))])
      else sys.(transports := sys.transports[t := tr.(networkId := None)])
  }

  /** The network a transport is stamped with, if it still exists. */
  function StampedNet(sys: Sys, tr: Transport): (r: Option<nat>)
    ensures r.Some? ==> r.value < |sys.nets|
  {
    if tr.networkId.None? then None else FindById(sys.nets, tr.networkId.value)
  }

  /** What a transport's listener is given while it waits for the answer to GET_RF_CONFIG. */
  datatype Event = RfChanged(settings: Option<RfConfig>) | OtherEvent

  /** The settings of the first EV_RF_CHANGED that carries any, whatever it answers. */
  function Reported(events: seq<Event>): (r: Option<RfConfig>)
    ensures r.Some? ==> RfChanged(r) in events
    ensures r.None? ==> forall cfg :: RfChanged(Some(cfg)) !in events
  {
    if events == [] then None
    else if events[0].RfChanged? && events[0].settings.Some? then events[0].settings
    else Reported(events[1..])
  }

  /** `query_gateway_rf_config`: one attempt and, if nothing was heard, a retry. */
  function Heard(first: seq<Event>, retry: seq<Event>): Option<RfConfig> {
    if Reported(first).Some? then Reported(first) else Reported(retry)
  }

  /** Whether evaluating adopts the gateway's configuration into a network that has none. */
  predicate AdoptsOnContact(sys: Sys, tr: Transport, actual: Option<RfConfig>) {
    && tr.ident.Some? && actual.Some?
    && StampedNet(sys, tr).Some? && sys.nets[StampedNet(sys, tr).value].rfConfig.None?
  }

  /** `evaluate`, given what was heard after GET_RF_CONFIG: the settings of any EV_RF_CHANGED, or none. */
  function Evaluate(sys: Sys, tr: Transport, actual: Option<RfConfig>): Sys {
    if tr.ident.None? then sys
    else
      var k := StampedNet(sys, tr);
      if k.None? then Settle(sys, tr.ident.value, Rec(Unbound, None, None, actual, None, [], false, 0))
      else
        var net := sys.nets[k.value];
        var rec := Rec(Bound, Some(net.id), Some(net.name), actual, net.rfConfig, [], false, 0);
        if net.rfConfig.None? then
          if actual.Some?
          then Settle(SetNet(sys, k.value, net.(rfConfig := actual)), tr.ident.value, rec.(expected := actual))
          else Settle(sys, tr.ident.value, rec)
        else if actual.None? then Settle(sys, tr.ident.value, rec.(state := Pending))
        else
          Settle(sys, tr.ident.value,
                 if Same(actual, net.rfConfig) then rec
                 else rec.(state := InConflict, conflictFields := RfDiff(actual, net.rfConfig)))
  }

  // -- the operator's actions ---------------------------------------------------------------

  datatype MigrationHost = HostNotReady | HostBusy | StartLost | Started

  /** The channel of a new network: none picked, not a number, or looked up in the region's table. */
  datatype ChannelChoice = GatewaysOwn | NotANumber | Channel(cfg: Option<RfConfig>)

  datatype OnMismatch = Ask | Retune | Adopt | UnknownMismatch

  /** The fate of a SET_RF_CONFIG: whether the gateway takes it, and whether an EV_RF_CHANGED that says OK comes
      in time. The one does not imply the other: a reply can be lost after the write was stored, and a late answer
      to a reading passes for the reply of a write that was dropped. */
  datatype WriteFate = WriteFate(taken: bool, acked: bool)

  /** An action with its parameters; `fate` is what becomes of a write should there be one, `newId` the id a new
      network would draw. */
  datatype Action =
    | RetuneGateway(fate: WriteFate)
    | AcceptGateway
    | AcceptHost(host: MigrationHost)
    | CreateNetwork(name: string, channel: ChannelChoice, newId: string, fate: WriteFate)
    | Rebind(targetId: string, onMismatch: OnMismatch, fate: WriteFate)
    | UnknownAction

  /** The state after an action, whether it reported success, and the settings it sent to the gateway; a refusal
      keeps what was changed before it. */
  datatype Outcome = Outcome(sys: Sys, ok: bool, sent: Option<RfConfig>)

  function Refused(sys: Sys): Outcome {
    Outcome(sys, false, None)
  }

  /** `_push_rf_to_gateway`: refused for a gateway that is not attached and for a write without a good reply. */
  function Push(sys: Sys, mac: Mac, cfg: RfConfig, fate: WriteFate): Outcome {
    if !Attached(sys, mac) then Refused(sys)
    else Outcome(if fate.taken then sys.(gateways := sys.gateways[mac := cfg]) else sys, fate.acked, Some(cfg))
  }

  function DoRetune(sys: Sys, mac: Mac, fate: WriteFate): Outcome
    requires mac in sys.recs
  {
    var rec := sys.recs[mac];
    if rec.state != InConflict || rec.expected.None? || rec.expected.value == map[] then Refused(sys)
    else
      var push := Push(sys, mac, rec.expected.value, fate);
      if !push.ok then push
      else push.(sys := Settle(push.sys, mac, rec.(actual := rec.expected, state := Bound, conflictFields := [], migrationPending := false)))
  }

  /** `_adopt_gateway_config` into network `k`, then a fresh token; refused when the channel is taken. */
  function DoAdopt(sys: Sys, mac: Mac, k: nat): Outcome
    requires mac in sys.recs && k < |sys.nets|
  {
    var rec := sys.recs[mac];
    if rec.actual.None? || Occupants(sys.nets, rec.actual, sys.nets[k].id) != [] then Refused(sys)
    else
      Outcome(Settle(SetNet(sys, k, sys.nets[k].(rfConfig := rec.actual)), mac,
                     rec.(expected := rec.actual, state := Bound, conflictFields := [], migrationPending := false)), true, None)
  }

  function DoAcceptGateway(sys: Sys, mac: Mac): Outcome
    requires mac in sys.recs
  {
    var rec := sys.recs[mac];
    if rec.state != InConflict || rec.actual.None? || rec.networkId.None? then Refused(sys)
    else
      var k := FindById(sys.nets, rec.networkId.value);
      if k.None? then Refused(sys) else DoAdopt(sys, mac, k.value)
  }

  /** The token is renewed before the migration starts, so a lost start costs the operator the wizard. */
  function DoAcceptHost(sys: Sys, mac: Mac, host: MigrationHost): Outcome
    requires mac in sys.recs
  {
    var rec := sys.recs[mac];
    if rec.state != InConflict || rec.expected.None? || host.HostNotReady? || host.HostBusy? || sys.task.Some? then Refused(sys)
    else
      var settled := Settle(sys, mac, rec.(migrationPending := host.Started?));
      if host.Started?
      then Outcome(settled.(task := Some(Ordered(rec.networkId.GetOr(""), rec.expected.value))), true, None)
      else Refused(settled)
  }

  /** The settings a new network starts with: the channel picked, or the gateway's own. */
  function Seed(rec: Rec, channel: ChannelChoice): Option<RfConfig> {
    if channel.Channel? then channel.cfg else if channel.NotANumber? then None else rec.actual
  }

  function DoCreate(sys: Sys, mac: Mac, name: string, channel: ChannelChoice, newId: string, fate: WriteFate): Outcome
    requires mac in sys.recs
  {
    var rec := sys.recs[mac];
    var seeded := Seed(rec, channel);
    if (rec.state != Unbound && rec.state != InConflict) || name == "" || rec.actual.None? || seeded.None? then Refused(sys)
    else if Occupants(sys.nets, seeded, "") != [] then Refused(sys)
    else
      var push := if Same(rec.actual, seeded) then Outcome(sys, true, None) else Push(sys, mac, seeded.value, fate);
      if !push.ok then push
      else push.(sys := Settle(Founded(push.sys, mac, newId, name, seeded), mac,
                               rec.(networkId := Some(newId), networkName := Some(name), expected := seeded,
                                    actual := seeded, state := Bound, conflictFields := [])))
  }

  /** The new network takes the gateway over from all others. */
  function Founded(sys: Sys, mac: Mac, newId: string, name: string, seeded: Option<RfConfig>): Sys {
    sys.(nets := Release(sys.nets, mac, None) + [NetInfo(newId, name, Rf, Some(mac), seeded)],
         transports := Stamp(sys.transports, mac, newId))
  }

  /** The part of `rebind` that is done before the configurations are even compared. */
  function TakeOver(sys: Sys, mac: Mac, k: nat): (r: Sys)
    requires mac in sys.recs && k < |sys.nets|
    ensures mac in r.recs && |r.nets| == |sys.nets|
  {
    var net := sys.nets[k];
    var nets := Release(sys.nets, mac, Some(k))[k := net.(gatewayMac := Some(mac))];
    WithRec(sys.(nets := nets, transports := Stamp(sys.transports, mac, net.id)), mac,
            sys.recs[mac].(networkId := Some(net.id), networkName := Some(net.name), expected := net.rfConfig))
  }

  /** The part of `rebind` that settles a mismatch, or fails to. */
  function SettleRebind(sys: Sys, mac: Mac, k: nat, onMismatch: OnMismatch, fate: WriteFate): Outcome
    requires mac in sys.recs && k < |sys.nets|
  {
    var rec := sys.recs[mac];
    var bound := rec.(state := Bound, conflictFields := []);
    if rec.expected.None? && rec.actual.Some? then
      if Occupants(sys.nets, rec.actual, sys.nets[k].id) != [] then Refused(sys)
      else Outcome(Settle(SetNet(sys, k, sys.nets[k].(rfConfig := rec.actual)), mac, bound.(expected := rec.actual)), true, None)
    else if Same(rec.actual, rec.expected) then Outcome(Settle(sys, mac, bound), true, None)
    else if onMismatch.Retune? then
      var push := Push(sys, mac, rec.expected.GetOr(map[]), fate);
      if !push.ok then push else push.(sys := Settle(push.sys, mac, bound.(actual := rec.expected)))
    else if onMismatch.Adopt? then DoAdopt(sys, mac, k)
    else
      Outcome(Settle(sys, mac, rec.(state := InConflict, conflictFields := RfDiff(rec.actual, rec.expected))), true, None)
  }

  /** What `rebind` checks before it touches anything: the network it may take over, if any. */
  function RebindTarget(sys: Sys, mac: Mac, targetId: string, onMismatch: OnMismatch): (k: Option<nat>)
    requires mac in sys.recs
    ensures k.Some? ==> k.value < |sys.nets| && sys.nets[k.value].id == targetId && sys.recs[mac].state in {Unbound, InConflict}
  {
    var k := FindById(sys.nets, targetId);
    if (sys.recs[mac].state != Unbound && sys.recs[mac].state != InConflict) || targetId == "" || onMismatch.UnknownMismatch?
       || k.None? || sys.nets[k.value].kind != Rf
    then None
    else k
  }

  function DoRebind(sys: Sys, mac: Mac, targetId: string, onMismatch: OnMismatch, fate: WriteFate): Outcome
    requires mac in sys.recs
  {
    var k := RebindTarget(sys, mac, targetId, onMismatch);
    if k.None? then Refused(sys) else SettleRebind(TakeOver(sys, mac, k.value), mac, k.value, onMismatch, fate)
  }

  /** `resolve`. */
  function Resolve(sys: Sys, mac: Mac, action: Action, token: Option<nat>): Outcome {
    if mac !in sys.recs then Refused(sys)
    else if token.Some? && token.value != sys.recs[mac].token then Refused(sys)
    else
      match action
      case RetuneGateway(fate) => DoRetune(sys, mac, fate)
      case AcceptGateway => DoAcceptGateway(sys, mac)
      case AcceptHost(host) => DoAcceptHost(sys, mac, host)
      case CreateNetwork(name, channel, newId, fate) => DoCreate(sys, mac, name, channel, newId, fate)
      case Rebind(targetId, onMismatch, fate) => DoRebind(sys, mac, targetId, onMismatch, fate)
      case UnknownAction => Refused(sys)
  }

  // -- migrating a network -------------------------------------------------------------------

  /** All seven wire fields are there. */
  predicate Complete(cfg: RfConfig) {
    forall f: RfField :: f in cfg
  }

  /** The first transport stamped with a network, or carrying a gateway. */
  function FirstStamped(transports: seq<Transport>, networkId: string): (r: Option<nat>)
    ensures r.Some? ==> r.value < |transports| && transports[r.value].networkId == Some(networkId)
    ensures r.None? ==> forall i :: 0 <= i < |transports| ==> transports[i].networkId != Some(networkId)
  {
    if transports == [] then None
    else if transports[0].networkId == Some(networkId) then Some(0)
    else
      var r := FirstStamped(transports[1..], networkId);
      assert forall i :: 0 < i < |transports| ==> transports[i] == transports[1..][i - 1];
      if r.None? then None else Some(r.value + 1)
  }

  function FirstCarrying(transports: seq<Transport>, mac: Mac): (r: Option<nat>)
    ensures r.Some? ==> r.value < |transports| && transports[r.value].ident == Some(mac)
    ensures r.None? ==> forall i :: 0 <= i < |transports| ==> transports[i].ident != Some(mac)
  {
    if transports == [] then None
    else if transports[0].ident == Some(mac) then Some(0)
    else
      var r := FirstCarrying(transports[1..], mac);
      assert forall i :: 0 < i < |transports| ==> transports[i] == transports[1..][i - 1];
      if r.None? then None else Some(r.value + 1)
  }

  /** `transport_for_network`, for network `k`. */
  function Route(sys: Sys, k: nat): (r: Option<nat>)
    requires k < |sys.nets|
    ensures r.Some? ==> r.value < |sys.transports|
  {
    var net := sys.nets[k];
    var stamped := FirstStamped(sys.transports, net.id);
    if stamped.Some? then stamped
    else if net.gatewayMac.None? then (if |sys.transports| == 1 then Some(0) else None)
    else FirstCarrying(sys.transports, net.gatewayMac.value)
  }

  /** The validation of `migrate_network_to`: the network, if it can be migrated to `target`. */
  function Migratable(sys: Sys, networkId: string, target: RfConfig): (k: Option<nat>)
    ensures k.Some? ==> k.value < |sys.nets| && sys.nets[k.value].id == networkId && Route(sys, k.value).Some? && Complete(target)
  {
    var k := FindById(sys.nets, networkId);
    if Complete(target) && k.Some? && sys.nets[k.value].kind == Rf && Route(sys, k.value).Some? then k else None
  }

  /** A migration ordered over the web interface; refused while another runs. */
  function Order(sys: Sys, networkId: string, target: RfConfig): Sys {
    if sys.task.Some? then sys else sys.(task := Some(Ordered(networkId, target)))
  }

  function CheckOrder(sys: Sys, networkId: string, target: RfConfig): Sys {
    var k := Migratable(sys, networkId, target);
    if k.None? then sys.(task := None)
    else sys.(task := Some(Checked(networkId, sys.transports[Route(sys, k.value).value].ident, target)))
  }

  /** The gateway's switch, its devices having been pushed to: on a good reply the network has the new settings,
      whatever is on that channel by now. */
  function Switch(sys: Sys, networkId: string, ident: Option<Mac>, target: RfConfig, fate: WriteFate): Sys {
    var written := if ident.Some? && fate.taken then sys.(gateways := sys.gateways[ident.value := target]) else sys;
    if !fate.acked then written.(task := None)
    else
      var k := FindById(sys.nets, networkId);
      (if k.None? then written else SetNet(written, k.value, sys.nets[k.value].(rfConfig := Some(target))))
        .(task := Some(Switched(ident)))
  }

  /** The end: `re_evaluate` of the gateway, whose record is dropped if it is no longer attached. */
  function Close(sys: Sys, ident: Option<Mac>, heard: Option<RfConfig>): Sys {
    var done := sys.(task := None);
    if ident.None? then done
    else
      var t := FirstCarrying(sys.transports, ident.value);
      if t.None? then done.(recs := sys.recs - {ident.value}) else Evaluate(done, sys.transports[t.value], heard)
  }

  // -- the network manager ---------------------------------------------------------------------

  /** Network `k` with other settings, and all others: what the network manager audits before it commits. */
  function Speculative(nets: seq<NetInfo>, k: nat, cfg: Option<RfConfig>): seq<NetInfo>
    requires k < |nets|
  {
    [nets[k].(rfConfig := cfg)] + nets[..k] + nets[k + 1..]
  }

  /** `api_network_update`'s change of a network's settings: taking them away is not audited. */
  function Edit(sys: Sys, networkId: string, cfg: Option<RfConfig>): Sys {
    var k := FindById(sys.nets, networkId);
    if k.None? || (cfg.Some? && Conflicts(Speculative(sys.nets, k.value, cfg)) != []) then sys
    else SetNet(sys, k.value, sys.nets[k.value].(rfConfig := cfg))
  }

  // -- runs -------------------------------------------------------------------------------------

  /** `Outside` is anything that moves a gateway's settings behind the host's back: a reflash, a replacement, another
      host. What an evaluation hears is a parameter: the gateway's answer, none, or the settings of some other
      EV_RF_CHANGED. */
  datatype Step =
    | Attach(ident: Option<Mac>)
    | Detach(t: nat)
    | BindStep(t: nat)
    | EvaluateStep(t: nat, heard: Option<RfConfig>)
    | ResolveStep(mac: Mac, action: Action, token: Option<nat>)
    | Forget(mac: Mac)
    | OrderStep(networkId: string, target: RfConfig)
    | CheckStep
    | SwitchStep(fate: WriteFate)
    | CloseStep(heard: Option<RfConfig>)
    | EditStep(networkId: string, settings: Option<RfConfig>)
    | Outside(mac: Mac, cfg: RfConfig)

  /** A step's transport is attached, a drawn network id is new, and the migration is where the step takes it up. */
  predicate Enabled(sys: Sys, step: Step) {
    match step
    case BindStep(t) => t < |sys.transports|
    case EvaluateStep(t, _) => t < |sys.transports|
    case Detach(t) => t < |sys.transports|
    case CheckStep => sys.task.Some? && sys.task.value.Ordered?
    case SwitchStep(_) => sys.task.Some? && sys.task.value.Checked?
    case CloseStep(_) => sys.task.Some? && sys.task.value.Switched?
    case ResolveStep(_, action, _) =>
      action.CreateNetwork? ==> action.newId != "" && forall i :: 0 <= i < |sys.nets| ==> sys.nets[i].id != action.newId
    case _ => true
  }

  function Next(sys: Sys, step: Step): Sys
    requires Enabled(sys, step)
  {
    match step
    case Attach(ident) =>
      if ident.Some? && Attached(sys, ident.value) then sys else sys.(transports := sys.transports + [Transport(ident, None)])
    case Detach(t) => sys.(transports := sys.transports[..t] + sys.transports[t + 1..])
    case BindStep(t) => AutoBind(sys, t)
    case EvaluateStep(t, heard) => Evaluate(sys, sys.transports[t], heard)
    case ResolveStep(mac, action, token) => Resolve(sys, mac, action, token).sys
    case Forget(mac) => sys.(recs := sys.recs - {mac})
    case OrderStep(networkId, target) => Order(sys, networkId, target)
    case CheckStep => CheckOrder(sys, sys.task.value.networkId, sys.task.value.target)
    case SwitchStep(fate) => Switch(sys, sys.task.value.networkId, sys.task.value.ident, sys.task.value.target, fate)
    case CloseStep(heard) => Close(sys, sys.task.value.ident, heard)
    case EditStep(networkId, settings) => Edit(sys, networkId, settings)
    case Outside(mac, cfg) => sys.(gateways := sys.gateways[mac := cfg])
  }

  /** The states of a run: each follows from the one before by the step listed. */
  ghost predicate IsRun(states: seq<Sys>, steps: seq<Step>) {
    && |states| == |steps| + 1
    && forall i :: 0 <= i < |steps| ==> Enabled(states[i], steps[i]) && states[i + 1] == Next(states[i], steps[i])
  }
}
