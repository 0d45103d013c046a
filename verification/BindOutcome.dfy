/** What one answer of the operator achieves, and what a refusal leaves behind
    (racelink/services/gateway_bind_service.py:462-1064). */
module BindOutcome {
  import opened Common
  import opened RfPolicy
  import opened BindModel
  import opened BindSafety

  ghost predicate FirstOf(transports: seq<Transport>, mac: Mac, i: nat) {
    i < |transports| && transports[i].ident == Some(mac) && forall k :: 0 <= k < i ==> transports[k].ident != Some(mac)
  }

  /** Stamping writes the first transport of that gateway and no other. */
  lemma {:induction false} StampExact(transports: seq<Transport>, mac: Mac, networkId: string, i: nat)
    requires i < |transports|
    ensures Stamp(transports, mac, networkId)[i]
         == if FirstOf(transports, mac, i) then transports[i].(networkId := Some(networkId)) else transports[i]
  {
    if i > 0 && transports[0].ident != Some(mac) {
      StampExact(transports[1..], mac, networkId, i - 1);
      assert FirstOf(transports, mac, i) <==> FirstOf(transports[1..], mac, i - 1) by {
        assert forall k :: 0 < k < i ==> transports[k] == transports[1..][k - 1];
        assert forall k :: 0 <= k < i - 1 ==> transports[1..][k] == transports[k + 1];
      }
    }
  }

  /** Network `k` is the gateway's: by its claim, by the record, and by the stamp on the gateway's transport. */
  ghost predicate Drives(sys: Sys, mac: Mac, k: nat) {
    && mac in sys.recs && k < |sys.nets|
    && sys.nets[k].gatewayMac == Some(mac)
    && sys.recs[mac].networkId == Some(sys.nets[k].id) && sys.recs[mac].networkName == Some(sys.nets[k].name)
    && sys.recs[mac].expected == sys.nets[k].rfConfig
    && StampedWith(sys.transports, mac, sys.nets[k].id)
  }

  ghost predicate StampedWith(transports: seq<Transport>, mac: Mac, networkId: string) {
    forall i: nat :: FirstOf(transports, mac, i) ==> transports[i].networkId == Some(networkId)
  }

  lemma StampedTransports(transports: seq<Transport>, mac: Mac, networkId: string)
    ensures StampedWith(Stamp(transports, mac, networkId), mac, networkId)
  {
    var r := Stamp(transports, mac, networkId);
    forall k: nat | k < |r|
      ensures r[k].ident == transports[k].ident
    {
      StampExact(transports, mac, networkId, k);
    }
    forall i: nat | FirstOf(r, mac, i)
      ensures r[i].networkId == Some(networkId)
    {
      StampExact(transports, mac, networkId, i);
      assert FirstOf(transports, mac, i);
    }
  }

  /** A created network is driven by the gateway, and nothing else moved but the gateway's claims elsewhere. */
  lemma CreateDrives(sys: Sys, mac: Mac, name: string, channel: ChannelChoice, newId: string, fate: WriteFate)
    requires mac in sys.recs && DoCreate(sys, mac, name, channel, newId, fate).ok
    ensures var after := DoCreate(sys, mac, name, channel, newId, fate).sys;
            && |after.nets| == |sys.nets| + 1 && Drives(after, mac, |sys.nets|)
            && after.nets[|sys.nets|].id == newId && after.nets[|sys.nets|].name == name
            && (channel.Channel? ==> after.nets[|sys.nets|].rfConfig == channel.cfg)
            && forall i :: 0 <= i < |sys.nets| ==> after.nets[i] == Released(sys.nets[i], mac)
  {
    CreateShape(sys, mac, name, channel, newId, fate);
    StampedTransports(sys.transports, mac, newId);
  }

  lemma AdoptDrives(sys: Sys, mac: Mac, k: nat)
    requires Drives(sys, mac, k) && DoAdopt(sys, mac, k).ok
    ensures var after := DoAdopt(sys, mac, k).sys;
            && |after.nets| == |sys.nets| && Drives(after, mac, k)
            && forall i :: 0 <= i < |sys.nets| && i != k ==> after.nets[i] == sys.nets[i]
  {
  }

  lemma SettleDrives(sys: Sys, mac: Mac, k: nat, onMismatch: OnMismatch, fate: WriteFate)
    requires Drives(sys, mac, k) && SettleRebind(sys, mac, k, onMismatch, fate).ok
    ensures var after := SettleRebind(sys, mac, k, onMismatch, fate).sys;
            && |after.nets| == |sys.nets| && Drives(after, mac, k)
            && forall i :: 0 <= i < |sys.nets| && i != k ==> after.nets[i] == sys.nets[i]
  {
    if onMismatch.Adopt? && !Same(sys.recs[mac].actual, sys.recs[mac].expected) && sys.recs[mac].expected.Some? {
      AdoptDrives(sys, mac, k);
    }
  }

  lemma TakeOverDrives(sys: Sys, mac: Mac, k: nat)
    requires mac in sys.recs && k < |sys.nets|
    ensures Drives(TakeOver(sys, mac, k), mac, k)
    ensures forall i :: 0 <= i < |sys.nets| && i != k ==> TakeOver(sys, mac, k).nets[i] == Released(sys.nets[i], mac)
  {
    StampedTransports(sys.transports, mac, sys.nets[k].id);
  }

  /** After a successful rebind the gateway drives the network asked for; every other network only loses its claim. */
  lemma RebindDrives(sys: Sys, mac: Mac, targetId: string, onMismatch: OnMismatch, fate: WriteFate)
    requires mac in sys.recs && DoRebind(sys, mac, targetId, onMismatch, fate).ok
    ensures var k := RebindTarget(sys, mac, targetId, onMismatch); var after := DoRebind(sys, mac, targetId, onMismatch, fate).sys;
            && k.Some? && |after.nets| == |sys.nets| && Drives(after, mac, k.value) && after.nets[k.value].id == targetId
            && forall i :: 0 <= i < |sys.nets| && i != k.value ==> after.nets[i] == Released(sys.nets[i], mac)
  {
    var k := RebindTarget(sys, mac, targetId, onMismatch).value;
    TakeOverDrives(sys, mac, k);
    SettleDrives(TakeOver(sys, mac, k), mac, k, onMismatch, fate);
  }

  // -- refusals ---------------------------------------------------------------------------------

  /** A refused rebind has got past its guards, and so taken the network over, exactly when there was one to take. */
  lemma RebindRefusal(sys: Sys, mac: Mac, targetId: string, onMismatch: OnMismatch, fate: WriteFate)
    requires mac in sys.recs && !DoRebind(sys, mac, targetId, onMismatch, fate).ok
    ensures var out := DoRebind(sys, mac, targetId, onMismatch, fate);
            var k := RebindTarget(sys, mac, targetId, onMismatch);
            out.sys == Retuned(if k.Some? then TakeOver(sys, mac, k.value) else sys, mac, out.sent, fate)
  {
    var k := RebindTarget(sys, mac, targetId, onMismatch);
    if k.Some? {
      SettleRefusal(TakeOver(sys, mac, k.value), mac, k.value, onMismatch, fate);
    }
  }

  lemma SettleRefusal(sys: Sys, mac: Mac, k: nat, onMismatch: OnMismatch, fate: WriteFate)
    requires mac in sys.recs && k < |sys.nets| && !SettleRebind(sys, mac, k, onMismatch, fate).ok
    ensures var out := SettleRebind(sys, mac, k, onMismatch, fate); out.sys == Retuned(sys, mac, out.sent, fate)
  {
  }

  /** The gateway after a write that was sent, if one was. */
  function Retuned(sys: Sys, mac: Mac, sent: Option<RfConfig>, fate: WriteFate): Sys {
    if sent.Some? && fate.taken then sys.(gateways := sys.gateways[mac := sent.value]) else sys
  }

  /** The settings an answer will send, told from the state before it: those of the network, or of the channel picked,
      when nothing stands in the way, the gateway is attached and is not known to be on them already. */
  function Sends(sys: Sys, mac: Mac, action: Action): Option<RfConfig>
    requires mac in sys.recs
  {
    var rec := sys.recs[mac];
    if !Attached(sys, mac) then None
    else
      match action
      case RetuneGateway(_) =>
        if rec.state == InConflict && Fields(rec.expected) != map[] then rec.expected else None
      case CreateNetwork(name, channel, _, _) =>
        var seeded := Seed(rec, channel);
        if (rec.state == Unbound || rec.state == InConflict) && name != "" && rec.actual.Some? && seeded.Some?
           && Occupants(sys.nets, seeded, "") == [] && !Same(rec.actual, seeded)
        then seeded else None
      case Rebind(targetId, onMismatch, _) =>
        var k := RebindTarget(sys, mac, targetId, onMismatch);
        if k.Some? && onMismatch.Retune? && sys.nets[k.value].rfConfig.Some? && !Same(rec.actual, sys.nets[k.value].rfConfig)
        then sys.nets[k.value].rfConfig else None
      case _ => None
  }

  lemma TakeOverAttached(sys: Sys, mac: Mac, k: nat)
    requires mac in sys.recs && k < |sys.nets|
    ensures Attached(TakeOver(sys, mac, k), mac) <==> Attached(sys, mac)
  {
    var taken := TakeOver(sys, mac, k);
    forall i: nat | i < |sys.transports|
      ensures taken.transports[i].ident == sys.transports[i].ident
    {
      StampExact(sys.transports, mac, sys.nets[k].id, i);
    }
    if Attached(sys, mac) {
      var i :| 0 <= i < |sys.transports| && sys.transports[i].ident == Some(mac);
      assert taken.transports[i].ident == Some(mac);
    }
  }

  lemma SettleSends(sys: Sys, mac: Mac, k: nat, onMismatch: OnMismatch, fate: WriteFate)
    requires mac in sys.recs && k < |sys.nets|
    ensures var rec := sys.recs[mac];
            SettleRebind(sys, mac, k, onMismatch, fate).sent
            == if Attached(sys, mac) && onMismatch.Retune? && rec.expected.Some? && !Same(rec.actual, rec.expected)
               then rec.expected else None
  {
  }

  /** An answer with a good token sends exactly that. */
  lemma SendsExact(sys: Sys, mac: Mac, action: Action, token: Option<nat>)
    requires mac in sys.recs && (token.Some? ==> token.value == sys.recs[mac].token)
    ensures Resolve(sys, mac, action, token).sent == Sends(sys, mac, action)
  {
    if action.Rebind? {
      var k := RebindTarget(sys, mac, action.targetId, action.onMismatch);
      if k.Some? {
        TakeOverAttached(sys, mac, k.value);
        SettleSends(TakeOver(sys, mac, k.value), mac, k.value, action.onMismatch, action.fate);
      }
    }
  }

  /** What becomes of a write in an answer of this kind. */
  function FateOf(action: Action): WriteFate {
    match action
    case RetuneGateway(fate) => fate
    case CreateNetwork(_, _, _, fate) => fate
    case Rebind(_, _, fate) => fate
    case _ => WriteFate(false, false)
  }

  /** What a refusal leaves behind, in full: a gateway re-tuned by a write that was taken without a good reply; after
      a rebind that got past its guards, the network taken over; after a lost migration start, a new token. */
  lemma RefusalsLeave(sys: Sys, mac: Mac, action: Action, token: Option<nat>)
    requires !Resolve(sys, mac, action, token).ok
    ensures var out := Resolve(sys, mac, action, token);
            && (out.sent.Some? ==> !FateOf(action).acked)
            && if mac !in sys.recs || (token.Some? && token.value != sys.recs[mac].token) then out == Refused(sys)
               else match action
                 case Rebind(targetId, onMismatch, fate) =>
                   var k := RebindTarget(sys, mac, targetId, onMismatch);
                   out.sys == Retuned(if k.Some? then TakeOver(sys, mac, k.value) else sys, mac, out.sent, fate)
                 case AcceptHost(host) =>
                   var rec := sys.recs[mac];
                   out.sys == if host.StartLost? && rec.state == InConflict && rec.expected.Some? && sys.task.None?
                              then Settle(sys, mac, rec.(migrationPending := false)) else sys
                 case _ => out.sys == Retuned(sys, mac, out.sent, FateOf(action))
  {
    if mac in sys.recs && (token.None? || token.value == sys.recs[mac].token) && action.Rebind? {
      RebindRefusal(sys, mac, action.targetId, action.onMismatch, action.fate);
      if Resolve(sys, mac, action, token).sent.Some? {
        RebindAcked(sys, mac, action.targetId, action.onMismatch, action.fate);
      }
    }
  }

  lemma RebindAcked(sys: Sys, mac: Mac, targetId: string, onMismatch: OnMismatch, fate: WriteFate)
    requires mac in sys.recs && DoRebind(sys, mac, targetId, onMismatch, fate).sent.Some?
    ensures DoRebind(sys, mac, targetId, onMismatch, fate).ok <==> fate.acked
  {
  }
}
