/** RF gateways and Ethernet networks: a gateway has no business on one (gateway_bind_service.py:934-949), and when it
    gets there all the same (racelink/controller.py:880-890). */
module BindKinds {
  import opened Common
  import opened RfPolicy
  import opened BindModel
  import opened BindSafety

  /** No gateway is claimed by a network that is not an RF one. */
  ghost predicate GatewaysOnRf(nets: seq<NetInfo>) {
    forall i :: 0 <= i < |nets| && nets[i].kind != Rf ==> nets[i].gatewayMac.None?
  }

  /** The free network that auto-binding gives transport `t`, when its gateway has none and is alone. */
  function ClaimedFree(sys: Sys, t: nat): (k: Option<nat>)
    requires t < |sys.transports|
    ensures k.Some? ==> k.value < |sys.nets|
  {
    var ident := sys.transports[t].ident;
    if ident.Some? && FindByMac(sys.nets, ident.value).None? && |sys.transports| <= 1 then FirstFree(sys.nets) else None
  }

  /** The step does not let a lone gateway claim a network that is not an RF one. */
  predicate ClaimsRf(sys: Sys, step: Step)
    requires Enabled(sys, step)
  {
    step.BindStep? && ClaimedFree(sys, step.t).Some? ==> sys.nets[ClaimedFree(sys, step.t).value].kind == Rf
  }

  lemma TakeOverOnRf(sys: Sys, mac: Mac, k: nat)
    requires GatewaysOnRf(sys.nets) && mac in sys.recs && k < |sys.nets| && sys.nets[k].kind == Rf
    ensures GatewaysOnRf(TakeOver(sys, mac, k).nets)
  {
  }

  lemma SettleOnRf(sys: Sys, mac: Mac, k: nat, onMismatch: OnMismatch, fate: WriteFate)
    requires GatewaysOnRf(sys.nets) && mac in sys.recs && k < |sys.nets|
    ensures GatewaysOnRf(SettleRebind(sys, mac, k, onMismatch, fate).sys.nets)
  {
  }

  lemma CreateOnRf(sys: Sys, mac: Mac, name: string, channel: ChannelChoice, newId: string, fate: WriteFate)
    requires GatewaysOnRf(sys.nets) && mac in sys.recs
    ensures GatewaysOnRf(DoCreate(sys, mac, name, channel, newId, fate).sys.nets)
  {
    if DoCreate(sys, mac, name, channel, newId, fate).ok {
      CreateShape(sys, mac, name, channel, newId, fate);
    }
  }

  /** The wizard's answers keep to RF networks. */
  lemma ResolveOnRf(sys: Sys, mac: Mac, action: Action, token: Option<nat>)
    requires GatewaysOnRf(sys.nets)
    ensures GatewaysOnRf(Resolve(sys, mac, action, token).sys.nets)
  {
    if mac in sys.recs && (token.None? || token.value == sys.recs[mac].token) {
      match action
      case CreateNetwork(name, channel, newId, fate) => CreateOnRf(sys, mac, name, channel, newId, fate);
      case Rebind(targetId, onMismatch, fate) =>
        var k := RebindTarget(sys, mac, targetId, onMismatch);
        if k.Some? {
          TakeOverOnRf(sys, mac, k.value);
          SettleOnRf(TakeOver(sys, mac, k.value), mac, k.value, onMismatch, fate);
        }
      case _ =>
    }
  }

  lemma AutoBindOnRfIff(sys: Sys, t: nat)
    requires GatewaysOnRf(sys.nets) && t < |sys.transports|
    ensures GatewaysOnRf(AutoBind(sys, t).nets) <==> ClaimsRf(sys, BindStep(t))
  {
    var k := ClaimedFree(sys, t);
    if k.Some? {
      assert AutoBind(sys, t).nets[k.value].gatewayMac.Some?;
    }
  }

  lemma EvaluateOnRf(sys: Sys, tr: Transport, actual: Option<RfConfig>)
    requires GatewaysOnRf(sys.nets)
    ensures GatewaysOnRf(Evaluate(sys, tr, actual).nets)
  {
  }

  /** Of all the steps modelled exactly auto-binding can put a gateway on such a network, exactly when the first free
      one is of that kind. */
  lemma StepOnRf(sys: Sys, step: Step)
    requires GatewaysOnRf(sys.nets) && Enabled(sys, step)
    ensures GatewaysOnRf(Next(sys, step).nets) <==> ClaimsRf(sys, step)
  {
    match step
    case BindStep(t) => AutoBindOnRfIff(sys, t);
    case EvaluateStep(t, heard) => EvaluateOnRf(sys, sys.transports[t], heard);
    case ResolveStep(mac, action, token) => ResolveOnRf(sys, mac, action, token);
    case CloseStep(heard) =>
      var ident := sys.task.value.ident;
      if ident.Some? && FirstCarrying(sys.transports, ident.value).Some? {
        EvaluateOnRf(sys.(task := None), sys.transports[FirstCarrying(sys.transports, ident.value).value], heard);
      }
    case _ =>
  }

  /** Over any run gateways stay on RF networks throughout if and only if no lone newcomer claims another kind. */
  lemma RunOnRf(states: seq<Sys>, steps: seq<Step>)
    requires IsRun(states, steps) && GatewaysOnRf(states[0].nets)
    ensures (forall i :: 0 <= i < |states| ==> GatewaysOnRf(states[i].nets))
       <==> forall k :: 0 <= k < |steps| ==> Claims(states[k], steps[k])
  {
    if forall k :: 0 <= k < |steps| ==> Claims(states[k], steps[k]) {
      forall i | 0 <= i < |states|
        ensures GatewaysOnRf(states[i].nets)
      {
        RunUpTo(states, steps, i);
      }
    }
    if forall i :: 0 <= i < |states| ==> GatewaysOnRf(states[i].nets) {
      forall k | 0 <= k < |steps|
        ensures Claims(states[k], steps[k])
      {
        assert GatewaysOnRf(states[k].nets) && GatewaysOnRf(states[k + 1].nets);
        StepOnRf(states[k], steps[k]);
      }
    }
  }

  ghost predicate Claims(sys: Sys, step: Step) {
    Enabled(sys, step) && ClaimsRf(sys, step)
  }

  lemma {:induction false} RunUpTo(states: seq<Sys>, steps: seq<Step>, i: nat)
    requires IsRun(states, steps) && GatewaysOnRf(states[0].nets) && i < |states|
    requires forall k :: 0 <= k < |steps| ==> Claims(states[k], steps[k])
    ensures GatewaysOnRf(states[i].nets)
  {
    if i > 0 {
      RunUpTo(states, steps, i - 1);
      assert Claims(states[i - 1], steps[i - 1]);
      StepOnRf(states[i - 1], steps[i - 1]);
    }
  }

  /** It happens: the only network is an Ethernet one, and the first gateway plugged in claims it. */
  const WIRED: Sys := Sys([NetInfo("e", "", Ethernet, None, None)], map[], [Transport(Some("A"), None)], 0, map[], None)

  lemma LoneGatewayClaimsEthernet()
    ensures Inv(WIRED) && GatewaysOnRf(WIRED.nets)
    ensures Next(WIRED, BindStep(0)).nets == [NetInfo("e", "", Ethernet, Some("A"), None)]
  {
  }
}
