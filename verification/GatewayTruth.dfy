/** What a gateway really runs on, and when its bind record says so (racelink/services/gateway_bind_service.py,
    gateway_service.py:1068-1249). */
module GatewayTruth {
  import opened Common
  import opened RfPolicy
  import opened BindModel
  import opened BindSafety
  import opened BindOutcome

  // -- conflicts and writes ----------------------------------------------------------------------

  /** CONFLICT is never raised, or left standing, without a present difference; a rebind refused midway included. */
  ghost predicate ConflictsReal(sys: Sys) {
    forall m :: m in sys.recs && sys.recs[m].state == InConflict ==> !Same(sys.recs[m].actual, sys.recs[m].expected)
  }

  /** A gateway that occupies a channel differs from a network without one. */
  lemma OccupierDiffers(nets: seq<NetInfo>, actual: Option<RfConfig>, id: string)
    requires Occupants(nets, actual, id) != []
    ensures !Same(actual, None)
  {
    assert FreqHz in Fields(actual) && FreqHz !in Fields(None);
  }

  lemma SettleRebindReal(sys: Sys, mac: Mac, k: nat, onMismatch: OnMismatch, fate: WriteFate)
    requires mac in sys.recs && k < |sys.nets|
    requires forall m :: m in sys.recs && m != mac && sys.recs[m].state == InConflict ==> !Same(sys.recs[m].actual, sys.recs[m].expected)
    ensures ConflictsReal(SettleRebind(sys, mac, k, onMismatch, fate).sys)
  {
    var rec := sys.recs[mac];
    var out := SettleRebind(sys, mac, k, onMismatch, fate);
    if rec.expected.None? && rec.actual.Some? && Occupants(sys.nets, rec.actual, sys.nets[k].id) != [] {
      OccupierDiffers(sys.nets, rec.actual, sys.nets[k].id);
    }
    SettleRebindTouches(sys, mac, k, onMismatch, fate);
    assert out.sys.recs[mac].state == InConflict ==> !Same(out.sys.recs[mac].actual, out.sys.recs[mac].expected);
  }

  lemma ResolveReal(sys: Sys, mac: Mac, action: Action, token: Option<nat>)
    requires ConflictsReal(sys)
    ensures ConflictsReal(Resolve(sys, mac, action, token).sys)
  {
    if mac in sys.recs && (token.None? || token.value == sys.recs[mac].token) {
      if action.Rebind? {
        var k := RebindTarget(sys, mac, action.targetId, action.onMismatch);
        if k.Some? {
          SettleRebindReal(TakeOver(sys, mac, k.value), mac, k.value, action.onMismatch, action.fate);
        }
      } else {
        ResolveTouches(sys, mac, action, token);
      }
    }
  }

  lemma NextReal(sys: Sys, step: Step)
    requires ConflictsReal(sys) && Enabled(sys, step)
    ensures ConflictsReal(Next(sys, step))
  {
    match step
    case ResolveStep(mac, action, token) => ResolveReal(sys, mac, action, token);
    case EvaluateStep(t, heard) => EvaluateReal(sys, sys.transports[t], heard);
    case CloseStep(heard) => CloseReal(sys, sys.task.value.ident, heard);
    case _ =>
  }

  lemma CloseReal(sys: Sys, ident: Option<Mac>, heard: Option<RfConfig>)
    requires ConflictsReal(sys)
    ensures ConflictsReal(Close(sys, ident, heard))
  {
    if ident.Some? && FirstCarrying(sys.transports, ident.value).Some? {
      EvaluateReal(sys.(task := None), sys.transports[FirstCarrying(sys.transports, ident.value).value], heard);
    }
  }

  lemma EvaluateReal(sys: Sys, tr: Transport, actual: Option<RfConfig>)
    requires ConflictsReal(sys)
    ensures ConflictsReal(Evaluate(sys, tr, actual))
  {
  }

  /** So an answer never sends a gateway the settings its record already shows. */
  lemma SentDiffers(sys: Sys, mac: Mac, action: Action, token: Option<nat>)
    requires ConflictsReal(sys) && Resolve(sys, mac, action, token).sent.Some?
    ensures mac in sys.recs && Resolve(sys, mac, action, token).sent != sys.recs[mac].actual
  {
    SendsExact(sys, mac, action, token);
  }

  lemma CreateEffect(sys: Sys, mac: Mac, name: string, channel: ChannelChoice, newId: string, fate: WriteFate)
    requires mac in sys.recs
    ensures var out := DoCreate(sys, mac, name, channel, newId, fate);
            && out.sys.gateways == (if out.sent.Some? && fate.taken then sys.gateways[mac := out.sent.value] else sys.gateways)
            && mac in out.sys.recs
            && out.sys.recs[mac].actual == (if out.sent.Some? && fate.acked then out.sent else sys.recs[mac].actual)
  {
  }

  /** The effect of any answer on the two sides: the gateway follows what it took, the record what was acknowledged,
      and without a write neither moves. */
  lemma AnswerEffect(sys: Sys, mac: Mac, action: Action, token: Option<nat>)
    requires mac in sys.recs
    ensures var out := Resolve(sys, mac, action, token); var fate := FateOf(action);
            && out.sys.gateways == (if out.sent.Some? && fate.taken then sys.gateways[mac := out.sent.value] else sys.gateways)
            && mac in out.sys.recs
            && out.sys.recs[mac].actual == (if out.sent.Some? && fate.acked then out.sent else sys.recs[mac].actual)
  {
    match action
    case CreateNetwork(name, channel, newId, fate) => CreateEffect(sys, mac, name, channel, newId, fate);
    case Rebind(targetId, onMismatch, fate) =>
      var k := RebindTarget(sys, mac, targetId, onMismatch);
      if k.Some? {
        SettleEffect(TakeOver(sys, mac, k.value), mac, k.value, onMismatch, fate);
      }
    case _ =>
  }

  lemma SettleEffect(sys: Sys, mac: Mac, k: nat, onMismatch: OnMismatch, fate: WriteFate)
    requires mac in sys.recs && k < |sys.nets|
    ensures var out := SettleRebind(sys, mac, k, onMismatch, fate);
            && out.sys.gateways == (if out.sent.Some? && fate.taken then sys.gateways[mac := out.sent.value] else sys.gateways)
            && mac in out.sys.recs
            && out.sys.recs[mac].actual == (if out.sent.Some? && fate.acked then out.sent else sys.recs[mac].actual)
  {
  }

  /** A write goes out only while the gateway is attached, the answer succeeds exactly when it is acknowledged, and
      then ends in BOUND. */
  lemma WriteDecides(sys: Sys, mac: Mac, action: Action, token: Option<nat>)
    requires Resolve(sys, mac, action, token).sent.Some?
    ensures var out := Resolve(sys, mac, action, token);
            && Attached(sys, mac) && (out.ok <==> FateOf(action).acked)
            && mac in out.sys.recs && (out.ok ==> out.sys.recs[mac].state == Bound)
  {
    SendsExact(sys, mac, action, token);
  }

  // -- when the record says what the gateway runs on -----------------------------------------------

  ghost predicate Tracks(sys: Sys, mac: Mac) {
    mac in sys.recs && mac in sys.gateways && sys.recs[mac].actual == Some(sys.gateways[mac])
  }

  ghost predicate RunsOn(sys: Sys, mac: Mac, cfg: Option<RfConfig>) {
    mac in sys.gateways && cfg == Some(sys.gateways[mac])
  }

  /** What a step hears of the gateway, if it evaluates it. */
  function Hears(sys: Sys, step: Step, mac: Mac): Option<Option<RfConfig>>
    requires Enabled(sys, step)
  {
    match step
    case EvaluateStep(t, heard) => if sys.transports[t].ident == Some(mac) then Some(heard) else None
    case CloseStep(heard) =>
      if sys.task.value.ident == Some(mac) && FirstCarrying(sys.transports, mac).Some? then Some(heard) else None
    case _ => None
  }

  /** The record is put right: by hearing just what the gateway runs on, by an acknowledged write to a gateway that
      took it or was on those settings already, or by an outside change or a migration to just what the record says. */
  ghost predicate PutsRight(sys: Sys, step: Step, mac: Mac)
    requires Enabled(sys, step)
  {
    match step
    case ResolveStep(m, action, token) =>
      var sent := Resolve(sys, mac, action, token).sent;
      m == mac && sent.Some? && FateOf(action).acked && (FateOf(action).taken || RunsOn(sys, mac, sent))
    case SwitchStep(fate) =>
      fate.taken && sys.task.value.ident == Some(mac) && mac in sys.recs && sys.recs[mac].actual == Some(sys.task.value.target)
    case Outside(m, cfg) => m == mac && mac in sys.recs && sys.recs[mac].actual == Some(cfg)
    case _ => Hears(sys, step, mac).Some? && RunsOn(sys, mac, Hears(sys, step, mac).value)
  }

  /** The record is put wrong: by hearing nothing, or something else; by a write taken without a reply, or the reply to
      a write not taken; by a migration's switch or an outside change; or by being dropped. */
  ghost predicate PutsWrong(sys: Sys, step: Step, mac: Mac)
    requires Enabled(sys, step)
  {
    !PutsRight(sys, step, mac) &&
    match step
    case EvaluateStep(t, _) => sys.transports[t].ident == Some(mac)
    case ResolveStep(m, action, token) =>
      m == mac && Resolve(sys, mac, action, token).sent.Some? && FateOf(action).taken != FateOf(action).acked
    case SwitchStep(fate) => fate.taken && sys.task.value.ident == Some(mac)
    case CloseStep(_) => sys.task.value.ident == Some(mac)
    case Outside(m, _) => m == mac
    case Forget(m) => m == mac
    case _ => false
  }

  lemma ResolveTracks(sys: Sys, m: Mac, action: Action, token: Option<nat>, mac: Mac)
    requires ConflictsReal(sys) && Enabled(sys, ResolveStep(m, action, token))
    ensures Tracks(Resolve(sys, m, action, token).sys, mac)
       <==> PutsRight(sys, ResolveStep(m, action, token), mac)
            || (Tracks(sys, mac) && !PutsWrong(sys, ResolveStep(m, action, token), mac))
  {
    ResolveTouches(sys, m, action, token);
    if m in sys.recs {
      AnswerEffect(sys, m, action, token);
      if Resolve(sys, m, action, token).sent.Some? {
        SentDiffers(sys, m, action, token);
      }
    }
  }

  lemma EvaluateTracks(sys: Sys, tr: Transport, heard: Option<RfConfig>, mac: Mac)
    ensures Tracks(Evaluate(sys, tr, heard), mac)
       <==> if tr.ident == Some(mac) then RunsOn(sys, mac, heard) else Tracks(sys, mac)
  {
    if AdoptsOnContact(sys, tr, heard) {
      var rec := EvaluateAdopts(sys, tr, heard);
    } else if tr.ident.Some? {
      var rec := EvaluateSettles(sys, tr, heard);
    }
  }

  lemma CloseTracks(sys: Sys, heard: Option<RfConfig>, mac: Mac)
    requires Enabled(sys, CloseStep(heard))
    ensures Tracks(Next(sys, CloseStep(heard)), mac)
       <==> if sys.task.value.ident == Some(mac) then FirstCarrying(sys.transports, mac).Some? && RunsOn(sys, mac, heard)
            else Tracks(sys, mac)
  {
    var ident := sys.task.value.ident;
    if ident.Some? && FirstCarrying(sys.transports, ident.value).Some? {
      EvaluateTracks(sys.(task := None), sys.transports[FirstCarrying(sys.transports, ident.value).value], heard, mac);
    }
  }

  lemma SwitchTracks(sys: Sys, fate: WriteFate, mac: Mac)
    requires Enabled(sys, SwitchStep(fate))
    ensures Tracks(Next(sys, SwitchStep(fate)), mac)
       <==> if fate.taken && sys.task.value.ident == Some(mac)
            then mac in sys.recs && sys.recs[mac].actual == Some(sys.task.value.target) else Tracks(sys, mac)
  {
  }

  /** One step: the record says what the gateway runs on exactly if the step puts it right, or it did so before and
      the step does not put it wrong. */
  lemma StepTracks(sys: Sys, step: Step, mac: Mac)
    requires ConflictsReal(sys) && Enabled(sys, step)
    ensures Tracks(Next(sys, step), mac) <==> PutsRight(sys, step, mac) || (Tracks(sys, mac) && !PutsWrong(sys, step, mac))
  {
    match step
    case EvaluateStep(t, heard) => EvaluateTracks(sys, sys.transports[t], heard, mac);
    case CloseStep(heard) => CloseTracks(sys, heard, mac);
    case ResolveStep(m, action, token) => ResolveTracks(sys, m, action, token, mac);
    case SwitchStep(fate) => SwitchTracks(sys, fate, mac);
    case _ =>
  }

  /** It was right once, at the start or by some step, and no step since put it wrong. */
  ghost predicate Stands(start: bool, right: seq<bool>, wrong: seq<bool>, n: nat)
    requires n <= |right| == |wrong|
  {
    || (start && forall j :: 0 <= j < n ==> !wrong[j])
    || exists i :: 0 <= i < n && right[i] && forall j :: i < j < n ==> !wrong[j]
  }

  lemma StandsStep(start: bool, right: seq<bool>, wrong: seq<bool>, n: nat)
    requires 0 < n <= |right| == |wrong|
    ensures Stands(start, right, wrong, n) <==> right[n - 1] || (Stands(start, right, wrong, n - 1) && !wrong[n - 1])
  {
    if exists i :: 0 <= i < n && right[i] && forall j :: i < j < n ==> !wrong[j] {
      var i :| 0 <= i < n && right[i] && forall j :: i < j < n ==> !wrong[j];
      assert i < n - 1 ==> forall j :: i < j < n - 1 ==> !wrong[j];
    }
    if Stands(start, right, wrong, n - 1) && !wrong[n - 1] && !(start && forall j :: 0 <= j < n - 1 ==> !wrong[j]) {
      var i :| 0 <= i < n - 1 && right[i] && forall j :: i < j < n - 1 ==> !wrong[j];
      assert forall j :: i < j < n ==> !wrong[j];
    }
  }

  /** The steps of a run that put the record right. */
  ghost function Rights(states: seq<Sys>, steps: seq<Step>, mac: Mac): (r: seq<bool>)
    requires IsRun(states, steps)
    ensures |r| == |steps| && forall i :: 0 <= i < |r| ==> r[i] == PutsRight(states[i], steps[i], mac)
  {
    seq(|steps|, i requires 0 <= i < |steps| => PutsRight(states[i], steps[i], mac))
  }

  /** The steps of a run that put it wrong. */
  ghost function Wrongs(states: seq<Sys>, steps: seq<Step>, mac: Mac): (r: seq<bool>)
    requires IsRun(states, steps)
    ensures |r| == |steps| && forall i :: 0 <= i < |r| ==> r[i] == PutsWrong(states[i], steps[i], mac)
  {
    seq(|steps|, i requires 0 <= i < |steps| => PutsWrong(states[i], steps[i], mac))
  }

  lemma {:induction false} RunReal(states: seq<Sys>, steps: seq<Step>, n: nat)
    requires IsRun(states, steps) && ConflictsReal(states[0]) && n <= |steps|
    ensures ConflictsReal(states[n])
    decreases n
  {
    if n > 0 {
      RunReal(states, steps, n - 1);
      NextReal(states[n - 1], steps[n - 1]);
    }
  }

  /** Over any run the record says what the gateway runs on if and only if it was right once, at the start or by some
      step, and no step since put it wrong: no write with a lost or a mistaken reply, no reading without an answer or
      with another's, no migration, no change from outside. */
  lemma {:induction false} RecordTracksGateway(states: seq<Sys>, steps: seq<Step>, mac: Mac, n: nat)
    requires IsRun(states, steps) && ConflictsReal(states[0]) && n <= |steps|
    ensures Tracks(states[n], mac)
       <==> Stands(Tracks(states[0], mac), Rights(states, steps, mac), Wrongs(states, steps, mac), n)
    decreases n
  {
    if n > 0 {
      RecordTracksGateway(states, steps, mac, n - 1);
      RunReal(states, steps, n - 1);
      StandsStep(Tracks(states[0], mac), Rights(states, steps, mac), Wrongs(states, steps, mac), n);
      StepTracks(states[n - 1], steps[n - 1], mac);
    }
  }

  /** Settings that differ in frequency only. */
  const PRESET: RfConfig := map[
    FreqHz := 868_100_000, BwKhzX10 := 1250, Sf := 7, CrDen := 5, SyncWord := 18, TxPowerDbm := 14, Preamble := 8]
  const CONFIG_A := PRESET
  const CONFIG_E := PRESET[FreqHz := 869_500_000]
  const CONFIG_F := PRESET[FreqHz := 865_000_000]

  /** A gateway on A whose network expects E. */
  const RAISED: Rec := Rec(InConflict, Some("n"), Some(""), Some(CONFIG_A), Some(CONFIG_E), [FreqHz], false, 0)

  const DISPUTED: Sys := Sys(
    [NetInfo("n", "", Rf, Some("A"), Some(CONFIG_E))], map["A" := RAISED], [Transport(Some("A"), Some("n"))], 1,
    map["A" := CONFIG_A], None)

  lemma DisputedOrderly()
    ensures Inv(DISPUTED) && ConflictsReal(DISPUTED) && Tracks(DISPUTED, "A")
    ensures Attached(DISPUTED, "A") && CONFIG_A != CONFIG_E
  {
    FreqDiffers(CONFIG_A, CONFIG_E);
    assert DISPUTED.transports[0].ident == Some("A");
  }

  /** A retune whose reply is lost: refused, nothing recorded, and the gateway on other settings than its record says. */
  lemma LostReply()
    ensures Inv(DISPUTED) && ConflictsReal(DISPUTED) && Tracks(DISPUTED, "A")
    ensures var out := Resolve(DISPUTED, "A", RetuneGateway(WriteFate(true, false)), Some(0));
            && !out.ok && out.sys.recs == DISPUTED.recs && out.sys.nets == DISPUTED.nets
            && out.sys.gateways["A"] == CONFIG_E && !Tracks(out.sys, "A")
  {
    DisputedOrderly();
  }

  /** The listener that waits for the write's reply takes any EV_RF_CHANGED: the late answer to an earlier reading
      ends the retune in BOUND with the gateway still where it was. */
  lemma MistakenReply()
    ensures Inv(DISPUTED) && ConflictsReal(DISPUTED) && Tracks(DISPUTED, "A")
    ensures var out := Resolve(DISPUTED, "A", RetuneGateway(WriteFate(false, true)), Some(0));
            && out.ok && out.sys.recs["A"].state == Bound && out.sys.gateways["A"] == CONFIG_A && !Tracks(out.sys, "A")
  {
    DisputedOrderly();
  }

  /** So does a reading's: settings the gateway has left, heard late, end an evaluation in BOUND. */
  lemma StaleReading()
    ensures Inv(DISPUTED) && ConflictsReal(DISPUTED) && Tracks(DISPUTED, "A")
    ensures var after := Next(DISPUTED, EvaluateStep(0, Some(CONFIG_E)));
            "A" in after.recs && after.recs["A"].state == Bound && after.gateways["A"] == CONFIG_A && !Tracks(after, "A")
  {
    DisputedOrderly();
    assert FindById(DISPUTED.nets, "n") == Some(0);
  }

  lemma FreqDiffers(a: RfConfig, b: RfConfig)
    requires FreqHz in a && FreqHz in b && a[FreqHz] != b[FreqHz]
    ensures !Same(Some(a), Some(b)) && a != b
  {
  }
}
