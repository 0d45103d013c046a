/** The migration an "accept host" answer starts: what it achieves, which gateway it reaches, and when it is safe
    (racelink/services/gateway_bind_service.py:715-782, rf_migration_service.py:142-403). */
module BindMigration {
  import opened Common
  import opened RfPolicy
  import opened BindModel
  import opened BindSafety
  import opened GatewayTruth
  import opened BindAgreement

  // -- from the answer to the switch, with nothing in between ---------------------------------------

  /** The answer is not refused, if the task starts. */
  predicate Starts(sys: Sys, mac: Mac) {
    mac in sys.recs && sys.recs[mac].state == InConflict && sys.recs[mac].expected.Some? && sys.task.None?
  }

  /** The network the migration is for. */
  function TargetNet(sys: Sys, mac: Mac): (k: Option<nat>)
    requires Starts(sys, mac)
    ensures k.Some? ==> k.value < |sys.nets| && Route(sys, k.value).Some? && sys.recs[mac].networkId == Some(sys.nets[k.value].id)
  {
    Migratable(sys, sys.recs[mac].networkId.GetOr(""), sys.recs[mac].expected.value)
  }

  /** The gateway it goes over. */
  function TargetIdent(sys: Sys, mac: Mac): Option<Mac>
    requires Starts(sys, mac)
  {
    var k := TargetNet(sys, mac);
    if k.None? then None else sys.transports[Route(sys, k.value).value].ident
  }

  /** The answer has been given and its migration checked. */
  function AfterCheck(sys: Sys, mac: Mac): Sys
    requires Starts(sys, mac)
  {
    CheckOrder(DoAcceptHost(sys, mac, Started).sys, sys.recs[mac].networkId.GetOr(""), sys.recs[mac].expected.value)
  }

  /** And then the switch, if the check lets the migration go on. */
  function AfterSwitch(sys: Sys, mac: Mac, fate: WriteFate): Sys
    requires Starts(sys, mac)
  {
    if TargetNet(sys, mac).None? then AfterCheck(sys, mac)
    else Switch(AfterCheck(sys, mac), sys.recs[mac].networkId.GetOr(""), TargetIdent(sys, mac), sys.recs[mac].expected.value, fate)
  }

  /** And the end, where the gateway is evaluated and what is heard is what it runs on. */
  function AfterClose(sys: Sys, mac: Mac): Sys
    requires Starts(sys, mac)
  {
    Close(AfterSwitch(sys, mac, WriteFate(true, true)), TargetIdent(sys, mac), sys.recs[mac].expected)
  }

  lemma CheckShape(sys: Sys, mac: Mac)
    requires Starts(sys, mac)
    ensures var rec, k, checked := sys.recs[mac], TargetNet(sys, mac), AfterCheck(sys, mac);
            && checked.nets == sys.nets && checked.transports == sys.transports && checked.gateways == sys.gateways
            && checked.recs == sys.recs[mac := rec.(migrationPending := true, token := sys.nextToken)]
            && checked.task == if k.None? then None else Some(Checked(sys.nets[k.value].id, TargetIdent(sys, mac), rec.expected.value))
  {
  }

  ghost predicate Follows(sys: Sys, step: Step, after: Sys) {
    Enabled(sys, step) && after == Next(sys, step)
  }

  /** These are the states of a run. */
  lemma UndisturbedRun(sys: Sys, mac: Mac, fate: WriteFate)
    requires Starts(sys, mac)
    ensures Follows(Resolve(sys, mac, AcceptHost(Started), None).sys, CheckStep, AfterCheck(sys, mac))
    ensures TargetNet(sys, mac).Some? ==> Follows(AfterCheck(sys, mac), SwitchStep(fate), AfterSwitch(sys, mac, fate))
    ensures TargetNet(sys, mac).Some? ==>
              Follows(AfterSwitch(sys, mac, WriteFate(true, true)), CloseStep(sys.recs[mac].expected), AfterClose(sys, mac))
  {
    CheckShape(sys, mac);
  }

  /** An undisturbed "accept host" switches the gateway its network is routed over, and with a good reply the network;
      without one, or for a network it cannot migrate, the network stays. */
  lemma SwitchReaches(sys: Sys, mac: Mac, fate: WriteFate)
    requires Starts(sys, mac)
    ensures var rec, k, after := sys.recs[mac], TargetNet(sys, mac), AfterSwitch(sys, mac, fate);
            if k.None? then after.nets == sys.nets && after.gateways == sys.gateways
            else
              var ident := TargetIdent(sys, mac);
              && after.gateways == (if fate.taken && ident.Some? then sys.gateways[ident.value := rec.expected.value] else sys.gateways)
              && after.nets == (if fate.acked then sys.nets[k.value := sys.nets[k.value].(rfConfig := rec.expected)] else sys.nets)
  {
    CheckShape(sys, mac);
  }

  /** It keeps the networks apart if and only if it comes to nothing or the channel the record expects is free. */
  lemma AcceptHostSeparationIff(sys: Sys, mac: Mac, fate: WriteFate)
    requires Inv(sys) && Separated(sys.nets) && Starts(sys, mac)
    ensures Separated(AfterSwitch(sys, mac, fate).nets)
       <==> (fate.acked && TargetNet(sys, mac).Some? ==> Occupants(sys.nets, sys.recs[mac].expected, sys.recs[mac].networkId.value) == [])
  {
    SwitchReaches(sys, mac, fate);
    var k := TargetNet(sys, mac);
    if k.Some? {
      MovingIsSafeIffFree(sys.nets, k.value, sys.recs[mac].expected);
    }
  }

  /** It is while the network still has what the record expects: only an answer to an overtaken conflict can collide. */
  lemma FreshAcceptHostIsSafe(sys: Sys, mac: Mac, fate: WriteFate)
    requires Inv(sys) && Separated(sys.nets) && Starts(sys, mac) && StillExpected(sys, mac)
    ensures Separated(AfterSwitch(sys, mac, fate).nets)
  {
    SwitchReaches(sys, mac, fate);
    var k := TargetNet(sys, mac);
    if k.Some? {
      FoundByItsId(sys.nets, k.value);
      var held := sys.nets[k.value].rfConfig;
      assert held.Some? ==> held == sys.recs[mac].expected;
      assert sys.nets[k.value := sys.nets[k.value].(rfConfig := held)] == sys.nets;
    }
  }

  // -- which gateway it reaches ---------------------------------------------------------------------

  /** The record's own gateway is then on the settings expected of it exactly if the network's route goes over it, or
      it was there before. */
  lemma ReachesItsOwnIff(sys: Sys, mac: Mac, fate: WriteFate)
    requires Starts(sys, mac) && TargetNet(sys, mac).Some? && fate.taken
    ensures RunsOn(AfterSwitch(sys, mac, fate), mac, sys.recs[mac].expected)
       <==> TargetIdent(sys, mac) == Some(mac) || RunsOn(sys, mac, sys.recs[mac].expected)
  {
    SwitchReaches(sys, mac, fate);
  }

  lemma CarriedOnce(transports: seq<Transport>, t: nat, mac: Mac)
    requires AttachedOnce(transports) && t < |transports| && transports[t].ident == Some(mac)
    ensures FirstCarrying(transports, mac) == Some(t)
  {
    var r := FirstCarrying(transports, mac);
    assert r.Some? && transports[r.value].ident == transports[t].ident;
  }

  lemma SwitchedState(sys: Sys, mac: Mac)
    requires Starts(sys, mac) && TargetNet(sys, mac).Some?
    ensures var k := TargetNet(sys, mac).value; var after := AfterSwitch(sys, mac, WriteFate(true, true));
            && after.transports == sys.transports
            && after.nets == sys.nets[k := sys.nets[k].(rfConfig := sys.recs[mac].expected)]
            && after.recs == sys.recs[mac := sys.recs[mac].(migrationPending := true, token := sys.nextToken)]
  {
    CheckShape(sys, mac);
    SwitchReaches(sys, mac, WriteFate(true, true));
  }

  lemma CloseEvaluates(sys: Sys, mac: Mac, heard: Option<RfConfig>, t: nat)
    requires AttachedOnce(sys.transports) && t < |sys.transports| && sys.transports[t].ident == Some(mac)
    ensures Close(sys, Some(mac), heard) == Evaluate(sys.(task := None), sys.transports[t], heard)
  {
    CarriedOnce(sys.transports, t, mac);
  }

  /** The gateway is BOUND to that network and on its settings. */
  ghost predicate BoundOn(sys: Sys, mac: Mac, networkId: string) {
    mac in sys.recs && sys.recs[mac].state == Bound && sys.recs[mac].networkId == Some(networkId) && OnItsNetwork(sys, mac)
  }

  /** An undisturbed migration over the record's own gateway ends with that gateway BOUND to the network, and on its
      settings, if and only if the gateway's transport is stamped with the network. */
  lemma EndsBoundIff(sys: Sys, mac: Mac, k: nat, t: nat)
    requires Inv(sys) && AttachedOnce(sys.transports) && Starts(sys, mac)
    requires TargetNet(sys, mac) == Some(k) && Route(sys, k) == Some(t) && sys.transports[t].ident == Some(mac)
    ensures BoundOn(AfterClose(sys, mac), mac, sys.nets[k].id) <==> sys.transports[t].networkId == Some(sys.nets[k].id)
  {
    SwitchedOver(sys, mac, k, t);
    CloseFrom(AfterSwitch(sys, mac, WriteFate(true, true)), sys.transports[t], sys.recs[mac].expected, mac, k, t);
  }

  lemma SwitchedOver(sys: Sys, mac: Mac, k: nat, t: nat)
    requires Inv(sys) && Starts(sys, mac)
    requires TargetNet(sys, mac) == Some(k) && Route(sys, k) == Some(t) && sys.transports[t].ident == Some(mac)
    ensures var switched := AfterSwitch(sys, mac, WriteFate(true, true));
            && UniqueIds(switched.nets) && k < |switched.nets| && switched.nets[k].id == sys.nets[k].id != ""
            && switched.nets[k].rfConfig == sys.recs[mac].expected && switched.transports == sys.transports
            && RunsOn(switched, mac, sys.recs[mac].expected)
  {
    SwitchedState(sys, mac);
    SwitchReaches(sys, mac, WriteFate(true, true));
  }

  lemma CloseFrom(sys: Sys, tr: Transport, heard: Option<RfConfig>, mac: Mac, k: nat, t: nat)
    requires UniqueIds(sys.nets) && k < |sys.nets| && sys.nets[k].id != "" && heard.Some? && sys.nets[k].rfConfig == heard
    requires AttachedOnce(sys.transports) && t < |sys.transports| && sys.transports[t] == tr
    requires tr.ident == Some(mac) && RunsOn(sys, mac, heard)
    ensures BoundOn(Close(sys, Some(mac), heard), mac, sys.nets[k].id) <==> tr.networkId == Some(sys.nets[k].id)
  {
    CloseEvaluates(sys, mac, heard, t);
    ClosesBoundIff(sys, tr, heard, mac, k);
  }

  lemma ClosesBoundIff(sys: Sys, tr: Transport, heard: Option<RfConfig>, mac: Mac, k: nat)
    requires UniqueIds(sys.nets) && k < |sys.nets| && sys.nets[k].id != "" && heard.Some? && sys.nets[k].rfConfig == heard
    requires tr.ident == Some(mac) && RunsOn(sys, mac, heard)
    ensures BoundOn(Evaluate(sys.(task := None), tr, heard), mac, sys.nets[k].id) <==> tr.networkId == Some(sys.nets[k].id)
  {
    var after := Evaluate(sys.(task := None), tr, heard);
    FoundByItsId(sys.nets, k);
    if tr.networkId == Some(sys.nets[k].id) {
      assert StampedNet(sys, tr) == Some(k);
      FoundByItsId(after.nets, k);
    }
  }

  /** B's transport came first and is stamped with "n" too: it takes the migration that A's wizard asked for. */
  const CROSSED: Sys := OVERTAKEN.(transports := [Transport(Some("B"), Some("n")), Transport(Some("A"), Some("n"))])

  lemma AnotherGatewayIsReached()
    ensures Starts(CROSSED, "A") && TargetIdent(CROSSED, "A") == Some("B")
    ensures var after := AfterSwitch(CROSSED, "A", WriteFate(true, true));
            "B" in after.gateways && after.gateways["B"] == CONFIG_E && "A" in after.gateways && after.gateways["A"] == CONFIG_A
  {
    CrossedTarget();
    SwitchReaches(CROSSED, "A", WriteFate(true, true));
  }

  lemma CrossedTarget()
    ensures Starts(CROSSED, "A") && TargetNet(CROSSED, "A") == Some(0) && TargetIdent(CROSSED, "A") == Some("B")
  {
    assert FindById(CROSSED.nets, "n") == Some(0) && FirstStamped(CROSSED.transports, "n") == Some(0);
    ExpectedComplete();
  }

  lemma ExpectedComplete()
    ensures Complete(CONFIG_E)
  {
    forall f: RfField
      ensures f in CONFIG_E
    {
      match f
      case FreqHz => case BwKhzX10 => case Sf => case CrDen => case SyncWord => case TxPowerDbm => case Preamble =>
    }
  }

  // -- an overtaken conflict ----------------------------------------------------------------------------

  /** After C has founded "m" on E, which nobody had any more. */
  const CROWDED: Sys := Sys(
    OVERTAKEN.nets + [NetInfo("m", "m", Rf, Some("C"), Some(CONFIG_E))],
    OVERTAKEN.recs["C" := Rec(Bound, Some("m"), Some("m"), Some(CONFIG_E), Some(CONFIG_E), [], false, 4)],
    [Transport(Some("A"), Some("n")), Transport(Some("B"), Some("n")), Transport(Some("C"), Some("m"))], 5, TUNED, None)

  lemma FreeForC()
    ensures Occupants(OVERTAKEN.nets, Some(CONFIG_E), "") == []
    ensures Release(OVERTAKEN.nets, "C", None) == OVERTAKEN.nets
    ensures Stamp(OVERTAKEN.transports, "C", "m") == CROWDED.transports
  {
    OccupantsExact(OVERTAKEN.nets, Some(CONFIG_E), "");
    assert Release(OVERTAKEN.nets, "C", None)[0] == OVERTAKEN.nets[0];
    StampsFirst(OVERTAKEN.transports, "C", "m", 2);
  }

  lemma Founding(fate: WriteFate)
    ensures Resolve(OVERTAKEN, "C", CreateNetwork("m", GatewaysOwn, "m", fate), Some(2)) == Outcome(CROWDED, true, None)
  {
    FreeForC();
    var rec := OVERTAKEN.recs["C"];
    assert DoCreate(OVERTAKEN, "C", "m", GatewaysOwn, "m", fate).ok;
    CreateShape(OVERTAKEN, "C", "m", GatewaysOwn, "m", fate);
  }

  lemma Crowded()
    ensures Starts(CROWDED, "A") && TargetNet(CROWDED, "A") == Some(0)
    ensures Conflicts(CROWDED.nets) == [] && Occupants(CROWDED.nets, Some(CONFIG_E), "n") != []
  {
    assert FindById(CROWDED.nets, "n") == Some(0) && FirstStamped(CROWDED.transports, "n") == Some(0);
    ExpectedComplete();
    ConflictsAudit(CROWDED.nets);
    OccupantsExact(CROWDED.nets, Some(CONFIG_E), "n");
    assert Occupies(CROWDED.nets[1], CONFIG_E, "n");
  }

  lemma StaleSwitchCollides(fate: WriteFate)
    requires fate == WriteFate(true, true)
    ensures Starts(CROWDED, "A")
    ensures Conflicts(AfterSwitch(CROWDED, "A", fate).nets) != []
  {
    Crowded();
    SwitchReaches(CROWDED, "A", fate);
    var nets := AfterSwitch(CROWDED, "A", fate).nets;
    ConflictsAudit(nets);
    assert Collide(nets[0], nets[1]);
  }

  const TAKEN := WriteFate(true, true)

  const B_TAKES_N := ResolveStep("B", Rebind("n", Adopt, TAKEN), Some(1))
  const C_FOUNDS_M := ResolveStep("C", CreateNetwork("m", GatewaysOwn, "m", TAKEN), Some(2))

  lemma AnswersFollow()
    ensures Follows(RIVALS, B_TAKES_N, OVERTAKEN) && Resolve(RIVALS, "B", B_TAKES_N.action, Some(1)).ok
    ensures Follows(OVERTAKEN, C_FOUNDS_M, CROWDED) && Resolve(OVERTAKEN, "C", C_FOUNDS_M.action, Some(2)).ok
  {
    Overtaking(TAKEN);
    Founding(TAKEN);
  }

  ghost predicate Orderly(sys: Sys) {
    Inv(sys) && Conflicts(sys.nets) == []
  }

  lemma RivalsApart()
    ensures Orderly(RIVALS)
  {
    RivalsOrderly();
    ConflictsAudit(RIVALS.nets);
  }

  lemma HostWins()
    ensures Starts(CROWDED, "A") && Resolve(CROWDED, "A", AcceptHost(Started), Some(0)).ok
  {
  }

  /** B takes "n" over and moves it, C founds "m" on the air that is free now, then A's wizard, its token still good,
      lets the host win. Every answer succeeds and no first contact is made, yet the migration puts "n" on the air of
      "m". */
  lemma StaleAcceptHostCollides()
    ensures Orderly(RIVALS)
    ensures Follows(RIVALS, B_TAKES_N, OVERTAKEN) && Resolve(RIVALS, "B", B_TAKES_N.action, Some(1)).ok
    ensures Follows(OVERTAKEN, C_FOUNDS_M, CROWDED) && Resolve(OVERTAKEN, "C", C_FOUNDS_M.action, Some(2)).ok
    ensures Starts(CROWDED, "A") && Resolve(CROWDED, "A", AcceptHost(Started), Some(0)).ok
    ensures Conflicts(AfterSwitch(CROWDED, "A", TAKEN).nets) != []
  {
    RivalsApart();
    AnswersFollow();
    HostWins();
    StaleSwitchCollides(TAKEN);
  }
}
