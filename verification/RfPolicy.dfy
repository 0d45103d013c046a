/** The frequency-separation policy (racelink/domain/rf_policy.py): an audit of a set of networks and the
    forward-looking "is this channel free?" check, running the same rule. */
module RfPolicy {
  import opened Common

  const MIN_SEPARATION_HZ := 500_000

  /** The seven wire-format fields of an RF configuration. */
  datatype RfField = FreqHz | BwKhzX10 | Sf | CrDen | SyncWord | TxPowerDbm | Preamble

  /** A configuration may be partial. */
  type RfConfig = map<RfField, int>

  datatype NetworkKind = Rf | Ethernet

  datatype NetInfo = NetInfo(id: string, name: string, kind: NetworkKind, gatewayMac: Option<string>, rfConfig: Option<RfConfig>)

  datatype Party = Party(id: string, name: string, freqHz: int, syncWord: Byte)

  datatype Conflict = Conflict(a: Party, b: Party, gapHz: int)

  datatype Occupant = Occupant(party: Party, gapHz: int)

  function AbsDiff(a: int, b: int): nat {
    if a < b then b - a else a - b
  }

  /** `_network_rf_config`: usable when it carries the two fields the rule needs. */
  predicate Usable(cfg: Option<RfConfig>) {
    cfg.Some? && FreqHz in cfg.value && SyncWord in cfg.value
  }

  /** The rule itself: same sync word and less than the minimum separation apart. */
  predicate SameAir(a: RfConfig, b: RfConfig)
    requires Usable(Some(a)) && Usable(Some(b))
  {
    U8(a[SyncWord]) == U8(b[SyncWord]) && AbsDiff(a[FreqHz], b[FreqHz]) < MIN_SEPARATION_HZ
  }

  /** Two entries collide unless they are two copies of one network. */
  predicate Collide(a: NetInfo, b: NetInfo) {
    && Usable(a.rfConfig) && Usable(b.rfConfig)
    && !(a.id != "" && a.id == b.id)
    && SameAir(a.rfConfig.value, b.rfConfig.value)
  }

  ghost predicate Separated(nets: seq<NetInfo>) {
    forall i, j :: 0 <= i < j < |nets| ==> !Collide(nets[i], nets[j])
  }

  function PartyOf(n: NetInfo): Party
    requires Usable(n.rfConfig)
  {
    Party(n.id, n.name, n.rfConfig.value[FreqHz], U8(n.rfConfig.value[SyncWord]))
  }

  function ConflictOf(a: NetInfo, b: NetInfo): Conflict
    requires Usable(a.rfConfig) && Usable(b.rfConfig)
  {
    Conflict(PartyOf(a), PartyOf(b), AbsDiff(a.rfConfig.value[FreqHz], b.rfConfig.value[FreqHz]))
  }

  function ConflictsWith(a: NetInfo, others: seq<NetInfo>): seq<Conflict> {
    if others == [] then []
    else (if Collide(a, others[0]) then [ConflictOf(a, others[0])] else []) + ConflictsWith(a, others[1..])
  }

  function Conflicts(nets: seq<NetInfo>): seq<Conflict> {
    if nets == [] then [] else ConflictsWith(nets[0], nets[1..]) + Conflicts(nets[1..])
  }

  /** `validate_networks_separation`. */
  method ValidateNetworksSeparation(nets: seq<NetInfo>) returns (conflicts: seq<Conflict>)
    ensures conflicts == Conflicts(nets)
    ensures conflicts == [] <==> Separated(nets)
  {
    conflicts := [];
    assert nets[0..] == nets;
    for i := 0 to |nets|
      invariant conflicts + Conflicts(nets[i..]) == Conflicts(nets)
    {
      assert nets[i..][0] == nets[i] && nets[i..][1..] == nets[i + 1..];
      if Usable(nets[i].rfConfig) {
        conflicts := AuditOne(nets[i], nets[i + 1..], conflicts);
      } else {
        NoConflictsWhenUnusable(nets[i], nets[i + 1..]);
      }
    }
    ConflictsAudit(nets);
  }

  /** The inner loop: network `a` against those listed after it. */
  method AuditOne(a: NetInfo, others: seq<NetInfo>, before: seq<Conflict>) returns (conflicts: seq<Conflict>)
    requires Usable(a.rfConfig)
    ensures conflicts == before + ConflictsWith(a, others)
  {
    conflicts := before;
    assert others[0..] == others;
    for j := 0 to |others|
      invariant conflicts + ConflictsWith(a, others[j..]) == before + ConflictsWith(a, others)
    {
      var b := others[j];
      assert others[j..][0] == b && others[j..][1..] == others[j + 1..];
      if Usable(b.rfConfig) && !(a.id != "" && b.id != "" && a.id == b.id) {
        var syncA, syncB := U8(a.rfConfig.value[SyncWord]), U8(b.rfConfig.value[SyncWord]);
        var gap := AbsDiff(a.rfConfig.value[FreqHz], b.rfConfig.value[FreqHz]);
        if syncA == syncB && gap < MIN_SEPARATION_HZ {
          conflicts := conflicts + [ConflictOf(a, b)];
        }
      }
    }
  }

  lemma {:induction false} NoConflictsWhenUnusable(a: NetInfo, others: seq<NetInfo>)
    requires !Usable(a.rfConfig)
    ensures ConflictsWith(a, others) == []
  {
    if others != [] {
      NoConflictsWhenUnusable(a, others[1..]);
    }
  }

  lemma {:induction false} ConflictsWithExact(a: NetInfo, others: seq<NetInfo>, c: Conflict)
    ensures c in ConflictsWith(a, others)
       <==> exists j :: 0 <= j < |others| && Collide(a, others[j]) && c == ConflictOf(a, others[j])
  {
    if others != [] {
      ConflictsWithExact(a, others[1..], c);
      if c in ConflictsWith(a, others[1..]) {
        var j :| 0 <= j < |others[1..]| && Collide(a, others[1..][j]) && c == ConflictOf(a, others[1..][j]);
        assert others[j + 1] == others[1..][j];
      }
      if j :| 0 < j < |others| && Collide(a, others[j]) && c == ConflictOf(a, others[j]) {
        assert others[j] == others[1..][j - 1];
      }
    }
  }

  /** The audit reports a conflict for exactly the colliding pairs. */
  lemma {:induction false} ConflictsExact(nets: seq<NetInfo>, c: Conflict)
    ensures c in Conflicts(nets)
       <==> exists i, j :: 0 <= i < j < |nets| && Collide(nets[i], nets[j]) && c == ConflictOf(nets[i], nets[j])
  {
    if nets != [] {
      var rest := nets[1..];
      ConflictsWithExact(nets[0], rest, c);
      ConflictsExact(rest, c);
      if c in ConflictsWith(nets[0], rest) {
        var j :| 0 <= j < |rest| && Collide(nets[0], rest[j]) && c == ConflictOf(nets[0], rest[j]);
        assert rest[j] == nets[j + 1];
      }
      if c in Conflicts(rest) {
        var i, j :| 0 <= i < j < |rest| && Collide(rest[i], rest[j]) && c == ConflictOf(rest[i], rest[j]);
        assert rest[i] == nets[i + 1] && rest[j] == nets[j + 1];
      }
      if i, j :| 0 <= i < j < |nets| && Collide(nets[i], nets[j]) && c == ConflictOf(nets[i], nets[j]) {
        assert nets[j] == rest[j - 1];
        if i > 0 {
          assert nets[i] == rest[i - 1];
        }
      }
    }
  }

  lemma ConflictsAudit(nets: seq<NetInfo>)
    ensures Conflicts(nets) == [] <==> Separated(nets)
  {
    if Conflicts(nets) != [] {
      ConflictsExact(nets, Conflicts(nets)[0]);
    }
    forall i, j | 0 <= i < j < |nets| && Collide(nets[i], nets[j])
      ensures Conflicts(nets) != []
    {
      ConflictsExact(nets, ConflictOf(nets[i], nets[j]));
    }
  }

  // -- is this channel free? -----------------------------------------------------------

  /** Whether a network sits on the air of `cfg`; the excluded network does not count. */
  predicate Occupies(n: NetInfo, cfg: RfConfig, exclude: string)
    requires Usable(Some(cfg))
  {
    Usable(n.rfConfig) && !(exclude != "" && n.id == exclude) && SameAir(n.rfConfig.value, cfg)
  }

  function Occupants(nets: seq<NetInfo>, cfg: Option<RfConfig>, exclude: string): seq<Occupant> {
    if !Usable(cfg) || nets == [] then []
    else
      (if Occupies(nets[0], cfg.value, exclude)
       then [Occupant(PartyOf(nets[0]), AbsDiff(nets[0].rfConfig.value[FreqHz], cfg.value[FreqHz]))] else [])
      + Occupants(nets[1..], cfg, exclude)
  }

  /** `occupants_of`. */
  method OccupantsOf(nets: seq<NetInfo>, cfg: Option<RfConfig>, exclude: string) returns (occupants: seq<Occupant>)
    ensures occupants == Occupants(nets, cfg, exclude)
  {
    occupants := [];
    if !Usable(cfg) {
      return;
    }
    var freq, sync := cfg.value[FreqHz], U8(cfg.value[SyncWord]);
    assert nets[0..] == nets;
    for i := 0 to |nets|
      invariant occupants + Occupants(nets[i..], cfg, exclude) == Occupants(nets, cfg, exclude)
    {
      var net := nets[i];
      assert nets[i..][0] == net && nets[i..][1..] == nets[i + 1..];
      if Usable(net.rfConfig) && !(exclude != "" && net.id == exclude) {
        var gap := AbsDiff(net.rfConfig.value[FreqHz], freq);
        if U8(net.rfConfig.value[SyncWord]) == sync && gap < MIN_SEPARATION_HZ {
          occupants := occupants + [Occupant(PartyOf(net), gap)];
        }
      }
    }
  }

  lemma {:induction false} OccupantsExact(nets: seq<NetInfo>, cfg: Option<RfConfig>, exclude: string)
    ensures Occupants(nets, cfg, exclude) == []
       <==> (Usable(cfg) ==> forall i :: 0 <= i < |nets| ==> !Occupies(nets[i], cfg.value, exclude))
  {
    if Usable(cfg) && nets != [] {
      OccupantsExact(nets[1..], cfg, exclude);
      assert forall i :: 0 < i < |nets| ==> nets[i] == nets[1..][i - 1];
      assert forall i :: 0 <= i < |nets[1..]| ==> nets[1..][i] == nets[i + 1];
    }
  }

  // -- the two agree ---------------------------------------------------------------------

  predicate UniqueIds(nets: seq<NetInfo>) {
    && (forall i :: 0 <= i < |nets| ==> nets[i].id != "")
    && (forall i, j :: 0 <= i < j < |nets| ==> nets[i].id != nets[j].id)
  }

  /** Adding a network keeps the set separated if and only if its channel was free. */
  lemma AddingIsSafeIffFree(nets: seq<NetInfo>, n: NetInfo)
    requires UniqueIds(nets + [n])
    ensures Separated(nets + [n]) <==> Separated(nets) && Occupants(nets, n.rfConfig, "") == []
  {
    OccupantsExact(nets, n.rfConfig, "");
    var all := nets + [n];
    forall i | 0 <= i < |nets|
      ensures all[i] == nets[i]
      ensures Collide(all[i], n) <==> Usable(n.rfConfig) && Occupies(nets[i], n.rfConfig.value, "")
    {
      assert all[i].id != all[|nets|].id;
    }
    if Separated(all) {
      forall i, j | 0 <= i < j < |nets|
        ensures !Collide(nets[i], nets[j])
      {
        assert !Collide(all[i], all[j]);
      }
      forall i | 0 <= i < |nets|
        ensures !Collide(all[i], n)
      {
        assert all[|nets|] == n;
      }
    }
  }

  /** Moving a network to a new channel keeps a separated set separated if and only if no other network is there. */
  lemma MovingIsSafeIffFree(nets: seq<NetInfo>, k: nat, cfg: Option<RfConfig>)
    requires UniqueIds(nets) && k < |nets| && Separated(nets)
    ensures Separated(nets[k := nets[k].(rfConfig := cfg)]) <==> Occupants(nets, cfg, nets[k].id) == []
  {
    OccupantsExact(nets, cfg, nets[k].id);
    var moved := nets[k := nets[k].(rfConfig := cfg)];
    forall i | 0 <= i < |nets| && i != k
      ensures Usable(cfg) && Occupies(nets[i], cfg.value, nets[k].id) <==> Collide(moved[i], moved[k])
      ensures Collide(moved[i], moved[k]) <==> Collide(moved[k], moved[i])
    {
    }
    if Separated(moved) {
      forall i | 0 <= i < |nets| && i != k
        ensures !Collide(moved[i], moved[k])
      {
      }
    }
  }

  /** Fields the policy does not read may change freely. */
  lemma SeparationIgnoresMacs(nets: seq<NetInfo>, nets': seq<NetInfo>)
    requires |nets| == |nets'|
    requires forall i :: 0 <= i < |nets| ==> nets'[i].id == nets[i].id && nets'[i].rfConfig == nets[i].rfConfig
    ensures Separated(nets) <==> Separated(nets')
  {
    forall i, j | 0 <= i < j < |nets|
      ensures Collide(nets[i], nets[j]) <==> Collide(nets'[i], nets'[j])
    {
    }
  }
}
