/** Moving a network's devices and then its gateway to new radio settings, and saying truthfully who got there
    (racelink/services/onboarding_service.py:78-107, 179-310). */
module Migration {
  import opened Common
  import opened Sorting

  type Mac = string

  const MAC_LENGTH := 12

  // -- who is to be moved -----------------------------------------------------------------

  /** Every device of the repository with an address. */
  function Addresses(repo: seq<Mac>): set<Mac> {
    set m | m in repo && m != ""
  }

  lemma AppendElement(macs: seq<Mac>, m: Mac)
    ensures Elements(macs + [m]) == Elements(macs) + {m}
    ensures NoDuplicates(macs) && m !in macs ==> NoDuplicates(macs + [m])
  {
    forall x
      ensures x in macs + [m] <==> x in macs || x == m
    {
      if x == m {
        assert (macs + [m])[|macs|] == x;
      }
      if x in macs {
        var i :| 0 <= i < |macs| && macs[i] == x;
        assert (macs + [m])[i] == x;
      }
    }
  }

  /** All addresses, sorted, when nothing is selected, else the selection without strangers and repetitions, in its order. */
  ghost predicate Selected(targets: seq<Mac>, repo: seq<Mac>, selection: seq<Mac>) {
    && NoDuplicates(targets)
    && (selection == [] ==> targets == SortedList(Addresses(repo)))
    && (selection != [] ==>
          && (forall m :: m in targets <==> m in selection && |m| == MAC_LENGTH && m in Addresses(repo))
          && InOrderOf(targets, selection))
  }

  /** `_resolve_targets`. */
  method ResolveTargets(repo: seq<Mac>, selection: seq<Mac>) returns (targets: seq<Mac>)
    ensures Selected(targets, repo, selection)
  {
    if selection == [] {
      SortedListExact(Addresses(repo));
      return SortedList(Addresses(repo));
    }
    targets := [];
    ghost var at: seq<nat> := [];
    for i := 0 to |selection|
      invariant NoDuplicates(targets)
      invariant forall m :: m in targets <==> m in selection[..i] && |m| == MAC_LENGTH && m in Addresses(repo)
      invariant FirstOccurrences(targets, selection, at) && forall k :: 0 <= k < |at| ==> at[k] < i
    {
      var m := selection[i];
      if |m| == MAC_LENGTH && m in Addresses(repo) && m !in targets {
        targets := targets + [m];
        at := at + [i];
      }
    }
    assert selection[..|selection|] == selection;
  }

  /** `at` lists, in ascending order, where each of `part` first occurs in `whole`. */
  ghost predicate FirstOccurrences(part: seq<Mac>, whole: seq<Mac>, at: seq<nat>) {
    && |at| == |part|
    && (forall k :: 0 <= k < |at| ==> at[k] < |whole| && whole[at[k]] == part[k] && part[k] !in whole[..at[k]])
    && forall j, k :: 0 <= j < k < |at| ==> at[j] < at[k]
  }

  ghost predicate InOrderOf(part: seq<Mac>, whole: seq<Mac>) {
    exists at :: FirstOccurrences(part, whole, at)
  }

  // -- the run -----------------------------------------------------------------------------

  datatype PushReply = Acked | NotAcked | Raised

  /** What the outside answers: the gateway to both switches, each node to its push, and the two discoveries
      (None when one raises). */
  datatype World = World(
    volatileOk: bool, persistOk: bool, push: Mac -> PushReply, before: Option<seq<Mac>>, after: Option<seq<Mac>>)

  datatype Effect = SwitchVolatile(cfg: int) | Discover | PushNode(mac: Mac, cfg: int) | SwitchPersistent(cfg: int)

  datatype Status = Pushed | PushFailed | Stranded

  datatype Entry = Entry(mac: Mac, status: Status)

  datatype Stage = VolatileFailed | PersistFailed | Done

  datatype Report = Report(
    ok: bool, stage: Stage, perDevice: seq<Entry>, stranded: seq<Mac>,
    requested: nat, discovered: nat, pushedOk: nat, pushedFail: nat)

  /** The full-length MACs that answered on the old channel. */
  function SeenBefore(w: World): set<Mac> {
    if w.before.None? then {} else set m | m in w.before.value && |m| == MAC_LENGTH
  }

  function SeenAfter(w: World): set<Mac> {
    if w.after.None? then {} else set m | m in w.after.value && m != ""
  }

  /** Who is pushed to: the targets that answered, or whoever answered when there is no target. */
  function PushSet(targets: seq<Mac>, w: World): set<Mac> {
    if targets != [] then Elements(targets) * SeenBefore(w) else SeenBefore(w)
  }

  /** Whom the report is about. */
  function Subjects(targets: seq<Mac>, w: World): set<Mac> {
    if targets != [] then Elements(targets) else SeenBefore(w)
  }

  function AckedOf(macs: set<Mac>, w: World): set<Mac> {
    set m | m in macs && w.push(m).Acked?
  }

  /** Acknowledged its push, yet was not heard after the reboot. */
  predicate LostAfterPush(m: Mac, w: World) {
    m in SeenBefore(w) && w.push(m).Acked? && m !in SeenAfter(w)
  }

  predicate Arrived(m: Mac, w: World) {
    m in SeenBefore(w) && w.push(m).Acked? && m in SeenAfter(w)
  }

  function PushStatus(m: Mac, w: World): Status {
    if w.push(m).Acked? then Pushed else PushFailed
  }

  function FinalStatus(m: Mac, w: World): Status {
    if LostAfterPush(m, w) then Stranded else PushStatus(m, w)
  }

  function Macs(entries: seq<Entry>): (r: seq<Mac>)
    ensures |r| == |entries| && forall i :: 0 <= i < |r| ==> r[i] == entries[i].mac
  {
    seq(|entries|, i requires 0 <= i < |entries| => entries[i].mac)
  }

  // -- the loops -----------------------------------------------------------------------------

  /** The entries of these nodes, in this order, with what became of their pushes. */
  ghost predicate PushedTo(entries: seq<Entry>, macs: seq<Mac>, w: World) {
    |entries| == |macs| && forall i :: 0 <= i < |macs| ==> entries[i] == Entry(macs[i], PushStatus(macs[i], w))
  }

  lemma OneMoreAck(macs: set<Mac>, w: World, m: Mac)
    requires m !in macs
    ensures |macs + {m}| == |macs| + 1
    ensures |AckedOf(macs + {m}, w)| == |AckedOf(macs, w)| + if w.push(m).Acked? then 1 else 0
  {
    assert AckedOf(macs + {m}, w) == AckedOf(macs, w) + if w.push(m).Acked? then {m} else {};
  }

  /** The pushes in this order. */
  function PushEffects(macs: seq<Mac>, cfg: int): seq<Effect> {
    if macs == [] then [] else PushEffects(macs[..|macs| - 1], cfg) + [PushNode(macs[|macs| - 1], cfg)]
  }

  function AckCount(macs: seq<Mac>, w: World): nat {
    if macs == [] then 0 else AckCount(macs[..|macs| - 1], w) + if w.push(macs[|macs| - 1]).Acked? then 1 else 0
  }

  lemma {:induction false} AckCountIs(macs: seq<Mac>, w: World)
    requires NoDuplicates(macs)
    ensures AckCount(macs, w) == |AckedOf(Elements(macs), w)|
  {
    if macs != [] {
      var init, m := macs[..|macs| - 1], macs[|macs| - 1];
      AckCountIs(init, w);
      assert macs == init + [m];
      AppendElement(init, m);
      OneMoreAck(Elements(init), w, m);
    }
  }

  /** The push to every node in turn, each noted among the effects as it is made. */
  method PushAll(macs: seq<Mac>, cfg: int, w: World, before: seq<Effect>)
      returns (perDevice: seq<Entry>, pushedOk: nat, pushedFail: nat, effects: seq<Effect>)
    requires NoDuplicates(macs)
    ensures PushedTo(perDevice, macs, w)
    ensures pushedOk == |AckedOf(Elements(macs), w)| && pushedOk + pushedFail == |macs|
    ensures effects == before + PushEffects(macs, cfg)
  {
    perDevice, pushedOk, pushedFail, effects := [], 0, 0, before;
    for i := 0 to |macs|
      invariant PushedTo(perDevice, macs[..i], w)
      invariant pushedOk == AckCount(macs[..i], w) && pushedOk + pushedFail == i
      invariant effects == before + PushEffects(macs[..i], cfg)
    {
      var m := macs[i];
      assert macs[..i + 1][..i] == macs[..i];
      effects := effects + [PushNode(m, cfg)];
      if w.push(m).Acked? {
        perDevice := perDevice + [Entry(m, Pushed)];
        pushedOk := pushedOk + 1;
      } else {
        perDevice := perDevice + [Entry(m, PushFailed)];
        pushedFail := pushedFail + 1;
      }
    }
    assert macs[..|macs|] == macs;
    AckCountIs(macs, w);
  }

  /** The targets that never answered, as the report lists them. */
  method NeverSeen(targets: seq<Mac>, discovered: set<Mac>) returns (stranded: seq<Mac>)
    requires NoDuplicates(targets)
    ensures NoDuplicates(stranded) && Elements(stranded) == Elements(targets) - discovered
  {
    stranded := [];
    for i := 0 to |targets|
      invariant NoDuplicates(stranded) && Elements(stranded) == Elements(targets[..i]) - discovered
    {
      assert targets[..i + 1] == targets[..i] + [targets[i]];
      AppendElement(targets[..i], targets[i]);
      if targets[i] !in discovered {
        assert targets[i] !in Elements(stranded);
        AppendElement(stranded, targets[i]);
        stranded := stranded + [targets[i]];
      }
    }
    assert targets[..|targets|] == targets;
  }

  /** What becomes of an entry once it is known who was heard after the reboot. */
  function Settled(e: Entry, seenAfter: set<Mac>, already: set<Mac>): Entry {
    if e.status == Pushed && e.mac !in seenAfter && e.mac !in already then Entry(e.mac, Stranded) else e
  }

  /** Marks and lists the pushed nodes that did not come back. */
  method StrandMissing(entries: seq<Entry>, undiscovered: seq<Mac>, seenAfter: set<Mac>)
      returns (perDevice: seq<Entry>, stranded: seq<Mac>)
    requires NoDuplicates(Macs(entries)) && NoDuplicates(undiscovered)
    ensures |perDevice| == |entries|
    ensures forall i :: 0 <= i < |entries| ==> perDevice[i] == Settled(entries[i], seenAfter, Elements(undiscovered))
    ensures NoDuplicates(stranded)
    ensures forall m :: m in stranded <==> m in undiscovered || (Entry(m, Pushed) in entries && m !in seenAfter)
  {
    var already := Elements(undiscovered);
    perDevice, stranded := entries, undiscovered;
    for i := 0 to |entries|
      invariant |perDevice| == |entries| && forall k :: i <= k < |entries| ==> perDevice[k] == entries[k]
      invariant forall k :: 0 <= k < i ==> perDevice[k] == Settled(entries[k], seenAfter, already)
      invariant NoDuplicates(stranded)
      invariant forall m :: m in stranded <==> m in undiscovered || (Entry(m, Pushed) in entries[..i] && m !in seenAfter)
    {
      var e := entries[i];
      if e.status == Pushed && e.mac !in seenAfter && e.mac !in already {
        assert e.mac !in stranded by {
          forall k | 0 <= k < i
            ensures entries[k].mac != e.mac
          {
            assert Macs(entries)[k] != Macs(entries)[i];
          }
        }
        AppendElement(stranded, e.mac);
        assert forall m :: m in stranded + [e.mac] <==> m in Elements(stranded + [e.mac]);
        stranded := stranded + [e.mac];
        perDevice := perDevice[i := Entry(e.mac, Stranded)];
      }
      assert entries[..i + 1] == entries[..i] + [e];
    }
    assert entries[..|entries|] == entries;
  }

  // -- the whole run ---------------------------------------------------------------------------

  /** The nodes pushed to, in the order of the pushes. */
  function PushList(targets: seq<Mac>, w: World): seq<Mac> {
    SortedList(PushSet(targets, w))
  }

  /** Devices first, gateway after: one persistent write, of the new settings, after every push; each node of the push
      set pushed to once and nobody else; and before that only one, volatile, write to the gateway. */
  ghost predicate DevicesFirst(effects: seq<Effect>, macs: set<Mac>, oldCfg: int, newCfg: int, pushed: bool) {
    && (forall i, j :: 0 <= i < |effects| && 0 <= j < |effects| && effects[i].SwitchPersistent? ==>
          && effects[i].cfg == newCfg && (effects[j].PushNode? ==> j < i) && (effects[j].SwitchPersistent? ==> j == i))
    && (forall i :: 0 <= i < |effects| && effects[i].SwitchVolatile? ==> i == 0 && effects[i].cfg == oldCfg)
    && (forall i, j :: 0 <= i < j < |effects| && effects[i].PushNode? && effects[j].PushNode? ==> effects[i].mac != effects[j].mac)
    && (forall i :: 0 <= i < |effects| && effects[i].PushNode? ==> effects[i].mac in macs && effects[i].cfg == newCfg)
    && (if pushed then SwitchPersistent(newCfg) in effects && forall m :: m in macs ==> PushNode(m, newCfg) in effects
        else effects == [SwitchVolatile(oldCfg)])
  }

  /** The counts of a run that got as far as pushing. */
  ghost predicate CountsRight(report: Report, targets: seq<Mac>, w: World) {
    && report.discovered == |SeenBefore(w)|
    && report.pushedOk == |AckedOf(PushSet(targets, w), w)|
    && report.pushedOk + report.pushedFail == |PushSet(targets, w)|
    && Macs(report.perDevice) == PushList(targets, w)
    && NoDuplicates(report.stranded)
  }

  ghost predicate ListsRight(report: Report, targets: seq<Mac>, w: World) {
    if report.stage == Done then
      && (forall e :: e in report.perDevice ==> e.status == FinalStatus(e.mac, w))
      && (forall m :: m in report.stranded <==> m in Subjects(targets, w) && (m !in SeenBefore(w) || LostAfterPush(m, w)))
    else
      && (forall e :: e in report.perDevice ==> e.status == PushStatus(e.mac, w))
      && (forall m :: m in report.stranded <==> m in targets && m !in SeenBefore(w))
  }

  /** `case_b_migrate`. */
  method CaseBMigrate(oldCfg: int, newCfg: int, repo: seq<Mac>, selection: seq<Mac>, w: World)
      returns (report: Report, targets: seq<Mac>, effects: seq<Effect>)
    ensures Selected(targets, repo, selection) && report.requested == |targets|
    ensures report.stage == if !w.volatileOk then VolatileFailed else if !w.persistOk then PersistFailed else Done
    ensures report.stage == VolatileFailed ==> report == Report(false, VolatileFailed, [], [], |targets|, 0, 0, 0)
    ensures report.stage != VolatileFailed ==> CountsRight(report, targets, w) && ListsRight(report, targets, w)
    ensures report.ok <==> report.stage == Done && report.pushedFail == 0 && report.stranded == []
    ensures DevicesFirst(effects, PushSet(targets, w), oldCfg, newCfg, w.volatileOk)
  {
    targets := ResolveTargets(repo, selection);
    effects := [SwitchVolatile(oldCfg)];
    if !w.volatileOk {
      report := Report(false, VolatileFailed, [], [], |targets|, 0, 0, 0);
      return;
    }
    effects := effects + [Discover];
    report, effects := PushPhase(targets, newCfg, w, effects);
    effects := effects + [SwitchPersistent(newCfg)];
    var after: seq<Effect> := [];
    if w.persistOk {
      after := [Discover];
      report := Recheck(report, targets, w);
    }
    effects := effects + after;
    LayOut(effects, PushList(targets, w), oldCfg, newCfg, after);
    SortedListExact(PushSet(targets, w));
    InOrder(effects, PushList(targets, w), oldCfg, newCfg);
  }

  lemma {:induction false} PushEffectsAt(macs: seq<Mac>, cfg: int)
    ensures |PushEffects(macs, cfg)| == |macs| && forall i :: 0 <= i < |macs| ==> PushEffects(macs, cfg)[i] == PushNode(macs[i], cfg)
  {
    if macs != [] {
      PushEffectsAt(macs[..|macs| - 1], cfg);
    }
  }

  /** The effects of a run that pushes, by position. */
  ghost predicate LaidOut(effects: seq<Effect>, macs: seq<Mac>, oldCfg: int, newCfg: int) {
    && |effects| >= |macs| + 3
    && effects[0] == SwitchVolatile(oldCfg) && effects[1] == Discover && effects[|macs| + 2] == SwitchPersistent(newCfg)
    && (forall k :: 0 <= k < |macs| ==> effects[k + 2] == PushNode(macs[k], newCfg))
    && (forall k :: |macs| + 2 < k < |effects| ==> effects[k] == Discover)
  }

  lemma LayOut(effects: seq<Effect>, macs: seq<Mac>, oldCfg: int, newCfg: int, after: seq<Effect>)
    requires effects == [SwitchVolatile(oldCfg)] + [Discover] + PushEffects(macs, newCfg) + [SwitchPersistent(newCfg)] + after
    requires after == [] || after == [Discover]
    ensures LaidOut(effects, macs, oldCfg, newCfg)
  {
    PushEffectsAt(macs, newCfg);
    var pushes := PushEffects(macs, newCfg);
    forall k | 0 <= k < |macs|
      ensures effects[k + 2] == PushNode(macs[k], newCfg)
    {
      assert effects[k + 2] == pushes[k];
    }
  }

  lemma LaidOutKind(effects: seq<Effect>, macs: seq<Mac>, oldCfg: int, newCfg: int, k: nat)
    requires LaidOut(effects, macs, oldCfg, newCfg) && k < |effects|
    ensures effects[k].SwitchVolatile? <==> k == 0
    ensures effects[k].SwitchPersistent? <==> k == |macs| + 2
    ensures effects[k].PushNode? <==> 2 <= k < |macs| + 2
    ensures 2 <= k < |macs| + 2 ==> effects[k] == PushNode(macs[k - 2], newCfg)
  {
    if 2 <= k < |macs| + 2 {
      assert effects[(k - 2) + 2] == PushNode(macs[k - 2], newCfg);
    }
  }

  lemma InOrder(effects: seq<Effect>, macs: seq<Mac>, oldCfg: int, newCfg: int)
    requires LaidOut(effects, macs, oldCfg, newCfg) && NoDuplicates(macs)
    ensures DevicesFirst(effects, Elements(macs), oldCfg, newCfg, true)
  {
    forall k: nat | k < |effects|
      ensures effects[k].SwitchVolatile? <==> k == 0
      ensures effects[k].SwitchPersistent? <==> k == |macs| + 2
      ensures effects[k].PushNode? <==> 2 <= k < |macs| + 2
      ensures 2 <= k < |macs| + 2 ==> effects[k] == PushNode(macs[k - 2], newCfg)
    {
      LaidOutKind(effects, macs, oldCfg, newCfg, k);
    }
    forall m | m in Elements(macs)
      ensures PushNode(m, newCfg) in effects
    {
      var i :| 0 <= i < |macs| && macs[i] == m;
      assert effects[i + 2] == PushNode(m, newCfg);
    }
  }

  /** What is known once the nodes that answered were pushed to. */
  method PushPhase(targets: seq<Mac>, newCfg: int, w: World, before: seq<Effect>) returns (report: Report, effects: seq<Effect>)
    requires NoDuplicates(targets)
    ensures report.stage == PersistFailed && report.requested == |targets| && !report.ok
    ensures PushedTo(report.perDevice, PushList(targets, w), w)
    ensures CountsRight(report, targets, w) && ListsRight(report, targets, w)
    ensures Elements(report.stranded) == Elements(targets) - SeenBefore(w)
    ensures effects == before + PushEffects(PushList(targets, w), newCfg)
  {
    var discovered := SeenBefore(w);
    SortedListExact(PushSet(targets, w));
    var perDevice, pushedOk, pushedFail: nat;
    perDevice, pushedOk, pushedFail, effects := PushAll(PushList(targets, w), newCfg, w, before);
    var stranded := NeverSeen(targets, discovered);
    report := Report(false, PersistFailed, perDevice, stranded, |targets|, |discovered|, pushedOk, pushedFail);
    assert Macs(perDevice) == PushList(targets, w);
    assert forall m :: m in stranded <==> m in Elements(stranded);
    assert forall m :: m in targets <==> m in Elements(targets);
  }

  /** The last phase, once the gateway is back on the new channel. */
  method Recheck(pushed: Report, targets: seq<Mac>, w: World) returns (report: Report)
    requires pushed.stage == PersistFailed && PushedTo(pushed.perDevice, PushList(targets, w), w)
    requires CountsRight(pushed, targets, w) && Elements(pushed.stranded) == Elements(targets) - SeenBefore(w)
    ensures report.stage == Done && report.requested == pushed.requested
    ensures Macs(report.perDevice) == Macs(pushed.perDevice)
    ensures CountsRight(report, targets, w) && ListsRight(report, targets, w)
    ensures report.ok <==> report.pushedFail == 0 && report.stranded == []
  {
    SortedListExact(PushSet(targets, w));
    var perDevice, stranded := StrandMissing(pushed.perDevice, pushed.stranded, SeenAfter(w));
    report := pushed.(ok := pushed.pushedFail == 0 && stranded == [], stage := Done, perDevice := perDevice, stranded := stranded);
    assert Macs(perDevice) == Macs(pushed.perDevice);
    assert forall m :: m in pushed.stranded <==> m in Elements(pushed.stranded);
    FinalLists(pushed.perDevice, report, targets, w);
  }

  /** The lists after the reboot, from the lists before it. */
  lemma FinalLists(pushed: seq<Entry>, report: Report, targets: seq<Mac>, w: World)
    requires report.stage == Done && |report.perDevice| == |pushed|
    requires PushedTo(pushed, PushList(targets, w), w)
    requires forall i :: 0 <= i < |pushed| ==> report.perDevice[i] == Settled(pushed[i], SeenAfter(w), Elements(targets) - SeenBefore(w))
    requires forall m :: m in report.stranded <==>
               m in Elements(targets) - SeenBefore(w) || (Entry(m, Pushed) in pushed && m !in SeenAfter(w))
    ensures ListsRight(report, targets, w)
  {
    SortedListExact(PushSet(targets, w));
    forall i | 0 <= i < |pushed|
      ensures report.perDevice[i].status == FinalStatus(report.perDevice[i].mac, w)
    {
      assert PushList(targets, w)[i] in PushList(targets, w);
    }
    forall m
      ensures Entry(m, Pushed) in pushed <==> m in PushSet(targets, w) && w.push(m).Acked?
    {
      if Entry(m, Pushed) in pushed {
        var i :| 0 <= i < |pushed| && pushed[i] == Entry(m, Pushed);
        assert Macs(pushed)[i] == m;
      }
      if m in PushSet(targets, w) && w.push(m).Acked? {
        var i :| 0 <= i < |pushed| && Macs(pushed)[i] == m;
        assert pushed[i] in pushed;
      }
    }
  }

  // -- the report is truthful ------------------------------------------------------------------

  /** A finished run reports success exactly when every target was discovered, acknowledged its push and was seen
      after the reboot; without targets, the same of every device that answered at first. */
  lemma OkMeansEveryoneArrived(report: Report, targets: seq<Mac>, w: World)
    requires report.stage == Done && CountsRight(report, targets, w) && ListsRight(report, targets, w)
    ensures report.pushedFail == 0 && report.stranded == [] <==> forall m :: m in Subjects(targets, w) ==> Arrived(m, w)
  {
    var pushSet := PushSet(targets, w);
    AllAcked(pushSet, w);
    if report.pushedFail == 0 && report.stranded == [] {
      forall m | m in Subjects(targets, w)
        ensures Arrived(m, w)
      {
        assert m !in report.stranded;
        assert m in pushSet;
        assert m in AckedOf(pushSet, w);
      }
    }
    if forall m :: m in Subjects(targets, w) ==> Arrived(m, w) {
      assert AckedOf(pushSet, w) == pushSet;
      if report.stranded != [] {
        assert report.stranded[0] in report.stranded;
      }
    }
  }

  lemma AllAcked(macs: set<Mac>, w: World)
    ensures |AckedOf(macs, w)| == |macs| <==> AckedOf(macs, w) == macs
  {
    assert macs == AckedOf(macs, w) + (macs - AckedOf(macs, w));
    assert |macs| == |AckedOf(macs, w)| + |macs - AckedOf(macs, w)|;
  }

  /** Every target is accounted for once: pushed, refused, or never heard of. */
  lemma TargetsAddUp(report: Report, targets: seq<Mac>, w: World)
    requires CountsRight(report, targets, w) && NoDuplicates(targets) && targets != []
    ensures |targets| == report.pushedOk + report.pushedFail + |Elements(targets) - SeenBefore(w)|
  {
    DistinctCount(targets);
    var pushSet, rest := PushSet(targets, w), Elements(targets) - SeenBefore(w);
    assert Elements(targets) == pushSet + rest && pushSet !! rest;
  }

  /** And each of them ends in exactly one of three places: arrived, stranded, or listed with a failed push. */
  lemma EveryTargetEndsSomewhere(report: Report, targets: seq<Mac>, w: World, m: Mac)
    requires report.stage == Done && CountsRight(report, targets, w) && ListsRight(report, targets, w)
    requires m in Subjects(targets, w)
    ensures (m in report.stranded || Entry(m, PushFailed) in report.perDevice) <==> !Arrived(m, w)
    ensures !(m in report.stranded && Entry(m, PushFailed) in report.perDevice)
    ensures Entry(m, Pushed) in report.perDevice <==> Arrived(m, w)
  {
    SortedListExact(PushSet(targets, w));
    if m in PushSet(targets, w) {
      assert m in Elements(Macs(report.perDevice));
      var i :| 0 <= i < |report.perDevice| && Macs(report.perDevice)[i] == m;
      assert report.perDevice[i] in report.perDevice;
      assert report.perDevice[i] == Entry(m, FinalStatus(m, w));
    } else {
      forall e | e in report.perDevice
        ensures e.mac != m
      {
        var i :| 0 <= i < |report.perDevice| && report.perDevice[i] == e;
        assert Macs(report.perDevice)[i] in Elements(Macs(report.perDevice));
      }
    }
  }

  // -- whom the operator meant ----------------------------------------------------------------

  /** The addresses the operator meant: those selected or, without a selection, all known ones. */
  function Meant(repo: seq<Mac>, selection: seq<Mac>): set<Mac> {
    if selection == [] then Addresses(repo) else Elements(selection)
  }

  /** Some address meant is one that can be pushed to by name. */
  ghost predicate SomeoneKnown(repo: seq<Mac>, selection: seq<Mac>) {
    exists m :: m in Meant(repo, selection) && m in Addresses(repo) && (selection != [] ==> |m| == MAC_LENGTH)
  }

  lemma TargetsAreMeant(targets: seq<Mac>, repo: seq<Mac>, selection: seq<Mac>)
    requires Selected(targets, repo, selection)
    ensures Elements(targets) <= Meant(repo, selection)
    ensures targets != [] <==> SomeoneKnown(repo, selection)
  {
    SortedListExact(Addresses(repo));
    if targets != [] {
      assert targets[0] in targets;
    }
    if SomeoneKnown(repo, selection) {
      var m :| m in Meant(repo, selection) && m in Addresses(repo) && (selection != [] ==> |m| == MAC_LENGTH);
      assert m in targets;
    }
  }

  /** Nobody is pushed to whom the operator did not mean if and only if somebody meant is known, or nobody else answers:
      a selection of strangers leaves no target, and then everybody who answers is pushed to. */
  lemma OnlyThoseMeantIff(targets: seq<Mac>, repo: seq<Mac>, selection: seq<Mac>, w: World)
    requires Selected(targets, repo, selection)
    ensures PushSet(targets, w) <= Meant(repo, selection)
       <==> SomeoneKnown(repo, selection) || SeenBefore(w) <= Meant(repo, selection)
  {
    TargetsAreMeant(targets, repo, selection);
  }

  const KNOWN: Mac := "AAAAAAAAAAAA"
  const STRANGER: Mac := "BBBBBBBBBBBB"

  /** It happens: a mistyped selection moves the one known device, which was not selected. */
  lemma StrangerSelected(w: World)
    requires w.before == Some([KNOWN])
    ensures Selected([], [KNOWN], [STRANGER])
    ensures KNOWN in PushSet([], w) && KNOWN !in Meant([KNOWN], [STRANGER])
  {
    assert KNOWN[0] != STRANGER[0];
    assert Addresses([KNOWN]) == {KNOWN};
    assert FirstOccurrences([], [STRANGER], []);
  }
}
