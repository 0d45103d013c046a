/** Listening on one channel after the other with a borrowed gateway, and giving it back as it was
    (racelink/services/channel_scan_service.py:81-336). */
module ChannelScan {
  import opened Common
  import opened RfPolicy
  import opened Sorting

  type Mac = string

  const MAC_LENGTH := 12

  datatype Channel = Channel(id: int, name: string)

  /** One channel's turn: the switch raises (having reached the gateway or not), is refused, or goes through and
      these senders answer; handling them may raise after the first few. A discovery that raises heard nobody. */
  datatype Visit =
    | SwitchRaised(reached: bool)
    | SwitchRefused
    | Heard(responders: seq<Mac>)
    | HeardThenRaised(responders: seq<Mac>, handled: nat)

  /** What the outside provides: the channel table, the operator's choice, the gateway's answers and whether it
      takes the restoring write. */
  datatype World = World(
    attached: bool, available: seq<Channel>, selection: Option<seq<int>>, table: Configs,
    snapshot: Option<RfConfig>, visits: seq<Visit>, restoreTaken: bool)

  /** The settings of a channel id; none means no fields. */
  type Configs = map<int, RfConfig>

  function ConfigOf(table: Configs, id: int): RfConfig {
    if id in table then table[id] else map[]
  }

  /** The `i`th turn; nobody answers on the turns not listed. */
  function VisitAt(w: World, i: nat): Visit {
    if i < |w.visits| then w.visits[i] else Heard([])
  }

  datatype Write = Write(cfg: RfConfig, persist: bool, taken: bool)

  datatype Row = Row(channel: Channel, responders: seq<Mac>, known: seq<Mac>, unknown: seq<Mac>, failed: bool)

  datatype Report = Report(
    rows: seq<Row>, allKnown: map<Mac, Channel>, allUnknown: map<Mac, Channel>,
    channels: nat, respondersTotal: nat, knownCount: nat, unknownCount: nat)

  datatype Outcome = NoTransport | NoChannels | NoMatchingChannel | NoSnapshot | Raised | Scanned(report: Report)

  // -- the channel list --------------------------------------------------------------------

  /** The channel of that id; of several, the last in the table. */
  function ById(available: seq<Channel>, id: int): (r: Option<Channel>)
    ensures r.Some? ==> r.value in available && r.value.id == id
    ensures r.None? ==> forall ch :: ch in available ==> ch.id != id
  {
    if available == [] then None
    else
      var last := available[|available| - 1];
      if last.id == id then Some(last) else ById(available[..|available| - 1], id)
  }

  function WantedIds(w: World): seq<int> {
    if w.selection.Some? then w.selection.value else seq(|w.available|, i requires 0 <= i < |w.available| => w.available[i].id)
  }

  function Select(available: seq<Channel>, ids: seq<int>): (r: seq<Channel>)
    ensures forall ch :: ch in r ==> ch in available && ch.id in ids
    ensures available == [] ==> r == []
  {
    if ids == [] then []
    else
      var first := ById(available, ids[0]);
      (if first.Some? then [first.value] else []) + Select(available, ids[1..])
  }

  function Channels(w: World): seq<Channel> {
    Select(w.available, WantedIds(w))
  }

  // -- what is heard -------------------------------------------------------------------------

  /** A full-length MAC handled while the gateway sat on that channel. */
  datatype Hearing = Hearing(channel: Channel, mac: Mac)

  /** Who answers in a visit. */
  function Answering(visit: Visit): set<Mac> {
    if visit.Heard? || visit.HeardThenRaised? then set m | m in visit.responders else {}
  }

  /** The responders, each once and sorted. */
  function Responders(visit: Visit): seq<Mac> {
    SortedList(Answering(visit))
  }

  /** How many of the responders are handled before the visit ends. */
  function Handled(visit: Visit): (n: nat)
    ensures n <= |Responders(visit)|
  {
    if visit.HeardThenRaised? && visit.handled < |Responders(visit)| then visit.handled else |Responders(visit)|
  }

  function HandledIn(visit: Visit): seq<Mac> {
    Responders(visit)[..Handled(visit)]
  }

  predicate Raises(visit: Visit) {
    visit.SwitchRaised? || visit.HeardThenRaised?
  }

  function Hearings(channel: Channel, macs: seq<Mac>): seq<Hearing> {
    if macs == [] then []
    else
      var last := macs[|macs| - 1];
      Hearings(channel, macs[..|macs| - 1]) + if |last| == MAC_LENGTH then [Hearing(channel, last)] else []
  }

  /** Everything handled on the first `n` channels. */
  function Log(w: World, channels: seq<Channel>, n: nat): seq<Hearing>
    requires n <= |channels|
  {
    if n == 0 then []
    else
      Log(w, channels, n - 1) + Hearings(channels[n - 1], HandledIn(VisitAt(w, n - 1)))
  }

  /** The first `n` visits do not raise. */
  ghost predicate Completes(w: World, n: nat) {
    forall i :: 0 <= i < n ==> !Raises(VisitAt(w, i))
  }

  /** How many of `total` channels are begun: all, or up to the first visit that raises. */
  function Begun(w: World, total: nat): (n: nat)
    ensures n <= total
    ensures Completes(w, total) ==> n == total
    ensures !Completes(w, total) ==> n > 0 && Completes(w, n - 1) && Raises(VisitAt(w, n - 1))
  {
    if total == 0 then 0
    else
      var before := Begun(w, total - 1);
      if before < total - 1 || (before > 0 && Raises(VisitAt(w, before - 1))) then before else total
  }

  lemma BegunIs(w: World, total: nat, n: nat, raised: bool)
    requires n <= total
    requires if raised then n > 0 && Raises(VisitAt(w, n - 1)) && Completes(w, n - 1) else n == total && Completes(w, n)
    ensures Begun(w, total) == n && (raised <==> !Completes(w, total))
  {
  }

  // -- the traces the scan leaves ----------------------------------------------------------

  /** The gateway's stored and live settings. */
  datatype Gateway = Gateway(nvs: RfConfig, live: RfConfig)

  function Applied(g: Gateway, write: Write): Gateway {
    if !write.taken then g
    else if write.persist then Gateway(write.cfg, write.cfg)
    else g.(live := write.cfg)
  }

  function AppliedAll(g: Gateway, writes: seq<Write>): Gateway {
    if writes == [] then g else Applied(AppliedAll(g, writes[..|writes| - 1]), writes[|writes| - 1])
  }

  /** The writes of the first `n` channels. */
  function SwitchWrites(w: World, channels: seq<Channel>, n: nat): (r: seq<Write>)
    requires n <= |channels|
    ensures |r| == n
  {
    if n == 0 then [] else SwitchWrites(w, channels, n - 1) + [SwitchWrite(w, channels[n - 1], n - 1)]
  }

  function SwitchWrite(w: World, channel: Channel, i: nat): Write {
    var visit := VisitAt(w, i);
    Write(ConfigOf(w.table, channel.id), false, !visit.SwitchRefused? && (visit.SwitchRaised? ==> visit.reached))
  }

  lemma {:induction false} SwitchesAreVolatile(w: World, channels: seq<Channel>, n: nat)
    requires n <= |channels|
    ensures forall i :: 0 <= i < n ==> !SwitchWrites(w, channels, n)[i].persist
  {
    if n > 0 {
      SwitchesAreVolatile(w, channels, n - 1);
    }
  }

  /** All writes are volatile and the last one puts the snapshot back, so the stored settings survive the scan
      untouched, and the live ones are the snapshot again if the gateway takes that write. */
  lemma GatewayIsGivenBack(g: Gateway, writes: seq<Write>, restore: Write)
    requires forall i :: 0 <= i < |writes| ==> !writes[i].persist
    requires !restore.persist
    ensures AppliedAll(g, writes + [restore]).nvs == g.nvs
    ensures restore.taken ==> AppliedAll(g, writes + [restore]).live == restore.cfg
  {
    VolatileKeepsNvs(g, writes);
    assert (writes + [restore])[..|writes|] == writes;
  }

  lemma {:induction false} VolatileKeepsNvs(g: Gateway, writes: seq<Write>)
    requires forall i :: 0 <= i < |writes| ==> !writes[i].persist
    ensures AppliedAll(g, writes).nvs == g.nvs
  {
    if writes != [] {
      VolatileKeepsNvs(g, writes[..|writes| - 1]);
    }
  }

  /** A device record keeps the settings of the channel it was heard on. */
  type LastKnown = map<Mac, Option<RfConfig>>

  function Stamped(table: Configs, lastKnown: LastKnown, log: seq<Hearing>): (r: LastKnown)
    ensures r.Keys == lastKnown.Keys
  {
    if log == [] then lastKnown
    else
      var before, last := Stamped(table, lastKnown, log[..|log| - 1]), log[|log| - 1];
      if last.mac in before then before[last.mac := Some(ConfigOf(table, last.channel.id))] else before
  }

  /** `setdefault`: the channel each MAC of one kind was first heard on. */
  function FirstHeard(repo: set<Mac>, known: bool, log: seq<Hearing>): map<Mac, Channel> {
    if log == [] then map[]
    else
      var before, last := FirstHeard(repo, known, log[..|log| - 1]), log[|log| - 1];
      if (last.mac in repo) == known && last.mac !in before then before[last.mac := last.channel] else before
  }

  /** The repository and the two running lists. */
  datatype Tally = Tally(lastKnown: LastKnown, known: map<Mac, Channel>, unknown: map<Mac, Channel>)

  /** What handling one MAC makes of them. */
  function Noted(table: Configs, t: Tally, h: Hearing): Tally {
    if h.mac !in t.lastKnown then
      if h.mac in t.unknown then t else t.(unknown := t.unknown[h.mac := h.channel])
    else
      Tally(t.lastKnown[h.mac := Some(ConfigOf(table, h.channel.id))],
            if h.mac in t.known then t.known else t.known[h.mac := h.channel], t.unknown)
  }

  function Replay(table: Configs, start: LastKnown, log: seq<Hearing>): Tally {
    if log == [] then Tally(start, map[], map[])
    else Noted(table, Replay(table, start, log[..|log| - 1]), log[|log| - 1])
  }

  lemma {:induction false} ReplayParts(table: Configs, start: LastKnown, log: seq<Hearing>)
    ensures Replay(table, start, log) ==
            Tally(Stamped(table, start, log), FirstHeard(start.Keys, true, log), FirstHeard(start.Keys, false, log))
  {
    if log != [] {
      ReplayParts(table, start, log[..|log| - 1]);
    }
  }

  function MacsOf(log: seq<Hearing>): set<Mac> {
    if log == [] then {} else MacsOf(log[..|log| - 1]) + {log[|log| - 1].mac}
  }

  ghost predicate LastAt(log: seq<Hearing>, mac: Mac, i: nat) {
    i < |log| && log[i].mac == mac && forall j :: i < j < |log| ==> log[j].mac != mac
  }

  ghost predicate FirstAt(log: seq<Hearing>, mac: Mac, i: nat) {
    i < |log| && log[i].mac == mac && forall j :: 0 <= j < i ==> log[j].mac != mac
  }

  /** A known device ends with the settings of the last channel it answered on, or its old ones. */
  lemma {:induction false} StampIsTheLastChannel(table: Configs, lastKnown: LastKnown, log: seq<Hearing>, mac: Mac)
      returns (i: nat)
    requires mac in lastKnown
    ensures mac !in MacsOf(log) ==> Stamped(table, lastKnown, log)[mac] == lastKnown[mac]
    ensures mac in MacsOf(log) ==>
              LastAt(log, mac, i) && Stamped(table, lastKnown, log)[mac] == Some(ConfigOf(table, log[i].channel.id))
  {
    i := 0;
    if log != [] {
      i := StampIsTheLastChannel(table, lastKnown, log[..|log| - 1], mac);
      if log[|log| - 1].mac == mac {
        i := |log| - 1;
      }
    }
  }

  /** The overall lists name, for every MAC of their kind that was heard, the first channel it was heard on. */
  lemma {:induction false} ListedUnderFirstChannel(repo: set<Mac>, known: bool, log: seq<Hearing>, mac: Mac) returns (i: nat)
    ensures mac in FirstHeard(repo, known, log) <==> mac in MacsOf(log) && (mac in repo <==> known)
    ensures mac in MacsOf(log) ==> FirstAt(log, mac, i)
    ensures mac !in MacsOf(log) ==> forall j :: 0 <= j < |log| ==> log[j].mac != mac
    ensures mac in FirstHeard(repo, known, log) ==> FirstHeard(repo, known, log)[mac] == log[i].channel
  {
    i := 0;
    if log != [] {
      var init := log[..|log| - 1];
      i := ListedUnderFirstChannel(repo, known, init, mac);
      assert forall j :: 0 <= j < |init| ==> init[j] == log[j];
      if mac !in MacsOf(init) {
        i := |log| - 1;
      }
    }
  }

  /** Known and unknown MACs together are the distinct full-length MACs heard. */
  lemma KnownAndUnknownAddUp(repo: set<Mac>, log: seq<Hearing>)
    ensures |FirstHeard(repo, true, log)| + |FirstHeard(repo, false, log)| == |MacsOf(log)|
  {
    var known, unknown := FirstHeard(repo, true, log), FirstHeard(repo, false, log);
    forall mac
      ensures mac in known.Keys <==> mac in MacsOf(log) && mac in repo
      ensures mac in unknown.Keys <==> mac in MacsOf(log) && mac !in repo
    {
      var _ := ListedUnderFirstChannel(repo, true, log, mac);
      var _ := ListedUnderFirstChannel(repo, false, log, mac);
    }
    assert known.Keys !! unknown.Keys;
    assert MacsOf(log) == known.Keys + unknown.Keys;
    assert |known.Keys + unknown.Keys| == |known.Keys| + |unknown.Keys|;
  }

  lemma LogStep(w: World, channels: seq<Channel>, n: nat, h: Hearing)
    requires 0 < n <= |channels| && !Raises(VisitAt(w, n - 1))
    ensures h in Log(w, channels, n) <==>
            h in Log(w, channels, n - 1) || (|h.mac| == MAC_LENGTH && AnsweredOn(w, channels, n - 1, h))
  {
    var macs := Responders(VisitAt(w, n - 1));
    assert HandledIn(VisitAt(w, n - 1)) == macs;
    SortedListExact(Answering(VisitAt(w, n - 1)));
    HearingsExact(channels[n - 1], macs, h);
  }

  /** In a scan that does not raise, the log is what answered: every full-length MAC of every channel, nothing else. */
  lemma {:induction false} LogIsWhatAnswered(w: World, channels: seq<Channel>, n: nat, h: Hearing)
    requires n <= |channels| && Completes(w, n)
    ensures h in Log(w, channels, n) <==>
            |h.mac| == MAC_LENGTH && exists i :: 0 <= i < n && AnsweredOn(w, channels, i, h)
  {
    if n > 0 {
      LogIsWhatAnswered(w, channels, n - 1, h);
      LogStep(w, channels, n, h);
    }
  }

  ghost predicate AnsweredOn(w: World, channels: seq<Channel>, i: nat, h: Hearing)
    requires i < |channels|
  {
    channels[i] == h.channel && h.mac in Answering(VisitAt(w, i))
  }

  lemma {:induction false} HearingsExact(channel: Channel, macs: seq<Mac>, h: Hearing)
    ensures h in Hearings(channel, macs) <==> h.channel == channel && h.mac in macs && |h.mac| == MAC_LENGTH
  {
    if macs != [] {
      HearingsExact(channel, macs[..|macs| - 1], h);
      assert macs == macs[..|macs| - 1] + [macs[|macs| - 1]];
    }
  }

  // -- the scan itself -----------------------------------------------------------------------

  function RowsTotal(rows: seq<Row>): nat {
    if rows == [] then 0 else RowsTotal(rows[..|rows| - 1]) + |rows[|rows| - 1].responders|
  }

  /** The full-length MACs of one kind, in the order given. */
  function Keep(macs: seq<Mac>, repo: set<Mac>, known: bool): seq<Mac> {
    if macs == [] then []
    else
      var last := macs[|macs| - 1];
      Keep(macs[..|macs| - 1], repo, known) + if |last| == MAC_LENGTH && (last in repo <==> known) then [last] else []
  }

  /** A row lists each full-length responder once, under its kind. */
  lemma {:induction false} KeepExact(macs: seq<Mac>, repo: set<Mac>, known: bool)
    ensures forall m :: m in Keep(macs, repo, known) <==> m in macs && |m| == MAC_LENGTH && (m in repo <==> known)
    ensures NoDuplicates(macs) ==> NoDuplicates(Keep(macs, repo, known))
  {
    if macs != [] {
      KeepExact(macs[..|macs| - 1], repo, known);
      assert forall m :: m in macs <==> m in macs[..|macs| - 1] || m == macs[|macs| - 1];
    }
  }

  /** The row of a visit: everybody who answered, and those handled, by kind. */
  function RowOf(channel: Channel, visit: Visit, repo: set<Mac>): Row {
    Row(channel, Responders(visit), Keep(HandledIn(visit), repo, true), Keep(HandledIn(visit), repo, false), visit.SwitchRefused?)
  }

  /** The row of a visit that does not raise lists every full-length answer once, under its kind. */
  lemma RowExact(channel: Channel, visit: Visit, repo: set<Mac>)
    requires !Raises(visit)
    ensures var row := RowOf(channel, visit, repo);
            && (forall m :: m in row.responders <==> m in Answering(visit))
            && (forall m :: m in row.known <==> m in Answering(visit) && |m| == MAC_LENGTH && m in repo)
            && (forall m :: m in row.unknown <==> m in Answering(visit) && |m| == MAC_LENGTH && m !in repo)
            && NoDuplicates(row.known) && NoDuplicates(row.unknown)
  {
    assert HandledIn(visit) == Responders(visit);
    SortedListExact(Answering(visit));
    KeepExact(Responders(visit), repo, true);
    KeepExact(Responders(visit), repo, false);
  }

  /** The rows of the first `n` channels. */
  function RowsOf(w: World, channels: seq<Channel>, n: nat, repo: set<Mac>): (r: seq<Row>)
    requires n <= |channels|
    ensures |r| == n
  {
    if n == 0 then [] else RowsOf(w, channels, n - 1, repo) + [RowOf(channels[n - 1], VisitAt(w, n - 1), repo)]
  }

  /** What the first `n` visits report and write. */
  ghost predicate Written(w: World, channels: seq<Channel>, n: nat, repo: set<Mac>, rows: seq<Row>, writes: seq<Write>)
    requires n <= |channels|
  {
    rows == RowsOf(w, channels, n, repo) && writes == SwitchWrites(w, channels, n)
  }

  lemma OneMoreVisit(w: World, channels: seq<Channel>, n: nat, repo: set<Mac>, rows: seq<Row>, writes: seq<Write>, row: Row)
    requires n < |channels| && Written(w, channels, n, repo, rows, writes) && row == RowOf(channels[n], VisitAt(w, n), repo)
    ensures Written(w, channels, n + 1, repo, rows + [row], writes + [SwitchWrite(w, channels[n], n)])
  {
  }

  class ChannelScanService {
    /** The device repository: `last_known_rf_config` by address. */
    var lastKnown: LastKnown

    /** The running lists of one scan. */
    var known: map<Mac, Channel>
    var unknown: map<Mac, Channel>

    constructor (lastKnown: LastKnown)
      ensures this.lastKnown == lastKnown
    {
      this.lastKnown := lastKnown;
      known, unknown := map[], map[];
    }

    function Lists(): Tally
      reads this
    {
      Tally(lastKnown, known, unknown)
    }

    /** What is done about one full-length MAC. */
    method HandleMac(channel: Channel, table: Configs, mac: Mac)
      modifies this
      ensures Lists() == Noted(table, old(Lists()), Hearing(channel, mac)) && lastKnown.Keys == old(lastKnown).Keys
    {
      if mac !in lastKnown {
        if mac !in unknown {
          unknown := unknown[mac := channel];
        }
      } else {
        lastKnown := lastKnown[mac := Some(ConfigOf(table, channel.id))];
        if mac !in known {
          known := known[mac := channel];
        }
      }
    }

    /** The inner loop over responders of one channel. */
    method HandleResponders(channel: Channel, table: Configs, macs: seq<Mac>,
                            ghost start: LastKnown, ghost log: seq<Hearing>)
        returns (rowKnown: seq<Mac>, rowUnknown: seq<Mac>)
      requires Lists() == Replay(table, start, log) && lastKnown.Keys == start.Keys
      modifies this
      ensures Lists() == Replay(table, start, log + Hearings(channel, macs)) && lastKnown.Keys == start.Keys
      ensures rowKnown == Keep(macs, start.Keys, true) && rowUnknown == Keep(macs, start.Keys, false)
    {
      rowKnown, rowUnknown := [], [];
      ghost var heard := log;
      for i := 0 to |macs|
        invariant heard == log + Hearings(channel, macs[..i])
        invariant Lists() == Replay(table, start, heard) && lastKnown.Keys == start.Keys
        invariant rowKnown == Keep(macs[..i], start.Keys, true) && rowUnknown == Keep(macs[..i], start.Keys, false)
      {
        var mac := macs[i];
        assert macs[..i + 1][..i] == macs[..i];
        if |mac| == MAC_LENGTH {
          if mac in lastKnown {
            rowKnown := rowKnown + [mac];
          } else {
            rowUnknown := rowUnknown + [mac];
          }
          HandleMac(channel, table, mac);
          assert (heard + [Hearing(channel, mac)])[..|heard|] == heard;
          heard := heard + [Hearing(channel, mac)];
        }
      }
      assert macs[..|macs|] == macs;
    }

    /** One turn of the channel loop. */
    method VisitChannel(w: World, channels: seq<Channel>, i: nat, ghost start: LastKnown)
        returns (row: Row, raised: bool)
      requires i < |channels|
      requires Lists() == Replay(w.table, start, Log(w, channels, i)) && lastKnown.Keys == start.Keys
      modifies this
      ensures raised <==> Raises(VisitAt(w, i))
      ensures Lists() == Replay(w.table, start, Log(w, channels, i + 1)) && lastKnown.Keys == start.Keys
      ensures row == RowOf(channels[i], VisitAt(w, i), start.Keys)
    {
      var visit, channel := VisitAt(w, i), channels[i];
      ghost var log := Log(w, channels, i);
      if visit.SwitchRaised? || visit.SwitchRefused? {
        assert log + [] == log;
        return Row(channel, [], [], [], visit.SwitchRefused?), visit.SwitchRaised?;
      }
      var rowKnown, rowUnknown := HandleResponders(channel, w.table, HandledIn(visit), start, log);
      row := Row(channel, Responders(visit), rowKnown, rowUnknown, false);
      raised := visit.HeardThenRaised?;
    }

    /** The channel loop. */
    method VisitChannels(w: World, channels: seq<Channel>)
        returns (rows: seq<Row>, writes: seq<Write>, raised: bool)
      requires known == map[] && unknown == map[]
      modifies this
      ensures |rows| == Begun(w, |channels|) && writes == SwitchWrites(w, channels, |rows|)
      ensures Lists() == Replay(w.table, old(lastKnown), Log(w, channels, |rows|))
      ensures raised <==> !Completes(w, |channels|)
      ensures rows == RowsOf(w, channels, |rows|, old(lastKnown).Keys)
    {
      rows, writes, raised := [], [], false;
      ghost var start := lastKnown;
      var i := 0;
      while i < |channels| && !raised
        invariant i <= |channels| && Lists() == Replay(w.table, start, Log(w, channels, i)) && lastKnown.Keys == start.Keys
        invariant Written(w, channels, i, start.Keys, rows, writes)
        invariant if raised then i > 0 && Raises(VisitAt(w, i - 1)) && Completes(w, i - 1) else Completes(w, i)
      {
        var row, failed := VisitChannel(w, channels, i, start);
        OneMoreVisit(w, channels, i, start.Keys, rows, writes, row);
        rows, writes, raised := rows + [row], writes + [SwitchWrite(w, channels[i], i)], failed;
        i := i + 1;
      }
      BegunIs(w, |channels|, i, raised);
    }

    /** `scan_region`. */
    method ScanRegion(w: World) returns (outcome: Outcome, writes: seq<Write>)
      modifies this
      ensures outcome == NoTransport <==> !w.attached
      ensures outcome == NoChannels <==> w.attached && w.available == []
      ensures outcome == NoMatchingChannel <==> w.attached && w.available != [] && Channels(w) == []
      ensures outcome == NoSnapshot <==> w.attached && Channels(w) != [] && w.snapshot.None?
      ensures !outcome.Raised? && !outcome.Scanned? ==> writes == [] && lastKnown == old(lastKnown)
      // Once the switching begins, however it ends: volatile writes, one a channel, and the snapshot at the end.
      ensures outcome.Raised? || outcome.Scanned? ==> w.snapshot.Some? && Traces(w, writes, old(lastKnown), lastKnown)
      ensures outcome.Raised? ==> !Completes(w, |Channels(w)|)
      ensures outcome.Scanned? ==> Completes(w, |Channels(w)|)
      ensures outcome.Scanned? ==> ReportRight(outcome.report, w, old(lastKnown).Keys)
    {
      writes := [];
      if !w.attached {
        return NoTransport, writes;
      }
      if w.available == [] {
        return NoChannels, writes;
      }
      var channels := Channels(w);
      if channels == [] {
        return NoMatchingChannel, writes;
      }
      if w.snapshot.None? {
        return NoSnapshot, writes;
      }
      known, unknown := map[], map[];
      var rows, switches, raised := VisitChannels(w, channels);
      ReplayParts(w.table, old(lastKnown), Log(w, channels, |rows|));
      writes := switches + [Write(w.snapshot.value, false, w.restoreTaken)];
      if raised {
        return Raised, writes;
      }
      outcome := Scanned(Report(rows, known, unknown, |channels|, RowsTotal(rows), |known|, |unknown|));
    }
  }

  /** What a scan that began switching leaves behind on the gateway and in the device records. */
  ghost predicate Traces(w: World, writes: seq<Write>, before: LastKnown, after: LastKnown)
    requires w.snapshot.Some?
  {
    var n := Begun(w, |Channels(w)|);
    && writes == SwitchWrites(w, Channels(w), n) + [Write(w.snapshot.value, false, w.restoreTaken)]
    && after == Stamped(w.table, before, Log(w, Channels(w), n))
  }

  /** The scan leaves no trace on the gateway: nothing it writes is persistent, the last write is the snapshot. */
  lemma ScanLeavesNoTrace(w: World, writes: seq<Write>, before: LastKnown, after: LastKnown, g: Gateway)
    requires w.snapshot.Some? && Traces(w, writes, before, after)
    ensures (forall i :: 0 <= i < |writes| ==> !writes[i].persist) && writes[|writes| - 1].cfg == w.snapshot.value
    ensures AppliedAll(g, writes).nvs == g.nvs
    ensures w.restoreTaken ==> AppliedAll(g, writes).live == w.snapshot.value
  {
    var n := Begun(w, |Channels(w)|);
    SwitchesAreVolatile(w, Channels(w), n);
    GatewayIsGivenBack(g, SwitchWrites(w, Channels(w), n), Write(w.snapshot.value, false, w.restoreTaken));
  }

  ghost predicate ReportRight(report: Report, w: World, repo: set<Mac>) {
    var channels := Channels(w);
    var log := Log(w, channels, |channels|);
    && report.channels == |channels| && report.rows == RowsOf(w, channels, |channels|, repo)
    && report.allKnown == FirstHeard(repo, true, log) && report.allUnknown == FirstHeard(repo, false, log)
    && report.knownCount == |report.allKnown| && report.unknownCount == |report.allUnknown|
    && report.respondersTotal == RowsTotal(report.rows)
  }
}
