/** Restoring a device's group when it identifies itself as unconfigured, at most once a cooldown for each gateway
    and MAC, on a cache that forgets old entries (racelink/services/gateway_service.py:2082-2144, 2318-2346). */
module AutoRestore {
  import opened Common

  type Key = (Option<string>, string)

  /** Seconds since the epoch. */
  type Time = real

  type Recent = map<Key, Time>

  function Expiry(cooldown: real): real {
    if cooldown * 4.0 < 5.0 then 5.0 else cooldown * 4.0
  }

  predicate Stale(ts: Time, now: Time, cooldown: real) {
    now - ts >= Expiry(cooldown)
  }

  /** The cache without the entries that have outlived four cooldowns. */
  function Pruned(recent: Recent, now: Time, cooldown: real): Recent {
    map key | key in recent && !Stale(recent[key], now, cooldown) :: recent[key]
  }

  function LastMark(recent: Recent, key: Key): Time {
    if key in recent then recent[key] else 0.0
  }

  predicate WithinCooldown(recent: Recent, key: Key, now: Time, cooldown: real) {
    now - LastMark(recent, key) < cooldown
  }

  // -- the pruned cache against the complete history -----------------------------------

  datatype Event = Prune(at: Time) | Mark(key: Key, at: Time)

  function Apply(recent: Recent, event: Event, cooldown: real): Recent {
    match event
    case Prune(at) => Pruned(recent, at, cooldown)
    case Mark(key, at) => recent[key := at]
  }

  /** What the cache holds after the events. */
  function Cache(events: seq<Event>, cooldown: real): Recent {
    if events == [] then map[] else Apply(Cache(events[..|events| - 1], cooldown), events[|events| - 1], cooldown)
  }

  lemma CacheAppend(events: seq<Event>, last: Event, cooldown: real)
    ensures Cache(events + [last], cooldown) == Apply(Cache(events, cooldown), last, cooldown)
  {
    assert (events + [last])[..|events|] == events;
  }

  /** What a cache that never forgets would hold. */
  function History(events: seq<Event>): Recent {
    if events == [] then map[]
    else
      var before, last := History(events[..|events| - 1]), events[|events| - 1];
      if last.Mark? then before[last.key := last.at] else before
  }

  /** The clock starts at zero, never runs backwards and has not passed `now`. */
  ghost predicate Clocked(events: seq<Event>, now: Time) {
    && 0.0 <= now
    && (forall i :: 0 <= i < |events| ==> 0.0 <= events[i].at <= now)
    && (forall i, j :: 0 <= i < j < |events| ==> events[i].at <= events[j].at)
  }

  /** The cache lacks only what was stale by now, and has the rest right. */
  lemma {:induction false} CacheAgainstHistory(events: seq<Event>, cooldown: real, now: Time, key: Key)
    requires Clocked(events, now)
    ensures key in Cache(events, cooldown) ==> key in History(events) && Cache(events, cooldown)[key] == History(events)[key]
    ensures key in History(events) ==> 0.0 <= History(events)[key] <= now
    ensures key in History(events) && key !in Cache(events, cooldown) ==> Stale(History(events)[key], now, cooldown)
  {
    if events != [] {
      CacheAgainstHistory(events[..|events| - 1], cooldown, events[|events| - 1].at, key);
    }
  }

  /** Forgetting is invisible: on a clock that never runs backwards the pruned cache suppresses exactly when the
      complete history of marks would. */
  lemma PruningIsInvisible(events: seq<Event>, cooldown: real, now: Time, key: Key)
    requires Clocked(events, now)
    ensures WithinCooldown(Pruned(Cache(events, cooldown), now, cooldown), key, now, cooldown)
            <==> WithinCooldown(History(events), key, now, cooldown)
  {
    CacheAgainstHistory(events, cooldown, now, key);
  }

  /** Past the first cooldown, a history suppresses exactly when some mark is less than a cooldown old. */
  lemma {:induction false} SuppressesIffRecentMark(events: seq<Event>, cooldown: real, now: Time, key: Key)
    requires Clocked(events, now) && cooldown <= now
    ensures WithinCooldown(History(events), key, now, cooldown)
            <==> exists i :: 0 <= i < |events| && events[i] == Mark(key, events[i].at) && now - events[i].at < cooldown
  {
    if events != [] {
      var before, last := events[..|events| - 1], events[|events| - 1];
      SuppressesIffRecentMark(before, cooldown, now, key);
      assert forall i :: 0 <= i < |before| ==> before[i] == events[i];
      if last.Mark? && last.key == key {
        assert events[|before|] == last;
      } else if WithinCooldown(History(before), key, now, cooldown) {
        var i :| 0 <= i < |before| && before[i] == Mark(key, before[i].at) && now - before[i].at < cooldown;
        assert events[i] == before[i];
      }
    }
  }

  // -- handling IDENTIFY replies --------------------------------------------------------

  /** An IDENTIFY reply as the restore looks at it. */
  datatype Identify = Identify(
    gateway: Option<string>, mac: string, known: bool, reportedGroup: int, storedGroup: int, groupCount: nat, discovering: bool)

  function StoredGroup(reply: Identify): Byte {
    if U8(reply.storedGroup) >= reply.groupCount then 0 else U8(reply.storedGroup)
  }

  /** A known device that reports no group, outside discovery. */
  predicate LosesGroup(reply: Identify) {
    reply.known && U8(reply.reportedGroup) == 0 && !reply.discovering
  }

  /** And that had a valid one. */
  predicate NeedsRestore(reply: Identify) {
    LosesGroup(reply) && StoredGroup(reply) != 0 && reply.mac != ""
  }

  class RestoreGuard {
    const cooldown: real
    var recent: Recent

    /** Every prune and mark so far, and the latest time read. */
    ghost var events: seq<Event>
    ghost var clock: Time

    constructor (cooldown: real)
      ensures Valid() && this.cooldown == cooldown && events == [] && clock == 0.0
    {
      this.cooldown, recent := cooldown, map[];
      events, clock := [], 0.0;
    }

    ghost predicate Valid()
      reads this
    {
      recent == Cache(events, cooldown) && Clocked(events, clock)
    }

    /** `_prune_auto_reassign_cache_locked`. */
    method Prune(now: Time)
      requires Valid() && clock <= now
      modifies this
      ensures Valid() && clock == now && events == old(events) + [Event.Prune(now)]
      ensures recent == Pruned(old(recent), now, cooldown)
    {
      var stale := set key | key in recent && Stale(recent[key], now, cooldown);
      var rest := stale;
      while rest != {}
        invariant rest <= stale && recent == old(recent) - (stale - rest)
        invariant events == old(events) && clock == old(clock)
        decreases rest
      {
        var key :| key in rest;
        recent := recent - {key};
        rest := rest - {key};
      }
      assert recent == Pruned(old(recent), now, cooldown);
      CacheAppend(events, Event.Prune(now), cooldown);
      events, clock := events + [Event.Prune(now)], now;
    }

    /** `_auto_reassign_suppressed`: whether the whole history holds a restore less than a cooldown old. */
    method Suppressed(key: Key, now: Time) returns (suppressed: bool)
      requires Valid() && clock <= now
      modifies this
      ensures Valid() && clock == now && events == old(events) + [Event.Prune(now)]
      ensures suppressed <==> WithinCooldown(History(old(events)), key, now, cooldown)
      ensures suppressed <==> WithinCooldown(History(events), key, now, cooldown)
    {
      PruningIsInvisible(events, cooldown, now, key);
      Prune(now);
      assert events[..|events| - 1] == old(events);
      suppressed := now - LastMark(recent, key) < cooldown;
    }

    /** `_mark_auto_reassign`. */
    method MarkRestore(key: Key, now: Time)
      requires Valid() && clock <= now
      modifies this
      ensures Valid() && clock == now && events == old(events) + [Event.Mark(key, now)]
    {
      CacheAppend(events, Event.Mark(key, now), cooldown);
      recent := recent[key := now];
      events, clock := events + [Event.Mark(key, now)], now;
    }

    /** `_restore_known_device_group`; `asked` and `marked` are its two looks at the clock, `groupId`
        the device's stored group afterwards. */
    method RestoreKnownDeviceGroup(reply: Identify, asked: Time, marked: Time) returns (restored: bool, groupId: int)
      requires Valid() && clock <= asked <= marked && Spaced(events, cooldown)
      modifies this
      ensures Valid() && clock <= marked && Spaced(events, cooldown)
      ensures groupId == if LosesGroup(reply) && U8(reply.storedGroup) >= reply.groupCount then 0 else reply.storedGroup
      ensures restored <==> NeedsRestore(reply) && !WithinCooldown(History(old(events)), (reply.gateway, reply.mac), asked, cooldown)
      ensures events == old(events) + (if !NeedsRestore(reply) then [] else [Event.Prune(asked)])
                        + (if restored then [Event.Mark((reply.gateway, reply.mac), marked)] else [])
    {
      groupId := reply.storedGroup;
      if !reply.known || U8(reply.reportedGroup) != 0 || reply.discovering {
        return false, groupId;
      }
      var stored := U8(reply.storedGroup);
      if stored >= reply.groupCount {
        stored := 0;
        groupId := 0;
      }
      if stored == 0 || reply.mac == "" {
        return false, groupId;
      }
      var key := (reply.gateway, reply.mac);
      var suppressed := Suppressed(key, asked);
      if suppressed {
        return false, groupId;
      }
      SpacedAfterMark(events, cooldown, key, asked, marked);
      MarkRestore(key, marked);
      return true, groupId;
    }
  }

  /** Two restores of one key are at least a cooldown apart. */
  ghost predicate Spaced(events: seq<Event>, cooldown: real) {
    forall i, j :: 0 <= i < j < |events| && events[i].Mark? && events[j].Mark? && events[i].key == events[j].key ==>
      events[j].at - events[i].at >= cooldown
  }

  /** The newest mark of a key is the one the history remembers. */
  lemma {:induction false} HistoryIsNewest(events: seq<Event>, now: Time, i: nat)
    requires Clocked(events, now) && i < |events| && events[i].Mark?
    ensures events[i].key in History(events) && events[i].at <= History(events)[events[i].key]
  {
    var before, last := events[..|events| - 1], events[|events| - 1];
    if i < |before| {
      HistoryIsNewest(before, now, i);
      if last.Mark? && last.key == events[i].key {
        assert events[i].at <= events[|before|].at;
      }
    }
  }

  lemma SpacedAfterMark(events: seq<Event>, cooldown: real, key: Key, asked: Time, marked: Time)
    requires Spaced(events, cooldown) && Clocked(events, asked) && asked <= marked
    requires !WithinCooldown(History(events), key, asked, cooldown)
    ensures Spaced(events + [Mark(key, marked)], cooldown)
  {
    forall i | 0 <= i < |events| && events[i].Mark? && events[i].key == key
      ensures marked - events[i].at >= cooldown
    {
      HistoryIsNewest(events, asked, i);
    }
  }

  // -- several handlers at once ----------------------------------------------------------

  type Thread = nat

  /** A handler's two sections under the cache's lock: it asks whether the key is in cooldown, and marks it. */
  datatype Move = Check(thread: Thread, key: Key, at: Time) | Commit(thread: Thread, key: Key, at: Time)

  function EventsOf(moves: seq<Move>): (r: seq<Event>)
    ensures |r| == |moves|
    ensures forall i :: 0 <= i < |r| ==> r[i] == if moves[i].Check? then Prune(moves[i].at) else Mark(moves[i].key, moves[i].at)
  {
    seq(|moves|, i requires 0 <= i < |moves| => if moves[i].Check? then Prune(moves[i].at) else Mark(moves[i].key, moves[i].at))
  }

  /** The check at `c` is the one the mark at `j` rests on: the same handler's, its last move before, and it found the
      key free in the cache as it was. */
  ghost predicate RestsOn(moves: seq<Move>, cooldown: real, c: nat, j: nat) {
    && c < j < |moves| && moves[j].Commit? && moves[c] == Check(moves[j].thread, moves[j].key, moves[c].at)
    && (forall m :: c < m < j ==> moves[m].thread != moves[j].thread)
    && !WithinCooldown(Pruned(Cache(EventsOf(moves)[..c], cooldown), moves[c].at, cooldown), moves[j].key, moves[c].at, cooldown)
  }

  /** No handler marks without having checked. */
  ghost predicate Disciplined(moves: seq<Move>, cooldown: real) {
    forall j: nat :: j < |moves| && moves[j].Commit? ==> exists c :: RestsOn(moves, cooldown, c, j)
  }

  /** Another handler's mark of the key at `i`, between a check and the mark resting on it. */
  ghost predicate Intervenes(moves: seq<Move>, cooldown: real, c: nat, i: nat, j: nat) {
    RestsOn(moves, cooldown, c, j) && c < i < j && moves[i].Commit? && moves[i].key == moves[j].key
  }

  /** What was marked before a check is a cooldown older than the mark that rests on the check. */
  lemma MarkedBeforeCheck(moves: seq<Move>, cooldown: real, now: Time, i: nat, c: nat, j: nat)
    requires Clocked(EventsOf(moves), now) && RestsOn(moves, cooldown, c, j)
    requires i < c && moves[i].Commit? && moves[i].key == moves[j].key
    ensures moves[j].at - moves[i].at >= cooldown
  {
    var events := EventsOf(moves);
    var before, asked := events[..c], moves[c].at;
    assert Clocked(before, asked) by {
      assert forall k :: 0 <= k < c ==> before[k] == events[k] && events[k].at <= events[c].at;
    }
    PruningIsInvisible(before, cooldown, asked, moves[j].key);
    HistoryIsNewest(before, asked, i);
    assert events[c].at <= events[j].at;
  }

  /** Every mark that falls between a check and the mark resting on it is itself a cooldown before the latter. */
  ghost predicate InterveningApart(moves: seq<Move>, cooldown: real) {
    forall c: nat, i: nat, j: nat :: Intervenes(moves, cooldown, c, i, j) ==> moves[j].at - moves[i].at >= cooldown
  }

  lemma ApartByItsCheck(moves: seq<Move>, cooldown: real, now: Time, c: nat, i: nat, j: nat)
    requires Clocked(EventsOf(moves), now) && RestsOn(moves, cooldown, c, j)
    requires i < j && moves[i].Commit? && moves[i].key == moves[j].key
    requires Intervenes(moves, cooldown, c, i, j) ==> moves[j].at - moves[i].at >= cooldown
    ensures moves[j].at - moves[i].at >= cooldown
  {
    if i < c {
      MarkedBeforeCheck(moves, cooldown, now, i, c, j);
    }
  }

  lemma CheckOf(moves: seq<Move>, cooldown: real, j: nat) returns (c: nat)
    requires Disciplined(moves, cooldown) && j < |moves| && moves[j].Commit?
    ensures RestsOn(moves, cooldown, c, j)
  {
    c :| RestsOn(moves, cooldown, c, j);
  }

  lemma CommitsApart(moves: seq<Move>, cooldown: real, now: Time, i: nat, j: nat)
    requires Disciplined(moves, cooldown) && Clocked(EventsOf(moves), now) && InterveningApart(moves, cooldown)
    requires i < j < |moves| && moves[i].Commit? && moves[j].Commit? && moves[i].key == moves[j].key
    ensures moves[j].at - moves[i].at >= cooldown
  {
    var c := CheckOf(moves, cooldown, j);
    ApartByItsCheck(moves, cooldown, now, c, i, j);
  }

  /** Under every interleaving the restores of a key stay a cooldown apart if and only if every mark of the key that
      falls between a handler's check and its mark is itself a cooldown before that mark. */
  lemma SpacedUnlessIntervening(moves: seq<Move>, cooldown: real, now: Time)
    requires Disciplined(moves, cooldown) && Clocked(EventsOf(moves), now)
    ensures Spaced(EventsOf(moves), cooldown) <==> InterveningApart(moves, cooldown)
  {
    var events := EventsOf(moves);
    if Spaced(events, cooldown) {
      forall c: nat, i: nat, j: nat | Intervenes(moves, cooldown, c, i, j)
        ensures moves[j].at - moves[i].at >= cooldown
      {
        assert events[i] == Mark(moves[i].key, moves[i].at) && events[j] == Mark(moves[j].key, moves[j].at);
      }
    }
    if InterveningApart(moves, cooldown) {
      forall i, j | 0 <= i < j < |events| && events[i].Mark? && events[j].Mark? && events[i].key == events[j].key
        ensures events[j].at - events[i].at >= cooldown
      {
        CommitsApart(moves, cooldown, now, i, j);
      }
    }
  }

  /** Handlers that mark within a cooldown of their check keep the spacing exactly when nobody else marks the key in
      between. */
  lemma PromptHandlersSpaced(moves: seq<Move>, cooldown: real, now: Time)
    requires Disciplined(moves, cooldown) && Clocked(EventsOf(moves), now)
    requires forall c: nat, j: nat :: RestsOn(moves, cooldown, c, j) ==> moves[j].at - moves[c].at < cooldown
    ensures Spaced(EventsOf(moves), cooldown) <==> forall c: nat, i: nat, j: nat :: !Intervenes(moves, cooldown, c, i, j)
  {
    SpacedUnlessIntervening(moves, cooldown, now);
    var events := EventsOf(moves);
    forall c: nat, i: nat, j: nat | Intervenes(moves, cooldown, c, i, j)
      ensures moves[j].at - moves[i].at < cooldown
    {
      assert events[c].at <= events[i].at;
    }
  }

  /** A key that is one thread's business keeps its spacing, whatever the others do. */
  lemma OneThreadKeepsSpacing(moves: seq<Move>, cooldown: real, now: Time, owner: Key -> Thread)
    requires Disciplined(moves, cooldown) && Clocked(EventsOf(moves), now)
    requires forall i :: 0 <= i < |moves| && moves[i].Commit? ==> moves[i].thread == owner(moves[i].key)
    ensures Spaced(EventsOf(moves), cooldown)
  {
    SpacedUnlessIntervening(moves, cooldown, now);
  }

  /** Two threads handling one key: both check before either marks, and both restore at once. */
  lemma RacingHandlersBothRestore(key: Key, now: Time, cooldown: real)
    requires 0.0 < cooldown <= now
    ensures var moves := [Check(0, key, now), Check(1, key, now), Commit(0, key, now), Commit(1, key, now)];
            Disciplined(moves, cooldown) && Clocked(EventsOf(moves), now) && !Spaced(EventsOf(moves), cooldown)
  {
    var moves := [Check(0, key, now), Check(1, key, now), Commit(0, key, now), Commit(1, key, now)];
    var events := EventsOf(moves);
    assert events[..0] == [] && events[..1] == [Prune(now)] && [Prune(now)][..0] == [];
    assert RestsOn(moves, cooldown, 0, 2) && RestsOn(moves, cooldown, 1, 3);
    assert events[2] == Mark(key, now) && events[3] == Mark(key, now);
  }
}
