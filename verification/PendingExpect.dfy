/** The table of unicast requests awaiting a reply, shared by the TX and RX threads (racelink/controller.py,
    racelink/services/gateway_service.py): one slot a gateway, compare-and-clear on removal. */
module PendingExpect {
  import opened Common

  /** A gateway's `ident_mac`; None is the untagged single-gateway slot. */
  type Gateway = Option<string>

  // -- the slot operations, for any kind of entry --------------------------------------

  type Slots<E> = map<Gateway, E>

  function Stamped<E>(slots: Slots<E>, gateway: Gateway, entry: E): Slots<E> {
    slots[gateway := entry]
  }

  /** `read_pending_expect`: an untagged reader falls back on an entry that is alone in the table. */
  ghost function Looked<E>(slots: Slots<E>, gateway: Gateway): Option<E> {
    if gateway in slots then Some(slots[gateway])
    else if gateway.None? && |slots| == 1 then
      var only :| only in slots; Some(slots[only])
    else None
  }

  /** `clear_pending_expect_if`: the slot named by the entry, if it still holds that entry. */
  function ClearedIf<E(==)>(slots: Slots<E>, gateway: Gateway, entry: E): Slots<E> {
    if gateway in slots && slots[gateway] == entry then slots - {gateway} else slots
  }

  /** `clear_pending_expect`. */
  function Wiped<E>(slots: Slots<E>, gateway: Gateway): Slots<E> {
    if gateway.None? then map[] else slots - {gateway}
  }

  lemma OnlyKey<E>(slots: Slots<E>, a: Gateway, b: Gateway)
    requires |slots| == 1 && a in slots && b in slots
    ensures a == b
  {
    var others := slots.Keys - {a};
    assert |others| == 0;
    assert b !in others;
  }

  // -- the table itself -------------------------------------------------------------------

  type Last3 = seq<Byte>

  /** One stamped request; the source compares these by identity, as references do here. */
  class Expectation {
    const gateway: Gateway
    const sender: Last3
    const opcode: Byte

    constructor (gateway: Gateway, sender: Last3, opcode: Byte)
      ensures this.gateway == gateway && this.sender == sender && this.opcode == opcode
    {
      this.gateway, this.sender, this.opcode := gateway, sender, opcode;
    }
  }

  class PendingExpectations {
    var slots: Slots<Expectation>

    constructor ()
      ensures Valid() && slots == map[]
    {
      slots := map[];
    }

    /** Every entry sits in the slot of its own gateway. */
    ghost predicate Valid()
      reads this
    {
      forall g :: g in slots ==> slots[g].gateway == g
    }

    method SetPendingExpect(gateway: Gateway, sender: Last3, opcode: Byte) returns (entry: Expectation)
      requires Valid()
      modifies this
      ensures Valid() && fresh(entry) && entry.gateway == gateway && entry.sender == sender && entry.opcode == opcode
      ensures slots == Stamped(old(slots), gateway, entry)
    {
      entry := new Expectation(gateway, sender, opcode);
      slots := slots[gateway := entry];
    }

    method ReadPendingExpect(gateway: Gateway) returns (entry: Option<Expectation>)
      requires Valid()
      ensures entry == Looked(slots, gateway)
      ensures gateway.Some? && entry.Some? ==> entry.value.gateway == gateway
      ensures entry.Some? ==> entry.value.gateway in slots && slots[entry.value.gateway] == entry.value
    {
      if gateway in slots {
        return Some(slots[gateway]);
      }
      if gateway.None? && |slots| == 1 {
        var only :| only in slots;
        forall other | other in slots
          ensures other == only
        {
          OnlyKey(slots, other, only);
        }
        return Some(slots[only]);
      }
      return None;
    }

    method ClearPendingExpectIf(expected: Option<Expectation>) returns (cleared: bool)
      requires Valid()
      modifies this
      ensures Valid()
      ensures expected.None? ==> !cleared && slots == old(slots)
      ensures expected.Some? ==> slots == ClearedIf(old(slots), expected.value.gateway, expected.value)
      ensures cleared <==> expected.Some? && expected.value in old(slots).Values
    {
      if expected.None? {
        return false;
      }
      var gateway := expected.value.gateway;
      if gateway in slots && slots[gateway] == expected.value {
        slots := slots - {gateway};
        return true;
      }
      return false;
    }

    method ClearPendingExpect(gateway: Gateway)
      requires Valid()
      modifies this
      ensures Valid() && slots == Wiped(old(slots), gateway)
    {
      if gateway.None? {
        slots := map[];
      } else {
        slots := slots - {gateway};
      }
    }
  }

  // -- interleavings ------------------------------------------------------------------------

  /** How a request is answered (`response_policy`). */
  datatype Policy = NoReply | ReplyIsAck | ReplyIs(opcode: Byte)

  /** The rule table, by opcode, and the addresses of the known devices. */
  datatype Env = Env(rules: map<Byte, Policy>, known: set<Last3>)

  const BROADCAST: Last3 := [255, 255, 255]

  /** A stamped expectation of the trace; `stamp` is its identity. */
  datatype Entry = Entry(stamp: nat, gateway: Gateway, sender: Last3, opcode: Byte)

  /** An incoming frame: its gateway, sender, opcode and, for an ACK, the opcode it acknowledges. */
  datatype Frame = Frame(gateway: Gateway, sender: Last3, opcode: Byte, ackOf: Option<Byte>)

  /** What an RX thread is about: matching a frame or closing a receive window. `request` is the identity of the stamp
      whose window it was; the event does not carry it, so nothing can depend on it. */
  datatype Job = Match(frame: Frame) | CloseWindow(at: Gateway, request: nat)

  function JobGateway(job: Job): Gateway {
    if job.Match? then job.frame.gateway else job.at
  }

  const OPC_ACK: Byte := 0x7E

  /** `on_transport_tx` stamps unicast requests of known devices that are due an answer. */
  predicate Tracked(env: Env, receiver: Last3, opcode: Byte) {
    receiver != BROADCAST && opcode in env.rules && !env.rules[opcode].NoReply? && receiver in env.known
  }

  /** `pending_try_match`'s test of a frame against the entry it read. */
  predicate Answers(env: Env, frame: Frame, entry: Entry) {
    && frame.sender != [] && frame.sender == entry.sender
    && entry.opcode in env.rules
    && match env.rules[entry.opcode]
       case NoReply => false
       case ReplyIsAck => frame.opcode == OPC_ACK && frame.ackOf == Some(entry.opcode)
       case ReplyIs(opcode) => frame.opcode == opcode
  }

  /** Whether the job ends in a compare-and-clear of the entry it read. */
  predicate Consumes(env: Env, job: Job, entry: Entry) {
    job.CloseWindow? || Answers(env, job.frame, entry)
  }

  type Thread = nat

  datatype Held = Held(job: Job, entry: Option<Entry>)

  /** The table, what each RX thread holds between its read and its clear, and the next identity. */
  datatype State = State(slots: Slots<Entry>, held: map<Thread, Held>, next: nat)

  /** Each step is one section under the table's lock. */
  datatype Step =
    | Transmit(gateway: Gateway, receiver: Last3, opcode: Byte)
    | Begin(thread: Thread, job: Job)
    | Finish(thread: Thread)
    | Wipe(gateway: Gateway)

  ghost function Next(env: Env, s: State, step: Step): State {
    match step
    case Transmit(g, receiver, opcode) =>
      if !Tracked(env, receiver, opcode) then s
      else s.(slots := Stamped(s.slots, g, Entry(s.next, g, receiver, opcode)), next := s.next + 1)
    case Begin(t, job) => s.(held := s.held[t := Held(job, Looked(s.slots, JobGateway(job)))])
    case Finish(t) =>
      if t !in s.held then s
      else
        var h := s.held[t];
        s.(held := s.held - {t},
           slots := if h.entry.Some? && Consumes(env, h.job, h.entry.value)
                    then ClearedIf(s.slots, h.entry.value.gateway, h.entry.value)
                    else s.slots)
    case Wipe(g) => s.(slots := Wiped(s.slots, g))
  }

  ghost predicate IsRun(env: Env, states: seq<State>, steps: seq<Step>) {
    && |states| == |steps| + 1
    && states[0] == State(map[], map[], 0)
    && forall i :: 0 <= i < |steps| ==> states[i + 1] == Next(env, states[i], steps[i])
  }

  /** Entries sit under their own gateway and identities in use were drawn already. */
  ghost predicate Inv(s: State) {
    && (forall g :: g in s.slots ==> s.slots[g].gateway == g && s.slots[g].stamp < s.next)
    && (forall t :: t in s.held && s.held[t].entry.Some? ==>
          && s.held[t].entry.value.stamp < s.next
          && (JobGateway(s.held[t].job).Some? ==> s.held[t].entry.value.gateway == JobGateway(s.held[t].job)))
  }

  lemma LookedFound(slots: Slots<Entry>, gateway: Gateway)
    requires Looked(slots, gateway).Some?
    ensures exists g :: g in slots && Looked(slots, gateway) == Some(slots[g])
    ensures gateway.Some? ==> gateway in slots && Looked(slots, gateway) == Some(slots[gateway])
  {
    if gateway !in slots {
      var only :| only in slots && Looked(slots, gateway) == Some(slots[only]);
    }
  }

  lemma StepKeepsInv(env: Env, s: State, step: Step)
    requires Inv(s)
    ensures Inv(Next(env, s, step)) && s.next <= Next(env, s, step).next
  {
    if step.Begin? && Looked(s.slots, JobGateway(step.job)).Some? {
      LookedFound(s.slots, JobGateway(step.job));
    }
  }

  /** Every state of a run is orderly, and identities only grow. */
  lemma {:induction false} RunKeepsInv(env: Env, states: seq<State>, steps: seq<Step>, i: nat, n: nat)
    requires IsRun(env, states, steps) && i <= n <= |steps|
    ensures Inv(states[n]) && states[i].next <= states[n].next
    decreases n
  {
    if n > 0 {
      RunKeepsInv(env, states, steps, if i < n then i else n - 1, n - 1);
      StepKeepsInv(env, states[n - 1], steps[n - 1]);
    }
  }

  /** Thread `t` read `entry` at step `k` for `job` and holds it still in state `j`. */
  ghost predicate HoldsSince(env: Env, states: seq<State>, steps: seq<Step>, t: Thread, job: Job, entry: Entry, k: nat, j: nat)
    requires IsRun(env, states, steps)
  {
    && k < j <= |steps|
    && steps[k] == Begin(t, job) && Looked(states[k].slots, JobGateway(job)) == Some(entry)
    && forall m :: k < m < j ==> steps[m] != Finish(t) && !(steps[m].Begin? && steps[m].thread == t)
  }

  /** What a thread holds, it read, and has not let go of since. */
  lemma {:induction false} HeldWasRead(env: Env, states: seq<State>, steps: seq<Step>, j: nat, t: Thread) returns (k: nat)
    requires IsRun(env, states, steps) && j <= |steps|
    requires t in states[j].held && states[j].held[t].entry.Some?
    ensures HoldsSince(env, states, steps, t, states[j].held[t].job, states[j].held[t].entry.value, k, j)
  {
    assert j > 0;
    var step := steps[j - 1];
    if step.Begin? && step.thread == t {
      k := j - 1;
    } else {
      k := HeldWasRead(env, states, steps, j - 1, t);
    }
  }

  /** The entry that step `i` puts into the table. */
  function StampAt(states: seq<State>, steps: seq<Step>, i: nat): Entry
    requires i < |states| && i < |steps| && steps[i].Transmit?
  {
    Entry(states[i].next, steps[i].gateway, steps[i].receiver, steps[i].opcode)
  }

  ghost predicate Stamps(env: Env, steps: seq<Step>, i: nat) {
    i < |steps| && steps[i].Transmit? && Tracked(env, steps[i].receiver, steps[i].opcode)
  }

  ghost predicate InSlot(s: State, e: Entry) {
    e.gateway in s.slots && s.slots[e.gateway] == e
  }

  /** A later request on the same gateway took the slot. */
  ghost predicate Overwritten(env: Env, steps: seq<Step>, e: Entry, i: nat, n: nat) {
    exists j :: i < j < n && Stamps(env, steps, j) && steps[j].gateway == e.gateway
  }

  /** A thread that had read this very entry, after it was stamped, cleared it. */
  ghost predicate Consumed(env: Env, states: seq<State>, steps: seq<Step>, e: Entry, i: nat, n: nat)
    requires IsRun(env, states, steps) && n <= |steps|
  {
    exists k, j, t, job :: i < k < j < n && steps[j] == Finish(t) && Consumes(env, job, e)
                           && HoldsSince(env, states, steps, t, job, e, k, j)
  }

  ghost predicate WipedOut(steps: seq<Step>, e: Entry, i: nat, n: nat) {
    exists j :: i < j < n <= |steps| && steps[j].Wipe? && (steps[j].gateway.None? || steps[j].gateway == e.gateway)
  }

  /** Whatever the interleaving, a stamped expectation is in its slot until a newer request on its gateway takes
      the slot, a thread that read it after the stamp clears it, or the table is wiped. */
  lemma {:induction false} NoExpectationIsLost(env: Env, states: seq<State>, steps: seq<Step>, i: nat, n: nat)
    requires IsRun(env, states, steps) && Stamps(env, steps, i) && i < n <= |steps|
    ensures var e := StampAt(states, steps, i);
            || InSlot(states[n], e) || Overwritten(env, steps, e, i, n)
            || Consumed(env, states, steps, e, i, n) || WipedOut(steps, e, i, n)
    decreases n
  {
    var e := StampAt(states, steps, i);
    if n > i + 1 {
      NoExpectationIsLost(env, states, steps, i, n - 1);
      var s, step := states[n - 1], steps[n - 1];
      if InSlot(s, e) && !InSlot(states[n], e) && step.Finish? {
        var k := HeldWasRead(env, states, steps, n - 1, step.thread);
        ReadAfterStamp(env, states, steps, i, k, e);
        assert HoldsSince(env, states, steps, step.thread, s.held[step.thread].job, e, k, n - 1);
      }
    }
  }

  /** An entry cannot have been read before it was stamped. */
  lemma ReadAfterStamp(env: Env, states: seq<State>, steps: seq<Step>, i: nat, k: nat, e: Entry)
    requires IsRun(env, states, steps) && Stamps(env, steps, i) && k < |steps| && e == StampAt(states, steps, i)
    requires steps[k].Begin? && Looked(states[k].slots, JobGateway(steps[k].job)) == Some(e)
    ensures i < k
  {
    if k <= i {
      RunKeepsInv(env, states, steps, k, i);
      RunKeepsInv(env, states, steps, k, k);
      LookedFound(states[k].slots, JobGateway(steps[k].job));
    }
  }

  /** A clear whose entry has been replaced since it was read removes nothing. */
  lemma StaleClearRemovesNothing(env: Env, states: seq<State>, steps: seq<Step>, k: nat, i: nat, j: nat, t: Thread, job: Job, e: Entry)
    requires IsRun(env, states, steps) && k < i < j < |steps|
    requires HoldsSince(env, states, steps, t, job, e, k, j) && steps[j] == Finish(t)
    requires Stamps(env, steps, i) && steps[i].gateway == e.gateway
    ensures states[j + 1].slots == states[j].slots
  {
    KeepsHolding(env, states, steps, k, j, t, job, e);
    NewerStampStays(env, states, steps, k, i, j, e);
  }

  lemma {:induction false} KeepsHolding(env: Env, states: seq<State>, steps: seq<Step>, k: nat, j: nat, t: Thread, job: Job, e: Entry)
    requires IsRun(env, states, steps) && HoldsSince(env, states, steps, t, job, e, k, j)
    ensures t in states[j].held && states[j].held[t] == Held(job, Some(e))
    decreases j
  {
    if j > k + 1 {
      KeepsHolding(env, states, steps, k, j - 1, t, job, e);
    }
  }

  /** After a newer stamp the slot never holds the older entry again. */
  lemma {:induction false} NewerStampStays(env: Env, states: seq<State>, steps: seq<Step>, k: nat, i: nat, j: nat, e: Entry)
    requires IsRun(env, states, steps) && k < i < j <= |steps|
    requires steps[k].Begin? && Looked(states[k].slots, JobGateway(steps[k].job)) == Some(e)
    requires Stamps(env, steps, i) && steps[i].gateway == e.gateway
    ensures !InSlot(states[j], e)
    decreases j
  {
    RunKeepsInv(env, states, steps, k, i);
    RunKeepsInv(env, states, steps, k, k);
    RunKeepsInv(env, states, steps, i, j - 1);
    LookedFound(states[k].slots, JobGateway(steps[k].job));
    if j > i + 1 {
      NewerStampStays(env, states, steps, k, i, j - 1, e);
    }
  }

  /** A thread working for a named gateway leaves every other gateway's slot alone, and all slots but by its clear. */
  lemma TaggedEventKeepsToItsGateway(env: Env, states: seq<State>, steps: seq<Step>, j: nat, t: Thread, other: Gateway)
    requires IsRun(env, states, steps) && j < |steps| && steps[j] == Finish(t)
    requires t in states[j].held && JobGateway(states[j].held[t].job).Some? && JobGateway(states[j].held[t].job) != other
    ensures other in states[j + 1].slots <==> other in states[j].slots
    ensures other in states[j].slots ==> states[j + 1].slots[other] == states[j].slots[other]
  {
    RunKeepsInv(env, states, steps, j, j);
  }

  /** An untagged event takes another gateway's entry exactly when that entry was alone as it was read, answers the
      event and is still in place. */
  lemma UntaggedEventTakes(env: Env, s: State, job: Job, g: Gateway)
    requires Inv(s) && JobGateway(job).None? && g.Some? && g in s.slots
    ensures var after := Next(env, Next(env, s, Begin(0, job)), Finish(0));
            g !in after.slots <==> s.slots.Keys == {g} && Consumes(env, job, s.slots[g])
  {
    var mid := Next(env, s, Begin(0, job));
    if |s.slots| == 1 {
      assert s.slots.Keys == {g} by {
        forall other | other in s.slots
          ensures other == g
        {
          OnlyKey(s.slots, other, g);
        }
      }
      assert Looked(s.slots, None) == Some(s.slots[g]);
    } else {
      assert s.slots.Keys != {g};
    }
  }

  // -- windows that close late -----------------------------------------------------------------

  lemma {:induction false} StaysIn(env: Env, states: seq<State>, steps: seq<Step>, i: nat, k: nat, j: nat)
    requires IsRun(env, states, steps) && Stamps(env, steps, i) && i < k <= j <= |steps|
    requires InSlot(states[j], StampAt(states, steps, i))
    ensures InSlot(states[k], StampAt(states, steps, i))
    decreases j
  {
    if k < j {
      RunKeepsInv(env, states, steps, i + 1, j - 1);
      StaysIn(env, states, steps, i, k, j - 1);
    }
  }

  /** A window's close is one read of the table at step `k` and one clear at step `j`. */
  ghost predicate Closes(env: Env, steps: seq<Step>, t: Thread, at: Gateway, request: nat, k: nat, j: nat) {
    && k < j < |steps| && steps[k] == Begin(t, CloseWindow(at, request)) && steps[j] == Finish(t)
    && forall m :: k < m < j ==> steps[m] != Finish(t) && !(steps[m].Begin? && steps[m].thread == t)
  }

  /** An entry still in place when a window on its gateway is cleared away goes with it if and only if it was stamped
      before the close read the table, be the window its own or that of an older request. */
  lemma WindowTakesIff(env: Env, states: seq<State>, steps: seq<Step>, i: nat, k: nat, j: nat, t: Thread, request: nat)
    requires IsRun(env, states, steps) && Stamps(env, steps, i) && i < j && i != k && steps[i].gateway.Some?
    requires Closes(env, steps, t, steps[i].gateway, request, k, j) && InSlot(states[j], StampAt(states, steps, i))
    ensures !InSlot(states[j + 1], StampAt(states, steps, i)) <==> i < k
  {
    var e, job := StampAt(states, steps, i), CloseWindow(steps[i].gateway, request);
    if i < k {
      StaysIn(env, states, steps, i, k, j);
      assert HoldsSince(env, states, steps, t, job, e, k, j);
      KeepsHolding(env, states, steps, k, j, t, job, e);
    } else {
      HoldsSomeOther(env, states, steps, i, k, j, t, job);
    }
  }

  lemma {:induction false} HeldFromBegin(env: Env, states: seq<State>, steps: seq<Step>, k: nat, j: nat, t: Thread, job: Job)
    requires IsRun(env, states, steps) && k < j <= |steps| && steps[k] == Begin(t, job)
    requires forall m :: k < m < j ==> steps[m] != Finish(t) && !(steps[m].Begin? && steps[m].thread == t)
    ensures t in states[j].held && states[j].held[t] == Held(job, Looked(states[k].slots, JobGateway(job)))
    decreases j
  {
    if j > k + 1 {
      HeldFromBegin(env, states, steps, k, j - 1, t, job);
    }
  }

  /** What was read before the stamp is not the stamped entry. */
  lemma HoldsSomeOther(env: Env, states: seq<State>, steps: seq<Step>, i: nat, k: nat, j: nat, t: Thread, job: Job)
    requires IsRun(env, states, steps) && Stamps(env, steps, i) && k < i < j < |steps| && steps[k] == Begin(t, job)
    requires forall m :: k < m < j ==> steps[m] != Finish(t) && !(steps[m].Begin? && steps[m].thread == t)
    ensures t in states[j].held && states[j].held[t].entry != Some(StampAt(states, steps, i))
  {
    HeldFromBegin(env, states, steps, k, j, t, job);
    if states[j].held[t].entry == Some(StampAt(states, steps, i)) {
      ReadAfterStamp(env, states, steps, i, k, StampAt(states, steps, i));
    }
  }

  /** It happens: a request, a newer one on the same gateway, and the window of the first closes late. */
  lemma LateWindowTakesNewer(env: Env, g: string, receiver: Last3, opcode: Byte)
    requires Tracked(env, receiver, opcode)
    ensures var first := Next(env, State(map[], map[], 0), Transmit(Some(g), receiver, opcode));
            var second := Next(env, first, Transmit(Some(g), receiver, opcode));
            var closed := Next(env, Next(env, second, Begin(0, CloseWindow(Some(g), 0))), Finish(0));
            && Some(g) in second.slots && second.slots[Some(g)].stamp == 1
            && Some(g) !in closed.slots
  {
  }
}
