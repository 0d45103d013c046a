/** Sending one stream payload until every device waited for has acknowledged it, or the attempts run out
    (racelink/services/gateway_service.py:734-891). */
module StreamRetry {
  import opened Common

  type Last3 = seq<Byte>

  const BROADCAST: Last3 := [255, 255, 255]

  const MAX_STREAM_PAYLOAD := 128

  /** A device as the stream sees it; None for one without an address. */
  datatype Member = Member(last3: Option<Last3>, online: bool)

  datatype Audience = Group(members: seq<Member>) | Single(device: Member)

  datatype StreamError = NoTransport | PayloadTooLarge

  /** One send: the senders its matcher let through and the replies that came. */
  datatype Attempt = Attempt(waited: set<Last3>, replies: seq<Option<Last3>>)

  /** `hear(n, waited)`: the replies attempt `n` collects; a reply whose sender is not a byte string is None. */
  type Radio = (nat, set<Last3>) -> seq<Option<Last3>>

  function Senders(replies: seq<Option<Last3>>): set<Last3> {
    set r | r in replies && r.Some? :: r.value
  }

  /** The matcher's contract: replies come from the senders in its filter. */
  ghost predicate Filtered(hear: Radio) {
    forall n: nat, waited: set<Last3> :: Senders(hear(n, waited)) <= waited
  }

  function Online(members: seq<Member>): (r: seq<Member>)
    ensures forall m :: m in r <==> m in members && m.online
  {
    if members == [] then []
    else if members[0].online then [members[0]] + Online(members[1..])
    else Online(members[1..])
  }

  /** The online members, or everybody when nobody is known to be online. */
  function Pool(audience: Audience): seq<Member> {
    match audience
    case Single(device) => [device]
    case Group(members) => if Online(members) != [] then Online(members) else members
  }

  function Targets(audience: Audience): set<Last3> {
    (set m | m in Pool(audience) && m.last3.Some? :: m.last3.value) - {BROADCAST}
  }

  /** Who a stream waits for: addressed devices, and only offline ones when no member is online. */
  lemma TargetsExact(members: seq<Member>, t: Last3)
    ensures t in Targets(Group(members)) <==>
            && t != BROADCAST
            && exists m :: m in members && m.last3 == Some(t) && (m.online || forall o :: o in members ==> !o.online)
  {
    if Online(members) == [] {
      forall o | o in members
        ensures !o.online
      {
        assert o !in Online(members);
      }
    } else {
      assert Online(members)[0] in Online(members);
    }
  }

  /** Everybody heard in these attempts. */
  function Heard(log: seq<Attempt>): set<Last3> {
    if log == [] then {} else Heard(log[..|log| - 1]) + Senders(log[|log| - 1].replies)
  }

  lemma {:induction false} HeardExact(log: seq<Attempt>, t: Last3)
    ensures t in Heard(log) <==> exists i :: 0 <= i < |log| && t in Senders(log[i].replies)
  {
    if log != [] {
      HeardExact(log[..|log| - 1], t);
    }
  }

  /** Each send goes out for exactly the targets not heard yet, of which there are some, and collects what the
      radio gives for them. */
  ghost predicate Orderly(log: seq<Attempt>, targets: set<Last3>, hear: Radio) {
    forall i :: 0 <= i < |log| ==>
      && log[i].waited == targets - Heard(log[..i]) && log[i].waited != {}
      && log[i].replies == hear(i, log[i].waited)
  }

  lemma OrderlyAppend(log: seq<Attempt>, targets: set<Last3>, hear: Radio, waited: set<Last3>)
    requires Orderly(log, targets, hear) && waited == targets - Heard(log) && waited != {}
    ensures Orderly(log + [Attempt(waited, hear(|log|, waited))], targets, hear)
    ensures Heard(log + [Attempt(waited, hear(|log|, waited))]) == Heard(log) + Senders(hear(|log|, waited))
  {
    var longer := log + [Attempt(waited, hear(|log|, waited))];
    assert longer[..|log|] == log;
    forall i | 0 <= i < |longer|
      ensures longer[i].waited == targets - Heard(longer[..i]) && longer[i].waited != {}
      ensures longer[i].replies == hear(i, longer[i].waited)
    {
      if i < |log| {
        assert longer[i] == log[i];
        assert longer[..i] == log[..i];
      }
    }
  }

  function AttemptLimit(retries: int): nat {
    (if retries < 0 then 0 else retries) + 1
  }

  datatype Report = Report(expected: nat, acked: nat)

  lemma SubsetCount(a: set<Last3>, b: set<Last3>)
    requires a <= b
    ensures |a| <= |b| && (|a| == |b| <==> a == b)
  {
    assert b == a + (b - a);
    assert |b| == |a| + |b - a|;
  }

  /** `send_stream`; `hasIdent` is whether the transport knows its gateway yet. */
  method SendStream(payload: Bytes, audience: Audience, retries: int, attached: bool, hasIdent: bool, hear: Radio)
      returns (result: Result<Report, StreamError>, log: seq<Attempt>)
    requires Filtered(hear)
    ensures !attached ==> result == Failure(NoTransport) && log == []
    ensures attached && |payload| > MAX_STREAM_PAYLOAD ==> result == Failure(PayloadTooLarge) && log == []
    ensures attached && |payload| <= MAX_STREAM_PAYLOAD ==> result.Success? && result.value.expected == |Targets(audience)|
    ensures result.Success? && (Targets(audience) == {} || !hasIdent) ==> log == [] && result.value.acked == 0
    ensures Orderly(log, Targets(audience), hear) && Heard(log) <= Targets(audience)
    // The attempts run out before the loop gives up on a target.
    ensures |log| <= AttemptLimit(retries)
    ensures result.Success? && hasIdent && |log| < AttemptLimit(retries) ==> Heard(log) == Targets(audience)
    // The report counts the distinct targets heard.
    ensures result.Success? ==> result.value.acked == |Heard(log)| <= result.value.expected
    ensures result.Success? ==> (result.value.acked == result.value.expected <==> Heard(log) == Targets(audience))
  {
    log := [];
    if !attached {
      return Failure(NoTransport), log;
    }
    if |payload| > MAX_STREAM_PAYLOAD {
      return Failure(PayloadTooLarge), log;
    }
    var targets := Targets(audience);
    var expected := |targets|;
    if expected == 0 {
      return Success(Report(0, 0)), log;
    }
    if !hasIdent {
      return Success(Report(expected, 0)), log;
    }
    var acked: set<Last3> := {};
    var attempt := 0;
    while attempt < AttemptLimit(retries)
      invariant attempt == |log| <= AttemptLimit(retries)
      invariant acked == Heard(log) <= targets
      invariant Orderly(log, targets, hear)
    {
      var remaining := targets - acked;
      if remaining == {} {
        break;
      }
      var replies := hear(attempt, remaining);
      OrderlyAppend(log, targets, hear, remaining);
      log := log + [Attempt(remaining, replies)];
      acked := acked + Senders(replies);
      attempt := attempt + 1;
      SubsetCount(acked, targets);
      if |acked| >= expected {
        break;
      }
    }
    SubsetCount(acked, targets);
    return Success(Report(expected, |acked|)), log;
  }

  // -- what the log says about every send -------------------------------------------------

  lemma {:induction false} HeardGrows(log: seq<Attempt>, i: nat, j: nat)
    requires i <= j <= |log|
    ensures Heard(log[..i]) <= Heard(log[..j])
    ensures i < j ==> Senders(log[i].replies) <= Heard(log[..j])
    decreases j
  {
    if i < j {
      HeardGrows(log, i, j - 1);
      assert log[..j][..j - 1] == log[..j - 1];
    }
  }

  /** No device is heard, or waited for, again once it has answered. */
  lemma NobodyIsChasedTwice(log: seq<Attempt>, targets: set<Last3>, hear: Radio, i: nat, j: nat)
    requires Filtered(hear) && Orderly(log, targets, hear) && i < j < |log|
    ensures log[j].waited <= log[i].waited - Senders(log[i].replies)
    ensures Senders(log[i].replies) !! Senders(log[j].replies)
  {
    HeardGrows(log, i, j);
    assert Senders(hear(j, log[j].waited)) <= log[j].waited;
  }

  function AckTotal(log: seq<Attempt>): nat {
    if log == [] then 0 else AckTotal(log[..|log| - 1]) + |Senders(log[|log| - 1].replies)|
  }

  /** The acknowledgements of the sends add up: no device counts twice. */
  lemma {:induction false} AcksAddUp(log: seq<Attempt>, targets: set<Last3>, hear: Radio)
    requires Filtered(hear) && Orderly(log, targets, hear)
    ensures |Heard(log)| == AckTotal(log)
  {
    if log != [] {
      var init, last := log[..|log| - 1], log[|log| - 1];
      assert forall i :: 0 <= i < |init| ==> init[i] == log[i] && init[..i] == log[..i];
      AcksAddUp(init, targets, hear);
      assert Senders(hear(|log| - 1, last.waited)) <= last.waited;
      assert Heard(init) !! Senders(last.replies);
    }
  }

  /** Attempt `n` hears `t` whoever else it waits for. */
  ghost predicate Hears(hear: Radio, n: nat, t: Last3) {
    forall waited: set<Last3> :: t in waited ==> t in Senders(hear(n, waited))
  }

  /** A target some allowed attempt is bound to hear is counted. */
  lemma AudibleTargetIsCounted(log: seq<Attempt>, targets: set<Last3>, hear: Radio, limit: nat, t: Last3, n: nat)
    requires Orderly(log, targets, hear) && (|log| < limit ==> Heard(log) == targets)
    requires t in targets && n < limit && Hears(hear, n, t)
    ensures t in Heard(log)
  {
    if n < |log| {
      HeardGrows(log, n, |log|);
      assert log[..|log|] == log;
      assert t in log[n].waited || t in Heard(log[..n]);
    }
  }

  /** A target that never answers is never counted. */
  lemma SilentTargetIsNotCounted(log: seq<Attempt>, targets: set<Last3>, hear: Radio, t: Last3)
    requires Orderly(log, targets, hear)
    requires forall n: nat, waited: set<Last3> :: t !in Senders(hear(n, waited))
    ensures t !in Heard(log)
  {
    HeardExact(log, t);
  }
}
