/** Grouping a transaction's events into the shapes the vault emits them in. */
module ParseCalls {
  import opened Common
  import opened Merkle
  import opened VaultTypes
  import opened ReplaySpec

  datatype Malformed = Malformed

  /** The call at the front of the events, and how many of them it takes. */
  datatype Front = Front(call: Call, taken: nat)

  /** The two new_commitment events of one inserted pair. */
  function OutputPair(events: seq<Event>, i: nat): Option<(Output, Output)> {
    if i + 1 < |events| && events[i].NewCommitment? && events[i + 1].NewCommitment?
       && events[i].index % 2 == 0 && events[i + 1].index == events[i].index + 1 then
      Some((Output(events[i].index, events[i].commitment, events[i].encryptedOutput),
            Output(events[i + 1].index, events[i + 1].commitment, events[i + 1].encryptedOutput)))
    else None
  }

  function ParseSpend(events: seq<Event>): Result<Front, Malformed>
    requires events != [] && events[0].NewNullifier?
  {
    if |events| < 2 || !events[1].NewNullifier? then Err(Malformed)
    else
      var nf0, nf1 := events[0].nullifier, events[1].nullifier;
      if |events| > 2 && events[2].DepositPending? then
        var d := events[2];
        Ok(Front(ShieldSeen(nf0, nf1, d.id, d.depositor, d.amount, d.commitment0, d.commitment1, d.createdAt), 3))
      else
        match OutputPair(events, 2)
        case None => Err(Malformed)
        case Some((out0, out1)) =>
          if |events| > 4 && events[4].Settled? && events[4].exitId == None then
            var e := events[4];
            Ok(Front(TransactSeen(nf0, nf1, out0, out1, PaidAtOnce(e.extAmount, e.fee, e.recipient, e.relayer)), 5))
          else if |events| > 4 && events[4].ExitQueued? then
            var e := events[4];
            Ok(Front(TransactSeen(nf0, nf1, out0, out1, Waits(e.id, e.extAmount, e.fee, e.recipient, e.relayer)), 5))
          else Err(Malformed)
  }

  function ParseAdmission(events: seq<Event>): Result<Front, Malformed>
    requires events != [] && events[0].NewCommitment?
  {
    match OutputPair(events, 0)
    case None => Err(Malformed)
    case Some((out0, out1)) =>
      if |events| > 2 && events[2].DepositAdmitted? && events[2].leafIndex0 == out0.index && events[2].leafIndex1 == out1.index then
        Ok(Front(AdmissionSeen(out0, out1, events[2].id), 3))
      else Err(Malformed)
  }

  function ParseFront(events: seq<Event>): (r: Result<Front, Malformed>)
    requires events != []
    ensures r.Ok? ==> 0 < r.value.taken <= |events|
  {
    match events[0]
    case NewNullifier(_) => ParseSpend(events)
    case NewCommitment(_, _, _) => ParseAdmission(events)
    case Settled(extAmount, fee, recipient, relayer, exitId) =>
      if exitId == None then Err(Malformed) else Ok(Front(ExitSettledSeen(extAmount, fee, recipient, relayer, exitId.value), 1))
    case DepositPending(_, _, _, _, _, _) => Err(Malformed)
    case DepositAdmitted(_, _, _) => Err(Malformed)
    case ExitQueued(_, _, _, _, _) => Err(Malformed)
    case DepositFlagged(id, reason) => Ok(Front(FlaggedSeen(id, reason), 1))
    case DepositUnflagged(id, reason) => Ok(Front(UnflaggedSeen(id, reason), 1))
    case Attested(upTo) => Ok(Front(AttestedSeen(upTo), 1))
    case DepositRefunded(id, reason) => Ok(Front(RefundedSeen(id, reason), 1))
    case ExitPaid(id, a, b, c, d) => Ok(Front(ExitPaidSeen(id, a, b, c, d), 1))
    case ExitStranded(id, payout, fee) => Ok(Front(ExitStrandedSeen(id, payout, fee), 1))
    case ExitRequeued(id, newId, payout, fee) => Ok(Front(ExitRequeuedSeen(id, newId, payout, fee), 1))
    case Paused(deposits, transfers) => Ok(Front(PausedSeen(deposits, transfers), 1))
    case HaltedEvent(until) => Ok(Front(HaltedSeen(until), 1))
    case Resumed(nextHaltAt) => Ok(Front(ResumedSeen(nextHaltAt), 1))
    case LimitsQueued(limits, readyAt) => Ok(Front(LimitsQueuedSeen(limits, readyAt), 1))
    case LimitsApplied(limits, readyAt) => Ok(Front(LimitsAppliedSeen(limits, readyAt), 1))
    case LimitsCancelled(limits, readyAt) => Ok(Front(LimitsCancelledSeen(limits, readyAt), 1))
  }

  function Parsed(events: seq<Event>): Result<seq<Call>, Malformed>
    decreases |events|
  {
    if events == [] then Ok([])
    else
      match ParseFront(events)
      case Err(error) => Err(error)
      case Ok(front) =>
        match Parsed(events[front.taken..])
        case Err(error) => Err(error)
        case Ok(rest) => Ok([front.call] + rest)
  }

  function After(calls: seq<Call>, rest: Result<seq<Call>, Malformed>): Result<seq<Call>, Malformed> {
    match rest
    case Err(error) => Err(error)
    case Ok(more) => Ok(calls + more)
  }

  lemma ParseStep(calls: seq<Call>, events: seq<Event>, i: nat)
    requires i < |events| && ParseFront(events[i..]).Ok?
    ensures var front := ParseFront(events[i..]).value;
            After(calls, Parsed(events[i..])) == After(calls + [front.call], Parsed(events[i + front.taken..]))
  {
    var front := ParseFront(events[i..]).value;
    assert events[i..][front.taken..] == events[i + front.taken..];
    var rest := Parsed(events[i + front.taken..]);
    assert rest.Ok? ==> calls + ([front.call] + rest.value) == (calls + [front.call]) + rest.value;
    hide ParseFront;
  }

  /** The loop over one transaction's events. */
  method Parse(events: seq<Event>) returns (r: Result<seq<Call>, Malformed>)
    ensures r == Parsed(events)
  {
    hide ParseFront;
    var calls: seq<Call> := [];
    var i := 0;
    assert events[0..] == events;
    assert Parsed(events).Ok? ==> calls + Parsed(events).value == Parsed(events).value;
    while i < |events|
      invariant i <= |events|
      invariant Parsed(events) == After(calls, Parsed(events[i..]))
      decreases |events| - i
    {
      var front := ParseFront(events[i..]);
      if front.Err? {
        return Err(front.error);
      }
      ParseStep(calls, events, i);
      calls := calls + [front.value.call];
      i := i + front.value.taken;
    }
    assert calls + [] == calls;
    return Ok(calls);
  }

  // ---------------------------------------------------------------------------------------------
  // The events of a call

  function OutputEvents(out0: Output, out1: Output): seq<Event> {
    [NewCommitment(out0.index, out0.commitment, out0.ciphertext), NewCommitment(out1.index, out1.commitment, out1.ciphertext)]
  }

  function EndingEvent(end: Ending): Event {
    match end
    case PaidAtOnce(extAmount, fee, recipient, relayer) => Settled(extAmount, fee, recipient, relayer, None)
    case Waits(id, extAmount, fee, recipient, relayer) => ExitQueued(id, extAmount, fee, recipient, relayer)
  }

  function EventsOf(c: Call): seq<Event> {
    match c
    case ShieldSeen(nf0, nf1, id, depositor, amount, commitment0, commitment1, createdAt) =>
      [NewNullifier(nf0), NewNullifier(nf1), DepositPending(id, depositor, amount, commitment0, commitment1, createdAt)]
    case TransactSeen(nf0, nf1, out0, out1, ending) =>
      [NewNullifier(nf0), NewNullifier(nf1)] + OutputEvents(out0, out1) + [EndingEvent(ending)]
    case AdmissionSeen(out0, out1, id) => OutputEvents(out0, out1) + [DepositAdmitted(id, out0.index, out1.index)]
    case ExitSettledSeen(extAmount, fee, recipient, relayer, id) => [Settled(extAmount, fee, recipient, relayer, Some(id))]
    case ExitPaidSeen(id, a, b, x, y) => [ExitPaid(id, a, b, x, y)]
    case ExitStrandedSeen(id, payout, fee) => [ExitStranded(id, payout, fee)]
    case ExitRequeuedSeen(id, newId, payout, fee) => [ExitRequeued(id, newId, payout, fee)]
    case FlaggedSeen(id, reason) => [DepositFlagged(id, reason)]
    case UnflaggedSeen(id, reason) => [DepositUnflagged(id, reason)]
    case AttestedSeen(upTo) => [Attested(upTo)]
    case RefundedSeen(id, reason) => [DepositRefunded(id, reason)]
    case PausedSeen(deposits, transfers) => [Paused(deposits, transfers)]
    case HaltedSeen(until) => [HaltedEvent(until)]
    case ResumedSeen(nextHaltAt) => [Resumed(nextHaltAt)]
    case LimitsQueuedSeen(limits, readyAt) => [LimitsQueued(limits, readyAt)]
    case LimitsAppliedSeen(limits, readyAt) => [LimitsApplied(limits, readyAt)]
    case LimitsCancelledSeen(limits, readyAt) => [LimitsCancelled(limits, readyAt)]
  }

  /** Inserted pairs take an even index and the one after it. */
  predicate WellShaped(c: Call) {
    c.TransactSeen? || c.AdmissionSeen? ==> c.out0.index % 2 == 0 && c.out1.index == c.out0.index + 1
  }

  function EventsOfAll(calls: seq<Call>): seq<Event>
    decreases |calls|
  {
    if calls == [] then [] else EventsOf(calls[0]) + EventsOfAll(calls[1..])
  }

  lemma FrontOfEvents(c: Call, rest: seq<Event>)
    requires WellShaped(c)
    ensures ParseFront(EventsOf(c) + rest) == Ok(Front(c, |EventsOf(c)|))
  {
    var events := EventsOf(c) + rest;
    match c
    case TransactSeen(nf0, nf1, out0, out1, ending) =>
      assert events[2] == OutputEvents(out0, out1)[0] && events[3] == OutputEvents(out0, out1)[1];
      assert events[4] == EndingEvent(ending);
    case AdmissionSeen(out0, out1, id) =>
      assert events[2] == DepositAdmitted(id, out0.index, out1.index);
    case _ =>
  }

  lemma EventsOfFront(events: seq<Event>)
    requires events != [] && ParseFront(events).Ok?
    ensures var front := ParseFront(events).value;
            WellShaped(front.call) && events[..front.taken] == EventsOf(front.call)
  {
  }

  /** The events of any sequence of calls are grouped back into exactly those calls. */
  lemma {:induction false} EventsParseBack(calls: seq<Call>)
    requires forall c :: c in calls ==> WellShaped(c)
    ensures Parsed(EventsOfAll(calls)) == Ok(calls)
    decreases |calls|
  {
    if calls != [] {
      var rest := EventsOfAll(calls[1..]);
      FrontOfEvents(calls[0], rest);
      var events := EventsOf(calls[0]) + rest;
      assert events[|EventsOf(calls[0])|..] == rest;
      EventsParseBack(calls[1..]);
      assert [calls[0]] + calls[1..] == calls;
      hide ParseFront, EventsOf;
    }
  }

  /** Only the events of a sequence of calls are accepted, and no event is dropped or moved. */
  lemma {:induction false} ParseLosesNothing(events: seq<Event>)
    requires Parsed(events).Ok?
    ensures EventsOfAll(Parsed(events).value) == events
    ensures forall c :: c in Parsed(events).value ==> WellShaped(c)
    decreases |events|
  {
    if events != [] {
      EventsOfFront(events);
      var front := ParseFront(events).value;
      ParseLosesNothing(events[front.taken..]);
      var rest := Parsed(events[front.taken..]).value;
      assert ([front.call] + rest)[1..] == rest;
      hide ParseFront, EventsOf;
    }
  }
}
