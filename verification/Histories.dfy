/** What every accepted run of the replay has in its history: why a deposit was admitted or refunded, that nothing
    is spent twice in a window, that no day passes its limit, who is paid, and what a halt stops. */
module Histories {
  import opened Common
  import opened Merkle
  import opened VaultTypes
  import opened ReplaySpec
  import opened Traces

  /** Windows the replay accepts from a new vault, in the order of time. */
  ghost predicate Accepted(depth: nat, windows: seq<seq<(Tx, seq<Call>)>>) {
    Replayed(depth, NEW_STATE, windows).Ok? && InOrder(TraceOfAll(windows))
  }

  /** A call of an accepted run is proper where it stands. */
  lemma AcceptedIsProper(depth: nat, windows: seq<seq<(Tx, seq<Call>)>>, i: nat)
    requires Accepted(depth, windows) && i < |TraceOfAll(windows)| && TraceOfAll(windows)[i].In?
    ensures Proper(depth, TraceOfAll(windows)[..i], TraceOfAll(windows)[i].tx, TraceOfAll(windows)[i].call)
  {
    ReplayAcceptsProper(depth, windows);
    hide Proper, Replayed, TraceOfAll, InOrder, StateSays;
  }

  lemma Prefix(t: Trace, n: nat)
    requires 0 < n <= |t|
    ensures Init(t[..n]) == t[..n - 1] && Last(t[..n]) == t[n - 1] && t[..n] != []
  {
  }

  // ---------------------------------------------------------------------------------------------
  // Deposits

  predicate Shields(x: Seen, id: nat) {
    x.In? && x.call.ShieldSeen? && x.call.id == id
  }

  predicate Resolves(x: Seen, id: nat) {
    x.In? && (x.call.AdmissionSeen? || x.call.RefundedSeen?) && x.call.id == id
  }

  predicate Flags(x: Seen, id: nat) {
    x.In? && x.call.FlaggedSeen? && x.call.id == id
  }

  predicate Unflags(x: Seen, id: nat) {
    x.In? && x.call.UnflaggedSeen? && x.call.id == id
  }

  /** A pending deposit was shielded, and has neither been shielded again nor left since. */
  lemma {:induction false} ShieldedAt(t: Trace, n: nat, id: nat) returns (k: nat)
    requires n <= |t| && ShieldOf(t[..n], id).Some?
    ensures k < n && Shields(t[k], id) && ShieldOf(t[..n], id) == Some(t[k].call)
    ensures forall j :: k < j < n ==> !Resolves(t[j], id) && !Shields(t[j], id)
  {
    Prefix(t, n);
    if Shields(t[n - 1], id) {
      k := n - 1;
    } else {
      k := ShieldedAt(t, n - 1, id);
    }
  }

  /** Without a flag now, every flag since the shield was lifted. */
  lemma {:induction false} FlagsAreLifted(t: Trace, k: nat, n: nat, id: nat, f: nat) returns (u: nat)
    requires k < f < n <= |t| && FlagOf(t[..n], id) == None && Flags(t[f], id)
    requires forall j :: k < j < n ==> !Shields(t[j], id)
    ensures f < u < n && Unflags(t[u], id)
  {
    Prefix(t, n);
    if Unflags(t[n - 1], id) && f < n - 1 {
      u := n - 1;
    } else {
      u := FlagsAreLifted(t, k, n - 1, id, f);
    }
  }

  lemma {:induction false} AttestedAt(t: Trace, n: nat, id: nat) returns (a: nat)
    requires n <= |t| && 0 < id <= AttestedUpTo(t[..n])
    ensures a < n && t[a].In? && t[a].call.AttestedSeen? && id <= t[a].call.upTo
  {
    Prefix(t, n);
    if t[n - 1].In? && t[n - 1].call.AttestedSeen? {
      a := n - 1;
    } else {
      a := AttestedAt(t, n - 1, id);
    }
  }

  lemma {:induction false} NextDepositGrows(t: Trace, m: nat, n: nat)
    requires m <= n <= |t|
    ensures 0 < NextDeposit(t[..m]) <= NextDeposit(t[..n])
    decreases n
  {
    if n > 0 {
      Prefix(t, n);
      NextDepositGrows(t, if m < n then m else n - 1, n - 1);
    }
  }

  /** An admitted deposit was shielded earlier with exactly the commitments that were inserted, and has not left the
      queue between; it was attested after its shield; every flag on it since was lifted; and no halt was on. */
  lemma AdmissionHistory(depth: nat, windows: seq<seq<(Tx, seq<Call>)>>, i: nat) returns (k: nat, a: nat)
    requires Accepted(depth, windows) && i < |TraceOfAll(windows)|
    requires TraceOfAll(windows)[i].In? && TraceOfAll(windows)[i].call.AdmissionSeen?
    ensures var t := TraceOfAll(windows);
            var c := t[i].call;
            && k < a < i && Shields(t[k], c.id)
            && c.out0.commitment == t[k].call.commitment0 && c.out1.commitment == t[k].call.commitment1
            && (forall j :: k < j < i ==> !Resolves(t[j], c.id))
            && t[a].In? && t[a].call.AttestedSeen? && c.id <= t[a].call.upTo
            && (forall f :: k < f < i && Flags(t[f], c.id) ==> exists u :: f < u < i && Unflags(t[u], c.id))
            && HaltedUntil(t[..i]) <= t[i].tx.closedAt
  {
    var t := TraceOfAll(windows);
    var id := t[i].call.id;
    AcceptedIsProper(depth, windows, i);
    hide Accepted, TraceOfAll;
    k := ShieldedAt(t, i, id);
    AcceptedIsProper(depth, windows, k);
    NextDepositGrows(t, k, k);
    a := AttestedAt(t, i, id);
    AcceptedIsProper(depth, windows, a);
    if a < k {
      NextDepositGrows(t, a, k);
    }
    forall f | k < f < i && Flags(t[f], id)
      ensures exists u :: f < u < i && Unflags(t[u], id)
    {
      var u := FlagsAreLifted(t, k, i, id, f);
    }
  }

  /** A flag was put on, is the last one, and dates from the first since the deposit had none. */
  lemma {:induction false} FlaggedAt(t: Trace, n: nat, id: nat) returns (first: nat, last: nat)
    requires n <= |t| && FlagOf(t[..n], id).Some?
    ensures first <= last < n && Flags(t[first], id) && Flags(t[last], id)
    ensures FlagOf(t[..n], id) == Some((t[last].call.reason, t[first].tx.closedAt))
    ensures forall j :: last < j < n ==> !Flags(t[j], id)
    ensures forall j :: first < j < n ==> !Unflags(t[j], id) && !Shields(t[j], id)
  {
    Prefix(t, n);
    if Flags(t[n - 1], id) {
      if FlagOf(t[..n - 1], id).Some? {
        first, last := FlaggedAt(t, n - 1, id);
        last := n - 1;
      } else {
        first, last := n - 1, n - 1;
      }
    } else {
      first, last := FlaggedAt(t, n - 1, id);
    }
  }

  /** A deposit refunded with a reason carried this reason as its last flag, and a flag without a break for a day, in
      64-bit times. */
  lemma RefundHistory(depth: nat, windows: seq<seq<(Tx, seq<Call>)>>, i: nat) returns (first: nat, last: nat)
    requires Accepted(depth, windows) && i < |TraceOfAll(windows)|
    requires var x := TraceOfAll(windows)[i];
             x.In? && x.call.RefundedSeen? && x.call.reason != 0
    ensures var t := TraceOfAll(windows);
            var c := t[i].call;
            && first <= last < i && Flags(t[first], c.id) && Flags(t[last], c.id)
            && t[last].call.reason == c.reason
            && (forall j :: last < j < i ==> !Flags(t[j], c.id))
            && (forall j :: first < j < i ==> !Unflags(t[j], c.id))
            && (t[first].tx.closedAt + DAY <= U64_MAX ==> t[first].tx.closedAt + DAY <= t[i].tx.closedAt)
  {
    var t := TraceOfAll(windows);
    AcceptedIsProper(depth, windows, i);
    hide Accepted, TraceOfAll;
    first, last := FlaggedAt(t, i, t[i].call.id);
  }

  // ---------------------------------------------------------------------------------------------
  // Spends

  /** The nullifiers a call spends. */
  function Nullifiers(x: Seen): seq<Field> {
    match x
    case In(_, ShieldSeen(nf0, nf1, _, _, _, _, _, _)) => [nf0, nf1]
    case In(_, TransactSeen(nf0, nf1, _, _, _)) => [nf0, nf1]
    case _ => []
  }

  /** What was spent stays spent until the window ends. */
  lemma {:induction false} StaysSpent(t: Trace, i: nat, j: nat)
    requires i < j <= |t| && forall k :: i < k < j ==> t[k].In?
    ensures forall x :: x in Nullifiers(t[i]) ==> x in Spent(t[..j])
    decreases j
  {
    Prefix(t, j);
    if i < j - 1 {
      StaysSpent(t, i, j - 1);
    }
  }

  /** No nullifier is spent twice in a window: neither by two calls nor by one. */
  lemma SpentOnce(depth: nat, windows: seq<seq<(Tx, seq<Call>)>>, i: nat, j: nat)
    requires Accepted(depth, windows) && i < j < |TraceOfAll(windows)|
    requires forall k :: i < k < j ==> TraceOfAll(windows)[k].In?
    ensures var t := TraceOfAll(windows);
            && (forall x :: x in Nullifiers(t[i]) ==> x !in Nullifiers(t[j]))
            && (Nullifiers(t[j]) != [] ==> Nullifiers(t[j])[0] != Nullifiers(t[j])[1])
  {
    var t := TraceOfAll(windows);
    if t[j].In? {
      AcceptedIsProper(depth, windows, j);
    }
    hide Accepted, TraceOfAll;
    StaysSpent(t, i, j);
  }

  // ---------------------------------------------------------------------------------------------
  // Payments

  /** With limits known, a payment never takes its day past the window. */
  lemma DayIsCapped(depth: nat, windows: seq<seq<(Tx, seq<Call>)>>, i: nat)
    requires Accepted(depth, windows) && i < |TraceOfAll(windows)| && TraceOfAll(windows)[i].In?
    requires LimitsSeen(TraceOfAll(windows)[..i]).Some?
    requires Pays(TraceOfAll(windows)[..i], TraceOfAll(windows)[i].call) > 0
    ensures var t := TraceOfAll(windows);
            PaidOn(t[..i + 1], t[i].tx.closedAt / DAY) <= LimitsSeen(t[..i]).value.maxDailyOutflow
  {
    var t := TraceOfAll(windows);
    AcceptedIsProper(depth, windows, i);
    hide Accepted, TraceOfAll;
    Prefix(t, i + 1);
  }

  /** A transaction whose payment waits, and whom it names. */
  predicate Names(x: Seen, recipient: MuxedAddress, relayer: Address) {
    && x.In? && x.call.TransactSeen? && x.call.ending.Waits?
    && x.call.ending.recipient == recipient && x.call.ending.relayer == relayer
  }

  /** Whoever is owed was named by a transaction, through any number of claims. */
  lemma {:induction false} DebtIsNamed(t: Trace, n: nat, id: nat, stranded: bool) returns (k: nat)
    requires n <= |t| && (if stranded then Stranded(t[..n], id) else InQueue(t[..n], id)).Some?
    ensures var debt := (if stranded then Stranded(t[..n], id) else InQueue(t[..n], id)).value;
            k < n && Names(t[k], debt.recipient, debt.relayer)
  {
    Prefix(t, n);
    var x := t[n - 1];
    if !stranded && x.In? && x.call.TransactSeen? && x.call.ending.Waits? && x.call.ending.id == id {
      k := n - 1;
    } else if !stranded && x.In? && x.call.ExitRequeuedSeen? && x.call.newId == id && Stranded(t[..n - 1], x.call.id).Some? {
      k := DebtIsNamed(t, n - 1, x.call.id, true);
    } else if stranded && x.In? && x.call.ExitStrandedSeen? && x.call.id == id && InQueue(t[..n - 1], id).Some? {
      k := DebtIsNamed(t, n - 1, id, false);
    } else {
      k := DebtIsNamed(t, n - 1, id, stranded);
    }
  }

  /** A settled exit pays the parties that the transaction it comes from named, and all that it was still owed. */
  lemma SettledAsNamed(depth: nat, windows: seq<seq<(Tx, seq<Call>)>>, i: nat) returns (k: nat)
    requires Accepted(depth, windows) && i < |TraceOfAll(windows)|
    requires TraceOfAll(windows)[i].In? && TraceOfAll(windows)[i].call.ExitSettledSeen?
    ensures var t := TraceOfAll(windows);
            var c := t[i].call;
            && k < i && Names(t[k], c.recipient, c.relayer)
            && InQueue(t[..i], c.id).Some?
            && -c.extAmount == InQueue(t[..i], c.id).value.payout && c.fee == InQueue(t[..i], c.id).value.fee
  {
    var t := TraceOfAll(windows);
    AcceptedIsProper(depth, windows, i);
    hide Accepted, TraceOfAll;
    k := DebtIsNamed(t, i, t[i].call.id, false);
  }

  // ---------------------------------------------------------------------------------------------
  // Halts

  /** In a halt, the only calls are those that flag, unflag and give back deposits, and the guardian's. */
  lemma HaltStops(depth: nat, windows: seq<seq<(Tx, seq<Call>)>>, i: nat)
    requires Accepted(depth, windows) && i < |TraceOfAll(windows)| && TraceOfAll(windows)[i].In?
    requires TraceOfAll(windows)[i].tx.closedAt < HaltedUntil(TraceOfAll(windows)[..i])
    ensures match TraceOfAll(windows)[i].call
            case FlaggedSeen(_, _) => true
            case UnflaggedSeen(_, _) => true
            case RefundedSeen(_, _) => true
            case PausedSeen(_, _) => true
            case HaltedSeen(_) => true
            case ResumedSeen(_) => true
            case LimitsQueuedSeen(_, _) => true
            case LimitsAppliedSeen(_, _) => true
            case LimitsCancelledSeen(_, _) => true
            case _ => false
  {
    AcceptedIsProper(depth, windows, i);
    hide Accepted, TraceOfAll;
  }
}
