/** The services' comparison of the replayed status with the chain's. */
module StatusCheck {
  import opened Common
  import opened VaultTypes
  import opened VaultSpec
  import opened VaultRuns
  import opened Refinement
  import R = ReplaySpec

  datatype StatusField = Tvl | PendingTotal | QueuedTotal | ExitHead | ExitTail | NextDepositId | AttestedUpTo | DepositsOff
    | TransfersOff | HaltedUntil | NextHaltAt | TodaysOutflow

  /** Whether two statuses agree on a field; what was paid is compared for one day only. */
  predicate SameField(f: StatusField, a: Status, b: Status, day: nat) {
    match f
    case Tvl => a.tvl == b.tvl
    case PendingTotal => a.pendingTotal == b.pendingTotal
    case QueuedTotal => a.queuedTotal == b.queuedTotal
    case ExitHead => a.exitHead == b.exitHead
    case ExitTail => a.exitTail == b.exitTail
    case NextDepositId => a.nextDepositId == b.nextDepositId
    case AttestedUpTo => a.attestedUpTo == b.attestedUpTo
    case DepositsOff => a.depositsPaused == b.depositsPaused
    case TransfersOff => a.transfersPaused == b.transfersPaused
    case HaltedUntil => a.haltedUntil == b.haltedUntil
    case NextHaltAt => a.nextHaltAt == b.nextHaltAt
    case TodaysOutflow => a.OutflowOn(day) == b.OutflowOn(day)
  }

  /** The fields where a status on the chain and a replayed one differ, all of them and no other. */
  method StatusDiff(chain: Status, replayed: Status, day: nat) returns (out: seq<StatusField>)
    ensures forall f :: f in out <==> !SameField(f, chain, replayed, day)
  {
    var fields := [Tvl, PendingTotal, QueuedTotal, ExitHead, ExitTail, NextDepositId, AttestedUpTo, DepositsOff, TransfersOff,
                   HaltedUntil, NextHaltAt, TodaysOutflow];
    out := [];
    for i := 0 to |fields|
      invariant forall f :: f in out <==> f in fields[..i] && !SameField(f, chain, replayed, day)
    {
      if !SameField(fields[i], chain, replayed, day) {
        out := out + [fields[i]];
      }
    }
    forall f: StatusField
      ensures f in fields
    {
      AllFields(f, fields);
    }
    assert fields[..|fields|] == fields;
  }

  lemma AllFields(f: StatusField, fields: seq<StatusField>)
    requires fields == [Tvl, PendingTotal, QueuedTotal, ExitHead, ExitTail, NextDepositId, AttestedUpTo, DepositsOff, TransfersOff,
                        HaltedUntil, NextHaltAt, TodaysOutflow]
    ensures f in fields
  {
    assert fields[0] == Tvl && fields[1] == PendingTotal && fields[2] == QueuedTotal && fields[3] == ExitHead && fields[4] == ExitTail;
    assert fields[5] == NextDepositId && fields[6] == AttestedUpTo && fields[7] == DepositsOff && fields[8] == TransfersOff;
    assert fields[9] == HaltedUntil && fields[10] == NextHaltAt && fields[11] == TodaysOutflow;
  }

  /** No run of the vault ever shows a difference, on any day. */
  lemma RunHasNoDiff(host: Host, config: Config, limits: Limits, past: seq<Timed>, txs: nat -> R.Tx, v: VaultState, r: R.State,
                     f: StatusField, day: nat)
    requires Reaches(host, config, limits, past, txs, v, r)
    ensures SameField(f, v.status, r.status, day)
  {
    hide Deployed, Step, Follows, R.ApplyAll;
    RunIsReplayed(host, config, limits, past, |past|, txs);
  }
}
