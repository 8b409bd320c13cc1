/** Who can do what: which signature each change of the vault takes, what a halt stops, and exactly when the calls of
    the ASP, of a depositor and of the guardian succeed. */
module Authority {
  import opened Common
  import opened VaultTypes
  import opened VaultSpec
  import opened VaultInvariant
  import opened Sums
  import Checks
  import Deposits
  import Payees

  /** Every change that someone must sign for was signed for. */
  ghost predicate SignedFor(s: VaultState, env: Env, after: Effect) {
    var before, t := s.status, after.state.status;
    && after.state.config == s.config && after.state.host == s.host
    && (t.attestedUpTo != before.attestedUpTo ==> s.config.asp in env.signers)
    && (t.depositsPaused != before.depositsPaused || t.transfersPaused != before.transfersPaused ==> s.config.guardian in env.signers)
    && (t.haltedUntil != before.haltedUntil || t.nextHaltAt != before.nextHaltAt ==> s.config.guardian in env.signers)
    && (after.state.limits != s.limits ==>
          s.config.guardian in env.signers || (s.queuedLimits.Some? && after.state.limits == s.queuedLimits.value.limits))
    && (after.state.queuedLimits.Some? && after.state.queuedLimits != s.queuedLimits ==> s.config.guardian in env.signers)
    && (forall i :: 0 <= i < |after.transfers| && after.transfers[i].Received? ==> after.transfers[i].from in env.signers)
  }

  /** While the vault is halted, nothing enters the tree, is spent, paid, requeued or attested; only pending deposits
      can be flagged, unflagged and given back, and the guardian can act. */
  ghost predicate Frozen(s: VaultState, after: Effect) {
    var t := after.state;
    && t.leaves == s.leaves && t.nullifiers == s.nullifiers && t.exits == s.exits && t.stranded == s.stranded
    && t.status.attestedUpTo == s.status.attestedUpTo && t.status.nextDepositId == s.status.nextDepositId
    && t.status.outflowDay == s.status.outflowDay && t.status.outflow == s.status.outflow
    && (forall i :: 0 <= i < |after.transfers| ==> after.transfers[i].Returned?)
    && (forall id :: id in t.pending ==> id in s.pending)
  }

  ghost predicate Lawful(s: VaultState, env: Env, after: Effect) {
    && SignedFor(s, env, after)
    && (s.status.Halted(env.now) ==> Frozen(s, after))
  }

  lemma ReleaseIsLawful(s: VaultState, env: Env, max: nat)
    requires Solvent(s)
    ensures Lawful(s, env, Of(Release(s, env, max)))
  {
    Payees.ReleasePaysParties(s, env, max);
    if Release(s, env, max).result.Ok? {
      ReleaseLoopKeeps(s, env, max, ReleaseStart(s, env));
    }
    hide ReleaseLoop, Solvent;
  }

  lemma AdmitIsLawful(s: VaultState, env: Env, ids: seq<nat>)
    requires Solvent(s)
    ensures Lawful(s, env, Of(Admit(s, env, ids)))
  {
    Deposits.AdmitTakesDue(s, env, ids);
    if Admit(s, env, ids).result.Ok? {
      AdmitLoopKeeps(s, env, ids, AdmitStart(s));
    }
    hide AdmitLoop, Solvent;
  }

  lemma TransactIsLawful(s: VaultState, env: Env, proof: TxProof, ext: ExtData, submitter: Address)
    requires Solvent(s)
    ensures Lawful(s, env, Of(Transact(s, env, proof, ext, submitter)))
  {
    Payees.TransactPaysParties(s, env, proof, ext, submitter);
    Checks.TransactTakes(s, env, proof, ext, submitter);
    if Transact(s, env, proof, ext, submitter).result.Ok? {
      hide TransactError, SettleError, Solvent;
    }
  }

  lemma ShieldIsLawful(s: VaultState, env: Env, proof: TxProof, ext: ExtData, depositor: Address)
    ensures Lawful(s, env, Of(Shield(s, env, proof, ext, depositor)))
  {
    Checks.ShieldTakes(s, env, proof, ext, depositor);
    hide ShieldError;
  }

  lemma HaltingIsLawful(s: VaultState, env: Env, call: Call)
    requires call.SetPauseCall? || call.HaltCall? || call.ResumeCall?
    ensures Lawful(s, env, Step(s, env, call))
  {
  }

  lemma SetLimitsIsLawful(s: VaultState, env: Env, limits: Limits)
    ensures Lawful(s, env, Of(SetLimits(s, env, limits)))
  {
    hide LimitsError, Tightens, ChangeError;
  }

  lemma QueuedLimitsAreLawful(s: VaultState, env: Env, call: Call)
    requires call.ApplyLimitsCall? || call.CancelLimitsCall?
    ensures Lawful(s, env, Step(s, env, call))
  {
    hide LimitsError, ChangeError;
  }

  lemma AspIsLawful(s: VaultState, env: Env, call: Call)
    requires call.AttestCall? || call.FlagCall? || call.UnflagCall?
    ensures Lawful(s, env, Step(s, env, call))
  {
  }

  lemma OthersAreLawful(s: VaultState, env: Env, call: Call)
    requires call.ClaimCall? || call.CancelCall? || call.RefundCall? || call.BalanceMoves?
    ensures Lawful(s, env, Step(s, env, call))
  {
    hide CanReceive, Debit;
  }

  /** Only the ASP attests, only the guardian pauses, halts and sets limits, only a depositor's own signature takes an
      amount from it, and a halt freezes the notes and both queues but for what gives deposits back. */
  lemma StepIsLawful(s: VaultState, env: Env, call: Call)
    requires Solvent(s)
    ensures Lawful(s, env, Step(s, env, call))
  {
    hide Lawful, Solvent;
    match call
    case ShieldCall(proof, ext, depositor) => ShieldIsLawful(s, env, proof, ext, depositor);
    case TransactCall(proof, ext, submitter) => TransactIsLawful(s, env, proof, ext, submitter);
    case ReleaseCall(max) => ReleaseIsLawful(s, env, max);
    case AdmitCall(ids) => AdmitIsLawful(s, env, ids);
    case AttestCall(_) => AspIsLawful(s, env, call);
    case FlagCall(_, _) => AspIsLawful(s, env, call);
    case UnflagCall(_) => AspIsLawful(s, env, call);
    case ClaimCall(_) => OthersAreLawful(s, env, call);
    case CancelCall(_) => OthersAreLawful(s, env, call);
    case RefundCall(_) => OthersAreLawful(s, env, call);
    case BalanceMoves(_) => OthersAreLawful(s, env, call);
    case SetLimitsCall(limits) => SetLimitsIsLawful(s, env, limits);
    case ApplyLimitsCall => QueuedLimitsAreLawful(s, env, call);
    case CancelLimitsCall => QueuedLimitsAreLawful(s, env, call);
    case _ => HaltingIsLawful(s, env, call);
  }

  /** The ASP attests upwards among the deposits there are, outside a halt; it flags and unflags any pending one. */
  lemma AspCalls(s: VaultState, env: Env, id: nat, reason: nat)
    ensures Attest(s, env, id).result.Ok? <==>
              s.config.asp in env.signers && env.now >= s.status.haltedUntil && s.status.attestedUpTo < id < s.status.nextDepositId
    ensures Attest(s, env, id).result.Ok? ==> Attest(s, env, id).state == s.(status := s.status.(attestedUpTo := id))
    ensures Flag(s, env, id, reason).result.Ok? <==> s.config.asp in env.signers && reason != 0 && id in s.pending
    ensures Flag(s, env, id, reason).result.Ok? ==>
              && Flag(s, env, id, reason).state == s.(pending := Flag(s, env, id, reason).state.pending)
              && Flag(s, env, id, reason).state.pending ==
                 s.pending[id := s.pending[id].(flag := Some(reason),
                                                flaggedAt := if s.pending[id].flag.Some? then s.pending[id].flaggedAt else env.now)]
    ensures Unflag(s, env, id).result.Ok? <==> s.config.asp in env.signers && id in s.pending && s.pending[id].flag.Some?
    ensures Unflag(s, env, id).result.Ok? ==>
              id in Unflag(s, env, id).state.pending && Unflag(s, env, id).state.pending[id].flag == None
  {
  }

  /** A pending deposit can always go back: at once when its depositor signs, and a day after its first flag whoever
      calls, halted or not, unless the asset contract refuses or the vault cannot pay. */
  lemma ComesBack(s: VaultState, env: Env, id: nat)
    requires Solvent(s) && InI128(s.status.tvl) && InI128(s.status.pendingTotal) && id in s.pending
    ensures var d := s.pending[id];
            var payable := env.asset.accepts(0) && d.amount <= s.balance;
            && (Cancel(s, env, id).result.Ok? <==> d.depositor in env.signers && payable)
            && (Refund(s, env, id).result.Ok? <==> d.flag.Some? && SaturatingAdd(d.flaggedAt, DAY) <= env.now && payable)
            && (Cancel(s, env, id).result.Ok? ==>
                  && Cancel(s, env, id).transfers == [Returned(d.depositor, d.amount)]
                  && Cancel(s, env, id).events == [DepositRefunded(id, 0)])
            && (Refund(s, env, id).result.Ok? ==>
                  && Refund(s, env, id).transfers == [Returned(d.depositor, d.amount)]
                  && Refund(s, env, id).events == [DepositRefunded(id, d.flag.value)])
  {
    PendingFits(s, id);
  }

  /** No pending deposit is more than the totals that hold it. */
  lemma PendingFits(s: VaultState, id: nat)
    requires Solvent(s) && id in s.pending
    ensures 0 < s.pending[id].amount <= s.status.pendingTotal <= s.status.tvl
  {
    TvlIsNonNegative(s);
    SumBounds(s.pending, Amount, s.status.nextDepositId, id);
  }

  /** The guardian pauses at any time, halts when the last halt is a week over, and resumes only a halt. */
  lemma GuardianCalls(s: VaultState, env: Env, deposits: bool, transfers: bool)
    requires env.now + 10 * DAY <= U64_MAX
    ensures var paused, halted, resumed := SetPause(s, env, deposits, transfers), Halt(s, env), Resume(s, env);
            && (paused.result.Ok? <==> s.config.guardian in env.signers)
            && (paused.result.Ok? ==> paused.state == s.(status := s.status.(depositsPaused := deposits, transfersPaused := transfers)))
            && (halted.result.Ok? <==> s.config.guardian in env.signers && s.status.nextHaltAt <= env.now)
            && (halted.result.Ok? ==> halted.state == s.(status := s.status.(haltedUntil := env.now + 3 * DAY, nextHaltAt := env.now + 10 * DAY)))
            && (resumed.result.Ok? <==> s.config.guardian in env.signers && env.now < s.status.haltedUntil)
            && (resumed.result.Ok? ==> resumed.state == s.(status := s.status.(haltedUntil := env.now, nextHaltAt := env.now + 7 * DAY)))
  {
  }
}
