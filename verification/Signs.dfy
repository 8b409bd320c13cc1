/** What the vault emits always decodes. */
module Signs {
  import opened Common
  import opened VaultTypes
  import opened VaultSpec
  import opened VaultInvariant
  import opened VaultRuns

  /** The signs of amounts that an event must have to decode. */
  predicate WellSigned(e: Event) {
    match e
    case ExitQueued(_, extAmount, fee, _, _) => extAmount <= 0 <= fee
    case ExitPaid(_, payoutPaid, feePaid, payoutLeft, feeLeft) => payoutPaid >= 0 && feePaid >= 0 && payoutLeft >= 0 && feeLeft >= 0
    case ExitStranded(_, payout, fee) => payout >= 0 && fee >= 0 && (payout > 0 || fee > 0)
    case ExitRequeued(_, _, payout, fee) => payout >= 0 && fee >= 0 && (payout > 0 || fee > 0)
    case _ => true
  }

  predicate AllWellSigned(events: seq<Event>) {
    forall i :: 0 <= i < |events| ==> WellSigned(events[i])
  }

  lemma ReleaseOneSigns(s: VaultState, env: Env, r: Releasing)
    requires ReleaseHolds(s, env, r) && r.status.exitHead < r.status.exitTail && ReleaseOne(s, env, r).Next?
    requires AllWellSigned(r.events)
    ensures AllWellSigned(ReleaseOne(s, env, r).r.events)
  {
    PlanFits(s, env, r);
    hide ReleasePlan, ReleaseHolds, Debit, Payment;
  }

  lemma {:induction false} ReleaseLoopSigns(s: VaultState, env: Env, max: nat, r: Releasing)
    requires ReleaseHolds(s, env, r) && ReleaseLoop(s, env, max, r).Ok? && AllWellSigned(r.events)
    ensures AllWellSigned(ReleaseLoop(s, env, max, r).value.events)
    decreases max - r.count
  {
    hide ReleaseHolds, ReleasePlan, Handled, AllWellSigned;
    if r.count < max && r.status.exitHead < r.status.exitTail && ReleaseOne(s, env, r).Next? {
      ReleaseOneKeeps(s, env, r);
      ReleaseOneSigns(s, env, r);
      ReleaseLoopSigns(s, env, max, ReleaseOne(s, env, r).r);
    }
  }

  lemma ReleaseSigns(s: VaultState, env: Env, max: nat)
    requires Solvent(s)
    ensures AllWellSigned(Release(s, env, max).events)
  {
    if Release(s, env, max).result.Ok? {
      ReleaseLoopSigns(s, env, max, ReleaseStart(s, env));
    }
  }

  lemma TransactSigns(s: VaultState, env: Env, proof: TxProof, ext: ExtData, submitter: Address)
    ensures AllWellSigned(Transact(s, env, proof, ext, submitter).events)
  {
  }

  lemma ClaimSigns(s: VaultState, env: Env, id: nat)
    requires Solvent(s)
    ensures AllWellSigned(Claim(s, env, id).events)
  {
  }

  lemma {:induction false} AdmitLoopSigns(s: VaultState, env: Env, ids: seq<nat>, a: Admitting)
    requires AdmitLoop(s, env, ids, a).Ok? && AllWellSigned(a.events)
    ensures AllWellSigned(AdmitLoop(s, env, ids, a).value.events)
    decreases |ids|
  {
    if ids != [] {
      AdmitLoopSigns(s, env, ids[1..], AdmitOne(s, env, ids[0], a).value);
    }
  }

  lemma AdmitSigns(s: VaultState, env: Env, ids: seq<nat>)
    ensures AllWellSigned(Admit(s, env, ids).events)
  {
    if Admit(s, env, ids).result.Ok? {
      AdmitLoopSigns(s, env, ids, AdmitStart(s));
    }
  }

  lemma OthersSign(s: VaultState, env: Env, call: Call)
    requires !call.TransactCall? && !call.ReleaseCall? && !call.ClaimCall? && !call.AdmitCall?
    ensures AllWellSigned(Step(s, env, call).events)
  {
  }

  /** The vault only emits amounts that decode. */
  lemma StepSigns(s: VaultState, env: Env, call: Call)
    requires Solvent(s)
    ensures AllWellSigned(Step(s, env, call).events)
  {
    hide Solvent, AllWellSigned;
    match call
    case TransactCall(proof, ext, submitter) => TransactSigns(s, env, proof, ext, submitter);
    case ReleaseCall(max) => ReleaseSigns(s, env, max);
    case ClaimCall(id) => ClaimSigns(s, env, id);
    case AdmitCall(ids) => AdmitSigns(s, env, ids);
    case _ => OthersSign(s, env, call);
  }
}
