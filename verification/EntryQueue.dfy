/** What becomes of every deposit and of every nullifier, over whole runs. */
module EntryQueue {
  import opened Common
  import opened Merkle
  import opened VaultTypes
  import opened VaultSpec
  import opened VaultInvariant
  import opened VaultRuns
  import VaultTree

  // ---------------------------------------------------------------------------------------------
  // Deposits

  /** The wait of an amount under these limits: a large deposit, of at least the threshold, waits the long delay. */
  function Wait(config: Config, limits: Limits, amount: int): nat {
    if amount < limits.largeDepositThreshold then config.delaySmall else config.delayLarge
  }

  /** Whether a pending deposit may enter now: attested, not flagged, and after both the wait it was given at first
      and the wait of its amount under the limits in force. */
  predicate Due(s: VaultState, now: nat, id: nat)
    requires id in s.pending
  {
    var d := s.pending[id];
    && d.flag == None
    && id <= s.status.attestedUpTo
    && SaturatingAdd(d.createdAt, d.delay) <= now
    && SaturatingAdd(d.createdAt, Wait(s.config, s.limits, d.amount)) <= now
  }

  /** A deposit left the queue into the tree: it was due, and its pair sits at the leaves its event names. */
  ghost predicate WasAdmitted(s: VaultState, env: Env, after: Effect, id: nat)
    requires id in s.pending
  {
    var d := s.pending[id];
    && !s.status.Halted(env.now)
    && Due(s, env.now, id)
    && exists index: nat :: DepositAdmitted(id, index, index + 1) in after.events && InsertedAt(s.leaves, after.state.leaves, d, index)
  }

  ghost predicate InsertedAt(before: seq<Field>, after: seq<Field>, d: PendingDeposit, index: nat) {
    && |before| <= index && index + 1 < |after|
    && after[index] == d.commitment0 && after[index + 1] == d.commitment1
  }

  /** A deposit left the queue back to its depositor, who asked for it, or a day after it was flagged. */
  ghost predicate WasReturned(s: VaultState, env: Env, after: Effect, id: nat)
    requires id in s.pending
  {
    var d := s.pending[id];
    && after.transfers == [Returned(d.depositor, d.amount)]
    && (d.depositor in env.signers || (d.flag.Some? && env.now >= SaturatingAdd(d.flaggedAt, REFUND_DELAY)))
    && exists reason :: after.events == [DepositRefunded(id, reason)]
  }

  /** What a call may do to a deposit that stays: only the ASP touches it, and only its flag. */
  predicate SameDeposit(s: VaultState, env: Env, before: PendingDeposit, after: PendingDeposit) {
    && after == before.(flag := after.flag, flaggedAt := after.flaggedAt)
    && (after != before ==> s.config.asp in env.signers)
    && (before.flag.Some? && after.flag.Some? ==> after.flaggedAt == before.flaggedAt)
  }

  /** Where a pending deposit is after a call. */
  ghost predicate Fate(s: VaultState, env: Env, after: Effect, id: nat)
    requires id in s.pending
  {
    if id in after.state.pending then SameDeposit(s, env, s.pending[id], after.state.pending[id])
    else WasAdmitted(s, env, after, id) || WasReturned(s, env, after, id)
  }

  /** What an admission has done so far to the deposits that are gone. */
  ghost predicate AdmittedSoFar(s: VaultState, env: Env, a: Admitting) {
    && s.leaves <= a.leaves
    && a.status.attestedUpTo == s.status.attestedUpTo
    && (forall id :: id in a.pending ==> id in s.pending && a.pending[id] == s.pending[id])
    && (forall id :: id in s.pending && id !in a.pending ==>
          Eligible(s.config, s.limits, s.pending[id], id, s.status.attestedUpTo, env.now) && Entered(s, a, id))
  }

  ghost predicate Entered(s: VaultState, a: Admitting, id: nat)
    requires id in s.pending
  {
    exists index: nat :: DepositAdmitted(id, index, index + 1) in a.events && InsertedAt(s.leaves, a.leaves, s.pending[id], index)
  }

  lemma StaysEntered(s: VaultState, a: Admitting, next: Admitting, id: nat)
    requires id in s.pending && Entered(s, a, id) && a.leaves <= next.leaves && a.events <= next.events
    ensures Entered(s, next, id)
  {
    var index: nat :| DepositAdmitted(id, index, index + 1) in a.events && InsertedAt(s.leaves, a.leaves, s.pending[id], index);
    assert InsertedAt(s.leaves, next.leaves, s.pending[id], index);
    assert DepositAdmitted(id, index, index + 1) in next.events;
  }

  lemma AdmitOneEnters(s: VaultState, env: Env, id: nat, a: Admitting)
    requires AdmittedSoFar(s, env, a) && AdmitOne(s, env, id, a).Ok?
    ensures AdmittedSoFar(s, env, AdmitOne(s, env, id, a).value)
  {
    var next := AdmitOne(s, env, id, a).value;
    forall k | k in s.pending && k !in next.pending
      ensures Eligible(s.config, s.limits, s.pending[k], k, s.status.attestedUpTo, env.now) && Entered(s, next, k)
    {
      if k in a.pending {
        var index := |a.leaves|;
        assert InsertedAt(s.leaves, next.leaves, s.pending[k], index);
        assert next.events[|next.events| - 1] == DepositAdmitted(k, index, index + 1);
      } else {
        StaysEntered(s, a, next, k);
      }
    }
  }

  lemma {:induction false} AdmitLoopEnters(s: VaultState, env: Env, ids: seq<nat>, a: Admitting)
    requires AdmittedSoFar(s, env, a) && AdmitLoop(s, env, ids, a).Ok?
    ensures AdmittedSoFar(s, env, AdmitLoop(s, env, ids, a).value)
    decreases |ids|
  {
    hide AdmittedSoFar, AdmitOne;
    if ids != [] {
      AdmitOneEnters(s, env, ids[0], a);
      AdmitLoopEnters(s, env, ids[1..], AdmitOne(s, env, ids[0], a).value);
    }
  }

  lemma EligibleIsDue(s: VaultState, now: nat, id: nat)
    requires id in s.pending
    ensures Eligible(s.config, s.limits, s.pending[id], id, s.status.attestedUpTo, now) <==> Due(s, now, id)
  {
  }

  lemma AdmitFate(s: VaultState, env: Env, ids: seq<nat>, id: nat)
    requires id in s.pending
    ensures Fate(s, env, Of(Admit(s, env, ids)), id)
  {
    if Admit(s, env, ids).result.Ok? {
      AdmitLoopEnters(s, env, ids, AdmitStart(s));
      EligibleIsDue(s, env.now, id);
    }
  }

  lemma OthersFate(s: VaultState, env: Env, call: Call, id: nat)
    requires id in s.pending && id < s.status.nextDepositId && !call.AdmitCall? && !call.ReleaseCall?
    ensures Fate(s, env, Step(s, env, call), id)
  {
  }

  lemma ReleaseFate(s: VaultState, env: Env, max: nat, id: nat)
    requires id in s.pending
    ensures Fate(s, env, Of(Release(s, env, max)), id)
  {
  }

  /** Every deposit that leaves the queue is admitted, attested and after its wait, or returned whole to its
      depositor; every other deposit stays as it was but for its flag. */
  lemma DepositFate(s: VaultState, env: Env, call: Call, id: nat)
    requires Solvent(s) && id in s.pending
    ensures Fate(s, env, Step(s, env, call), id)
  {
    hide Fate;
    match call
    case AdmitCall(ids) => AdmitFate(s, env, ids, id);
    case ReleaseCall(max) => ReleaseFate(s, env, max, id);
    case _ => OthersFate(s, env, call, id);
  }

  lemma AdmitAddsNone(s: VaultState, env: Env, ids: seq<nat>)
    ensures var t := Admit(s, env, ids).state;
            t.status.nextDepositId == s.status.nextDepositId && forall id :: id in t.pending ==> id in s.pending
  {
    if Admit(s, env, ids).result.Ok? {
      AdmitLoopAddsNone(s, env, ids, AdmitStart(s));
    }
  }

  lemma {:induction false} AdmitLoopAddsNone(s: VaultState, env: Env, ids: seq<nat>, a: Admitting)
    requires AdmitLoop(s, env, ids, a).Ok?
    ensures var b := AdmitLoop(s, env, ids, a).value;
            b.status.nextDepositId == a.status.nextDepositId && forall id :: id in b.pending ==> id in a.pending
    decreases |ids|
  {
    if ids != [] {
      AdmitLoopAddsNone(s, env, ids[1..], AdmitOne(s, env, ids[0], a).value);
    }
  }

  lemma ReleaseAddsNone(s: VaultState, env: Env, max: nat)
    requires Solvent(s)
    ensures var t := Release(s, env, max).state;
            t.status.nextDepositId == s.status.nextDepositId && t.pending == s.pending && t.nullifiers == s.nullifiers
  {
    if Release(s, env, max).result.Ok? {
      ReleaseLoopKeeps(s, env, max, ReleaseStart(s, env));
    }
  }

  ghost predicate OnlyNext(s: VaultState, t: VaultState) {
    && s.status.nextDepositId <= t.status.nextDepositId
    && forall id :: id in t.pending && id !in s.pending ==> id >= s.status.nextDepositId
  }

  lemma TransactAddsNone(s: VaultState, env: Env, proof: TxProof, ext: ExtData, submitter: Address)
    ensures OnlyNext(s, Transact(s, env, proof, ext, submitter).state)
  {
    hide TransactError;
  }

  lemma ShieldAddsNext(s: VaultState, env: Env, proof: TxProof, ext: ExtData, depositor: Address)
    ensures OnlyNext(s, Shield(s, env, proof, ext, depositor).state)
  {
  }

  lemma OthersAddNone(s: VaultState, env: Env, call: Call)
    requires !call.ShieldCall? && !call.TransactCall? && !call.ReleaseCall? && !call.AdmitCall?
    ensures OnlyNext(s, Step(s, env, call).state)
  {
  }

  /** A call adds a deposit only under the next ID. */
  lemma AddsOnlyNext(s: VaultState, env: Env, call: Call)
    requires Solvent(s)
    ensures OnlyNext(s, Step(s, env, call).state)
  {
    hide Solvent;
    match call
    case ShieldCall(proof, ext, depositor) => ShieldAddsNext(s, env, proof, ext, depositor);
    case TransactCall(proof, ext, submitter) => TransactAddsNone(s, env, proof, ext, submitter);
    case AdmitCall(ids) => AdmitAddsNone(s, env, ids);
    case ReleaseCall(max) => ReleaseAddsNone(s, env, max);
    case _ => OthersAddNone(s, env, call);
  }

  /** A deposit is resolved once: an ID given out that is not pending never is again. */
  lemma {:induction false} ResolvedForGood(s: VaultState, steps: seq<Timed>, m: nat, n: nat, id: nat)
    requires Solvent(s) && m <= n <= |steps|
    requires id < StateAt(s, steps, m).status.nextDepositId && id !in StateAt(s, steps, m).pending
    ensures id < StateAt(s, steps, n).status.nextDepositId && id !in StateAt(s, steps, n).pending
    decreases n - m
  {
    if m < n {
      hide Step, Solvent;
      ResolvedForGood(s, steps, m, n - 1, id);
      RunSolvent(s, steps, n - 1);
      AddsOnlyNext(StateAt(s, steps, n - 1), steps[n - 1].env, steps[n - 1].call);
    }
  }

  // ---------------------------------------------------------------------------------------------
  // Nullifiers

  /** The nullifiers a call's events report as spent. */
  ghost function SpentIn(events: seq<Event>): set<Field> {
    set i | 0 <= i < |events| && events[i].NewNullifier? :: events[i].nullifier
  }

  predicate NoneTwice(events: seq<Event>) {
    forall i, j :: 0 <= i < j < |events| && events[i].NewNullifier? && events[j].NewNullifier? ==>
      events[i].nullifier != events[j].nullifier
  }

  /** A call spends only unspent nullifiers, each once, and remembers exactly those. */
  ghost predicate SpendsFresh(s: VaultState, after: Effect) {
    && SpentIn(after.events) !! s.nullifiers
    && NoneTwice(after.events)
    && after.state.nullifiers == s.nullifiers + SpentIn(after.events)
  }

  predicate SpendsNothing(events: seq<Event>) {
    forall i :: 0 <= i < |events| ==> !events[i].NewNullifier?
  }

  lemma NothingIsFresh(s: VaultState, after: Effect)
    requires SpendsNothing(after.events) && after.state.nullifiers == s.nullifiers
    ensures SpendsFresh(s, after)
  {
    assert SpentIn(after.events) == {};
  }

  lemma {:induction false} ReleaseLoopSpendsNothing(s: VaultState, env: Env, max: nat, r: Releasing)
    requires ReleaseLoop(s, env, max, r).Ok? && SpendsNothing(r.events)
    ensures SpendsNothing(ReleaseLoop(s, env, max, r).value.events)
    decreases max - r.count
  {
    hide ReleasePlan;
    if r.count < max && r.status.exitHead < r.status.exitTail && ReleaseOne(s, env, r).Next? {
      ReleaseLoopSpendsNothing(s, env, max, ReleaseOne(s, env, r).r);
    }
  }

  lemma {:induction false} AdmitLoopSpendsNothing(s: VaultState, env: Env, ids: seq<nat>, a: Admitting)
    requires AdmitLoop(s, env, ids, a).Ok? && SpendsNothing(a.events)
    ensures SpendsNothing(AdmitLoop(s, env, ids, a).value.events)
    decreases |ids|
  {
    if ids != [] {
      AdmitLoopSpendsNothing(s, env, ids[1..], AdmitOne(s, env, ids[0], a).value);
    }
  }

  lemma ReleaseSpendsNothing(s: VaultState, env: Env, max: nat)
    requires Solvent(s)
    ensures SpendsFresh(s, Of(Release(s, env, max)))
  {
    if Release(s, env, max).result.Ok? {
      ReleaseLoopSpendsNothing(s, env, max, ReleaseStart(s, env));
    }
    ReleaseAddsNone(s, env, max);
    NothingIsFresh(s, Of(Release(s, env, max)));
  }

  lemma AdmitSpendsNothing(s: VaultState, env: Env, ids: seq<nat>)
    ensures SpendsFresh(s, Of(Admit(s, env, ids)))
  {
    if Admit(s, env, ids).result.Ok? {
      AdmitLoopSpendsNothing(s, env, ids, AdmitStart(s));
    }
    NothingIsFresh(s, Of(Admit(s, env, ids)));
  }

  /** The first two events spend two nullifiers, and no other does. */
  lemma TwoAreFresh(s: VaultState, after: Effect, a: Field, b: Field)
    requires |after.events| >= 2 && after.events[0] == NewNullifier(a) && after.events[1] == NewNullifier(b)
    requires forall i :: 2 <= i < |after.events| ==> !after.events[i].NewNullifier?
    requires a != b && a !in s.nullifiers && b !in s.nullifiers && after.state.nullifiers == s.nullifiers + {a, b}
    ensures SpendsFresh(s, after)
  {
    assert SpentIn(after.events) == {a, b};
  }

  lemma ShieldSpends(s: VaultState, env: Env, proof: TxProof, ext: ExtData, depositor: Address)
    ensures SpendsFresh(s, Of(Shield(s, env, proof, ext, depositor)))
  {
    var o := Shield(s, env, proof, ext, depositor);
    if o.result.Ok? {
      TwoAreFresh(s, Of(o), proof.inputNullifiers[0], proof.inputNullifiers[1]);
    } else {
      NothingIsFresh(s, Of(o));
    }
  }

  lemma TransactSpends(s: VaultState, env: Env, proof: TxProof, ext: ExtData, submitter: Address)
    ensures SpendsFresh(s, Of(Transact(s, env, proof, ext, submitter)))
  {
    var o := Transact(s, env, proof, ext, submitter);
    if o.result.Ok? {
      SettleReports(Spent(s, proof), env, ext);
      TwoAreFresh(s, Of(o), proof.inputNullifiers[0], proof.inputNullifiers[1]);
    } else {
      NothingIsFresh(s, Of(o));
    }
  }

  lemma SettleReports(s: VaultState, env: Env, ext: ExtData)
    requires Settle(s, env, ext).result.Ok?
    ensures SpendsNothing(Settle(s, env, ext).events) && Settle(s, env, ext).state.nullifiers == s.nullifiers
  {
  }

  lemma OthersSpendNothing(s: VaultState, env: Env, call: Call)
    requires !call.ShieldCall? && !call.TransactCall? && !call.ReleaseCall? && !call.AdmitCall?
    ensures SpendsFresh(s, Step(s, env, call))
  {
    NothingIsFresh(s, Step(s, env, call));
  }

  lemma StepSpends(s: VaultState, env: Env, call: Call)
    requires Solvent(s)
    ensures SpendsFresh(s, Step(s, env, call))
  {
    hide SpendsFresh, Solvent;
    match call
    case ShieldCall(proof, ext, depositor) => ShieldSpends(s, env, proof, ext, depositor);
    case TransactCall(proof, ext, submitter) => TransactSpends(s, env, proof, ext, submitter);
    case ReleaseCall(max) => ReleaseSpendsNothing(s, env, max);
    case AdmitCall(ids) => AdmitSpendsNothing(s, env, ids);
    case _ => OthersSpendNothing(s, env, call);
  }

  /** What a run spent stays spent. */
  lemma {:induction false} StaysSpent(s: VaultState, steps: seq<Timed>, m: nat, n: nat)
    requires Solvent(s) && m <= n <= |steps|
    ensures StateAt(s, steps, m).nullifiers <= StateAt(s, steps, n).nullifiers
    decreases n - m
  {
    if m < n {
      hide Step, Solvent;
      StaysSpent(s, steps, m, n - 1);
      RunSolvent(s, steps, n - 1);
      StepSpends(StateAt(s, steps, n - 1), steps[n - 1].env, steps[n - 1].call);
    }
  }

  /** No note is ever spent twice: over any run no two calls report the same nullifier, nor one call twice. */
  lemma NeverSpentTwice(s: VaultState, steps: seq<Timed>, i: nat, j: nat)
    requires Solvent(s) && i < j < |steps|
    ensures NoneTwice(EffectAt(s, steps, i).events)
    ensures SpentIn(EffectAt(s, steps, i).events) !! SpentIn(EffectAt(s, steps, j).events)
  {
    hide Step, Solvent, SpentIn;
    RunSolvent(s, steps, i);
    RunSolvent(s, steps, j);
    StepSpends(StateAt(s, steps, i), steps[i].env, steps[i].call);
    StepSpends(StateAt(s, steps, j), steps[j].env, steps[j].call);
    StaysSpent(s, steps, i + 1, j);
  }

  /** Value leaves the notes only with a proof: a transaction that changes anything was proved, over one of
      the recent roots, for exactly this data and this amount. */
  lemma OnlyProvenSpends(s: VaultState, env: Env, proof: TxProof, ext: ExtData, submitter: Address)
    requires Of(Transact(s, env, proof, ext, submitter)) != Effect(s, [], [])
    ensures s.host.verifies(proof) && proof.extDataHash == s.host.extDataHash(ext)
    ensures proof.root != 0 && VaultTree.RecentRoot(s.host.compress, s.host.depth, s.leaves, proof.root)
    ensures proof.publicAmount == (if ext.extAmount - ext.fee < 0 then s.host.modulus + ext.extAmount - ext.fee else ext.extAmount - ext.fee)
    ensures ext.vault == s.host.vault && ext.networkId == s.host.networkId && env.sequence <= ext.deadline
    ensures ext.extAmount <= 0 <= ext.fee && ext.fee - ext.extAmount <= Notes(s.status)
  {
  }
}
