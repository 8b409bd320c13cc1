/** What every step of the vault keeps: the running totals agree with the keyed entries, every party
    is owed what the entries say, and the value of the notes is never negative. */
module VaultInvariant {
  import opened Common
  import opened VaultTypes
  import opened VaultSpec
  import opened Sums
  import VaultTree

  function Amount(deposit: PendingDeposit): int {
    deposit.amount
  }

  ghost predicate GoodDeposit(host: Host, deposit: PendingDeposit) {
    deposit.amount > 0 && deposit.depositor != host.vault
  }

  /** What a queued or stranded exit is owed: something, but never more than one day's window, to
      parties other than the vault itself. */
  ghost predicate GoodExit(host: Host, maxDailyOutflow: int, exit: Exit) {
    && exit.payout >= 0 && exit.fee >= 0
    && 0 < Owed(exit) <= maxDailyOutflow
    && exit.recipient.address != host.vault && exit.relayer != host.vault
  }

  ghost predicate EntryQueue(host: Host, next: nat, attested: nat, total: int, pending: map<nat, PendingDeposit>) {
    && (forall id :: id in pending ==> 1 <= id < next && GoodDeposit(host, pending[id]))
    && total == SumBelow(pending, Amount, next)
    && attested < next
  }

  ghost predicate ExitQueue(host: Host, m: int, head: nat, tail: nat, total: int, exits: map<nat, Exit>, stranded: map<nat, Exit>) {
    && 1 <= head <= tail
    && (forall id :: id in exits <==> head <= id < tail)
    && (forall id :: id in exits ==> GoodExit(host, m, exits[id]))
    && (forall id :: id in stranded ==> 1 <= id < head && GoodExit(host, m, stranded[id]))
    && total == SumBelow(exits, Owed, tail) + SumBelow(stranded, Owed, tail)
  }

  /** The vault is solvent: its totals are the sums of its entries and cover all of them. */
  ghost predicate Solvent(s: VaultState) {
    && LimitsError(s.limits) == None
    && EntryQueue(s.host, s.status.nextDepositId, s.status.attestedUpTo, s.status.pendingTotal, s.pending)
    && ExitQueue(s.host, s.limits.maxDailyOutflow, s.status.exitHead, s.status.exitTail, s.status.queuedTotal, s.exits, s.stranded)
    && Notes(s.status) >= 0
    && s.status.tvl <= 7 * s.limits.maxDailyOutflow
    && 0 <= s.status.outflow <= s.limits.maxDailyOutflow
  }

  /** What the vault holds beyond what it keeps for users. */
  function Surplus(s: VaultState): int {
    s.balance - s.status.tvl
  }

  /** One step keeps the vault solvent, moves its balance with its total, reports every movement of
      the asset, and never lowers the daily window. */
  ghost predicate Keeps(s: VaultState, after: Effect) {
    && Solvent(after.state)
    && after.state.host == s.host && after.state.config == s.config
    && Surplus(after.state) == Surplus(s)
    && after.state.balance == s.balance + Gained(s.host.vault, after.transfers)
    && s.limits.maxDailyOutflow <= after.state.limits.maxDailyOutflow
  }

  lemma DeployedSolvent(host: Host, config: Config, limits: Limits)
    requires LimitsError(limits) == None
    ensures Solvent(Deployed(host, config, limits))
  {
    assert SumBelow(map[], Amount, 1) == SumBelow(map[], Amount, 0) + 0;
    assert SumBelow(map[], Owed, 1) == SumBelow(map[], Owed, 0) + 0;
  }

  lemma TvlIsNonNegative(s: VaultState)
    requires Solvent(s)
    ensures s.status.pendingTotal >= 0 && s.status.queuedTotal >= 0 && s.status.tvl >= 0
  {
    SumNonNegative(s.pending, Amount, s.status.nextDepositId);
    SumNonNegative(s.exits, Owed, s.status.exitTail);
    SumNonNegative(s.stranded, Owed, s.status.exitTail);
  }

  lemma ShieldKeeps(s: VaultState, env: Env, proof: TxProof, ext: ExtData, depositor: Address)
    requires Solvent(s)
    ensures Keeps(s, Of(Shield(s, env, proof, ext, depositor)))
  {
    var o := Shield(s, env, proof, ext, depositor);
    if o.result.Ok? {
      var id := s.status.nextDepositId;
      assert o.transfers[..|o.transfers| - 1] == [];
      SumChange(s.pending, o.state.pending, Amount, id, id);
      assert SumBelow(o.state.pending, Amount, id + 1) == SumBelow(o.state.pending, Amount, id) + ext.extAmount;
    }
  }

  lemma GainedByPayments(vault: Address, before: seq<Transfer>, to: Address, amount: int, exitId: Option<nat>)
    requires to != vault && amount >= 0
    ensures var after := before + Payment(to, amount, exitId);
            Gained(vault, after) == Gained(vault, before) - amount && PaidOut(after) == PaidOut(before) + amount
  {
    var after := before + Payment(to, amount, exitId);
    if amount > 0 {
      assert after[..|after| - 1] == before;
    } else {
      assert after == before;
    }
  }

  /** Queueing an exit at the tail. */
  lemma QueuesAtTail(host: Host, m: int, head: nat, tail: nat, total: int, exits: map<nat, Exit>, stranded: map<nat, Exit>, exit: Exit)
    requires ExitQueue(host, m, head, tail, total, exits, stranded) && GoodExit(host, m, exit)
    ensures ExitQueue(host, m, head, tail + 1, total + Owed(exit), exits[tail := exit], stranded)
  {
    var after := exits[tail := exit];
    SumChange(exits, after, Owed, tail, tail);
    assert SumBelow(after, Owed, tail + 1) == SumBelow(after, Owed, tail) + Owed(exit);
    assert SumBelow(stranded, Owed, tail + 1) == SumBelow(stranded, Owed, tail) + At(stranded, Owed, tail);
  }

  lemma SettleKeeps(s: VaultState, env: Env, ext: ExtData)
    requires Solvent(s) && Settle(s, env, ext).result.Ok?
    requires ext.extAmount <= 0 <= ext.fee && BindingError(s.host, ext) == None
    requires ext.fee - ext.extAmount <= Notes(s.status) && ext.fee - ext.extAmount <= s.limits.maxDailyOutflow
    ensures Keeps(s, Of(Settle(s, env, ext)))
    ensures PaidOut(Settle(s, env, ext).transfers) == s.status.tvl - Settle(s, env, ext).state.status.tvl
  {
    hide ExitQueue, EntryQueue, LimitsError, Payment;
    var payout, outflow := -ext.extAmount, ext.fee - ext.extAmount;
    if MustQueue(s.status, s.limits, env.Day(), outflow) {
      QueuesAtTail(s.host, s.limits.maxDailyOutflow, s.status.exitHead, s.status.exitTail, s.status.queuedTotal,
                   s.exits, s.stranded, Exit(ext.recipient, payout, ext.relayer, ext.fee, env.now));
    } else {
      PaymentsOf(s.host.vault, ext);
    }
  }

  lemma PaymentsOf(vault: Address, ext: ExtData)
    requires ext.extAmount <= 0 <= ext.fee && ext.recipient.address != vault && ext.relayer != vault
    ensures var transfers := Payment(ext.recipient.address, -ext.extAmount, None) + Payment(ext.relayer, ext.fee, None);
            PaidOut(transfers) == ext.fee - ext.extAmount && Gained(vault, transfers) == ext.extAmount - ext.fee
  {
    var first := Payment(ext.recipient.address, -ext.extAmount, None);
    GainedByPayments(vault, [], ext.recipient.address, -ext.extAmount, None);
    assert [] + first == first;
    GainedByPayments(vault, first, ext.relayer, ext.fee, None);
  }

  lemma TransactKeeps(s: VaultState, env: Env, proof: TxProof, ext: ExtData, submitter: Address)
    requires Solvent(s)
    ensures Keeps(s, Of(Transact(s, env, proof, ext, submitter)))
  {
    if Transact(s, env, proof, ext, submitter).result.Ok? {
      SettleKeeps(Spent(s, proof), env, ext);
    }
  }

  lemma ClaimKeeps(s: VaultState, env: Env, id: nat)
    requires Solvent(s)
    ensures Keeps(s, Of(Claim(s, env, id)))
  {
    var o := Claim(s, env, id);
    if o.result.Ok? {
      var exit, newId := s.stranded[id], s.status.exitTail;
      var payout, fee := ClaimablePayout(s.host, env, exit), ClaimableFee(s.host, env, exit);
      SumChange(s.stranded, o.state.stranded, Owed, newId, id);
      assert At(s.stranded, Owed, id) - At(o.state.stranded, Owed, id) == payout + fee;
      QueuesAtTail(s.host, s.limits.maxDailyOutflow, s.status.exitHead, newId, s.status.queuedTotal - payout - fee,
                   s.exits, o.state.stranded, o.state.exits[newId]);
    }
  }

  lemma AttestKeeps(s: VaultState, env: Env, upTo: nat)
    requires Solvent(s)
    ensures Keeps(s, Of(Attest(s, env, upTo)))
  {
  }

  lemma FlagKeeps(s: VaultState, env: Env, id: nat, reason: nat)
    requires Solvent(s)
    ensures Keeps(s, Of(Flag(s, env, id, reason)))
  {
    var o := Flag(s, env, id, reason);
    if o.result.Ok? {
      SumChange(s.pending, o.state.pending, Amount, s.status.nextDepositId, id);
    }
  }

  lemma UnflagKeeps(s: VaultState, env: Env, id: nat)
    requires Solvent(s)
    ensures Keeps(s, Of(Unflag(s, env, id)))
  {
    var o := Unflag(s, env, id);
    if o.result.Ok? {
      SumChange(s.pending, o.state.pending, Amount, s.status.nextDepositId, id);
    }
  }

  lemma ReturnKeeps(s: VaultState, env: Env, id: nat, reason: nat)
    requires Solvent(s) && id in s.pending
    ensures Keeps(s, Of(ReturnDeposit(s, env, id, reason)))
  {
    var o := ReturnDeposit(s, env, id, reason);
    if o.result.Ok? {
      assert o.transfers[..|o.transfers| - 1] == [];
      SumChange(s.pending, o.state.pending, Amount, s.status.nextDepositId, id);
    }
  }

  /** An admit keeps the entry queue; what leaves it becomes the value of notes. */
  ghost predicate AdmitHolds(s: VaultState, a: Admitting) {
    && EntryQueue(s.host, a.status.nextDepositId, a.status.attestedUpTo, a.status.pendingTotal, a.pending)
    && a.status == s.status.(pendingTotal := a.status.pendingTotal)
    && a.status.pendingTotal <= s.status.pendingTotal
  }

  lemma {:induction false} AdmitLoopKeeps(s: VaultState, env: Env, ids: seq<nat>, a: Admitting)
    requires AdmitHolds(s, a) && AdmitLoop(s, env, ids, a).Ok?
    ensures AdmitHolds(s, AdmitLoop(s, env, ids, a).value)
    decreases |ids|
  {
    if ids != [] {
      var next := AdmitOne(s, env, ids[0], a).value;
      SumChange(a.pending, next.pending, Amount, s.status.nextDepositId, ids[0]);
      AdmitLoopKeeps(s, env, ids[1..], next);
    }
  }

  lemma AdmitKeeps(s: VaultState, env: Env, ids: seq<nat>)
    requires Solvent(s)
    ensures Keeps(s, Of(Admit(s, env, ids)))
  {
    if Admit(s, env, ids).result.Ok? {
      AdmitLoopKeeps(s, env, ids, AdmitStart(s));
    }
  }

  // ---------------------------------------------------------------------------------------------
  // Release

  ghost predicate RunQueue(host: Host, m: int, r: Releasing) {
    ExitQueue(host, m, r.status.exitHead, r.status.exitTail, r.status.queuedTotal, r.exits, r.stranded)
  }

  /** What a release keeps from step to step: the queue, the value of the notes, and an account of
      everything it paid. */
  ghost predicate ReleaseHolds(s: VaultState, env: Env, r: Releasing) {
    && (r.count == 0 ==> r == ReleaseStart(s, env))
    && RunQueue(s.host, s.limits.maxDailyOutflow, r)
    && r.status == s.status.(tvl := r.status.tvl, queuedTotal := r.status.queuedTotal, exitHead := r.status.exitHead)
    && s.status.exitHead <= r.status.exitHead
    && Notes(r.status) == Notes(s.status)
    && PaidOut(r.transfers) == s.status.tvl - r.status.tvl == r.today - s.status.OutflowOn(env.Day()) >= 0
    && Gained(s.host.vault, r.transfers) == r.balance - s.balance == r.status.tvl - s.status.tvl
    && 0 <= r.today <= s.limits.maxDailyOutflow
  }

  /** The head leaves the queue, paid in full or with `left` stranded. */
  lemma HeadLeaves(host: Host, m: int, head: nat, tail: nat, total: int, exits: map<nat, Exit>, stranded: map<nat, Exit>, left: Option<Exit>)
    requires ExitQueue(host, m, head, tail, total, exits, stranded) && head < tail
    requires left.Some? ==> GoodExit(host, m, left.value)
    ensures var kept := if left.Some? then Owed(left.value) else 0;
            ExitQueue(host, m, head + 1, tail, total - Owed(exits[head]) + kept, exits - {head},
                      if left.Some? then stranded[head := left.value] else stranded)
  {
    SumChange(exits, exits - {head}, Owed, tail, head);
    if left.Some? {
      SumChange(stranded, stranded[head := left.value], Owed, tail, head);
    }
  }

  /** The head stays in the queue with what is left of it. */
  lemma HeadStays(host: Host, m: int, head: nat, tail: nat, total: int, exits: map<nat, Exit>, stranded: map<nat, Exit>, left: Exit)
    requires ExitQueue(host, m, head, tail, total, exits, stranded) && head < tail
    requires GoodExit(host, m, left)
    ensures ExitQueue(host, m, head, tail, total - Owed(exits[head]) + Owed(left), exits[head := left], stranded)
  {
    SumChange(exits, exits[head := left], Owed, tail, head);
  }

  /** The head of the queue after its step, whatever the transfers did. */
  lemma HandledKeepsQueue(host: Host, m: int, r: Releasing, paid: Releasing, payout: int, fee: int, payoutPaid: int, feePaid: int)
    requires RunQueue(host, m, r) && r.status.exitHead < r.status.exitTail
    requires r.status.exitHead in r.exits && GoodExit(host, m, r.exits[r.status.exitHead])
    requires var exit := r.exits[r.status.exitHead];
             && 0 <= payout <= exit.payout && 0 <= fee <= exit.fee
             && (payoutPaid == 0 || payoutPaid == payout) && (feePaid == 0 || feePaid == fee)
    requires paid.exits == r.exits && paid.stranded == r.stranded
    requires paid.status.exitHead == r.status.exitHead && paid.status.exitTail == r.status.exitTail
    requires paid.status.queuedTotal == r.status.queuedTotal - (payoutPaid + feePaid)
    ensures var id := r.status.exitHead;
            var next := Handled(paid, id, r.exits[id], payout, fee, payoutPaid, feePaid);
            && RunQueue(host, m, next)
            && next.status == paid.status.(exitHead := next.status.exitHead)
            && id <= next.status.exitHead
            && next == paid.(status := next.status, exits := next.exits, stranded := next.stranded, events := next.events)
  {
    hide ExitQueue;
    var id, tail, total, exit := r.status.exitHead, r.status.exitTail, r.status.queuedTotal, r.exits[r.status.exitHead];
    var left := exit.(payout := exit.payout - payoutPaid, fee := exit.fee - feePaid);
    if payoutPaid < payout || feePaid < fee {
      HeadLeaves(host, m, id, tail, total, r.exits, r.stranded, Some(left));
    } else if left.payout == 0 && left.fee == 0 {
      HeadLeaves(host, m, id, tail, total, r.exits, r.stranded, None);
    } else {
      HeadStays(host, m, id, tail, total, r.exits, r.stranded, left);
    }
  }

  /** What a step tries to pay fits the window and the exit, and fills one of the two. */
  lemma PlanFits(s: VaultState, env: Env, r: Releasing)
    requires ReleaseHolds(s, env, r) && r.status.exitHead < r.status.exitTail && ReleasePlan(s, env, r).Try?
    ensures var plan, room := ReleasePlan(s, env, r), s.limits.maxDailyOutflow - r.today;
            && r.status.exitHead in r.exits && plan.exit == r.exits[r.status.exitHead]
            && GoodExit(s.host, s.limits.maxDailyOutflow, plan.exit)
            && 0 <= plan.payout <= plan.exit.payout && 0 <= plan.fee <= plan.exit.fee
            && 0 < plan.payout + plan.fee <= room
            && (plan.payout + plan.fee == Owed(plan.exit) || plan.payout + plan.fee == room)
            && (plan.payout < plan.exit.payout ==> plan.fee == 0)
  {
  }

  /** The two payments of a step move the total, the balance and the window alike. */
  lemma PaymentsHold(s: VaultState, env: Env, r: Releasing, exit: Exit, available: int, payoutPaid: int, feePaid: int)
    requires ReleaseHolds(s, env, r) && GoodExit(s.host, s.limits.maxDailyOutflow, exit)
    requires 0 <= payoutPaid && 0 <= feePaid && r.today + payoutPaid + feePaid <= s.limits.maxDailyOutflow
    ensures var p := PaidFor(s.host, r, exit, available, payoutPaid, feePaid);
            && PaidOut(p.transfers) == s.status.tvl - p.status.tvl == p.today - s.status.OutflowOn(env.Day()) >= 0
            && Gained(s.host.vault, p.transfers) == p.balance - s.balance == p.status.tvl - s.status.tvl
            && 0 <= p.today <= s.limits.maxDailyOutflow
            && Notes(p.status) == Notes(s.status)
  {
    var id := r.status.exitHead;
    GainedByPayments(s.host.vault, r.transfers, exit.recipient.address, payoutPaid, Some(id));
    var first := r.transfers + Payment(exit.recipient.address, payoutPaid, Some(id));
    GainedByPayments(s.host.vault, first, exit.relayer, feePaid, Some(id));
  }

  lemma ReleaseOneKeeps(s: VaultState, env: Env, r: Releasing)
    requires ReleaseHolds(s, env, r) && r.status.exitHead < r.status.exitTail && ReleaseOne(s, env, r).Next?
    ensures ReleaseHolds(s, env, ReleaseOne(s, env, r).r)
    ensures ReleaseOne(s, env, r).r.count == r.count + 1
  {
    hide ReleasePlan, Handled, PaidOut, Gained, RunQueue, GoodExit, TryPay, Debit, Payment;
    PlanFits(s, env, r);
    var plan, id := ReleasePlan(s, env, r), r.status.exitHead;
    var payoutPaid := TryPay(env, 2 * r.count, r.balance, plan.payout);
    var feePaid := TryPay(env, 2 * r.count + 1, Debit(s.host, r.balance, plan.exit.recipient.address, payoutPaid), plan.fee);
    var paid := PaidFor(s.host, r, plan.exit, plan.available, payoutPaid, feePaid);
    PaymentsHold(s, env, r, plan.exit, plan.available, payoutPaid, feePaid);
    HandledKeepsQueue(s.host, s.limits.maxDailyOutflow, r, paid, plan.payout, plan.fee, payoutPaid, feePaid);
  }

  lemma {:induction false} ReleaseLoopKeeps(s: VaultState, env: Env, max: nat, r: Releasing)
    requires ReleaseHolds(s, env, r) && ReleaseLoop(s, env, max, r).Ok?
    ensures ReleaseHolds(s, env, ReleaseLoop(s, env, max, r).value)
    decreases max - r.count
  {
    hide ReleaseHolds;
    hide ReleasePlan;
    hide Handled;
    if r.count < max && r.status.exitHead < r.status.exitTail && ReleaseOne(s, env, r).Next? {
      ReleaseOneKeeps(s, env, r);
      ReleaseLoopKeeps(s, env, max, ReleaseOne(s, env, r).r);
    }
  }

  lemma ReleaseKeeps(s: VaultState, env: Env, max: nat)
    requires Solvent(s)
    ensures Keeps(s, Of(Release(s, env, max)))
    ensures PaidOut(Release(s, env, max).transfers) == s.status.tvl - Release(s, env, max).state.status.tvl
  {
    hide ExitQueue, EntryQueue, LimitsError;
    if Release(s, env, max).result.Ok? {
      ReleaseLoopKeeps(s, env, max, ReleaseStart(s, env));
    }
  }
}
