/** Runs of the vault: any sequence of calls, each at its own time and with its own surroundings. */
module VaultRuns {
  import opened Common
  import opened VaultTypes
  import opened VaultSpec
  import opened VaultInvariant

  datatype Timed = Timed(env: Env, call: Call)

  /** The state after the first `n` calls. */
  ghost function StateAt(s: VaultState, steps: seq<Timed>, n: nat): VaultState
    requires n <= |steps|
    decreases n, 0
  {
    if n == 0 then s else EffectAt(s, steps, n - 1).state
  }

  ghost function EffectAt(s: VaultState, steps: seq<Timed>, i: nat): Effect
    requires i < |steps|
    decreases i, 1
  {
    Step(StateAt(s, steps, i), steps[i].env, steps[i].call)
  }

  /** Time never goes back. */
  ghost predicate Ordered(steps: seq<Timed>) {
    forall i, j :: 0 <= i < j < |steps| ==> steps[i].env.now <= steps[j].env.now
  }

  lemma StepKeeps(s: VaultState, env: Env, call: Call)
    requires Solvent(s) && !call.BalanceMoves?
    ensures Keeps(s, Step(s, env, call))
  {
    hide Solvent, Keeps;
    match call
    case ShieldCall(proof, ext, depositor) => ShieldKeeps(s, env, proof, ext, depositor);
    case TransactCall(proof, ext, submitter) => TransactKeeps(s, env, proof, ext, submitter);
    case ReleaseCall(max) => ReleaseKeeps(s, env, max);
    case ClaimCall(id) => ClaimKeeps(s, env, id);
    case AttestCall(upTo) => AttestKeeps(s, env, upTo);
    case FlagCall(id, reason) => FlagKeeps(s, env, id, reason);
    case UnflagCall(id) => UnflagKeeps(s, env, id);
    case AdmitCall(ids) => AdmitKeeps(s, env, ids);
    case CancelCall(id) => CancelKeeps(s, env, id);
    case RefundCall(id) => RefundKeeps(s, env, id);
    case _ => GuardianKeeps(s, env, call);
  }

  lemma CancelKeeps(s: VaultState, env: Env, id: nat)
    requires Solvent(s)
    ensures Keeps(s, Of(Cancel(s, env, id)))
  {
    if Cancel(s, env, id).result.Ok? {
      ReturnKeeps(s, env, id, 0);
    }
  }

  lemma RefundKeeps(s: VaultState, env: Env, id: nat)
    requires Solvent(s)
    ensures Keeps(s, Of(Refund(s, env, id)))
  {
    if Refund(s, env, id).result.Ok? {
      ReturnKeeps(s, env, id, s.pending[id].flag.value);
    }
  }

  lemma GuardianKeeps(s: VaultState, env: Env, call: Call)
    requires Solvent(s)
    requires call.SetPauseCall? || call.HaltCall? || call.ResumeCall? || call.SetLimitsCall? || call.ApplyLimitsCall? || call.CancelLimitsCall?
    ensures Keeps(s, Step(s, env, call))
  {
    hide ExitQueue, EntryQueue, LimitsError;
    var after := Step(s, env, call).state;
    if after.limits != s.limits {
      assert ChangeError(s.limits, after.limits) == None;
      WiderWindow(s, after.limits);
    }
  }

  /** New limits may lower the cap below what the vault holds, but never its daily window. */
  lemma WiderWindow(s: VaultState, limits: Limits)
    requires Solvent(s) && ChangeError(s.limits, limits) == None
    ensures LimitsError(limits) == None && s.limits.maxDailyOutflow <= limits.maxDailyOutflow
    ensures ExitQueue(s.host, limits.maxDailyOutflow, s.status.exitHead, s.status.exitTail, s.status.queuedTotal, s.exits, s.stranded)
  {
  }

  /** What donations and clawbacks moved. */
  ghost function Moved(steps: seq<Timed>, n: nat): int
    requires n <= |steps|
  {
    if n == 0 then 0
    else Moved(steps, n - 1) + if steps[n - 1].call.BalanceMoves? then steps[n - 1].call.amount else 0
  }

  /** In every reachable state the vault is solvent, and its balance covers everything it keeps for
      users up to what its issuer clawed back: no call of its own ever changes the surplus. */
  lemma {:induction false} RunSolvent(s: VaultState, steps: seq<Timed>, n: nat)
    requires Solvent(s) && n <= |steps|
    ensures Solvent(StateAt(s, steps, n))
    ensures Surplus(StateAt(s, steps, n)) == Surplus(s) + Moved(steps, n)
    ensures StateAt(s, steps, n).host == s.host && StateAt(s, steps, n).config == s.config
    ensures s.limits.maxDailyOutflow <= StateAt(s, steps, n).limits.maxDailyOutflow
  {
    if n > 0 {
      RunSolvent(s, steps, n - 1);
      var before := StateAt(s, steps, n - 1);
      hide Step;
      if steps[n - 1].call.BalanceMoves? {
        BalanceMoveKeeps(before, steps[n - 1].env, steps[n - 1].call.amount);
      } else {
        StepKeeps(before, steps[n - 1].env, steps[n - 1].call);
      }
    }
  }

  lemma BalanceMoveKeeps(s: VaultState, env: Env, amount: int)
    requires Solvent(s)
    ensures var after := Step(s, env, BalanceMoves(amount)).state;
            Solvent(after) && after == s.(balance := s.balance + amount)
  {
  }

  /** From its deployment on, the vault is solvent and holds at least what it keeps for users unless
      its issuer clawed back more than it was given. */
  lemma DeployedRunSolvent(host: Host, config: Config, limits: Limits, steps: seq<Timed>, n: nat)
    requires LimitsError(limits) == None && n <= |steps|
    ensures var s := StateAt(Deployed(host, config, limits), steps, n);
            && Solvent(s)
            && s.balance - s.status.tvl == Moved(steps, n)
            && s.status.tvl <= 7 * s.limits.maxDailyOutflow
  {
    DeployedSolvent(host, config, limits);
    RunSolvent(Deployed(host, config, limits), steps, n);
  }

  // ---------------------------------------------------------------------------------------------
  // The daily window

  /** A call's payments are added to the window of its day, and no later window is touched. */
  ghost predicate WindowAccounts(s: VaultState, env: Env, after: Effect) {
    && PaidOut(after.transfers) >= 0
    && after.state.status.outflowDay <= env.Day()
    && forall day: nat :: day >= env.Day() ==>
         after.state.status.OutflowOn(day) ==
         s.status.OutflowOn(day) + if day == env.Day() then PaidOut(after.transfers) else 0
  }

  lemma SettleAccounts(s: VaultState, env: Env, ext: ExtData)
    requires Solvent(s) && s.status.outflowDay <= env.Day() && Settle(s, env, ext).result.Ok?
    requires ext.extAmount <= 0 <= ext.fee && BindingError(s.host, ext) == None
    requires ext.fee - ext.extAmount <= Notes(s.status) && ext.fee - ext.extAmount <= s.limits.maxDailyOutflow
    ensures WindowAccounts(s, env, Of(Settle(s, env, ext)))
  {
    SettleKeeps(s, env, ext);
    hide Solvent, PaidOut, Keeps;
  }

  lemma ReleaseAccounts(s: VaultState, env: Env, max: nat)
    requires Solvent(s) && s.status.outflowDay <= env.Day()
    ensures WindowAccounts(s, env, Of(Release(s, env, max)))
  {
    if Release(s, env, max).result.Ok? {
      ReleaseLoopKeeps(s, env, max, ReleaseStart(s, env));
    }
  }

  lemma TransactAccounts(s: VaultState, env: Env, proof: TxProof, ext: ExtData, submitter: Address)
    requires Solvent(s) && s.status.outflowDay <= env.Day()
    ensures WindowAccounts(s, env, Of(Transact(s, env, proof, ext, submitter)))
  {
    if Transact(s, env, proof, ext, submitter).result.Ok? {
      SettleAccounts(Spent(s, proof), env, ext);
    }
    hide Settle, Solvent;
  }

  lemma AdmitAccounts(s: VaultState, env: Env, ids: seq<nat>)
    requires Solvent(s) && s.status.outflowDay <= env.Day()
    ensures WindowAccounts(s, env, Of(Admit(s, env, ids)))
  {
    if Admit(s, env, ids).result.Ok? {
      AdmitLoopKeeps(s, env, ids, AdmitStart(s));
    }
  }

  lemma StepAccounts(s: VaultState, env: Env, call: Call)
    requires Solvent(s) && s.status.outflowDay <= env.Day()
    ensures WindowAccounts(s, env, Step(s, env, call))
  {
    hide WindowAccounts, Solvent;
    match call
    case TransactCall(proof, ext, submitter) => TransactAccounts(s, env, proof, ext, submitter);
    case ReleaseCall(max) => ReleaseAccounts(s, env, max);
    case AdmitCall(ids) => AdmitAccounts(s, env, ids);
    case _ => OthersPayNothing(s, env, call);
  }

  lemma OthersPayNothing(s: VaultState, env: Env, call: Call)
    requires !call.TransactCall? && !call.ReleaseCall? && !call.AdmitCall? && s.status.outflowDay <= env.Day()
    ensures WindowAccounts(s, env, Step(s, env, call))
  {
    var transfers := Step(s, env, call).transfers;
    assert transfers != [] ==> |transfers| == 1 && transfers[..|transfers| - 1] == [];
  }

  /** Everything the calls of one UTC day paid out, in transactions and releases. */
  ghost function PaidOn(s: VaultState, steps: seq<Timed>, n: nat, day: nat): int
    requires n <= |steps|
  {
    if n == 0 then 0
    else PaidOn(s, steps, n - 1, day) +
         if steps[n - 1].env.Day() == day then PaidOut(EffectAt(s, steps, n - 1).transfers) else 0
  }

  /** No UTC day pays out more than the daily window, and the vault's own record of a day that is not
      over is what the day paid. */
  lemma {:induction false} DayIsCapped(s: VaultState, steps: seq<Timed>, n: nat, day: nat)
    requires Solvent(s) && s.status.outflow == 0 && s.status.outflowDay == 0
    requires n <= |steps| && Ordered(steps)
    ensures 0 <= PaidOn(s, steps, n, day) <= StateAt(s, steps, n).limits.maxDailyOutflow
    ensures n == 0 || steps[n - 1].env.Day() <= day ==> PaidOn(s, steps, n, day) == StateAt(s, steps, n).status.OutflowOn(day)
    ensures n > 0 ==> StateAt(s, steps, n).status.outflowDay <= steps[n - 1].env.Day()
  {
    hide Step, Solvent, PaidOut;
    RunSolvent(s, steps, n);
    WindowBounds(StateAt(s, steps, n), day);
    if n > 0 {
      DayIsCapped(s, steps, n - 1, day);
      RunSolvent(s, steps, n - 1);
      var before, env, call := StateAt(s, steps, n - 1), steps[n - 1].env, steps[n - 1].call;
      if n > 1 {
        DaysInOrder(steps, n - 2, n - 1);
      }
      StepAccounts(before, env, call);
      StepWidens(before, env, call);
    }
  }

  lemma WindowBounds(s: VaultState, day: nat)
    requires Solvent(s)
    ensures 0 <= s.status.OutflowOn(day) <= s.limits.maxDailyOutflow
  {
  }

  lemma DaysInOrder(steps: seq<Timed>, i: nat, j: nat)
    requires Ordered(steps) && i < j < |steps|
    ensures steps[i].env.Day() <= steps[j].env.Day()
  {
    var a, b := steps[i].env.now, steps[j].env.now;
    assert a <= b;
  }

  /** No call lowers the daily window. */
  lemma StepWidens(s: VaultState, env: Env, call: Call)
    requires Solvent(s)
    ensures s.limits.maxDailyOutflow <= Step(s, env, call).state.limits.maxDailyOutflow
  {
    hide Step;
    if call.BalanceMoves? {
      BalanceMoveKeeps(s, env, call.amount);
    } else {
      StepKeeps(s, env, call);
    }
  }

  // ---------------------------------------------------------------------------------------------
  // First in, first out

  /** The exit a transfer pays, or -1. */
  function ExitOf(t: Transfer): int {
    if t.Paid? && t.exitId.Some? then t.exitId.value else -1
  }

  /** Every payment went to the exit that was at the head at the time, in ID order; one to the exit
      still at the head filled the window. */
  ghost predicate PaymentsInTurn(from: nat, head: nat, full: bool, transfers: seq<Transfer>) {
    && (forall i :: 0 <= i < |transfers| ==> from <= ExitOf(transfers[i]) <= head)
    && (forall i, j :: 0 <= i < j < |transfers| ==> ExitOf(transfers[i]) <= ExitOf(transfers[j]))
    && (forall i :: 0 <= i < |transfers| && ExitOf(transfers[i]) == head ==> full)
  }

  /** An exit behind the head is untouched, and the head itself was paid in part only when that
      filled the window, which ends the release. */
  ghost predicate QueueInTurn(before: map<nat, Exit>, head: nat, full: bool, exits: map<nat, Exit>, events: seq<Event>) {
    && (forall id :: id in exits ==> id in before && (exits[id] != before[id] ==> id == head && full))
    && (forall i :: 0 <= i < |events| && events[i].ExitPaid? ==> i == |events| - 1 && events[i].id == head && full)
  }

  ghost predicate InTurn(s: VaultState, r: Releasing) {
    var full := r.today == s.limits.maxDailyOutflow;
    && s.status.exitHead <= r.status.exitHead
    && PaymentsInTurn(s.status.exitHead, r.status.exitHead, full, r.transfers)
    && QueueInTurn(s.exits, r.status.exitHead, full, r.exits, r.events)
  }

  lemma NextPaymentsInTurn(transfers: seq<Transfer>, from: nat, id: nat, head: nat, full: bool, a: Address, x: int, b: Address, y: int)
    requires from <= id && PaymentsInTurn(from, id, false, transfers)
    requires head == id + 1 || (head == id && full)
    ensures PaymentsInTurn(from, head, full, transfers + Payment(a, x, Some(id)) + Payment(b, y, Some(id)))
  {
  }

  /** A step takes the exit off the queue or leaves part of it at the head with the window full. */
  lemma StepMovesHead(s: VaultState, env: Env, r: Releasing)
    requires ReleaseHolds(s, env, r) && r.status.exitHead < r.status.exitTail && ReleaseOne(s, env, r).Next?
    requires QueueInTurn(s.exits, r.status.exitHead, false, r.exits, r.events)
    ensures var next, id := ReleaseOne(s, env, r).r, r.status.exitHead;
            var full := next.today == s.limits.maxDailyOutflow;
            && (next.status.exitHead == id + 1 || (next.status.exitHead == id && full))
            && QueueInTurn(s.exits, next.status.exitHead, full, next.exits, next.events)
  {
    PlanFits(s, env, r);
    hide ReleasePlan, TryPay, Payment, ReleaseHolds, GoodExit, Debit;
  }

  lemma ReleaseOneInTurn(s: VaultState, env: Env, r: Releasing)
    requires ReleaseHolds(s, env, r) && InTurn(s, r) && r.status.exitHead < r.status.exitTail && ReleaseOne(s, env, r).Next?
    ensures InTurn(s, ReleaseOne(s, env, r).r)
  {
    StillRoom(s, env, r);
    StepMovesHead(s, env, r);
    var plan, id, next := ReleasePlan(s, env, r), r.status.exitHead, ReleaseOne(s, env, r).r;
    var payoutPaid := TryPay(env, 2 * r.count, r.balance, plan.payout);
    var feePaid := TryPay(env, 2 * r.count + 1, Debit(s.host, r.balance, plan.exit.recipient.address, payoutPaid), plan.fee);
    NextPaymentsInTurn(r.transfers, s.status.exitHead, id, next.status.exitHead, next.today == s.limits.maxDailyOutflow,
                       plan.exit.recipient.address, payoutPaid, plan.exit.relayer, feePaid);
    hide ReleasePlan, TryPay, Payment, ReleaseHolds, PaymentsInTurn, QueueInTurn, Debit;
  }

  /** A step is only taken with room left in the window. */
  lemma StillRoom(s: VaultState, env: Env, r: Releasing)
    requires ReleaseOne(s, env, r).Next?
    ensures r.today != s.limits.maxDailyOutflow
  {
  }

  lemma {:induction false} ReleaseLoopInTurn(s: VaultState, env: Env, max: nat, r: Releasing)
    requires ReleaseHolds(s, env, r) && InTurn(s, r) && ReleaseLoop(s, env, max, r).Ok?
    ensures InTurn(s, ReleaseLoop(s, env, max, r).value)
    decreases max - r.count
  {
    hide ReleaseHolds, InTurn, ReleasePlan, Handled;
    if r.count < max && r.status.exitHead < r.status.exitTail && ReleaseOne(s, env, r).Next? {
      ReleaseOneKeeps(s, env, r);
      ReleaseOneInTurn(s, env, r);
      ReleaseLoopInTurn(s, env, max, ReleaseOne(s, env, r).r);
    }
  }

  /** A release pays the queue in ID order: a payment to an exit means every exit queued before it
      has left the queue, exits behind the new head are untouched, and the head is paid in part only
      when that fills the day's window exactly, so a release call part pays at most one exit. */
  lemma ReleaseIsFifo(s: VaultState, env: Env, max: nat)
    requires Solvent(s)
    ensures var o := Release(s, env, max);
            var head, after := s.status.exitHead, o.state;
            && (forall i :: 0 <= i < |o.transfers| ==>
                  head <= ExitOf(o.transfers[i]) && forall id :: id in after.exits ==> ExitOf(o.transfers[i]) <= id)
            && (forall i, j :: 0 <= i < j < |o.transfers| ==> ExitOf(o.transfers[i]) <= ExitOf(o.transfers[j]))
            && (forall id :: id in after.exits ==> id in s.exits && (after.exits[id] != s.exits[id] ==>
                  id == after.status.exitHead && after.status.OutflowOn(env.Day()) == s.limits.maxDailyOutflow))
            && (forall i :: 0 <= i < |o.events| && o.events[i].ExitPaid? ==>
                  i == |o.events| - 1 && after.status.OutflowOn(env.Day()) == s.limits.maxDailyOutflow)
  {
    if Release(s, env, max).result.Ok? {
      ReleaseLoopKeeps(s, env, max, ReleaseStart(s, env));
      ReleaseLoopInTurn(s, env, max, ReleaseStart(s, env));
    }
  }

  /** A transaction pays anything at once only from an empty queue; otherwise its exit takes the
      tail, behind every exit queued before it. */
  lemma TransactIsFifo(s: VaultState, env: Env, proof: TxProof, ext: ExtData, submitter: Address)
    requires Solvent(s)
    ensures var o := Transact(s, env, proof, ext, submitter);
            && (o.transfers != [] ==> s.exits == map[])
            && (o.state.exits == s.exits
                || exists id :: id == s.status.exitTail && id in o.state.exits && o.state.exits == s.exits[id := o.state.exits[id]])
            && (o.result.Ok? && o.state.exits == s.exits ==> PaidOut(o.transfers) == ext.fee - ext.extAmount)
  {
    var o := Transact(s, env, proof, ext, submitter);
    if o.result.Ok? {
      SettleKeeps(Spent(s, proof), env, ext);
      if MustQueue(s.status, s.limits, env.Day(), ext.fee - ext.extAmount) {
        assert s.status.exitTail !in s.exits;
        assert s.status.exitTail in o.state.exits;
      } else if o.transfers != [] {
        assert ext.fee - ext.extAmount > 0;
        assert forall id :: id !in s.exits;
      }
    }
  }
}
