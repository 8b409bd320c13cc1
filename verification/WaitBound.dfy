/** How long a queued exit waits: what the exits up to it can take from the daily windows, and why the vault
    works that off. */
module WaitBound {
  import opened Common
  import opened VaultTypes
  import opened VaultSpec
  import opened Sums
  import opened VaultInvariant
  import opened VaultRuns

  /** How many windows of size `m` an amount takes. */
  function Windows(total: int, m: int): int
    requires m > 0
  {
    (total + (m - 1)) / m
  }

  lemma WindowsIsCeiling(total: int, m: int)
    requires m > 0
    ensures (Windows(total, m) - 1) * m < total <= Windows(total, m) * m
    ensures total > 0 ==> Windows(total, m) > 0
  {
    var k := Windows(total, m);
    var rest := (total + (m - 1)) % m;
    assert total + (m - 1) == k * m + rest;
    assert (k - 1) * m == k * m - m;
  }

  // ---------------------------------------------------------------------------------------------
  // What the exits ahead can take

  /** The queue as the indexer sees it: the vault's asset and daily window, and the payout each exit was
      queued with. */
  datatype Line = Line(native: bool, window: int, queued: map<nat, int>)

  /** The rest of a window that a release may leave unused before it first pays an exit. */
  function Allowance(line: Line, id: nat, exit: Exit): int {
    if line.native && exit.payout > 0 && id in line.queued && exit.payout == line.queued[id] && exit.recipient.address.Account? then
      NATIVE_ACCOUNT_MIN - 1
    else 0
  }

  function CanTake(line: Line, id: nat, exit: Exit): int {
    Owed(exit) + Allowance(line, id, exit)
  }

  function TakesAt(line: Line, exits: map<nat, Exit>, id: nat): int {
    if id in exits then CanTake(line, id, exits[id]) else 0
  }

  /** What the exits up to an ID can take from the windows. */
  function Ahead(line: Line, exits: map<nat, Exit>, id: nat): int {
    (if id == 0 then 0 else Ahead(line, exits, id - 1)) + TakesAt(line, exits, id)
  }

  lemma {:induction false} AheadChange(line: Line, exits: map<nat, Exit>, after: map<nat, Exit>, id: nat, changed: nat)
    requires forall k: nat :: k <= id && k != changed ==> TakesAt(line, after, k) == TakesAt(line, exits, k)
    ensures Ahead(line, after, id) ==
            Ahead(line, exits, id) + if changed <= id then TakesAt(line, after, changed) - TakesAt(line, exits, changed) else 0
  {
    if id > 0 {
      AheadChange(line, exits, after, id - 1, changed);
    }
  }

  lemma {:induction false} AheadCovers(line: Line, exits: map<nat, Exit>, id: nat, one: nat)
    requires forall k :: k in exits ==> Owed(exits[k]) >= 0
    ensures Ahead(line, exits, id) >= 0
    ensures one <= id ==> TakesAt(line, exits, one) <= Ahead(line, exits, id)
  {
    if id > 0 {
      AheadCovers(line, exits, id - 1, one);
    }
  }

  /** The exits up to an ID, none paid more than it was queued with. */
  ghost predicate InLine(line: Line, exits: map<nat, Exit>, id: nat) {
    forall k :: k in exits && k <= id ==> k in line.queued && exits[k].payout <= line.queued[k]
  }

  // ---------------------------------------------------------------------------------------------
  // Steps of a release

  /** What one step of a release pays, and any allowance of the exit it pays, is taken off what the
      exits up to it can still take. */
  lemma ReleaseOneTakes(line: Line, s: VaultState, env: Env, r: Releasing, id: nat)
    requires ReleaseHolds(s, env, r) && r.status.exitHead < r.status.exitTail && ReleaseOne(s, env, r).Next?
    requires r.status.exitHead <= id && InLine(line, r.exits, id)
    ensures var next, head := ReleaseOne(s, env, r).r, r.status.exitHead;
            && head in r.exits
            && InLine(line, next.exits, id)
            && Ahead(line, next.exits, id) + next.today + Allowance(line, head, r.exits[head]) <= Ahead(line, r.exits, id) + r.today
  {
    PlanFits(s, env, r);
    hide ReleasePlan, ReleaseHolds, Debit, Payment;
    var next, head := ReleaseOne(s, env, r).r, r.status.exitHead;
    AheadChange(line, r.exits, next.exits, id, head);
  }

  lemma {:induction false} ReleaseLoopTakes(line: Line, s: VaultState, env: Env, max: nat, r: Releasing, id: nat)
    requires ReleaseHolds(s, env, r) && ReleaseLoop(s, env, max, r).Ok?
    requires InLine(line, r.exits, id)
    ensures var end, head := ReleaseLoop(s, env, max, r).value, r.status.exitHead;
            && head <= end.status.exitHead
            && (end.status.exitHead <= id ==>
                  && InLine(line, end.exits, id)
                  && (end == r
                      || (head in r.exits
                          && Ahead(line, end.exits, id) + end.today + Allowance(line, head, r.exits[head])
                             <= Ahead(line, r.exits, id) + r.today)))
    decreases max - r.count
  {
    hide ReleaseHolds, ReleasePlan, Handled, Ahead, InLine, Allowance;
    if r.count < max && r.status.exitHead < r.status.exitTail && ReleaseOne(s, env, r).Next? {
      var next := ReleaseOne(s, env, r).r;
      ReleaseOneKeeps(s, env, r);
      ReleaseHeadMoves(s, env, r);
      if r.status.exitHead <= id {
        ReleaseOneTakes(line, s, env, r, id);
        ReleaseLoopTakes(line, s, env, max, next, id);
        AllowanceIsNonNegative(line);
      } else {
        ReleaseLoopMoves(s, env, max, next);
      }
    }
  }

  lemma AllowanceIsNonNegative(line: Line)
    ensures forall id, exit :: Allowance(line, id, exit) >= 0
  {
  }

  lemma ReleaseHeadMoves(s: VaultState, env: Env, r: Releasing)
    requires ReleaseOne(s, env, r).Next?
    ensures r.status.exitHead <= ReleaseOne(s, env, r).r.status.exitHead
    ensures ReleaseOne(s, env, r).r.count == r.count + 1
  {
    hide ReleasePlan, Payment, TryPay, Debit;
  }

  lemma {:induction false} ReleaseLoopMoves(s: VaultState, env: Env, max: nat, r: Releasing)
    requires ReleaseLoop(s, env, max, r).Ok?
    ensures r.status.exitHead <= ReleaseLoop(s, env, max, r).value.status.exitHead
    decreases max - r.count
  {
    hide ReleasePlan, Handled;
    if r.count < max && r.status.exitHead < r.status.exitTail && ReleaseOne(s, env, r).Next? {
      ReleaseHeadMoves(s, env, r);
      ReleaseLoopMoves(s, env, max, ReleaseOne(s, env, r).r);
    }
  }

  // ---------------------------------------------------------------------------------------------
  // Where a release stops

  /** The vault holds what it keeps for users, and its issuer lets it pay. */
  ghost predicate CanPay(s: VaultState, env: Env) {
    env.asset.authorized(s.host.vault) && s.balance >= s.status.tvl
  }

  /** The funds a release spends down are the vault's balance, which covers all it owes. */
  ghost predicate Funded(s: VaultState, r: Releasing) {
    && (r.funds == None <==> r.count == 0)
    && (r.funds.Some? ==> r.funds == Some(r.balance))
    && r.balance >= r.status.queuedTotal
  }

  lemma ReleaseStartFunded(s: VaultState, env: Env)
    requires Solvent(s) && CanPay(s, env)
    ensures Funded(s, ReleaseStart(s, env))
  {
    SumNonNegative(s.pending, Amount, s.status.nextDepositId);
  }

  lemma ReleaseOneFunded(s: VaultState, env: Env, r: Releasing)
    requires ReleaseHolds(s, env, r) && r.status.exitHead < r.status.exitTail && ReleaseOne(s, env, r).Next?
    requires Funded(s, r)
    ensures Funded(s, ReleaseOne(s, env, r).r)
  {
    PlanFits(s, env, r);
    hide ReleaseHolds, Payment, TryPay;
  }

  /** An exit of the queue never owes more than the queue does. */
  lemma HeadIsCovered(s: VaultState, env: Env, r: Releasing)
    requires ReleaseHolds(s, env, r) && r.status.exitHead < r.status.exitTail
    ensures r.status.exitHead in r.exits && Owed(r.exits[r.status.exitHead]) <= r.status.queuedTotal
  {
    SumBounds(r.exits, Owed, r.status.exitTail, r.status.exitHead);
    SumNonNegative(r.stranded, Owed, r.status.exitTail);
  }

  /** What makes a funded release stop before its limit: no queue, no room, or a missing account. */
  ghost predicate Resting(s: VaultState, env: Env, r: Releasing) {
    || r.status.exitHead >= r.status.exitTail
    || r.today == s.limits.maxDailyOutflow
    || (r.status.exitHead in r.exits
        && var exit := r.exits[r.status.exitHead];
           WaitsForAccount(s.host, env, r.count, exit, Min(exit.payout, s.limits.maxDailyOutflow - r.today)))
  }

  lemma {:induction false} ReleaseLoopRests(s: VaultState, env: Env, max: nat, r: Releasing)
    requires ReleaseHolds(s, env, r) && Funded(s, r) && env.asset.authorized(s.host.vault)
    requires ReleaseLoop(s, env, max, r).Ok? && ReleaseLoop(s, env, max, r).value.count < max
    ensures Resting(s, env, ReleaseLoop(s, env, max, r).value)
    decreases max - r.count
  {
    if r.status.exitHead < r.status.exitTail {
      HeadIsCovered(s, env, r);
      if ReleaseOne(s, env, r).Next? {
        ReleaseHeadMoves(s, env, r);
        ReleaseOneKeeps(s, env, r);
        ReleaseOneFunded(s, env, r);
        hide ReleaseHolds, ReleasePlan, Handled, Resting, Funded;
        ReleaseLoopRests(s, env, max, ReleaseOne(s, env, r).r);
      } else {
        hide ReleaseHolds, Handled;
      }
    }
  }

  /** A release that stopped by itself, in a vault that can pay. */
  ghost predicate RanOut(s: VaultState, env: Env, max: nat) {
    Release(s, env, max).result.Ok? && Release(s, env, max).result.value < max && CanPay(s, env)
  }

  /** It leaves the queue empty, the day's window full, or less than a new account's least payout of it at
      a head that is owed at least that and whose account is missing. */
  lemma RanOutUses(s: VaultState, env: Env, max: nat)
    requires Solvent(s) && RanOut(s, env, max)
    ensures var t, m := Release(s, env, max).state, s.limits.maxDailyOutflow;
            var head, paid := t.status.exitHead, t.status.OutflowOn(env.Day());
            || head >= t.status.exitTail
            || paid == m
            || (head in t.exits && s.host.native && t.exits[head].recipient.address.Account?
                && 0 <= m - paid < NATIVE_ACCOUNT_MIN <= t.exits[head].payout)
  {
    ReleaseStartFunded(s, env);
    ReleaseLoopRests(s, env, max, ReleaseStart(s, env));
    ReleaseLoopKeeps(s, env, max, ReleaseStart(s, env));
  }

  /** With the halt over and the amounts in range, a release of more exits than are queued always runs
      out, and never fails. */
  lemma ReleaseCanRunOut(s: VaultState, env: Env, max: nat)
    requires Solvent(s) && !s.status.Halted(env.now) && CanPay(s, env)
    requires s.limits.maxDailyOutflow <= I128_MAX && s.status.tvl <= I128_MAX
    requires max > s.status.exitTail - s.status.exitHead + 1
    ensures RanOut(s, env, max)
  {
    ReleaseStartFunded(s, env);
    SumNonNegative(s.pending, Amount, s.status.nextDepositId);
    SumNonNegative(s.exits, Owed, s.status.exitTail);
    SumNonNegative(s.stranded, Owed, s.status.exitTail);
    ReleaseLoopRunsOut(s, env, max, ReleaseStart(s, env));
  }

  lemma {:induction false} ReleaseLoopRunsOut(s: VaultState, env: Env, max: nat, r: Releasing)
    requires ReleaseHolds(s, env, r) && Funded(s, r) && env.asset.authorized(s.host.vault)
    requires s.limits.maxDailyOutflow <= I128_MAX && s.status.tvl <= I128_MAX && Notes(s.status) >= 0 && s.status.pendingTotal >= 0
    requires max > s.status.exitTail - s.status.exitHead + 1
    requires r.count <= r.status.exitHead - s.status.exitHead + (if r.today == s.limits.maxDailyOutflow then 1 else 0)
    ensures ReleaseLoop(s, env, max, r).Ok? && ReleaseLoop(s, env, max, r).value.count < max
    decreases max - r.count
  {
    assert r.status.exitHead <= r.status.exitTail && r.status.exitTail == s.status.exitTail;
    if r.status.exitHead < r.status.exitTail && r.today != s.limits.maxDailyOutflow {
      HeadIsCovered(s, env, r);
      NeverFails(s, env, r);
      if ReleaseOne(s, env, r).Next? {
        ReleaseOneKeeps(s, env, r);
        ReleaseOneFunded(s, env, r);
        HeadMovesOrFills(s, env, r);
        hide ReleaseHolds, ReleasePlan, Handled, Funded;
        ReleaseLoopRunsOut(s, env, max, ReleaseOne(s, env, r).r);
      }
    } else {
      assert r.status.exitHead < r.status.exitTail ==> ReleasePlan(s, env, r) == NoStep;
    }
  }

  lemma NeverFails(s: VaultState, env: Env, r: Releasing)
    requires ReleaseHolds(s, env, r) && Funded(s, r) && env.asset.authorized(s.host.vault)
    requires r.status.exitHead < r.status.exitTail && r.status.exitHead in r.exits
    requires Owed(r.exits[r.status.exitHead]) <= r.status.queuedTotal
    requires s.limits.maxDailyOutflow <= I128_MAX && s.status.tvl <= I128_MAX && Notes(s.status) >= 0 && s.status.pendingTotal >= 0
    ensures !ReleaseOne(s, env, r).Failed?
  {
    var plan := ReleasePlan(s, env, r);
    assert !plan.NoFunds?;
    if plan.Try? {
      PlanFits(s, env, r);
      hide ReleasePlan, Payment, Debit;
    }
  }

  lemma HeadMovesOrFills(s: VaultState, env: Env, r: Releasing)
    requires ReleaseHolds(s, env, r) && r.status.exitHead < r.status.exitTail && ReleaseOne(s, env, r).Next?
    ensures var next := ReleaseOne(s, env, r).r;
            next.status.exitHead == r.status.exitHead + 1
            || (next.status.exitHead == r.status.exitHead && next.today == s.limits.maxDailyOutflow)
  {
    PlanFits(s, env, r);
    hide ReleasePlan, Payment, Debit, ReleaseHolds;
  }

  // ---------------------------------------------------------------------------------------------
  // Every call

  /** While an exit waits, a call pays only exits up to it, and uses up the head's allowance unless it
      leaves the head alone and pays nothing. */
  ghost predicate Serves(line: Line, s: VaultState, after: Effect, id: nat) {
    var head := s.status.exitHead;
    && head <= after.state.status.exitHead && s.status.exitTail <= after.state.status.exitTail
    && (after.state.status.exitHead <= id ==>
          && InLine(line, after.state.exits, id)
          && head in s.exits
          && ((after.state.status.exitHead == head && head in after.state.exits && after.state.exits[head] == s.exits[head]
               && Ahead(line, after.state.exits, id) <= Ahead(line, s.exits, id) && PaidOut(after.transfers) == 0)
              || Ahead(line, after.state.exits, id) + PaidOut(after.transfers) + Allowance(line, head, s.exits[head])
                 <= Ahead(line, s.exits, id)))
  }

  lemma ReleaseServes(line: Line, s: VaultState, env: Env, max: nat, id: nat)
    requires Solvent(s) && s.status.exitHead <= id < s.status.exitTail && InLine(line, s.exits, id)
    ensures Serves(line, s, Of(Release(s, env, max)), id)
  {
    if Release(s, env, max).result.Ok? {
      var r := ReleaseStart(s, env);
      assert ReleaseHolds(s, env, r);
      ReleaseLoopKeeps(s, env, max, r);
      ReleaseLoopTakes(line, s, env, max, r, id);
      hide ReleaseLoop, Ahead, Allowance, InLine, ExitQueue, EntryQueue;
    }
  }

  /** A new exit at the tail is behind every exit that waits. */
  lemma TailIsBehind(line: Line, s: VaultState, exit: Exit, id: nat)
    requires id < s.status.exitTail && InLine(line, s.exits, id)
    ensures var after := s.exits[s.status.exitTail := exit];
            InLine(line, after, id) && Ahead(line, after, id) == Ahead(line, s.exits, id)
  {
    AheadChange(line, s.exits, s.exits[s.status.exitTail := exit], id, s.status.exitTail);
  }

  lemma TransactServes(line: Line, s: VaultState, env: Env, proof: TxProof, ext: ExtData, submitter: Address, id: nat)
    requires Solvent(s) && s.status.exitHead <= id < s.status.exitTail && InLine(line, s.exits, id)
    ensures Serves(line, s, Of(Transact(s, env, proof, ext, submitter)), id)
  {
    hide Ahead, Allowance;
    var o := Transact(s, env, proof, ext, submitter);
    assert s.status.exitHead in s.exits;
    TransactIsFifo(s, env, proof, ext, submitter);
    if o.result.Ok? {
      TransactTail(s, env, proof, ext, submitter);
      if o.state.exits != s.exits {
        TailIsBehind(line, s, o.state.exits[s.status.exitTail], id);
      }
    }
  }

  lemma TransactTail(s: VaultState, env: Env, proof: TxProof, ext: ExtData, submitter: Address)
    requires Transact(s, env, proof, ext, submitter).result.Ok?
    ensures var t := Transact(s, env, proof, ext, submitter).state.status;
            t.exitHead == s.status.exitHead && s.status.exitTail <= t.exitTail
  {
  }

  lemma ClaimServes(line: Line, s: VaultState, env: Env, stranded: nat, id: nat)
    requires Solvent(s) && s.status.exitHead <= id < s.status.exitTail && InLine(line, s.exits, id)
    ensures Serves(line, s, Of(Claim(s, env, stranded)), id)
  {
    hide Ahead, Allowance;
    var o := Claim(s, env, stranded);
    assert s.status.exitHead in s.exits;
    if o.result.Ok? {
      TailIsBehind(line, s, o.state.exits[s.status.exitTail], id);
    }
  }

  lemma AdmitServes(line: Line, s: VaultState, env: Env, ids: seq<nat>, id: nat)
    requires Solvent(s) && s.status.exitHead <= id < s.status.exitTail && InLine(line, s.exits, id)
    ensures Serves(line, s, Of(Admit(s, env, ids)), id)
  {
    hide Ahead, Allowance;
    if Admit(s, env, ids).result.Ok? {
      AdmitLoopKeeps(s, env, ids, AdmitStart(s));
    }
  }

  /** Calls that leave the exit queue alone. */
  lemma OthersServe(line: Line, s: VaultState, env: Env, call: Call, id: nat)
    requires Solvent(s) && s.status.exitHead <= id < s.status.exitTail && InLine(line, s.exits, id)
    requires !call.TransactCall? && !call.ReleaseCall? && !call.ClaimCall? && !call.AdmitCall?
    ensures Serves(line, s, Step(s, env, call), id)
  {
    OthersLeaveExits(s, env, call);
    assert s.status.exitHead in s.exits;
    hide Ahead, Allowance, Step;
  }

  lemma OthersLeaveExits(s: VaultState, env: Env, call: Call)
    requires !call.TransactCall? && !call.ReleaseCall? && !call.ClaimCall? && !call.AdmitCall?
    ensures var after := Step(s, env, call);
            && after.state.exits == s.exits && PaidOut(after.transfers) == 0
            && after.state.status.exitHead == s.status.exitHead && after.state.status.exitTail == s.status.exitTail
  {
    var transfers := Step(s, env, call).transfers;
    assert transfers != [] ==> |transfers| == 1 && transfers[..|transfers| - 1] == [];
  }

  lemma StepServes(line: Line, s: VaultState, env: Env, call: Call, id: nat)
    requires Solvent(s) && s.status.exitHead <= id < s.status.exitTail && InLine(line, s.exits, id)
    ensures Serves(line, s, Step(s, env, call), id)
  {
    hide Solvent, Serves, InLine;
    match call
    case TransactCall(proof, ext, submitter) => TransactServes(line, s, env, proof, ext, submitter, id);
    case ReleaseCall(max) => ReleaseServes(line, s, env, max, id);
    case ClaimCall(stranded) => ClaimServes(line, s, env, stranded, id);
    case AdmitCall(ids) => AdmitServes(line, s, env, ids, id);
    case _ => OthersServe(line, s, env, call, id);
  }

  /** The head of the queue never goes back. */
  lemma HeadNeverGoesBack(s: VaultState, env: Env, call: Call)
    requires Solvent(s)
    ensures s.status.exitHead <= Step(s, env, call).state.status.exitHead
  {
    hide Solvent;
    match call
    case TransactCall(proof, ext, submitter) =>
      if Transact(s, env, proof, ext, submitter).result.Ok? {
        TransactTail(s, env, proof, ext, submitter);
      }
    case ReleaseCall(max) =>
      if Release(s, env, max).result.Ok? {
        ReleaseLoopMoves(s, env, max, ReleaseStart(s, env));
      }
    case AdmitCall(ids) =>
      if Admit(s, env, ids).result.Ok? {
        assert Solvent(s);
        AdmitHead(s, env, ids);
      }
    case _ =>
  }

  lemma AdmitHead(s: VaultState, env: Env, ids: seq<nat>)
    requires Solvent(s) && Admit(s, env, ids).result.Ok?
    ensures Admit(s, env, ids).state.status.exitHead == s.status.exitHead
  {
    AdmitLoopKeeps(s, env, ids, AdmitStart(s));
  }

  // ---------------------------------------------------------------------------------------------
  // Part payments

  /** Only the head of the queue is ever paid in part. */
  ghost predicate OnlyHead(line: Line, s: VaultState, id: nat) {
    forall k :: k in s.exits && s.status.exitHead < k <= id ==> k in line.queued && s.exits[k].payout == line.queued[k]
  }

  /** A head that was paid in part filled the window of that day, and every other window is untouched
      while it waits. */
  ghost predicate PartHead(line: Line, s: VaultState, day: nat) {
    var head, paid := s.status.exitHead, s.status.OutflowOn(day);
    head in s.exits && head in line.queued && s.exits[head].payout < line.queued[head] ==> paid == 0 || paid >= line.window
  }

  lemma {:induction false} ReleaseLoopFills(s: VaultState, env: Env, max: nat, r: Releasing)
    requires ReleaseHolds(s, env, r) && ReleaseLoop(s, env, max, r).Ok?
    ensures var end := ReleaseLoop(s, env, max, r).value;
            end == r || end.status.exitHead > r.status.exitHead || end.today == s.limits.maxDailyOutflow
    decreases max - r.count
  {
    hide ReleaseHolds, ReleasePlan, Handled;
    if r.count < max && r.status.exitHead < r.status.exitTail && ReleaseOne(s, env, r).Next? {
      var next := ReleaseOne(s, env, r).r;
      ReleaseHeadMoves(s, env, r);
      ReleaseOneKeeps(s, env, r);
      HeadMovesOrFills(s, env, r);
      ReleaseLoopFills(s, env, max, next);
      ReleaseLoopMoves(s, env, max, next);
    }
  }

  /** A release leaves everything as it is, takes the head off, or fills the day's window. */
  lemma ReleaseFills(s: VaultState, env: Env, max: nat)
    requires Solvent(s)
    ensures var t := Release(s, env, max).state;
            || t == s
            || s.status.exitHead < t.status.exitHead
            || t.status.OutflowOn(env.Day()) == s.limits.maxDailyOutflow
  {
    if Release(s, env, max).result.Ok? {
      ReleaseLoopFills(s, env, max, ReleaseStart(s, env));
    }
  }

  lemma ReleaseKeepsParts(line: Line, s: VaultState, env: Env, max: nat, id: nat, day: nat)
    requires Solvent(s) && s.status.outflowDay <= env.Day() <= day && line.window <= s.limits.maxDailyOutflow
    requires OnlyHead(line, s, id) && PartHead(line, s, day)
    ensures var t := Release(s, env, max).state; t.status.exitHead <= id ==> OnlyHead(line, t, id) && PartHead(line, t, day)
  {
    var t, call := Release(s, env, max).state, ReleaseCall(max);
    ReleaseIsFifo(s, env, max);
    ReleaseFills(s, env, max);
    HeadNeverGoesBack(s, env, call);
    StepAccounts(s, env, call);
    ReleaseIsAStep(s, env, max);
    hide Release, Step, Solvent, PaidOut;
    if t != s && env.Day() < day {
      assert t.status.OutflowOn(day) == 0;
    }
  }

  lemma ReleaseIsAStep(s: VaultState, env: Env, max: nat)
    ensures Step(s, env, ReleaseCall(max)) == Of(Release(s, env, max))
  {
  }

  /** Any other call leaves the exits that wait, and the window, alone. */
  ghost predicate LeavesWaiting(s: VaultState, after: Effect, id: nat) {
    && after.state.status.exitHead == s.status.exitHead
    && (forall k :: k <= id ==> (k in after.state.exits <==> k in s.exits))
    && (forall k :: k <= id && k in s.exits ==> after.state.exits[k] == s.exits[k])
    && PaidOut(after.transfers) == 0
  }

  lemma StepLeavesWaiting(s: VaultState, env: Env, call: Call, id: nat)
    requires Solvent(s) && s.status.exitHead <= id < s.status.exitTail && !call.ReleaseCall?
    ensures LeavesWaiting(s, Step(s, env, call), id)
  {
    match call
    case TransactCall(proof, ext, submitter) => TransactLeavesWaiting(s, env, proof, ext, submitter, id);
    case ClaimCall(_) =>
    case AdmitCall(ids) =>
      if Admit(s, env, ids).result.Ok? {
        AdmitHead(s, env, ids);
      }
    case _ => OthersLeaveExits(s, env, call);
  }

  lemma TransactLeavesWaiting(s: VaultState, env: Env, proof: TxProof, ext: ExtData, submitter: Address, id: nat)
    requires Solvent(s) && s.status.exitHead <= id < s.status.exitTail
    ensures LeavesWaiting(s, Of(Transact(s, env, proof, ext, submitter)), id)
  {
    assert s.status.exitHead in s.exits;
    TransactIsFifo(s, env, proof, ext, submitter);
    if Transact(s, env, proof, ext, submitter).result.Ok? {
      TransactTail(s, env, proof, ext, submitter);
    }
    hide Transact, Solvent;
  }

  lemma StepKeepsParts(line: Line, s: VaultState, env: Env, call: Call, id: nat, day: nat)
    requires Solvent(s) && s.status.outflowDay <= env.Day() <= day && line.window <= s.limits.maxDailyOutflow
    requires s.status.exitHead <= id < s.status.exitTail && OnlyHead(line, s, id) && PartHead(line, s, day)
    ensures var t := Step(s, env, call).state; t.status.exitHead <= id ==> OnlyHead(line, t, id) && PartHead(line, t, day)
  {
    if call.ReleaseCall? {
      ReleaseKeepsParts(line, s, env, call.max, id, day);
      ReleaseIsAStep(s, env, call.max);
    } else {
      StepLeavesWaiting(s, env, call, id);
      StepAccounts(s, env, call);
      hide Step, Solvent, PaidOut;
    }
  }

  // ---------------------------------------------------------------------------------------------
  // Days

  /** An exit has left the queue, or what the exits up to it can take, with what the day's window has
      paid, stays within a bound; the head's allowance may be on top while the window is untouched. */
  ghost predicate Bounded(line: Line, s: VaultState, id: nat, day: nat, bound: int) {
    s.status.exitHead > id
    || (&& id < s.status.exitTail && s.status.exitHead in s.exits && InLine(line, s.exits, id)
        && OnlyHead(line, s, id) && PartHead(line, s, day)
        && var taken, paid := Ahead(line, s.exits, id), s.status.OutflowOn(day);
           taken + paid <= bound
           || (paid == 0 && taken <= bound + Allowance(line, s.status.exitHead, s.exits[s.status.exitHead])))
  }

  lemma StepBounded(line: Line, s: VaultState, env: Env, call: Call, id: nat, day: nat, bound: int)
    requires Solvent(s) && s.status.outflowDay <= env.Day() <= day && line.window <= s.limits.maxDailyOutflow
    requires Bounded(line, s, id, day, bound)
    ensures Bounded(line, Step(s, env, call).state, id, day, bound)
  {
    var after := Step(s, env, call);
    HeadNeverGoesBack(s, env, call);
    hide Step;
    if s.status.exitHead <= id {
      StepServes(line, s, env, call, id);
      StepAccounts(s, env, call);
      StaysQueued(s, env, call);
      StepKeepsParts(line, s, env, call, id, day);
      hide Solvent, InLine, Ahead, Allowance, PaidOut, OnlyHead, PartHead;
    }
  }

  lemma StaysQueued(s: VaultState, env: Env, call: Call)
    requires Solvent(s)
    ensures var t := Step(s, env, call).state;
            forall id: nat :: t.status.exitHead <= id < t.status.exitTail <==> id in t.exits
  {
    hide Step;
    if call.BalanceMoves? {
      BalanceMoveKeeps(s, env, call.amount);
    } else {
      StepKeeps(s, env, call);
    }
  }

  /** The release that runs out of a day uses its whole window, or what the next head may leave of it. A head
      that was paid in part never makes it wait but on the day that its part filled. */
  lemma RunningOutBounds(line: Line, s: VaultState, env: Env, max: nat, id: nat, bound: int)
    requires Solvent(s) && s.status.outflowDay <= env.Day() && Bounded(line, s, id, env.Day(), bound)
    requires RanOut(s, env, max) && line.native == s.host.native && line.window <= s.limits.maxDailyOutflow
    ensures Bounded(line, Release(s, env, max).state, id, env.Day() + 1, bound - line.window)
  {
    var t := Release(s, env, max).state;
    var call := ReleaseCall(max);
    ReleaseIsAStep(s, env, max);
    StepBounded(line, s, env, call, id, env.Day(), bound);
    StepAccounts(s, env, call);
    RanOutUses(s, env, max);
    StepKeeps(s, env, call);
    if t.status.exitHead < t.status.exitTail {
      QueueOwes(t);
    }
    ReleaseKeepsLimits(s, env, max);
    hide Step, Release, RanOut, PaidOut, Ahead, Solvent;
    assert t.status.OutflowOn(env.Day() + 1) == 0;
    if t.status.exitHead <= id {
      WindowIsUsed(line, s, t, id, env.Day(), bound);
    }
  }

  lemma ReleaseKeepsLimits(s: VaultState, env: Env, max: nat)
    ensures Release(s, env, max).state.limits == s.limits
  {
  }

  /** The arithmetic of a window that ran out. */
  lemma WindowIsUsed(line: Line, s: VaultState, t: VaultState, id: nat, day: nat, bound: int)
    requires Bounded(line, t, id, day, bound) && t.status.exitHead <= id && t.status.exitHead in t.exits
    requires line.native == s.host.native && line.window <= s.limits.maxDailyOutflow && t.limits == s.limits
    requires var exit, m, paid := t.exits[t.status.exitHead], t.limits.maxDailyOutflow, t.status.OutflowOn(day);
             && 0 < Owed(exit) <= m && exit.payout <= m
             && (paid == m
                 || (s.host.native && exit.recipient.address.Account? && 0 <= m - paid < NATIVE_ACCOUNT_MIN <= exit.payout))
    requires t.status.OutflowOn(day + 1) == 0
    ensures Bounded(line, t, id, day + 1, bound - line.window)
  {
    hide Ahead;
    assert InLine(line, t.exits, id);
  }

  lemma QueueOwes(s: VaultState)
    requires Solvent(s) && s.status.exitHead < s.status.exitTail
    ensures s.status.exitHead in s.exits && 0 < Owed(s.exits[s.status.exitHead]) <= s.limits.maxDailyOutflow
    ensures s.exits[s.status.exitHead].payout <= s.limits.maxDailyOutflow
  {
  }

  /** Bounds carry over any calls of the days up to one. */
  lemma {:induction false} RunBounded(line: Line, s: VaultState, steps: seq<Timed>, m: nat, n: nat, id: nat, day: nat, bound: int)
    requires Solvent(s) && m <= n <= |steps| && DatedBy(s, steps) && line.window <= s.limits.maxDailyOutflow
    requires forall i :: m <= i < n ==> steps[i].env.Day() <= day
    requires Bounded(line, StateAt(s, steps, m), id, day, bound)
    ensures Bounded(line, StateAt(s, steps, n), id, day, bound)
    decreases n - m
  {
    hide Bounded, Solvent, DatedBy, StateAt;
    if m < n {
      RunBounded(line, s, steps, m, n - 1, id, day, bound);
      BoundedOneMore(line, s, steps, n - 1, id, day, bound);
    }
  }

  lemma BoundedOneMore(line: Line, s: VaultState, steps: seq<Timed>, i: nat, id: nat, day: nat, bound: int)
    requires Solvent(s) && i < |steps| && DatedBy(s, steps) && line.window <= s.limits.maxDailyOutflow
    requires steps[i].env.Day() <= day && Bounded(line, StateAt(s, steps, i), id, day, bound)
    ensures Bounded(line, StateAt(s, steps, i + 1), id, day, bound)
  {
    WindowIsDated(s, steps, i);
    hide Bounded, Step, Solvent, DatedBy, Ordered;
    RunSolvent(s, steps, i);
    StepBounded(line, StateAt(s, steps, i), steps[i].env, steps[i].call, id, day, bound);
  }

  /** Time never goes back, from the last window on. */
  ghost predicate DatedBy(s: VaultState, steps: seq<Timed>) {
    Ordered(steps) && (forall i :: 0 <= i < |steps| ==> s.status.outflowDay <= steps[i].env.Day())
  }

  lemma {:induction false} WindowIsDated(s: VaultState, steps: seq<Timed>, n: nat)
    requires Solvent(s) && n < |steps| && DatedBy(s, steps)
    ensures StateAt(s, steps, n).status.outflowDay <= steps[n].env.Day()
  {
    if n > 0 {
      hide Step, Solvent, Ordered, PaidOut;
      WindowIsDated(s, steps, n - 1);
      RunSolvent(s, steps, n - 1);
      StepAccounts(StateAt(s, steps, n - 1), steps[n - 1].env, steps[n - 1].call);
      DaysInOrder(steps, n - 1, n);
    }
  }

  /** On each of the days after the first, the release at this place in the run runs out in a vault
      that can pay. */
  ghost predicate ReleasedDaily(s: VaultState, steps: seq<Timed>, first: nat, last: seq<nat>) {
    forall j :: 0 <= j < |last| ==> RunsOutOn(s, steps, first + 1 + j, last[j])
  }

  ghost predicate RunsOutOn(s: VaultState, steps: seq<Timed>, day: nat, i: nat) {
    && i < |steps|
    && steps[i].env.Day() == day
    && steps[i].call.ReleaseCall?
    && RanOut(StateAt(s, steps, i), steps[i].env, steps[i].call.max)
  }

  /** What the bound starts from: the exit waits in a line that is paid in turn, whose window is the vault's. */
  ghost predicate Promised(line: Line, s: VaultState, id: nat) {
    && line.native == s.host.native && line.window == s.limits.maxDailyOutflow
    && s.status.exitHead <= id < s.status.exitTail
    && InLine(line, s.exits, id) && OnlyHead(line, s, id)
  }

  /** Where the run stands once the first `j` days' releases have run out. */
  function DoneAfter(last: seq<nat>, j: nat): nat
    requires j <= |last|
  {
    if j == 0 then 0 else last[j - 1] + 1
  }

  ghost predicate BoundedAfter(line: Line, s: VaultState, steps: seq<Timed>, first: nat, last: seq<nat>, j: nat, id: nat)
    requires j <= |last|
  {
    && DoneAfter(last, j) <= |steps|
    && Bounded(line, StateAt(s, steps, DoneAfter(last, j)), id, first + j + 1, Ahead(line, s.exits, id) - j * line.window)
  }

  lemma {:induction false} DaysBounded(line: Line, s: VaultState, steps: seq<Timed>, first: nat, last: seq<nat>, j: nat, id: nat)
    requires Solvent(s) && DatedBy(s, steps) && Promised(line, s, id) && s.status.outflowDay <= first
    requires ReleasedDaily(s, steps, first, last) && j <= |last|
    ensures BoundedAfter(line, s, steps, first, last, j, id)
  {
    hide *;
    if j == 0 {
      NoDayBounded(line, s, steps, first, last, id);
    } else {
      DaysBounded(line, s, steps, first, last, j - 1, id);
      OneDayMore(line, s, steps, first, last, j, id);
    }
  }

  lemma NoDayBounded(line: Line, s: VaultState, steps: seq<Timed>, first: nat, last: seq<nat>, id: nat)
    requires Solvent(s) && s.status.outflowDay <= first && Promised(line, s, id)
    ensures BoundedAfter(line, s, steps, first, last, 0, id)
  {
    hide Solvent, Ahead, Promised, Bounded;
    StartBounded(line, s, id, first + 1);
  }

  lemma OneDayMore(line: Line, s: VaultState, steps: seq<Timed>, first: nat, last: seq<nat>, j: nat, id: nat)
    requires Solvent(s) && DatedBy(s, steps) && Promised(line, s, id)
    requires ReleasedDaily(s, steps, first, last) && 0 < j <= |last|
    requires BoundedAfter(line, s, steps, first, last, j - 1, id)
    ensures BoundedAfter(line, s, steps, first, last, j, id)
  {
    hide Step, Release, RanOut, Bounded, Solvent, Ahead, InLine, DatedBy, StateAt;
    var m, total := line.window, Ahead(line, s.exits, id);
    assert RunsOutOn(s, steps, first + 1 + (j - 1), last[j - 1]);
    if j > 1 {
      assert RunsOutOn(s, steps, first + 1 + (j - 2), last[j - 2]);
    }
    DayBounded(line, s, steps, DoneAfter(last, j - 1), last[j - 1], id, first + j, total - (j - 1) * m);
    OneLess(total, j, m);
  }

  lemma OneLess(total: int, j: nat, m: int)
    ensures total - (j - 1) * m - m == total - j * m
  {
  }

  lemma StartBounded(line: Line, s: VaultState, id: nat, day: nat)
    requires Solvent(s) && s.status.outflowDay < day && Promised(line, s, id)
    ensures Bounded(line, s, id, day, Ahead(line, s.exits, id))
  {
    assert s.status.exitHead in s.exits;
  }

  /** One day: what is bounded at its start has a window less by the release that runs out. */
  lemma DayBounded(line: Line, s: VaultState, steps: seq<Timed>, from: nat, i: nat, id: nat, day: nat, bound: int)
    requires Solvent(s) && DatedBy(s, steps) && line.native == s.host.native && line.window <= s.limits.maxDailyOutflow
    requires RunsOutOn(s, steps, day, i)
    requires from <= |steps| && (from > 0 ==> steps[from - 1].env.Day() < day)
    requires Bounded(line, StateAt(s, steps, from), id, day, bound)
    ensures Bounded(line, StateAt(s, steps, i + 1), id, day + 1, bound - line.window)
  {
    hide Step, Release, RanOut, Bounded, Solvent;
    if from > 0 {
      EarlierDay(steps, from - 1, i);
    }
    forall k | from <= k < i
      ensures steps[k].env.Day() <= day
    {
      DaysInOrder(steps, k, i);
    }
    RunBounded(line, s, steps, from, i, id, day, bound);
    RunSolvent(s, steps, i);
    WindowIsDated(s, steps, i);
    var before, env, max := StateAt(s, steps, i), steps[i].env, steps[i].call.max;
    ReleaseIsAStep(before, env, max);
    assert StateAt(s, steps, i + 1) == Step(before, env, ReleaseCall(max)).state;
    RunningOutBounds(line, before, env, max, id, bound);
  }

  lemma EarlierDay(steps: seq<Timed>, i: nat, j: nat)
    requires Ordered(steps) && i < |steps| && j < |steps| && steps[i].env.Day() < steps[j].env.Day()
    ensures i < j
  {
    if j < i {
      DaysInOrder(steps, j, i);
    }
  }

  /** The wait bound: with releases that run out on as many days as the exit, and those before it, can
      take windows, the exit has left the queue when the last of them ends, whatever else is called. */
  lemma ExitLeavesInTime(line: Line, s: VaultState, steps: seq<Timed>, first: nat, last: seq<nat>, id: nat)
    requires Solvent(s) && DatedBy(s, steps) && Promised(line, s, id) && s.status.outflowDay <= first
    requires ReleasedDaily(s, steps, first, last)
    requires s.limits.maxDailyOutflow > 0 && |last| == Windows(Ahead(line, s.exits, id), s.limits.maxDailyOutflow)
    ensures |last| > 0 && last[|last| - 1] < |steps|
    ensures var after := StateAt(s, steps, last[|last| - 1] + 1);
            steps[last[|last| - 1]].env.Day() == first + |last| && id !in after.exits && after.status.exitHead > id
  {
    hide Step, Release, RanOut, Bounded, Solvent, Ahead, InLine, DatedBy, StateAt, Windows, Allowance;
    var total, m, k := Ahead(line, s.exits, id), s.limits.maxDailyOutflow, |last|;
    WindowsIsCeiling(total, m);
    QueueTakes(line, s, id);
    DaysBounded(line, s, steps, first, last, k, id);
    assert RunsOutOn(s, steps, first + 1 + (k - 1), last[k - 1]);
    var n := last[k - 1] + 1;
    RunSolvent(s, steps, n);
    NothingLeft(line, StateAt(s, steps, n), id, first + k + 1, total - k * m);
  }

  /** An exit that waits can take something. */
  lemma QueueTakes(line: Line, s: VaultState, id: nat)
    requires Solvent(s) && s.status.exitHead <= id < s.status.exitTail
    ensures Ahead(line, s.exits, id) > Allowance(line, s.status.exitHead, s.exits[s.status.exitHead]) >= 0
  {
    AheadCovers(line, s.exits, id, s.status.exitHead);
  }

  lemma NothingLeft(line: Line, s: VaultState, id: nat, day: nat, bound: int)
    requires Solvent(s) && Bounded(line, s, id, day, bound) && bound <= 0
    ensures s.status.exitHead > id && id !in s.exits
  {
    if s.status.exitHead <= id {
      QueueTakes(line, s, id);
    }
  }
}
