/** Every run of the vault replays: the calls its events describe are accepted, and lead to the same
    status, deposits, exits and stranded exits, before and after the first limits event. */
module Refinement {
  import opened Common
  import opened VaultTypes
  import opened VaultSpec
  import opened VaultInvariant
  import opened VaultRuns
  import opened Sums
  import opened ParseCalls
  import R = ReplaySpec
  import VaultTree

  ghost predicate DepositAgrees(id: nat, d: PendingDeposit, r: R.Deposit) {
    r == R.Deposit(id, d.depositor, d.amount, d.commitment0, d.commitment1, d.createdAt, d.flag, d.flaggedAt)
  }

  ghost predicate ExitAgrees(id: nat, e: Exit, r: R.OwedExit) {
    && r.id == id && r.payout == e.payout && r.fee == e.fee
    && r.recipient == e.recipient && r.relayer == e.relayer && r.queuedAt == e.queuedAt
  }

  ghost predicate PendingAgrees(v: map<nat, PendingDeposit>, r: map<nat, R.Deposit>) {
    v.Keys == r.Keys && forall id :: id in v ==> DepositAgrees(id, v[id], r[id])
  }

  ghost predicate ExitsAgree(v: map<nat, Exit>, r: map<nat, R.OwedExit>) {
    v.Keys == r.Keys && forall id :: id in v ==> ExitAgrees(id, v[id], r[id])
  }

  /** The replayed state is the vault's; its limits may still be unknown. */
  ghost predicate Agrees(v: VaultState, r: R.State) {
    && r.leaves == v.leaves
    && r.nullifierCount == |v.nullifiers|
    && r.status == v.status
    && PendingAgrees(v.pending, r.pending)
    && ExitsAgree(v.exits, r.exits)
    && ExitsAgree(v.stranded, r.stranded)
    && (r.limits == None || r.limits == Some(v.limits))
    && r.queued == v.queuedLimits
  }

  /** What the vault's own checks guarantee of its leaves and flags. */
  ghost predicate Orderly(v: VaultState) {
    && |v.leaves| % 2 == 0
    && forall id :: id in v.pending ==>
         && (v.pending[id].flag.Some? ==> v.pending[id].flag.value != 0)
         && v.pending[id].commitment0 != v.pending[id].commitment1
  }

  /** The window's spent nullifiers are among the vault's. */
  ghost predicate Follows(v: VaultState, w: R.Window) {
    Solvent(v) && Orderly(v) && Agrees(v, w.state) && w.spent <= v.nullifiers
  }

  /** These calls replay from one window to a state of the vault. */
  ghost predicate Replays(depth: nat, w: R.Window, tx: R.Tx, calls: seq<R.Call>, v: VaultState) {
    && (forall c :: c in calls ==> WellShaped(c))
    && R.ApplyAll(depth, w, tx, calls).Ok?
    && Orderly(v)
    && Agrees(v, R.ApplyAll(depth, w, tx, calls).value.state)
    && R.ApplyAll(depth, w, tx, calls).value.spent <= v.nullifiers
  }

  lemma {:induction false} ApplyOneMore(depth: nat, w: R.Window, tx: R.Tx, calls: seq<R.Call>, c: R.Call)
    requires R.ApplyAll(depth, w, tx, calls).Ok?
    ensures R.ApplyAll(depth, w, tx, calls + [c]) == R.Apply(depth, R.ApplyAll(depth, w, tx, calls).value, tx, c)
    decreases |calls|
  {
    hide R.Apply;
    if calls == [] {
      assert calls + [c] == [c];
      assert [c][1..] == [];
    } else {
      assert (calls + [c])[1..] == calls[1..] + [c];
      ApplyOneMore(depth, R.Apply(depth, w, tx, calls[0]).value, tx, calls[1..], c);
    }
  }

  lemma {:induction false} EventsOfOneMore(calls: seq<R.Call>, c: R.Call)
    ensures EventsOfAll(calls + [c]) == EventsOfAll(calls) + EventsOf(c)
    decreases |calls|
  {
    hide EventsOf;
    if calls == [] {
      assert calls + [c] == [c];
      assert [c][1..] == [];
    } else {
      assert (calls + [c])[1..] == calls[1..] + [c];
      EventsOfOneMore(calls[1..], c);
    }
  }

  lemma ReplaysOne(depth: nat, w: R.Window, tx: R.Tx, c: R.Call, v: VaultState)
    requires WellShaped(c) && R.Apply(depth, w, tx, c).Ok? && Orderly(v)
    requires Agrees(v, R.Apply(depth, w, tx, c).value.state) && R.Apply(depth, w, tx, c).value.spent <= v.nullifiers
    ensures Replays(depth, w, tx, [c], v) && EventsOfAll([c]) == EventsOf(c)
  {
    ApplyOneMore(depth, w, tx, [], c);
    EventsOfOneMore([], c);
    assert [] + [c] == [c];
    hide R.Apply, EventsOf, Agrees;
  }

  lemma NoCalls(depth: nat, w: R.Window, tx: R.Tx, v: VaultState)
    requires Follows(v, w)
    ensures Replays(depth, w, tx, [], v)
  {
  }

  // ---------------------------------------------------------------------------------------------
  // The entry queue

  lemma SpendsTwo(nullifiers: set<nat>, a: nat, b: nat)
    requires a != b && a !in nullifiers && b !in nullifiers
    ensures |nullifiers + {a, b}| == |nullifiers| + 2
  {
    assert nullifiers + {a, b} == (nullifiers + {a}) + {b};
  }

  lemma ShieldReplays(v: VaultState, env: Env, proof: TxProof, ext: ExtData, depositor: Address, w: R.Window, tx: R.Tx)
    returns (calls: seq<R.Call>)
    requires Follows(v, w) && tx.closedAt == env.now
    ensures EventsOfAll(calls) == Shield(v, env, proof, ext, depositor).events
    ensures Replays(v.host.depth, w, tx, calls, Shield(v, env, proof, ext, depositor).state)
  {
    hide Replays, Solvent, ExitsAgree;
    var o := Shield(v, env, proof, ext, depositor);
    if o.result.Err? {
      NoCalls(v.host.depth, w, tx, v);
      return [];
    }
    var nf0, nf1 := proof.inputNullifiers[0], proof.inputNullifiers[1];
    SpendsTwo(v.nullifiers, nf0, nf1);
    var c := R.ShieldSeen(nf0, nf1, v.status.nextDepositId, depositor, ext.extAmount, proof.outputCommitments[0],
                          proof.outputCommitments[1], env.now);
    ReplaysOne(v.host.depth, w, tx, c, o.state);
    calls := [c];
  }

  lemma AttestReplays(v: VaultState, env: Env, upTo: nat, w: R.Window, tx: R.Tx) returns (calls: seq<R.Call>)
    requires Follows(v, w) && tx.closedAt == env.now
    ensures EventsOfAll(calls) == Attest(v, env, upTo).events
    ensures Replays(v.host.depth, w, tx, calls, Attest(v, env, upTo).state)
  {
    hide Replays, Solvent;
    if Attest(v, env, upTo).result.Err? {
      NoCalls(v.host.depth, w, tx, v);
      return [];
    }
    ReplaysOne(v.host.depth, w, tx, R.AttestedSeen(upTo), Attest(v, env, upTo).state);
    calls := [R.AttestedSeen(upTo)];
  }

  lemma FlagReplays(v: VaultState, env: Env, id: nat, reason: nat, w: R.Window, tx: R.Tx) returns (calls: seq<R.Call>)
    requires Follows(v, w) && tx.closedAt == env.now
    ensures EventsOfAll(calls) == Flag(v, env, id, reason).events
    ensures Replays(v.host.depth, w, tx, calls, Flag(v, env, id, reason).state)
  {
    hide Replays, Solvent;
    if Flag(v, env, id, reason).result.Err? {
      NoCalls(v.host.depth, w, tx, v);
      return [];
    }
    ReplaysOne(v.host.depth, w, tx, R.FlaggedSeen(id, reason), Flag(v, env, id, reason).state);
    calls := [R.FlaggedSeen(id, reason)];
  }

  lemma UnflagReplays(v: VaultState, env: Env, id: nat, w: R.Window, tx: R.Tx) returns (calls: seq<R.Call>)
    requires Follows(v, w) && tx.closedAt == env.now
    ensures EventsOfAll(calls) == Unflag(v, env, id).events
    ensures Replays(v.host.depth, w, tx, calls, Unflag(v, env, id).state)
  {
    hide Replays, Solvent;
    if Unflag(v, env, id).result.Err? {
      NoCalls(v.host.depth, w, tx, v);
      return [];
    }
    var c := R.UnflaggedSeen(id, v.pending[id].flag.value);
    ReplaysOne(v.host.depth, w, tx, c, Unflag(v, env, id).state);
    calls := [c];
  }

  /** A deposit given back, by its depositor or because it was flagged long enough. */
  lemma ReturnReplays(v: VaultState, env: Env, id: nat, reason: nat, w: R.Window, tx: R.Tx) returns (calls: seq<R.Call>)
    requires Follows(v, w) && tx.closedAt == env.now && id in v.pending
    requires reason != 0 ==> v.pending[id].flag == Some(reason) && env.now >= SaturatingAdd(v.pending[id].flaggedAt, REFUND_DELAY)
    ensures EventsOfAll(calls) == ReturnDeposit(v, env, id, reason).events
    ensures Replays(v.host.depth, w, tx, calls, ReturnDeposit(v, env, id, reason).state)
  {
    hide Replays;
    var o := ReturnDeposit(v, env, id, reason);
    if o.result.Err? {
      NoCalls(v.host.depth, w, tx, v);
      return [];
    }
    ReturnKeeps(v, env, id, reason);
    TvlIsNonNegative(o.state);
    hide Solvent;
    ReplaysOne(v.host.depth, w, tx, R.RefundedSeen(id, reason), o.state);
    calls := [R.RefundedSeen(id, reason)];
  }

  lemma {:induction false} AdmitLoopReplays(v: VaultState, env: Env, ids: seq<nat>, a: Admitting, w: R.Window, tx: R.Tx, done: seq<R.Call>)
    returns (calls: seq<R.Call>)
    requires Follows(v, w) && tx.closedAt == env.now && !v.status.Halted(env.now)
    requires AdmitHolds(v, a) && AdmitLoop(v, env, ids, a).Ok?
    requires EventsOfAll(done) == a.events
    requires Replays(v.host.depth, w, tx, done, AdmitState(v, a))
    ensures EventsOfAll(calls) == AdmitLoop(v, env, ids, a).value.events
    ensures Replays(v.host.depth, w, tx, calls, AdmitState(v, AdmitLoop(v, env, ids, a).value))
    decreases |ids|
  {
    calls := done;
    if ids != [] {
      var next := AdmitOne(v, env, ids[0], a).value;
      AdmitLoopKeeps(v, env, [ids[0]], a);
      assert [ids[0]][1..] == [];
      if next.admitted != a.admitted {
        calls := AdmitOneReplays(v, env, ids[0], a, w, tx, done);
      }
      hide Replays, AdmitHolds, AdmitOne, Follows;
      calls := AdmitLoopReplays(v, env, ids[1..], next, w, tx, calls);
    }
  }

  ghost function AdmitState(v: VaultState, a: Admitting): VaultState {
    v.(status := a.status, leaves := a.leaves, pending := a.pending)
  }

  lemma AdmitOneReplays(v: VaultState, env: Env, id: nat, a: Admitting, w: R.Window, tx: R.Tx, done: seq<R.Call>)
    returns (calls: seq<R.Call>)
    requires Follows(v, w) && tx.closedAt == env.now && !v.status.Halted(env.now)
    requires AdmitHolds(v, a) && AdmitOne(v, env, id, a).Ok? && AdmitOne(v, env, id, a).value.admitted != a.admitted
    requires EventsOfAll(done) == a.events
    requires Replays(v.host.depth, w, tx, done, AdmitState(v, a))
    ensures EventsOfAll(calls) == AdmitOne(v, env, id, a).value.events
    ensures Replays(v.host.depth, w, tx, calls, AdmitState(v, AdmitOne(v, env, id, a).value))
  {
    var d, index, next := a.pending[id], |a.leaves|, AdmitOne(v, env, id, a).value;
    var c := R.AdmissionSeen(R.Output(index, d.commitment0, d.encryptedOutput0), R.Output(index + 1, d.commitment1, d.encryptedOutput1), id);
    AdmissionAgrees(v, env, id, a, R.ApplyAll(v.host.depth, w, tx, done).value, tx, c);
    hide R.Apply, Agrees, AdmitHolds, Follows, Orderly;
    ReplaysNext(v.host.depth, w, tx, done, AdmitState(v, a), c, AdmitState(v, next));
    calls := done + [c];
  }

  lemma AdmissionAgrees(v: VaultState, env: Env, id: nat, a: Admitting, now: R.Window, tx: R.Tx, c: R.Call)
    requires tx.closedAt == env.now && !v.status.Halted(env.now) && AdmitHolds(v, a)
    requires Orderly(AdmitState(v, a)) && Agrees(AdmitState(v, a), now.state) && now.spent <= v.nullifiers
    requires AdmitOne(v, env, id, a).Ok? && AdmitOne(v, env, id, a).value.admitted != a.admitted
    requires c.AdmissionSeen? && c.id == id && id in a.pending
    requires c.out0 == R.Output(|a.leaves|, a.pending[id].commitment0, a.pending[id].encryptedOutput0)
    requires c.out1 == R.Output(|a.leaves| + 1, a.pending[id].commitment1, a.pending[id].encryptedOutput1)
    ensures var next := R.Apply(v.host.depth, now, tx, c);
            var after := AdmitState(v, AdmitOne(v, env, id, a).value);
            WellShaped(c) && Orderly(after) && next.Ok? && Agrees(after, next.value.state) && next.value.spent <= v.nullifiers
  {
  }

  /** One more call that agrees. */
  lemma ReplaysNext(depth: nat, w: R.Window, tx: R.Tx, done: seq<R.Call>, v: VaultState, c: R.Call, after: VaultState)
    requires Replays(depth, w, tx, done, v) && WellShaped(c) && Orderly(after)
    requires var next := R.Apply(depth, R.ApplyAll(depth, w, tx, done).value, tx, c);
             next.Ok? && Agrees(after, next.value.state) && next.value.spent <= after.nullifiers
    ensures Replays(depth, w, tx, done + [c], after)
    ensures EventsOfAll(done + [c]) == EventsOfAll(done) + EventsOf(c)
  {
    ApplyOneMore(depth, w, tx, done, c);
    EventsOfOneMore(done, c);
    hide R.Apply, EventsOf, Agrees, R.ApplyAll;
  }

  // ---------------------------------------------------------------------------------------------
  // The exit queue

  /** How a transaction ended, as its last event reports it. */
  ghost function EndingOf(v: VaultState, env: Env, ext: ExtData): R.Ending {
    if MustQueue(v.status, v.limits, env.Day(), ext.fee - ext.extAmount) then
      R.Waits(v.status.exitTail, ext.extAmount, ext.fee, ext.recipient, ext.relayer)
    else R.PaidAtOnce(ext.extAmount, ext.fee, ext.recipient, ext.relayer)
  }

  lemma SettleAgrees(v: VaultState, env: Env, ext: ExtData, w: R.Window, tx: R.Tx)
    requires Agrees(v, w.state) && tx.closedAt == env.now && Settle(v, env, ext).result.Ok?
    ensures var next := R.EndTransact(w, tx, EndingOf(v, env, ext));
            next.Ok? && Agrees(Settle(v, env, ext).state, next.value.state) && next.value.spent == w.spent
    ensures Settle(v, env, ext).events == [EndingEvent(EndingOf(v, env, ext))]
  {
    hide PendingAgrees;
  }

  /** Spending and inserting agree, and the checks of the replay pass. */
  lemma SpendAgrees(v: VaultState, env: Env, proof: TxProof, ext: ExtData, submitter: Address, w: R.Window, tx: R.Tx, c: R.Call)
    requires Follows(v, w) && tx.closedAt == env.now && TransactError(v, env, proof, ext, submitter) == None
    requires c.TransactSeen? && c.nf0 == proof.inputNullifiers[0] && c.nf1 == proof.inputNullifiers[1]
    requires c.out0 == R.Output(|v.leaves|, proof.outputCommitments[0], ext.encryptedOutput0)
    requires c.out1 == R.Output(|v.leaves| + 1, proof.outputCommitments[1], ext.encryptedOutput1)
    requires c.ending == EndingOf(Spent(v, proof), env, ext)
    ensures WellShaped(c) && Orderly(Spent(v, proof))
    ensures !R.BadTransact(w.state, tx.closedAt, c)
    ensures R.Spend(w, c.nf0, c.nf1).Ok?
    ensures var inserted := R.Insert(v.host.depth, R.Spend(w, c.nf0, c.nf1).value, c.out0, c.out1);
            inserted.Ok? && Agrees(Spent(v, proof), inserted.value.state) && inserted.value.spent <= Spent(v, proof).nullifiers
  {
    SpendsTwo(v.nullifiers, c.nf0, c.nf1);
    hide PendingAgrees, ExitsAgree, Solvent, VaultTree.RecentRoot;
  }

  lemma TransactReplays(v: VaultState, env: Env, proof: TxProof, ext: ExtData, submitter: Address, w: R.Window, tx: R.Tx)
    returns (calls: seq<R.Call>)
    requires Follows(v, w) && tx.closedAt == env.now
    ensures EventsOfAll(calls) == Transact(v, env, proof, ext, submitter).events
    ensures Replays(v.host.depth, w, tx, calls, Transact(v, env, proof, ext, submitter).state)
  {
    hide Replays, Solvent, TransactError, Settle, EndingOf;
    var o := Transact(v, env, proof, ext, submitter);
    if o.result.Err? {
      NoCalls(v.host.depth, w, tx, v);
      return [];
    }
    CheckedShape(v, env, proof, ext, submitter);
    var c := R.TransactSeen(proof.inputNullifiers[0], proof.inputNullifiers[1],
                            R.Output(|v.leaves|, proof.outputCommitments[0], ext.encryptedOutput0),
                            R.Output(|v.leaves| + 1, proof.outputCommitments[1], ext.encryptedOutput1),
                            EndingOf(Spent(v, proof), env, ext));
    SpendAgrees(v, env, proof, ext, submitter, w, tx, c);
    var inserted := R.Insert(v.host.depth, R.Spend(w, c.nf0, c.nf1).value, c.out0, c.out1).value;
    SettleAgrees(Spent(v, proof), env, ext, inserted, tx);
    hide Agrees, R.EndTransact, R.Insert, R.Spend, R.BadTransact;
    SettleKeepsOrder(Spent(v, proof), env, ext);
    ReplaysOne(v.host.depth, w, tx, c, o.state);
    calls := [c];
  }

  lemma CheckedShape(v: VaultState, env: Env, proof: TxProof, ext: ExtData, submitter: Address)
    requires TransactError(v, env, proof, ext, submitter) == None
    ensures |proof.inputNullifiers| == 2 && |proof.outputCommitments| == 2
  {
  }

  lemma SettleKeepsOrder(v: VaultState, env: Env, ext: ExtData)
    requires Orderly(v)
    ensures Orderly(Settle(v, env, ext).state)
    ensures Settle(v, env, ext).state.nullifiers == v.nullifiers
  {
  }

  lemma ClaimReplays(v: VaultState, env: Env, id: nat, w: R.Window, tx: R.Tx) returns (calls: seq<R.Call>)
    requires Follows(v, w) && tx.closedAt == env.now
    ensures EventsOfAll(calls) == Claim(v, env, id).events
    ensures Replays(v.host.depth, w, tx, calls, Claim(v, env, id).state)
  {
    hide Replays, Solvent, PendingAgrees;
    var o := Claim(v, env, id);
    if o.result.Err? {
      NoCalls(v.host.depth, w, tx, v);
      return [];
    }
    var c := R.ExitRequeuedSeen(id, v.status.exitTail, ClaimablePayout(v.host, env, v.stranded[id]),
                                ClaimableFee(v.host, env, v.stranded[id]));
    hide CanReceive;
    ReplaysOne(v.host.depth, w, tx, c, o.state);
    calls := [c];
  }

  lemma RunningTotals(s: VaultState, env: Env, r: Releasing)
    requires Solvent(s) && ReleaseHolds(s, env, r)
    ensures r.status.tvl >= 0 && r.status.queuedTotal >= 0
    ensures ReleaseState(s, env, r).status.OutflowOn(env.Day()) == r.today
    ensures ReleaseState(s, env, r).exits == r.exits && ReleaseState(s, env, r).stranded == r.stranded
    ensures ReleaseState(s, env, r).status.exitHead == r.status.exitHead
    ensures r.count > 0 ==> ReleaseState(s, env, r).status == r.status.(outflowDay := env.Day(), outflow := r.today)
  {
    SumNonNegative(s.pending, Amount, s.status.nextDepositId);
    SumNonNegative(r.exits, Owed, r.status.exitTail);
    SumNonNegative(r.stranded, Owed, r.status.exitTail);
  }

  /** What the replay computes of the step at the head is what the vault tries to pay. */
  lemma StepsAgree(s: VaultState, env: Env, r: Releasing, t: R.State)
    requires Solvent(s) && ReleaseHolds(s, env, r) && Agrees(ReleaseState(s, env, r), t)
    requires r.status.exitHead < r.status.exitTail && ReleasePlan(s, env, r).Try?
    ensures var plan, id := ReleasePlan(s, env, r), r.status.exitHead;
            && R.IsHead(t, env.now, id) == !s.status.Halted(env.now)
            && id in t.exits && ExitAgrees(id, plan.exit, t.exits[id])
            && (t.limits.Some? ==> R.StepOf(t, env.now, t.exits[id]) == Some((plan.payout, plan.fee)))
            && (t.limits == None ==> R.StepOf(t, env.now, t.exits[id]) == None)
            && forall x: int :: x <= plan.payout + plan.fee ==> R.Fits(t, env.now, x)
  {
    RunningTotals(s, env, r);
    PlanFits(s, env, r);
    hide PendingAgrees, PaidOut, Gained, GoodExit;
  }

  /** What a step changes, once its payments are known. */
  ghost predicate Stepped(s: VaultState, env: Env, r: Releasing, next: Releasing, plan: Plan, payoutPaid: int, feePaid: int)
    requires plan.Try?
  {
    && ReleaseHolds(s, env, next)
    && next.count > 0 && next.today == r.today + (payoutPaid + feePaid)
    && R.Whole(payoutPaid, plan.payout) && R.Whole(feePaid, plan.fee)
    && next.status == r.status.(tvl := r.status.tvl - (payoutPaid + feePaid),
                                queuedTotal := r.status.queuedTotal - (payoutPaid + feePaid), exitHead := next.status.exitHead)
    && Placed(r, next, plan, payoutPaid, feePaid)
  }

  /** Where the step leaves the exit at the head, and what it reports. */
  ghost predicate Placed(r: Releasing, next: Releasing, plan: Plan, payoutPaid: int, feePaid: int)
    requires plan.Try?
  {
    var id, left := r.status.exitHead, plan.exit.(payout := plan.exit.payout - payoutPaid, fee := plan.exit.fee - feePaid);
    if payoutPaid < plan.payout || feePaid < plan.fee then
      && next.status.exitHead == id + 1 && next.exits == r.exits - {id} && next.stranded == r.stranded[id := left]
      && next.events == r.events + [ExitStranded(id, left.payout, left.fee)]
    else if left.payout == 0 && left.fee == 0 then
      && next.status.exitHead == id + 1 && next.exits == r.exits - {id} && next.stranded == r.stranded
      && next.events == r.events + [Settled(-payoutPaid, feePaid, plan.exit.recipient, plan.exit.relayer, Some(id))]
    else
      && next.status.exitHead == id && next.exits == r.exits[id := left] && next.stranded == r.stranded
      && next.events == r.events + [ExitPaid(id, payoutPaid, feePaid, left.payout, left.fee)]
  }

  lemma StepPays(s: VaultState, env: Env, r: Releasing) returns (payoutPaid: int, feePaid: int)
    requires ReleaseHolds(s, env, r) && r.status.exitHead < r.status.exitTail && ReleaseOne(s, env, r).Next?
    ensures ReleasePlan(s, env, r).Try?
    ensures Stepped(s, env, r, ReleaseOne(s, env, r).r, ReleasePlan(s, env, r), payoutPaid, feePaid)
  {
    ReleaseOneKeeps(s, env, r);
    var plan := ReleasePlan(s, env, r);
    payoutPaid := TryPay(env, 2 * r.count, r.balance, plan.payout);
    feePaid := TryPay(env, 2 * r.count + 1, Debit(s.host, r.balance, plan.exit.recipient.address, payoutPaid), plan.fee);
    hide ReleaseHolds, ReleasePlan, TryPay, Debit, Payment, Handled, Placed;
    var paid := PaidFor(s.host, r, plan.exit, plan.available, payoutPaid, feePaid);
    HandledIsPlaced(r, paid, plan, payoutPaid, feePaid);
  }

  lemma HandledIsPlaced(r: Releasing, paid: Releasing, plan: Plan, payoutPaid: int, feePaid: int)
    requires plan.Try? && paid.exits == r.exits && paid.stranded == r.stranded && paid.events == r.events
    requires paid.status.exitHead == r.status.exitHead
    ensures var next := Handled(paid, r.status.exitHead, plan.exit, plan.payout, plan.fee, payoutPaid, feePaid);
            && Placed(r, next, plan, payoutPaid, feePaid)
            && next.status == paid.status.(exitHead := next.status.exitHead)
            && next.count == paid.count && next.today == paid.today
  {
  }

  ghost function StepCall(r: Releasing, plan: Plan, payoutPaid: int, feePaid: int): R.Call
    requires plan.Try?
  {
    var id, payout, fee := r.status.exitHead, plan.exit.payout - payoutPaid, plan.exit.fee - feePaid;
    if payoutPaid < plan.payout || feePaid < plan.fee then R.ExitStrandedSeen(id, payout, fee)
    else if payout == 0 && fee == 0 then R.ExitSettledSeen(-payoutPaid, feePaid, plan.exit.recipient, plan.exit.relayer, id)
    else R.ExitPaidSeen(id, payoutPaid, feePaid, payout, fee)
  }

  lemma StepCallIsEvent(r: Releasing, next: Releasing, plan: Plan, payoutPaid: int, feePaid: int)
    requires plan.Try? && Placed(r, next, plan, payoutPaid, feePaid)
    ensures next.events == r.events + EventsOf(StepCall(r, plan, payoutPaid, feePaid))
    ensures WellShaped(StepCall(r, plan, payoutPaid, feePaid))
  {
  }

  /** What paying the head leaves of the replayed totals, with the head's next place. */
  ghost function PaidStatus(t: R.State, now: nat, head: nat, paid: int): Status {
    t.status.(exitHead := head, queuedTotal := t.status.queuedTotal - paid, tvl := t.status.tvl - paid, outflowDay := now / DAY,
              outflow := t.status.OutflowOn(now / DAY) + paid)
  }

  lemma ApplyStranded(depth: nat, w: R.Window, tx: R.Tx, c: R.Call)
    requires c.ExitStrandedSeen? && R.IsHead(w.state, tx.closedAt, c.id)
    requires var e, now := w.state.exits[c.id], tx.closedAt;
             && c.payout <= e.payout && c.fee <= e.fee
             && R.Fits(w.state, now, (e.payout - c.payout) + (e.fee - c.fee))
             && R.CouldStrand(w.state, now, e, e.payout - c.payout, e.fee - c.fee)
             && var st := PaidStatus(w.state, now, c.id + 1, (e.payout - c.payout) + (e.fee - c.fee)); st.tvl >= 0 && st.queuedTotal >= 0
    ensures var e := w.state.exits[c.id];
            var next := R.Apply(depth, w, tx, c);
            && next.Ok? && next.value.spent == w.spent
            && next.value.state.exits == w.state.exits - {c.id}
            && next.value.state.stranded.Keys == w.state.stranded.Keys + {c.id}
            && (forall id :: id in w.state.stranded && id != c.id ==> next.value.state.stranded[id] == w.state.stranded[id])
            && (var left := next.value.state.stranded[c.id];
                left == e.(payout := c.payout, fee := c.fee, strandedLedger := left.strandedLedger, strandedAt := left.strandedAt,
                           strandedTx := left.strandedTx))
            && next.value.state == w.state.(status := PaidStatus(w.state, tx.closedAt, c.id + 1, (e.payout - c.payout) + (e.fee - c.fee)),
                                            exits := next.value.state.exits, stranded := next.value.state.stranded)
  {
  }

  lemma ApplySettled(depth: nat, w: R.Window, tx: R.Tx, c: R.Call)
    requires c.ExitSettledSeen? && R.IsHead(w.state, tx.closedAt, c.id)
    requires var e, now := w.state.exits[c.id], tx.closedAt;
             && -c.extAmount == e.payout && c.fee == e.fee && c.recipient == e.recipient && c.relayer == e.relayer
             && R.Fits(w.state, now, e.payout + e.fee)
             && var st := PaidStatus(w.state, now, c.id + 1, e.payout + e.fee); st.tvl >= 0 && st.queuedTotal >= 0
    ensures var e := w.state.exits[c.id];
            var next := R.Apply(depth, w, tx, c);
            && next.Ok? && next.value.spent == w.spent
            && next.value.state == w.state.(status := PaidStatus(w.state, tx.closedAt, c.id + 1, e.payout + e.fee),
                                            exits := w.state.exits - {c.id})
  {
  }

  lemma ApplyPart(depth: nat, w: R.Window, tx: R.Tx, c: R.Call)
    requires c.ExitPaidSeen? && R.IsHead(w.state, tx.closedAt, c.id)
    requires var e, now := w.state.exits[c.id], tx.closedAt;
             && c.payoutPaid + c.payoutLeft == e.payout && c.feePaid + c.feeLeft == e.fee
             && (R.StepOf(w.state, now, e).Some? ==> R.StepOf(w.state, now, e).value == (c.payoutPaid, c.feePaid))
             && var st := PaidStatus(w.state, now, c.id, c.payoutPaid + c.feePaid); st.tvl >= 0 && st.queuedTotal >= 0
    ensures var e := w.state.exits[c.id];
            var next := R.Apply(depth, w, tx, c);
            && next.Ok? && next.value.spent == w.spent
            && next.value.state == w.state.(status := PaidStatus(w.state, tx.closedAt, c.id, c.payoutPaid + c.feePaid),
                                            exits := w.state.exits[c.id := e.(payout := c.payoutLeft, fee := c.feeLeft)])
  {
  }

  lemma TotalsAgree(s: VaultState, env: Env, r: Releasing, t: R.State, next: Releasing, paid: int)
    requires Solvent(s) && ReleaseHolds(s, env, r) && ReleaseHolds(s, env, next) && t.status == ReleaseState(s, env, r).status
    requires next.count > 0 && next.today == r.today + paid
    requires next.status == r.status.(tvl := r.status.tvl - paid, queuedTotal := r.status.queuedTotal - paid,
                                      exitHead := next.status.exitHead)
    ensures PaidStatus(t, env.now, next.status.exitHead, paid) == ReleaseState(s, env, next).status
    ensures ReleaseState(s, env, next).status.tvl >= 0 && ReleaseState(s, env, next).status.queuedTotal >= 0
  {
    RunningTotals(s, env, r);
    RunningTotals(s, env, next);
    hide ExitQueue, EntryQueue, LimitsError, PaidOut, Gained, RunQueue;
  }

  /** Agreement of the parts a step touches is agreement of the whole. */
  lemma AgreesAfter(s: VaultState, env: Env, r: Releasing, next: Releasing, w: R.State, after: R.State)
    requires Agrees(ReleaseState(s, env, r), w)
    requires after == w.(status := ReleaseState(s, env, next).status, exits := after.exits, stranded := after.stranded)
    requires next.count > 0 && ExitsAgree(next.exits, after.exits) && ExitsAgree(next.stranded, after.stranded)
    ensures Agrees(ReleaseState(s, env, next), after)
  {
    hide ExitsAgree, PendingAgrees;
  }

  /** Everything the replay's checks ask of a step. */
  ghost predicate StepReady(now: nat, r: Releasing, next: Releasing, status: Status, plan: Plan, payoutPaid: int, feePaid: int, t: R.State)
    requires plan.Try?
  {
    var id := r.status.exitHead;
    && Placed(r, next, plan, payoutPaid, feePaid)
    && R.Whole(payoutPaid, plan.payout) && R.Whole(feePaid, plan.fee)
    && 0 <= plan.payout <= plan.exit.payout && 0 <= plan.fee <= plan.exit.fee
    && R.IsHead(t, now, id) && id in t.exits && ExitAgrees(id, plan.exit, t.exits[id])
    && R.Fits(t, now, payoutPaid + feePaid)
    && (R.StepOf(t, now, t.exits[id]).Some? ==> R.StepOf(t, now, t.exits[id]).value == (plan.payout, plan.fee))
    && PaidStatus(t, now, next.status.exitHead, payoutPaid + feePaid) == status
    && status.tvl >= 0 && status.queuedTotal >= 0
    && ExitsAgree(r.exits, t.exits) && ExitsAgree(r.stranded, t.stranded)
  }

  /** The replay accepts the step and changes the parts of its state the vault changed. */
  ghost predicate StepDone(depth: nat, w: R.Window, tx: R.Tx, c: R.Call, next: Releasing, status: Status) {
    var applied := R.Apply(depth, w, tx, c);
    && applied.Ok? && applied.value.spent == w.spent
    && applied.value.state == w.state.(status := status, exits := applied.value.state.exits, stranded := applied.value.state.stranded)
    && ExitsAgree(next.exits, applied.value.state.exits) && ExitsAgree(next.stranded, applied.value.state.stranded)
  }

  lemma StrandedStep(depth: nat, w: R.Window, tx: R.Tx, r: Releasing, next: Releasing, status: Status, plan: Plan, payoutPaid: int, feePaid: int)
    requires plan.Try? && StepReady(tx.closedAt, r, next, status, plan, payoutPaid, feePaid, w.state)
    requires payoutPaid < plan.payout || feePaid < plan.fee
    ensures StepDone(depth, w, tx, StepCall(r, plan, payoutPaid, feePaid), next, status)
  {
    hide R.Fits, R.StepOf, R.Apply, ExitsAgree, R.IsHead, PaidStatus;
    var c := StepCall(r, plan, payoutPaid, feePaid);
    ApplyStranded(depth, w, tx, c);
    StrandedExitsAgree(r, next, plan, payoutPaid, feePaid, w.state, R.Apply(depth, w, tx, c).value.state);
  }

  lemma SettledStep(depth: nat, w: R.Window, tx: R.Tx, r: Releasing, next: Releasing, status: Status, plan: Plan, payoutPaid: int, feePaid: int)
    requires plan.Try? && StepReady(tx.closedAt, r, next, status, plan, payoutPaid, feePaid, w.state)
    requires payoutPaid == plan.payout && feePaid == plan.fee
    ensures StepDone(depth, w, tx, StepCall(r, plan, payoutPaid, feePaid), next, status)
  {
    hide R.Fits, R.StepOf, R.Apply, ExitsAgree, R.IsHead, PaidStatus;
    var c := StepCall(r, plan, payoutPaid, feePaid);
    if c.ExitSettledSeen? {
      ApplySettled(depth, w, tx, c);
    } else {
      ApplyPart(depth, w, tx, c);
    }
    SettledExitsAgree(r, next, plan, payoutPaid, feePaid, w.state, R.Apply(depth, w, tx, c).value.state);
  }

  lemma StepIsReady(s: VaultState, env: Env, r: Releasing, next: Releasing, payoutPaid: int, feePaid: int, t: R.State)
    requires Solvent(s) && ReleaseHolds(s, env, r) && r.status.exitHead < r.status.exitTail && !s.status.Halted(env.now)
    requires Agrees(ReleaseState(s, env, r), t)
    requires ReleasePlan(s, env, r).Try? && Stepped(s, env, r, next, ReleasePlan(s, env, r), payoutPaid, feePaid)
    ensures StepReady(env.now, r, next, ReleaseState(s, env, next).status, ReleasePlan(s, env, r), payoutPaid, feePaid, t)
  {
    hide ReleasePlan, ReleaseHolds, Solvent, R.Fits, R.StepOf, R.IsHead, GoodExit, PaidStatus, ReleaseState, Placed;
    hide ExitsAgree, ExitAgrees, PendingAgrees;
    PlanFits(s, env, r);
    StepsAgree(s, env, r, t);
    RunningTotals(s, env, r);
    TotalsAgree(s, env, r, t, next, payoutPaid + feePaid);
  }

  lemma StepReplays(s: VaultState, env: Env, r: Releasing, next: Releasing, payoutPaid: int, feePaid: int, w: R.Window, tx: R.Tx)
    requires Solvent(s) && ReleaseHolds(s, env, r) && r.status.exitHead < r.status.exitTail && !s.status.Halted(env.now)
    requires Agrees(ReleaseState(s, env, r), w.state) && tx.closedAt == env.now
    requires ReleasePlan(s, env, r).Try? && Stepped(s, env, r, next, ReleasePlan(s, env, r), payoutPaid, feePaid)
    ensures var applied := R.Apply(s.host.depth, w, tx, StepCall(r, ReleasePlan(s, env, r), payoutPaid, feePaid));
            applied.Ok? && Agrees(ReleaseState(s, env, next), applied.value.state) && applied.value.spent == w.spent
  {
    var plan, status := ReleasePlan(s, env, r), ReleaseState(s, env, next).status;
    var c := StepCall(r, plan, payoutPaid, feePaid);
    assert R.Whole(payoutPaid, plan.payout) && R.Whole(feePaid, plan.fee) && next.count > 0;
    PlanFits(s, env, r);
    StepIsReady(s, env, r, next, payoutPaid, feePaid, w.state);
    hide ReleasePlan, ReleaseHolds, Solvent, Agrees, ReleaseState, StepReady, Stepped, StepCall, R.Apply;
    if payoutPaid < plan.payout || feePaid < plan.fee {
      StrandedStep(s.host.depth, w, tx, r, next, status, plan, payoutPaid, feePaid);
    } else {
      SettledStep(s.host.depth, w, tx, r, next, status, plan, payoutPaid, feePaid);
    }
    AgreesAfter(s, env, r, next, w.state, R.Apply(s.host.depth, w, tx, c).value.state);
  }

  lemma SettledExitsAgree(r: Releasing, next: Releasing, plan: Plan, payoutPaid: int, feePaid: int, t: R.State, after: R.State)
    requires plan.Try? && Placed(r, next, plan, payoutPaid, feePaid) && payoutPaid >= plan.payout && feePaid >= plan.fee
    requires ExitsAgree(r.exits, t.exits) && ExitsAgree(r.stranded, t.stranded)
    requires var id, left := r.status.exitHead, plan.exit.(payout := plan.exit.payout - payoutPaid, fee := plan.exit.fee - feePaid);
             && id in t.exits && ExitAgrees(id, plan.exit, t.exits[id])
             && after.stranded == t.stranded
             && after.exits == if left.payout == 0 && left.fee == 0 then t.exits - {id}
                               else t.exits[id := t.exits[id].(payout := left.payout, fee := left.fee)]
    ensures ExitsAgree(next.exits, after.exits) && ExitsAgree(next.stranded, after.stranded)
  {
  }

  lemma StrandedExitsAgree(r: Releasing, next: Releasing, plan: Plan, payoutPaid: int, feePaid: int, t: R.State, after: R.State)
    requires plan.Try? && Placed(r, next, plan, payoutPaid, feePaid) && (payoutPaid < plan.payout || feePaid < plan.fee)
    requires ExitsAgree(r.exits, t.exits) && ExitsAgree(r.stranded, t.stranded)
    requires var id := r.status.exitHead;
             && id in t.exits && ExitAgrees(id, plan.exit, t.exits[id])
             && after.exits == t.exits - {id}
             && after.stranded.Keys == t.stranded.Keys + {id}
             && (forall k :: k in t.stranded && k != id ==> after.stranded[k] == t.stranded[k])
             && var left := after.stranded[id];
                left == t.exits[id].(payout := plan.exit.payout - payoutPaid, fee := plan.exit.fee - feePaid,
                                     strandedLedger := left.strandedLedger, strandedAt := left.strandedAt,
                                     strandedTx := left.strandedTx)
    ensures ExitsAgree(next.exits, after.exits) && ExitsAgree(next.stranded, after.stranded)
  {
  }

  lemma {:induction false} ReleaseLoopReplays(s: VaultState, env: Env, max: nat, r: Releasing, w: R.Window, tx: R.Tx, done: seq<R.Call>)
    returns (calls: seq<R.Call>)
    requires Follows(s, w) && tx.closedAt == env.now && !s.status.Halted(env.now)
    requires ReleaseHolds(s, env, r) && ReleaseLoop(s, env, max, r).Ok?
    requires EventsOfAll(done) == r.events
    requires Replays(s.host.depth, w, tx, done, ReleaseState(s, env, r))
    ensures EventsOfAll(calls) == ReleaseLoop(s, env, max, r).value.events
    ensures Replays(s.host.depth, w, tx, calls, ReleaseState(s, env, ReleaseLoop(s, env, max, r).value))
    decreases max - r.count
  {
    hide ReleaseHolds, ReleaseOne, Replays, ReleaseState;
    calls := done;
    if r.count < max && r.status.exitHead < r.status.exitTail && ReleaseOne(s, env, r).Next? {
      var next := ReleaseOne(s, env, r).r;
      ReleaseOneKeeps(s, env, r);
      calls := ReleaseStepReplays(s, env, r, w, tx, done);
      calls := ReleaseLoopReplays(s, env, max, next, w, tx, calls);
    }
  }

  lemma ReleaseStepReplays(s: VaultState, env: Env, r: Releasing, w: R.Window, tx: R.Tx, done: seq<R.Call>) returns (calls: seq<R.Call>)
    requires Follows(s, w) && tx.closedAt == env.now && !s.status.Halted(env.now)
    requires ReleaseHolds(s, env, r) && r.status.exitHead < r.status.exitTail && ReleaseOne(s, env, r).Next?
    requires EventsOfAll(done) == r.events
    requires Replays(s.host.depth, w, tx, done, ReleaseState(s, env, r))
    ensures EventsOfAll(calls) == ReleaseOne(s, env, r).r.events
    ensures Replays(s.host.depth, w, tx, calls, ReleaseState(s, env, ReleaseOne(s, env, r).r))
  {
    var next := ReleaseOne(s, env, r).r;
    var payoutPaid, feePaid := StepPays(s, env, r);
    var plan := ReleasePlan(s, env, r);
    var c := StepCall(r, plan, payoutPaid, feePaid);
    var mid := R.ApplyAll(s.host.depth, w, tx, done).value;
    StepReplays(s, env, r, next, payoutPaid, feePaid, mid, tx);
    StepCallIsEvent(r, next, plan, payoutPaid, feePaid);
    ReleaseKeepsOrder(s, env, r);
    ReleaseKeepsOrder(s, env, next);
    hide ReleaseHolds, ReleaseOne, ReleaseState, Agrees, R.Apply, ReleasePlan, StepCall, Stepped, Solvent, Orderly;
    ReplaysNext(s.host.depth, w, tx, done, ReleaseState(s, env, r), c, ReleaseState(s, env, next));
    calls := done + [c];
  }

  lemma ReleaseKeepsOrder(s: VaultState, env: Env, r: Releasing)
    requires Orderly(s)
    ensures Orderly(ReleaseState(s, env, r)) && ReleaseState(s, env, r).nullifiers == s.nullifiers
  {
  }

  lemma ReleaseReplays(v: VaultState, env: Env, max: nat, w: R.Window, tx: R.Tx) returns (calls: seq<R.Call>)
    requires Follows(v, w) && tx.closedAt == env.now
    ensures EventsOfAll(calls) == Release(v, env, max).events
    ensures Replays(v.host.depth, w, tx, calls, Release(v, env, max).state)
  {
    NoCalls(v.host.depth, w, tx, v);
    var o := Release(v, env, max);
    if o.result.Err? {
      return [];
    }
    var start := ReleaseStart(v, env);
    assert ReleaseHolds(v, env, start);
    assert ReleaseState(v, env, start) == v;
    hide ReleaseHolds, Replays, ReleaseState, Follows;
    calls := ReleaseLoopReplays(v, env, max, start, w, tx, []);
  }

  lemma AdmitReplays(v: VaultState, env: Env, ids: seq<nat>, w: R.Window, tx: R.Tx) returns (calls: seq<R.Call>)
    requires Follows(v, w) && tx.closedAt == env.now
    ensures EventsOfAll(calls) == Admit(v, env, ids).events
    ensures Replays(v.host.depth, w, tx, calls, Admit(v, env, ids).state)
  {
    NoCalls(v.host.depth, w, tx, v);
    var o := Admit(v, env, ids);
    if o.result.Err? {
      return [];
    }
    assert AdmitHolds(v, AdmitStart(v));
    assert AdmitState(v, AdmitStart(v)) == v;
    hide AdmitHolds, Replays, Follows;
    calls := AdmitLoopReplays(v, env, ids, AdmitStart(v), w, tx, []);
  }

  // ---------------------------------------------------------------------------------------------
  // The guardian, and whole runs

  lemma TwoCalls(depth: nat, w: R.Window, tx: R.Tx, a: R.Call, b: R.Call)
    requires R.Apply(depth, w, tx, a).Ok?
    ensures R.ApplyAll(depth, w, tx, [a, b]) == R.Apply(depth, R.Apply(depth, w, tx, a).value, tx, b)
    ensures EventsOfAll([a, b]) == EventsOf(a) + EventsOf(b)
  {
    hide R.Apply, EventsOf;
    assert [] + [a] == [a] && [a] + [b] == [a, b];
    ApplyOneMore(depth, w, tx, [], a);
    ApplyOneMore(depth, w, tx, [a], b);
    EventsOfOneMore([], a);
    EventsOfOneMore([a], b);
  }

  lemma SetLimitsReplays(v: VaultState, env: Env, limits: Limits, w: R.Window, tx: R.Tx) returns (calls: seq<R.Call>)
    requires Follows(v, w) && tx.closedAt == env.now
    ensures EventsOfAll(calls) == SetLimits(v, env, limits).events
    ensures Replays(v.host.depth, w, tx, calls, SetLimits(v, env, limits).state)
  {
    hide Solvent, Tightens, LimitsError, ExitsAgree, PendingAgrees;
    var o := SetLimits(v, env, limits);
    if o.result.Err? {
      NoCalls(v.host.depth, w, tx, v);
      return [];
    }
    var applied := R.LimitsAppliedSeen(limits, env.now);
    if !Tightens(v.limits, limits) {
      var c := R.LimitsQueuedSeen(limits, env.now + LOOSENING_DELAY);
      ReplaysOne(v.host.depth, w, tx, c, o.state);
      calls := [c];
    } else if v.queuedLimits == None {
      ReplaysOne(v.host.depth, w, tx, applied, o.state);
      calls := [applied];
    } else {
      var dropped := R.LimitsCancelledSeen(v.queuedLimits.value.limits, v.queuedLimits.value.readyAt);
      TwoCalls(v.host.depth, w, tx, dropped, applied);
      calls := [dropped, applied];
    }
  }

  lemma HaltingReplays(v: VaultState, env: Env, call: Call, w: R.Window, tx: R.Tx) returns (calls: seq<R.Call>)
    requires Follows(v, w) && tx.closedAt == env.now
    requires call.SetPauseCall? || call.HaltCall? || call.ResumeCall?
    ensures EventsOfAll(calls) == Step(v, env, call).events
    ensures Replays(v.host.depth, w, tx, calls, Step(v, env, call).state)
  {
    hide Solvent, Replays, PendingAgrees, ExitsAgree;
    var after := Step(v, env, call);
    if after.events == [] {
      NoCalls(v.host.depth, w, tx, v);
      return [];
    }
    var c := match call
      case SetPauseCall(deposits, transfers) => R.PausedSeen(deposits, transfers)
      case HaltCall => R.HaltedSeen(after.state.status.haltedUntil)
      case _ => R.ResumedSeen(after.state.status.nextHaltAt);
    ReplaysOne(v.host.depth, w, tx, c, after.state);
    calls := [c];
  }

  lemma LimitCallsReplay(v: VaultState, env: Env, call: Call, w: R.Window, tx: R.Tx) returns (calls: seq<R.Call>)
    requires Follows(v, w) && tx.closedAt == env.now
    requires call.ApplyLimitsCall? || call.CancelLimitsCall?
    ensures EventsOfAll(calls) == Step(v, env, call).events
    ensures Replays(v.host.depth, w, tx, calls, Step(v, env, call).state)
  {
    hide Solvent, Replays, PendingAgrees, ExitsAgree, ChangeError;
    var after := Step(v, env, call);
    if after.events == [] {
      NoCalls(v.host.depth, w, tx, v);
      return [];
    }
    var queued := v.queuedLimits.value;
    var c := if call.ApplyLimitsCall? then R.LimitsAppliedSeen(queued.limits, queued.readyAt)
             else R.LimitsCancelledSeen(queued.limits, queued.readyAt);
    ReplaysOne(v.host.depth, w, tx, c, after.state);
    calls := [c];
  }

  lemma OutsideReplays(v: VaultState, env: Env, amount: int, w: R.Window, tx: R.Tx)
    requires Follows(v, w)
    ensures Step(v, env, BalanceMoves(amount)).events == []
    ensures Replays(v.host.depth, w, tx, [], Step(v, env, BalanceMoves(amount)).state)
  {
    NoCalls(v.host.depth, w, tx, v);
  }

  /** One call of the vault, whatever it is and however it ends: its events parse, and the replay
      accepts them and agrees with the vault again. */
  lemma StepIsReplayed(v: VaultState, env: Env, call: Call, w: R.Window, tx: R.Tx) returns (calls: seq<R.Call>)
    requires Follows(v, w) && tx.closedAt == env.now
    ensures Parsed(Step(v, env, call).events) == Ok(calls)
    ensures R.ApplyAll(v.host.depth, w, tx, calls).Ok?
    ensures Follows(Step(v, env, call).state, R.ApplyAll(v.host.depth, w, tx, calls).value)
  {
    hide EventsOf, R.Apply;
    calls := StepCalls(v, env, call, w, tx);
    EventsParseBack(calls);
    hide Solvent, Orderly, Agrees, Step;
    if call.BalanceMoves? {
      BalanceMoveKeeps(v, env, call.amount);
    } else {
      StepKeeps(v, env, call);
    }
  }

  lemma StepCalls(v: VaultState, env: Env, call: Call, w: R.Window, tx: R.Tx) returns (calls: seq<R.Call>)
    requires Follows(v, w) && tx.closedAt == env.now
    ensures EventsOfAll(calls) == Step(v, env, call).events
    ensures Replays(v.host.depth, w, tx, calls, Step(v, env, call).state)
  {
    hide Follows, Replays;
    match call
    case ShieldCall(proof, ext, depositor) => calls := ShieldReplays(v, env, proof, ext, depositor, w, tx);
    case TransactCall(proof, ext, submitter) => calls := TransactReplays(v, env, proof, ext, submitter, w, tx);
    case ReleaseCall(max) => calls := ReleaseReplays(v, env, max, w, tx);
    case ClaimCall(id) => calls := ClaimReplays(v, env, id, w, tx);
    case AttestCall(upTo) => calls := AttestReplays(v, env, upTo, w, tx);
    case FlagCall(id, reason) => calls := FlagReplays(v, env, id, reason, w, tx);
    case UnflagCall(id) => calls := UnflagReplays(v, env, id, w, tx);
    case AdmitCall(ids) => calls := AdmitReplays(v, env, ids, w, tx);
    case CancelCall(id) => calls := CancelReplays(v, env, id, w, tx);
    case RefundCall(id) => calls := RefundReplays(v, env, id, w, tx);
    case SetLimitsCall(limits) => calls := SetLimitsReplays(v, env, limits, w, tx);
    case ApplyLimitsCall => calls := LimitCallsReplay(v, env, call, w, tx);
    case CancelLimitsCall => calls := LimitCallsReplay(v, env, call, w, tx);
    case BalanceMoves(amount) =>
      OutsideReplays(v, env, amount, w, tx);
      calls := [];
    case _ => calls := HaltingReplays(v, env, call, w, tx);
  }

  lemma CancelReplays(v: VaultState, env: Env, id: nat, w: R.Window, tx: R.Tx) returns (calls: seq<R.Call>)
    requires Follows(v, w) && tx.closedAt == env.now
    ensures EventsOfAll(calls) == Cancel(v, env, id).events
    ensures Replays(v.host.depth, w, tx, calls, Cancel(v, env, id).state)
  {
    NoCalls(v.host.depth, w, tx, v);
    hide Follows, Replays;
    if id !in v.pending || v.pending[id].depositor !in env.signers {
      return [];
    }
    calls := ReturnReplays(v, env, id, 0, w, tx);
  }

  lemma RefundReplays(v: VaultState, env: Env, id: nat, w: R.Window, tx: R.Tx) returns (calls: seq<R.Call>)
    requires Follows(v, w) && tx.closedAt == env.now
    ensures EventsOfAll(calls) == Refund(v, env, id).events
    ensures Replays(v.host.depth, w, tx, calls, Refund(v, env, id).state)
  {
    NoCalls(v.host.depth, w, tx, v);
    hide Follows, Replays;
    if id !in v.pending || v.pending[id].flag == None || env.now < SaturatingAdd(v.pending[id].flaggedAt, REFUND_DELAY) {
      return [];
    }
    calls := ReturnReplays(v, env, id, v.pending[id].flag.value, w, tx);
  }

  /** The window after the calls of the first `n` steps, each in a transaction of its own. */
  ghost function RunWindow(s: VaultState, steps: seq<Timed>, n: nat, txs: nat -> R.Tx): Option<R.Window>
    requires n <= |steps|
    decreases n
  {
    if n == 0 then Some(R.Window(R.NEW_STATE, R.NO_CHANGE, {}))
    else
      var before := RunWindow(s, steps, n - 1, txs);
      var calls := Parsed(EffectAt(s, steps, n - 1).events);
      if before == None || calls.Err? then None
      else
        match R.ApplyAll(s.host.depth, before.value, txs(n - 1), calls.value)
        case Err(_) => None
        case Ok(w) => Some(w)
  }

  lemma StartFollows(host: Host, config: Config, limits: Limits)
    requires Solvent(Deployed(host, config, limits))
    ensures Follows(Deployed(host, config, limits), R.Window(R.NEW_STATE, R.NO_CHANGE, {}))
  {
  }

  /** From its deployment on, every run of the vault is accepted by the replay of its events, which
      ends in the same state. */
  lemma {:induction false} RunIsReplayed(host: Host, config: Config, limits: Limits, steps: seq<Timed>, n: nat, txs: nat -> R.Tx)
    requires LimitsError(limits) == None && n <= |steps|
    requires forall i: nat :: i < |steps| ==> txs(i).closedAt == steps[i].env.now
    ensures var s := Deployed(host, config, limits);
            && RunWindow(s, steps, n, txs).Some?
            && Agrees(StateAt(s, steps, n), RunWindow(s, steps, n, txs).value.state)
            && Follows(StateAt(s, steps, n), RunWindow(s, steps, n, txs).value)
  {
    hide Step, Solvent, Orderly, Agrees, R.ApplyAll, Parsed, Deployed, LimitsError;
    var s := Deployed(host, config, limits);
    DeployedSolvent(host, config, limits);
    StartFollows(host, config, limits);
    if n > 0 {
      RunIsReplayed(host, config, limits, steps, n - 1, txs);
      RunSolvent(s, steps, n - 1);
      var v := StateAt(s, steps, n - 1);
      var calls := StepIsReplayed(v, steps[n - 1].env, steps[n - 1].call, RunWindow(s, steps, n - 1, txs).value, txs(n - 1));
    }
  }

  /** The state a run from the deployment reaches, and the state replayed from its events. */
  ghost predicate Reaches(host: Host, config: Config, limits: Limits, past: seq<Timed>, txs: nat -> R.Tx, v: VaultState, r: R.State) {
    && LimitsError(limits) == None
    && Ordered(past)
    && (forall i: nat :: i < |past| ==> txs(i).closedAt == past[i].env.now)
    && v == StateAt(Deployed(host, config, limits), past, |past|)
    && RunWindow(Deployed(host, config, limits), past, |past|, txs).Some?
    && r == RunWindow(Deployed(host, config, limits), past, |past|, txs).value.state
  }
}
