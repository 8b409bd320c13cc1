/** The replay object: the vault's state rebuilt in place, call by call. */
module Replay {
  import opened Common
  import opened Merkle
  import opened VaultTypes
  import Spec = ReplaySpec
  import VaultTree

  /** The services' own frontier of the commitment tree: one root, no ring. */
  class Tree {
    const h: Compressor
    const depth: nat
    var next: nat
    var root: Field
    var frontier: seq<Field>

    /** The object is the tree over these leaves. */
    ghost predicate Holds(leaves: seq<Field>)
      reads this
    {
      && depth >= 1
      && next == |leaves| <= Pow2(depth)
      && next % 2 == 0
      && VaultTree.FrontierHolds(h, depth, frontier, leaves)
      && (next > 0 ==> root == Merkle.Root(h, leaves, depth))
    }

    constructor (h: Compressor, depth: nat)
      requires depth >= 1
      ensures this.h == h && this.depth == depth && Holds([])
    {
      this.h, this.depth := h, depth;
      next, root := 0, 0;
      frontier := seq(depth, _ => 0);
      new;
      forall level: nat
        ensures Shr(0, level) == 0
      {
        ShrIs(0, level, 0);
      }
    }

    method CurrentRoot(ghost leaves: seq<Field>) returns (r: Field)
      requires Holds(leaves)
      ensures r == Merkle.Root(h, leaves, depth)
    {
      if next == 0 {
        EmptyNode(h, leaves, depth, 0);
        return Zero(h, depth);
      }
      return root;
    }

    /** Inserts a pair at the next two leaf indices; None when the tree is full. */
    method AppendPair(left: Field, right: Field, ghost leaves: seq<Field>) returns (index: Option<nat>)
      requires Holds(leaves)
      modifies this
      ensures index == None <==> |leaves| + 2 > Pow2(depth)
      ensures index == None ==> Holds(leaves)
      ensures index.Some? ==> index.value == |leaves| && Holds(leaves + [left, right])
    {
      if next + 2 > Pow2(depth) {
        return None;
      }
      ghost var grown, before := leaves + [left, right], frontier;
      var node := h(left, right);
      var position := next / 2;
      assert node == Node(h, grown, 1, position) by {
        assert node == h(Node(h, grown, 0, 2 * position), Node(h, grown, 0, 2 * position + 1));
      }
      for level := 1 to depth
        invariant position == Shr(next, level) && next == old(next)
        invariant VaultTree.Climbing(h, depth, before, frontier, leaves, grown, level, node)
      {
        if position % 2 == 0 {
          VaultTree.ClimbLeft(h, depth, before, frontier, leaves, left, right, level, node);
          frontier := frontier[level := node];
          node := h(node, Zero(h, level));
        } else {
          VaultTree.ClimbRight(h, depth, before, frontier, leaves, left, right, level, node);
          node := h(frontier[level], node);
        }
        position := position / 2;
      }
      ShrIs(next, depth, 0);
      root := node;
      next := next + 2;
      return Some(next - 2);
    }
  }

  class State {
    const tree: Tree
    var nextDepositId: nat
    var attestedUpTo: nat
    var pending: map<nat, Spec.Deposit>
    var nullifierCount: nat
    var tvl: int
    var pendingTotal: int
    var queuedTotal: int
    var exitHead: nat
    var exitTail: nat
    var exits: map<nat, Spec.OwedExit>
    var stranded: map<nat, Spec.OwedExit>
    var outflowDay: nat
    var outflow: int
    var depositsPaused: bool
    var transfersPaused: bool
    var haltedUntil: nat
    var nextHaltAt: nat
    var limits: Option<Limits>
    var queued: Option<QueuedLimits>

    /** The vault status the state replays. */
    function GetStatus(): Status
      reads this
    {
      Status(depositsPaused, transfersPaused, haltedUntil, nextHaltAt, nextDepositId, attestedUpTo, tvl, pendingTotal, queuedTotal,
             exitHead, exitTail, outflowDay, outflow)
    }

    ghost function View(leaves: seq<Field>): Spec.State
      reads this
    {
      Spec.State(leaves, nullifierCount, GetStatus(), pending, exits, stranded, limits, queued)
    }

    constructor (h: Compressor, depth: nat)
      requires depth >= 1
      ensures fresh(tree) && tree.h == h && tree.depth == depth
      ensures tree.Holds([]) && View([]) == Spec.NEW_STATE
    {
      tree := new Tree(h, depth);
      nextDepositId, attestedUpTo, nullifierCount, tvl, pendingTotal, queuedTotal := 1, 0, 0, 0, 0, 0;
      exitHead, exitTail, outflowDay, outflow, haltedUntil, nextHaltAt := 1, 1, 0, 0, 0, 0;
      pending, exits, stranded := map[], map[], map[];
      depositsPaused, transfersPaused := false, false;
      limits, queued := None, None;
    }

    function OutflowOn(day: nat): int
      reads this
    {
      if outflowDay == day then outflow else 0
    }

    predicate FitsToday(now: nat, amount: int)
      reads this
    {
      limits == None || OutflowOn(now / DAY) + amount <= limits.value.maxDailyOutflow
    }

    method Pay(now: nat, amount: int, ghost leaves: seq<Field>)
      modifies this`tvl, this`outflowDay, this`outflow
      ensures View(leaves) == Spec.Pay(old(View(leaves)), now, amount)
    {
      tvl := tvl - amount;
      var today := now / DAY;
      if today != outflowDay {
        outflowDay := today;
        outflow := 0;
      }
      outflow := outflow + amount;
    }

    /** Removes the head exit from the queue and pays what was paid of it. */
    method TakeOff(now: nat, id: nat, paid: int, ghost leaves: seq<Field>) returns (ok: bool)
      modifies this`exits, this`exitHead, this`queuedTotal, this`tvl, this`outflowDay, this`outflow
      ensures ok <==> Spec.TakeOff(old(View(leaves)), now, id, paid).Ok?
      ensures ok ==> View(leaves) == Spec.TakeOff(old(View(leaves)), now, id, paid).value
    {
      exits := exits - {id};
      exitHead := exitHead + 1;
      queuedTotal := queuedTotal - paid;
      Pay(now, paid, leaves);
      ok := tvl >= 0 && queuedTotal >= 0;
    }

    method Spend(nf0: Field, nf1: Field, spent: set<Field>) returns (r: Option<set<Field>>)
      modifies this`nullifierCount
      ensures r == None <==> nf0 == nf1 || nf0 in spent || nf1 in spent
      ensures r.Some? ==> r.value == spent + {nf0, nf1} && nullifierCount == old(nullifierCount) + 2
      ensures r == None ==> nullifierCount == old(nullifierCount)
    {
      if nf0 == nf1 || nf0 in spent || nf1 in spent {
        return None;
      }
      nullifierCount := nullifierCount + 2;
      return Some(spent + {nf0, nf1});
    }

    method Insert(out0: Spec.Output, out1: Spec.Output, ghost leaves: seq<Field>) returns (ok: bool)
      requires tree.Holds(leaves)
      modifies tree
      ensures ok <==> out0.index == |leaves| && |leaves| + 2 <= Pow2(tree.depth)
      ensures tree.Holds(if ok then leaves + [out0.commitment, out1.commitment] else leaves)
    {
      if out0.index != tree.next {
        return false;
      }
      var index := tree.AppendPair(out0.commitment, out1.commitment, leaves);
      return index.Some?;
    }

    /** The outcome of one call: the changes and spent nullifiers of the window with it, and the leaves
        after it. On a contradiction the state is left partly applied. */
    ghost predicate Applied(before: Spec.Window, expected: Result<Spec.Window, Spec.Inconsistent>, ok: bool, delta: Spec.Delta,
                            spent: set<Field>, leaves: seq<Field>)
      reads this, tree
    {
      && (ok <==> expected.Ok?)
      && (ok ==> Spec.Window(View(leaves), delta, spent) == expected.value && tree.Holds(leaves))
    }

    method ApplyShield(tx: Spec.Tx, c: Spec.Call, d: Spec.Delta, spent: set<Field>, ghost leaves: seq<Field>)
      returns (ok: bool, delta: Spec.Delta, spentNow: set<Field>)
      requires c.ShieldSeen? && tree.Holds(leaves)
      modifies this`nullifierCount, this`pending, this`nextDepositId, this`tvl, this`pendingTotal
      ensures var w := Spec.Window(old(View(leaves)), d, spent);
              Applied(w, Spec.ApplyShield(w, tx, c), ok, delta, spentNow, leaves)
    {
      hide Tree.Holds, Spec.AddDeposit;
      ok, delta, spentNow := false, d, spent;
      if tx.closedAt < haltedUntil || depositsPaused {
        return;
      }
      var s := Spend(c.nf0, c.nf1, spent);
      if s == None || c.id != nextDepositId || c.commitment0 == c.commitment1 {
        return;
      }
      AddDeposit(c, leaves);
      return true, d, s.value;
    }

    method AddDeposit(c: Spec.Call, ghost leaves: seq<Field>)
      requires c.ShieldSeen?
      modifies this`pending, this`nextDepositId, this`tvl, this`pendingTotal
      ensures View(leaves) == Spec.AddDeposit(old(View(leaves)), c)
    {
      pending := pending[c.id := Spec.Deposit(c.id, c.depositor, c.amount, c.commitment0, c.commitment1, c.createdAt, None, 0)];
      nextDepositId := nextDepositId + 1;
      tvl := tvl + c.amount;
      pendingTotal := pendingTotal + c.amount;
    }

    method EndTransact(tx: Spec.Tx, end: Spec.Ending, d: Spec.Delta, ghost spent: set<Field>, ghost leaves: seq<Field>)
      returns (ok: bool, delta: Spec.Delta)
      requires tree.Holds(leaves)
      modifies this`exits, this`exitTail, this`queuedTotal, this`tvl, this`outflowDay, this`outflow
      ensures var w := Spec.Window(old(View(leaves)), d, spent);
              Applied(w, Spec.EndTransact(w, tx, end), ok, delta, spent, leaves)
    {
      hide Tree.Holds;
      var amount := end.fee - end.extAmount;
      var fits := exitHead == exitTail && FitsToday(tx.closedAt, amount);
      if end.Waits? {
        if end.id != exitTail {
          return false, d;
        }
        if fits && limits.Some? {
          return false, d;
        }
        var e := Spec.NewExit(end, tx);
        exits := exits[end.id := e];
        exitTail := exitTail + 1;
        queuedTotal := queuedTotal + amount;
        return true, d.AddQueued(e);
      }
      if amount > 0 && !fits {
        return false, d;
      }
      Pay(tx.closedAt, amount, leaves);
      return true, d.AddSettlement(Spec.Settlement(end.extAmount, end.fee, end.recipient, end.relayer, None, tx));
    }

    method ApplyTransact(tx: Spec.Tx, c: Spec.Call, d: Spec.Delta, spent: set<Field>, ghost leaves: seq<Field>)
      returns (ok: bool, delta: Spec.Delta, spentNow: set<Field>, ghost leavesNow: seq<Field>)
      requires c.TransactSeen? && tree.Holds(leaves)
      modifies this, tree
      ensures var w := Spec.Window(old(View(leaves)), d, spent);
              Applied(w, Spec.ApplyTransact(tree.depth, w, tx, c), ok, delta, spentNow, leavesNow)
    {
      hide Spec.EndTransact;
      delta, spentNow, leavesNow := d, spent, leaves;
      var end := c.ending;
      var amount := end.fee - end.extAmount;
      if tx.closedAt < haltedUntil
         || (end.extAmount == 0 && (transfersPaused || end.recipient != Plain(end.relayer)))
         || c.out0.commitment == c.out1.commitment
         || amount > tvl - pendingTotal - queuedTotal
         || (limits.Some? && (end.fee > limits.value.maxFee || amount > limits.value.maxDailyOutflow)) {
        return false, d, spent, leaves;
      }
      var s := Spend(c.nf0, c.nf1, spent);
      if s == None {
        return false, d, spent, leaves;
      }
      var inserted := Insert(c.out0, c.out1, leaves);
      if !inserted {
        return false, d, spent, leaves;
      }
      leavesNow := leaves + [c.out0.commitment, c.out1.commitment];
      spentNow := s.value;
      ok, delta := EndTransact(tx, end, d, s.value, leavesNow);
    }

    method ApplyExitSettled(tx: Spec.Tx, c: Spec.Call, d: Spec.Delta, ghost spent: set<Field>, ghost leaves: seq<Field>)
      returns (ok: bool, delta: Spec.Delta)
      requires c.ExitSettledSeen? && tree.Holds(leaves)
      modifies this`exits, this`exitHead, this`queuedTotal, this`tvl, this`outflowDay, this`outflow
      ensures var w := Spec.Window(old(View(leaves)), d, spent);
              Applied(w, Spec.ApplyExitSettled(w, tx, c), ok, delta, spent, leaves)
    {
      hide Tree.Holds;
      var now := tx.closedAt;
      if now < haltedUntil || c.id !in exits || c.id != exitHead {
        return false, d;
      }
      var e := exits[c.id];
      if -c.extAmount != e.payout || c.fee != e.fee || c.recipient != e.recipient || c.relayer != e.relayer {
        return false, d;
      }
      if !FitsToday(now, e.Outflow()) {
        return false, d;
      }
      ok := TakeOff(now, c.id, e.Outflow(), leaves);
      delta := d.AddReleased(Spec.Released(e, 0, 0, tx))
                .AddSettlement(Spec.Settlement(c.extAmount, c.fee, c.recipient, c.relayer, Some(c.id), tx));
    }

    /** What a release tries to pay of an exit today, unknown before the first limits. */
    method Step(now: nat, e: Spec.OwedExit, ghost leaves: seq<Field>) returns (step: Option<(int, int)>)
      ensures step == Spec.StepOf(View(leaves), now, e)
    {
      if limits == None {
        return None;
      }
      var room := limits.value.maxDailyOutflow - OutflowOn(now / DAY);
      if room < 0 {
        room := 0;
      }
      var payout := Min(e.payout, room);
      return Some((payout, Min(e.fee, room - payout)));
    }

    method ApplyExitPaid(tx: Spec.Tx, c: Spec.Call, d: Spec.Delta, ghost spent: set<Field>, ghost leaves: seq<Field>)
      returns (ok: bool, delta: Spec.Delta)
      requires c.ExitPaidSeen? && tree.Holds(leaves)
      modifies this`exits, this`queuedTotal, this`tvl, this`outflowDay, this`outflow
      ensures var w := Spec.Window(old(View(leaves)), d, spent);
              Applied(w, Spec.ApplyExitPaid(w, tx, c), ok, delta, spent, leaves)
    {
      hide Tree.Holds;
      var now := tx.closedAt;
      if now < haltedUntil || c.id !in exits || c.id != exitHead {
        return false, d;
      }
      var e := exits[c.id];
      if c.payoutPaid + c.payoutLeft != e.payout || c.feePaid + c.feeLeft != e.fee {
        return false, d;
      }
      var step := Step(now, e, leaves);
      if step.Some? && (c.payoutPaid != step.value.0 || c.feePaid != step.value.1) {
        return false, d;
      }
      var paid := c.payoutPaid + c.feePaid;
      exits := exits[c.id := e.(payout := c.payoutLeft, fee := c.feeLeft)];
      queuedTotal := queuedTotal - paid;
      Pay(now, paid, leaves);
      if tvl < 0 || queuedTotal < 0 {
        return false, d;
      }
      return true, d.AddPartPaid(Spec.PartPaid(c.id, c.payoutLeft, c.feeLeft))
                    .AddSettlement(Spec.Settlement(-c.payoutPaid, c.feePaid, e.recipient, e.relayer, Some(c.id), tx));
    }

    method ApplyExitStranded(tx: Spec.Tx, c: Spec.Call, d: Spec.Delta, ghost spent: set<Field>, ghost leaves: seq<Field>)
      returns (ok: bool, delta: Spec.Delta)
      requires c.ExitStrandedSeen? && tree.Holds(leaves)
      modifies this`exits, this`exitHead, this`stranded, this`queuedTotal, this`tvl, this`outflowDay, this`outflow
      ensures var w := Spec.Window(old(View(leaves)), d, spent);
              Applied(w, Spec.ApplyExitStranded(w, tx, c), ok, delta, spent, leaves)
    {
      hide Spec.TakeOff, Spec.StepOf, Tree.Holds;
      var now := tx.closedAt;
      if now < haltedUntil || c.id !in exits || c.id != exitHead {
        return false, d;
      }
      var e := exits[c.id];
      if c.payout > e.payout || c.fee > e.fee {
        return false, d;
      }
      var paidPayout, paidFee := e.payout - c.payout, e.fee - c.fee;
      var paid := paidPayout + paidFee;
      if !FitsToday(now, paid) {
        return false, d;
      }
      var step := Step(now, e, leaves);
      if step.Some? && (!Spec.Whole(paidPayout, step.value.0) || !Spec.Whole(paidFee, step.value.1)
                        || (paidPayout == step.value.0 && paidFee == step.value.1)) {
        return false, d;
      }
      ok := TakeOff(now, c.id, paid, leaves);
      stranded := stranded[c.id := e.(payout := c.payout, fee := c.fee, strandedLedger := tx.ledger, strandedAt := tx.closedAt,
                                      strandedTx := tx.hash)];
      delta := d.AddReleased(Spec.Released(e, c.payout, c.fee, tx));
      if paid > 0 {
        delta := delta.AddSettlement(Spec.Settlement(-paidPayout, paidFee, e.recipient, e.relayer, Some(c.id), tx));
      }
    }

    method ApplyExitRequeued(tx: Spec.Tx, c: Spec.Call, d: Spec.Delta, ghost spent: set<Field>, ghost leaves: seq<Field>)
      returns (ok: bool, delta: Spec.Delta)
      requires c.ExitRequeuedSeen? && tree.Holds(leaves)
      modifies this`exits, this`exitTail, this`stranded
      ensures var w := Spec.Window(old(View(leaves)), d, spent);
              Applied(w, Spec.ApplyExitRequeued(w, tx, c), ok, delta, spent, leaves)
    {
      hide Tree.Holds;
      if tx.closedAt < haltedUntil || c.id !in stranded {
        return false, d;
      }
      var e := stranded[c.id];
      if !Spec.Whole(c.payout, e.payout) || !Spec.Whole(c.fee, e.fee) {
        return false, d;
      }
      if c.newId != exitTail {
        return false, d;
      }
      var moved := Spec.MovedExit(e, tx, c);
      exits := exits[c.newId := moved];
      exitTail := exitTail + 1;
      var left := Spec.LeftStranded(e, c);
      if left.payout == 0 && left.fee == 0 {
        stranded := stranded - {c.id};
      } else {
        stranded := stranded[c.id := left];
      }
      return true, d.AddQueued(moved).AddRequeued(Spec.Requeued(c.id, c.newId, left.payout, left.fee, tx));
    }

    method ApplyAdmission(tx: Spec.Tx, c: Spec.Call, ghost d: Spec.Delta, ghost spent: set<Field>, ghost leaves: seq<Field>)
      returns (ok: bool, ghost leavesNow: seq<Field>)
      requires c.AdmissionSeen? && tree.Holds(leaves)
      modifies this`pending, this`pendingTotal, tree
      ensures var w := Spec.Window(old(View(leaves)), d, spent);
              Applied(w, Spec.ApplyAdmission(tree.depth, w, tx, c), ok, d, spent, leavesNow)
    {
      leavesNow := leaves;
      if c.id !in pending {
        return false, leaves;
      }
      var deposit := pending[c.id];
      if deposit.flag.Some? || c.id > attestedUpTo || tx.closedAt < haltedUntil
         || c.out0.commitment != deposit.commitment0 || c.out1.commitment != deposit.commitment1 {
        return false, leaves;
      }
      var inserted := Insert(c.out0, c.out1, leaves);
      if !inserted {
        return false, leaves;
      }
      pending := pending - {c.id};
      pendingTotal := pendingTotal - deposit.amount;
      return true, leaves + [c.out0.commitment, c.out1.commitment];
    }

    method ApplyRefunded(tx: Spec.Tx, c: Spec.Call, ghost d: Spec.Delta, ghost spent: set<Field>, ghost leaves: seq<Field>)
      returns (ok: bool)
      requires c.RefundedSeen? && tree.Holds(leaves)
      modifies this`pending, this`tvl, this`pendingTotal
      ensures var w := Spec.Window(old(View(leaves)), d, spent);
              Applied(w, Spec.ApplyRefunded(w, tx, c), ok, d, spent, leaves)
    {
      hide Tree.Holds;
      if c.id !in pending {
        return false;
      }
      var deposit := pending[c.id];
      if c.reason != 0 {
        if deposit.flag != Some(c.reason) || tx.closedAt < Spec.Wrap64(deposit.flaggedAt + REFUND_DELAY) {
          return false;
        }
      }
      pending := pending - {c.id};
      tvl := tvl - deposit.amount;
      pendingTotal := pendingTotal - deposit.amount;
      return tvl >= 0 && pendingTotal >= 0;
    }

    method ApplyScreening(now: nat, c: Spec.Call, ghost leaves: seq<Field>) returns (ok: bool)
      requires c.FlaggedSeen? || c.UnflaggedSeen? || c.AttestedSeen?
      modifies this`pending, this`attestedUpTo
      ensures ok <==> Spec.ApplyScreening(old(View(leaves)), now, c).Ok?
      ensures ok ==> View(leaves) == Spec.ApplyScreening(old(View(leaves)), now, c).value
    {
      match c
      case FlaggedSeen(id, reason) =>
        if id !in pending {
          return false;
        }
        var deposit := pending[id];
        if deposit.flag == None {
          deposit := deposit.(flaggedAt := now);
        }
        pending := pending[id := deposit.(flag := Some(reason))];
        return true;
      case UnflaggedSeen(id, reason) =>
        if id !in pending || pending[id].flag != Some(reason) {
          return false;
        }
        pending := pending[id := pending[id].(flag := None, flaggedAt := 0)];
        return true;
      case AttestedSeen(upTo) =>
        if now < haltedUntil || upTo <= attestedUpTo || upTo >= nextDepositId {
          return false;
        }
        attestedUpTo := upTo;
        return true;
    }

    method ApplyGovernance(now: nat, c: Spec.Call, ghost leaves: seq<Field>)
      requires c.PausedSeen? || c.HaltedSeen? || c.ResumedSeen? || c.LimitsQueuedSeen? || c.LimitsAppliedSeen? || c.LimitsCancelledSeen?
      modifies this`depositsPaused, this`transfersPaused, this`haltedUntil, this`nextHaltAt, this`limits, this`queued
      ensures View(leaves) == Spec.ApplyGovernance(old(View(leaves)), now, c)
    {
      match c
      case PausedSeen(deposits, transfers) => depositsPaused, transfersPaused := deposits, transfers;
      case HaltedSeen(until) => haltedUntil, nextHaltAt := until, until + HALT_COOLDOWN;
      case ResumedSeen(next) => haltedUntil, nextHaltAt := now, next;
      case LimitsQueuedSeen(l, readyAt) => queued := Some(QueuedLimits(l, readyAt));
      case LimitsAppliedSeen(l, readyAt) =>
        limits := Some(l);
        if queued.Some? && queued.value.readyAt == readyAt {
          queued := None;
        }
      case LimitsCancelledSeen(_, _) => queued := None;
    }

    /** The calls that handle an exit. */
    method ApplyExitCall(tx: Spec.Tx, c: Spec.Call, d: Spec.Delta, ghost spent: set<Field>, ghost leaves: seq<Field>)
      returns (ok: bool, delta: Spec.Delta)
      requires tree.Holds(leaves)
      requires c.ExitSettledSeen? || c.ExitPaidSeen? || c.ExitStrandedSeen? || c.ExitRequeuedSeen?
      modifies this
      ensures var w := Spec.Window(old(View(leaves)), d, spent);
              Applied(w, Spec.Apply(tree.depth, w, tx, c), ok, delta, spent, leaves)
    {
      hide Tree.Holds, Spec.ApplyExitSettled, Spec.ApplyExitPaid, Spec.ApplyExitStranded, Spec.ApplyExitRequeued;
      match c
      case ExitSettledSeen(_, _, _, _, _) => ok, delta := ApplyExitSettled(tx, c, d, spent, leaves);
      case ExitPaidSeen(_, _, _, _, _) => ok, delta := ApplyExitPaid(tx, c, d, spent, leaves);
      case ExitStrandedSeen(_, _, _) => ok, delta := ApplyExitStranded(tx, c, d, spent, leaves);
      case ExitRequeuedSeen(_, _, _, _) => ok, delta := ApplyExitRequeued(tx, c, d, spent, leaves);
    }

    /** The calls of screening and governance. */
    method ApplyStateCall(tx: Spec.Tx, c: Spec.Call, ghost d: Spec.Delta, ghost spent: set<Field>, ghost leaves: seq<Field>)
      returns (ok: bool)
      requires tree.Holds(leaves)
      requires !c.ShieldSeen? && !c.TransactSeen? && !c.AdmissionSeen? && !c.RefundedSeen?
      requires !c.ExitSettledSeen? && !c.ExitPaidSeen? && !c.ExitStrandedSeen? && !c.ExitRequeuedSeen?
      modifies this
      ensures var w := Spec.Window(old(View(leaves)), d, spent);
              Applied(w, Spec.Apply(tree.depth, w, tx, c), ok, d, spent, leaves)
    {
      hide Tree.Holds, Spec.ApplyScreening, Spec.ApplyGovernance;
      if c.FlaggedSeen? || c.UnflaggedSeen? || c.AttestedSeen? {
        ok := ApplyScreening(tx.closedAt, c, leaves);
      } else {
        ApplyGovernance(tx.closedAt, c, leaves);
        ok := true;
      }
    }

    method ApplyCall(tx: Spec.Tx, c: Spec.Call, d: Spec.Delta, spent: set<Field>, ghost leaves: seq<Field>)
      returns (ok: bool, delta: Spec.Delta, spentNow: set<Field>, ghost leavesNow: seq<Field>)
      requires tree.Holds(leaves)
      modifies this, tree
      ensures var w := Spec.Window(old(View(leaves)), d, spent);
              Applied(w, Spec.Apply(tree.depth, w, tx, c), ok, delta, spentNow, leavesNow)
    {
      hide Tree.Holds, Spec.ApplyShield, Spec.ApplyTransact, Spec.ApplyExitSettled, Spec.ApplyExitPaid, Spec.ApplyExitStranded;
      hide Spec.ApplyExitRequeued, Spec.ApplyAdmission, Spec.ApplyRefunded, Spec.ApplyScreening, Spec.ApplyGovernance;
      delta, spentNow, leavesNow := d, spent, leaves;
      if c.ShieldSeen? {
        ok, delta, spentNow := ApplyShield(tx, c, d, spent, leaves);
      } else if c.TransactSeen? {
        ok, delta, spentNow, leavesNow := ApplyTransact(tx, c, d, spent, leaves);
      } else if c.AdmissionSeen? {
        ok, leavesNow := ApplyAdmission(tx, c, d, spent, leaves);
      } else if c.RefundedSeen? {
        ok := ApplyRefunded(tx, c, d, spent, leaves);
      } else if c.ExitSettledSeen? || c.ExitPaidSeen? || c.ExitStrandedSeen? || c.ExitRequeuedSeen? {
        ok, delta := ApplyExitCall(tx, c, d, spent, leaves);
      } else {
        ok := ApplyStateCall(tx, c, d, spent, leaves);
      }
    }

    /** Applies the calls of one transaction in chain order. */
    method Apply(tx: Spec.Tx, calls: seq<Spec.Call>, d: Spec.Delta, spent: set<Field>, ghost leaves: seq<Field>)
      returns (ok: bool, delta: Spec.Delta, spentNow: set<Field>, ghost leavesNow: seq<Field>)
      requires tree.Holds(leaves)
      modifies this, tree
      ensures var w := Spec.Window(old(View(leaves)), d, spent);
              Applied(w, Spec.ApplyAll(tree.depth, w, tx, calls), ok, delta, spentNow, leavesNow)
    {
      hide Spec.Apply;
      delta, spentNow, leavesNow := d, spent, leaves;
      ghost var start := Spec.Window(View(leaves), d, spent);
      for i := 0 to |calls|
        invariant tree.Holds(leavesNow)
        invariant Spec.ApplyAll(tree.depth, start, tx, calls) ==
                  Spec.ApplyAll(tree.depth, Spec.Window(View(leavesNow), delta, spentNow), tx, calls[i..])
      {
        assert calls[i..][1..] == calls[i + 1..];
        ok, delta, spentNow, leavesNow := ApplyCall(tx, calls[i], delta, spentNow, leavesNow);
        if !ok {
          return;
        }
      }
      ok := true;
    }
  }
}
