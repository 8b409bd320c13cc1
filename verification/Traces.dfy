/** What the replay accepts, in terms of the calls it has seen and not of the state it keeps: functions of the trace
    say what is pending, flagged, attested, owed and paid, `Proper` says which call may come next, and the replay
    accepts exactly the traces whose every call is proper. */
module Traces {
  import opened Common
  import opened Merkle
  import opened VaultTypes
  import opened ReplaySpec

  /** A trace is cut into windows, each with its own set of spent nullifiers. */
  datatype Seen = Cut | In(tx: Tx, call: Call)

  type Trace = seq<Seen>

  function Init(t: Trace): Trace
    requires t != []
  {
    t[..|t| - 1]
  }

  function Last(t: Trace): Seen
    requires t != []
  {
    t[|t| - 1]
  }

  // ---------------------------------------------------------------------------------------------
  // What a trace says

  /** Until when the calls so far halt the vault. */
  function HaltedUntil(t: Trace): nat {
    if t == [] then 0
    else
      match Last(t)
      case In(_, HaltedSeen(until)) => until
      case In(tx, ResumedSeen(_)) => tx.closedAt
      case _ => HaltedUntil(Init(t))
  }

  /** The last pause of deposits and of transfers. */
  function Pauses(t: Trace): (bool, bool) {
    if t == [] then (false, false)
    else
      match Last(t)
      case In(_, PausedSeen(deposits, transfers)) => (deposits, transfers)
      case _ => Pauses(Init(t))
  }

  /** The limits last applied; none are known before. */
  function LimitsSeen(t: Trace): Option<Limits> {
    if t == [] then None
    else
      match Last(t)
      case In(_, LimitsAppliedSeen(limits, _)) => Some(limits)
      case _ => LimitsSeen(Init(t))
  }

  /** The limits that wait to be applied: an application ends the wait of those it names by their time. */
  function LimitsWaiting(t: Trace): Option<QueuedLimits> {
    if t == [] then None
    else
      match Last(t)
      case In(_, LimitsQueuedSeen(limits, readyAt)) => Some(QueuedLimits(limits, readyAt))
      case In(_, LimitsCancelledSeen(_, _)) => None
      case In(_, LimitsAppliedSeen(_, readyAt)) =>
        var before := LimitsWaiting(Init(t));
        if before.Some? && before.value.readyAt == readyAt then None else before
      case _ => LimitsWaiting(Init(t))
  }

  /** When the vault may next be halted. */
  function NextHalt(t: Trace): nat {
    if t == [] then 0
    else
      match Last(t)
      case In(_, HaltedSeen(until)) => until + 7 * DAY
      case In(_, ResumedSeen(nextHaltAt)) => nextHaltAt
      case _ => NextHalt(Init(t))
  }

  function AttestedUpTo(t: Trace): nat {
    if t == [] then 0
    else
      match Last(t)
      case In(_, AttestedSeen(upTo)) => upTo
      case _ => AttestedUpTo(Init(t))
  }

  function NextDeposit(t: Trace): nat {
    if t == [] then 1
    else
      match Last(t)
      case In(_, ShieldSeen(_, _, _, _, _, _, _, _)) => NextDeposit(Init(t)) + 1
      case _ => NextDeposit(Init(t))
  }

  /** The shield of a deposit that was neither admitted nor refunded since. */
  function ShieldOf(t: Trace, id: nat): Option<Call> {
    if t == [] then None
    else
      match Last(t)
      case In(_, ShieldSeen(_, _, k, _, _, _, _, _)) => if k == id then Some(Last(t).call) else ShieldOf(Init(t), id)
      case In(_, AdmissionSeen(_, _, k)) => if k == id then None else ShieldOf(Init(t), id)
      case In(_, RefundedSeen(k, _)) => if k == id then None else ShieldOf(Init(t), id)
      case _ => ShieldOf(Init(t), id)
  }

  /** The flag on a deposit and the time of the first since it had none. */
  function FlagOf(t: Trace, id: nat): Option<(nat, nat)> {
    if t == [] then None
    else
      match Last(t)
      case In(_, ShieldSeen(_, _, k, _, _, _, _, _)) => if k == id then None else FlagOf(Init(t), id)
      case In(tx, FlaggedSeen(k, reason)) =>
        if k != id then FlagOf(Init(t), id)
        else if FlagOf(Init(t), id).Some? then Some((reason, FlagOf(Init(t), id).value.1))
        else Some((reason, tx.closedAt))
      case In(_, UnflaggedSeen(k, _)) => if k == id then None else FlagOf(Init(t), id)
      case _ => FlagOf(Init(t), id)
  }

  /** The leaves the calls inserted. */
  function Leaves(t: Trace): seq<Field> {
    if t == [] then []
    else
      match Last(t)
      case In(_, TransactSeen(_, _, out0, out1, _)) => Leaves(Init(t)) + [out0.commitment, out1.commitment]
      case In(_, AdmissionSeen(out0, out1, _)) => Leaves(Init(t)) + [out0.commitment, out1.commitment]
      case _ => Leaves(Init(t))
  }

  /** How many nullifiers were spent in all windows. */
  function SpentCount(t: Trace): nat {
    if t == [] then 0
    else
      match Last(t)
      case In(_, ShieldSeen(_, _, _, _, _, _, _, _)) => SpentCount(Init(t)) + 2
      case In(_, TransactSeen(_, _, _, _, _)) => SpentCount(Init(t)) + 2
      case _ => SpentCount(Init(t))
  }

  /** The nullifiers spent in the window in progress. */
  function Spent(t: Trace): set<Field> {
    if t == [] || Last(t).Cut? then {}
    else
      match Last(t).call
      case ShieldSeen(nf0, nf1, _, _, _, _, _, _) => Spent(Init(t)) + {nf0, nf1}
      case TransactSeen(nf0, nf1, _, _, _) => Spent(Init(t)) + {nf0, nf1}
      case _ => Spent(Init(t))
  }

  /** What an exit is owed and to whom, and in which transactions it was queued and stranded. */
  datatype Debt = Debt(payout: int, fee: int, recipient: MuxedAddress, relayer: Address, queuedIn: Tx, strandedIn: Option<Tx>)

  function NextExit(t: Trace): nat {
    if t == [] then 1
    else
      match Last(t)
      case In(_, TransactSeen(_, _, _, _, Waits(_, _, _, _, _))) => NextExit(Init(t)) + 1
      case In(_, ExitRequeuedSeen(_, _, _, _)) => NextExit(Init(t)) + 1
      case _ => NextExit(Init(t))
  }

  /** The ID whose turn it is: exits leave in the order they came. */
  function Turn(t: Trace): nat {
    if t == [] then 1
    else
      match Last(t)
      case In(_, ExitSettledSeen(_, _, _, _, _)) => Turn(Init(t)) + 1
      case In(_, ExitStrandedSeen(_, _, _)) => Turn(Init(t)) + 1
      case _ => Turn(Init(t))
  }

  /** What a queued exit is still owed. */
  function InQueue(t: Trace, id: nat): Option<Debt> {
    if t == [] then None
    else
      match Last(t)
      case In(tx, TransactSeen(_, _, _, _, Waits(k, extAmount, fee, recipient, relayer))) =>
        if k == id then Some(Debt(-extAmount, fee, recipient, relayer, tx, None)) else InQueue(Init(t), id)
      case In(_, ExitPaidSeen(k, _, _, payoutLeft, feeLeft)) =>
        if k == id && InQueue(Init(t), id).Some? then Some(InQueue(Init(t), id).value.(payout := payoutLeft, fee := feeLeft))
        else InQueue(Init(t), id)
      case In(_, ExitSettledSeen(_, _, _, _, k)) => if k == id then None else InQueue(Init(t), id)
      case In(_, ExitStrandedSeen(k, _, _)) => if k == id then None else InQueue(Init(t), id)
      case In(tx, ExitRequeuedSeen(from, k, payout, fee)) =>
        if k == id && Stranded(Init(t), from).Some? then
          Some(Stranded(Init(t), from).value.(payout := payout, fee := fee, queuedIn := tx, strandedIn := None))
        else InQueue(Init(t), id)
      case _ => InQueue(Init(t), id)
  }

  /** What a stranded exit is still owed. */
  function Stranded(t: Trace, id: nat): Option<Debt> {
    if t == [] then None
    else
      match Last(t)
      case In(tx, ExitStrandedSeen(k, payout, fee)) =>
        if k == id && InQueue(Init(t), id).Some? then
          Some(InQueue(Init(t), id).value.(payout := payout, fee := fee, strandedIn := Some(tx)))
        else Stranded(Init(t), id)
      case In(_, ExitRequeuedSeen(k, _, payout, fee)) =>
        var before := Stranded(Init(t), id);
        if k != id || before == None then before
        else if before.value.payout == payout && before.value.fee == fee then None
        else Some(before.value.(payout := before.value.payout - payout, fee := before.value.fee - fee))
      case _ => Stranded(Init(t), id)
  }

  /** What a call pays out of the vault's window, after the calls before it. */
  function Pays(t: Trace, call: Call): int {
    match call
    case TransactSeen(_, _, _, _, PaidAtOnce(extAmount, fee, _, _)) => fee - extAmount
    case ExitSettledSeen(extAmount, fee, _, _, _) => fee - extAmount
    case ExitPaidSeen(_, payoutPaid, feePaid, _, _) => payoutPaid + feePaid
    case ExitStrandedSeen(id, payout, fee) =>
      if InQueue(t, id).Some? then InQueue(t, id).value.payout - payout + InQueue(t, id).value.fee - fee else 0
    case _ => 0
  }

  /** What the calls of one UTC day paid out. */
  function PaidOn(t: Trace, day: nat): int {
    if t == [] then 0
    else PaidOn(Init(t), day) + if Last(t).In? && Last(t).tx.closedAt / DAY == day then Pays(Init(t), Last(t).call) else 0
  }

  /** The amount of a pending deposit. */
  function AmountOf(t: Trace, id: nat): int {
    match ShieldOf(t, id)
    case Some(ShieldSeen(_, _, _, _, amount, _, _, _)) => amount
    case _ => 0
  }

  function PendingValue(t: Trace): int {
    if t == [] then 0
    else
      match Last(t)
      case In(_, ShieldSeen(_, _, _, _, amount, _, _, _)) => PendingValue(Init(t)) + amount
      case In(_, AdmissionSeen(_, _, id)) => PendingValue(Init(t)) - AmountOf(Init(t), id)
      case In(_, RefundedSeen(id, _)) => PendingValue(Init(t)) - AmountOf(Init(t), id)
      case _ => PendingValue(Init(t))
  }

  /** What exits are owed altogether. */
  function QueuedValue(t: Trace): int {
    if t == [] then 0
    else
      match Last(t)
      case In(_, TransactSeen(_, _, _, _, Waits(_, extAmount, fee, _, _))) => QueuedValue(Init(t)) + fee - extAmount
      case In(_, TransactSeen(_, _, _, _, PaidAtOnce(_, _, _, _))) => QueuedValue(Init(t))
      case In(_, call) => QueuedValue(Init(t)) - Pays(Init(t), call)
      case Cut => QueuedValue(Init(t))
  }

  /** What the vault holds: deposits less what went back and what was paid. */
  function Held(t: Trace): int {
    if t == [] then 0
    else
      match Last(t)
      case In(_, ShieldSeen(_, _, _, _, amount, _, _, _)) => Held(Init(t)) + amount
      case In(_, RefundedSeen(id, _)) => Held(Init(t)) - AmountOf(Init(t), id)
      case In(_, call) => Held(Init(t)) - Pays(Init(t), call)
      case Cut => Held(Init(t))
  }

  // ---------------------------------------------------------------------------------------------
  // Which call may come next

  predicate Halted(t: Trace, tx: Tx) {
    tx.closedAt < HaltedUntil(t)
  }

  /** What is left of the window of the day, once limits are known. */
  function Room(t: Trace, tx: Tx): Option<int> {
    match LimitsSeen(t)
    case None => None
    case Some(limits) => Some(limits.maxDailyOutflow - PaidOn(t, tx.closedAt / DAY))
  }

  predicate HasRoom(t: Trace, tx: Tx, amount: int) {
    Room(t, tx).Some? ==> amount <= Room(t, tx).value
  }

  /** Two nullifiers that are distinct and new to the window. */
  predicate Fresh(t: Trace, nf0: Field, nf1: Field) {
    nf0 != nf1 && nf0 !in Spent(t) && nf1 !in Spent(t)
  }

  /** The next pair of leaves. */
  predicate NextLeaves(depth: nat, t: Trace, out0: Output) {
    out0.index == |Leaves(t)| && |Leaves(t)| + 2 <= Pow2(depth)
  }

  /** As much as there is, but no more than there is room for. */
  predicate AsMuchAs(paid: int, there: int, room: int) {
    paid <= there && paid <= room && (paid == there || paid == room)
  }

  /** What a step may try to pay today of a debt: the payout first, then the fee. */
  predicate Tried(t: Trace, tx: Tx, debt: Debt, payout: int, fee: int) {
    match Room(t, tx)
    case None => true
    case Some(room) =>
      var room := if room < 0 then 0 else room;
      AsMuchAs(payout, debt.payout, room) && AsMuchAs(fee, debt.fee, room - payout)
  }

  /** Whether a payment leaves no total negative. */
  predicate Covered(t: Trace, amount: int) {
    amount <= Held(t) && amount <= QueuedValue(t)
  }

  predicate ProperEnding(t: Trace, tx: Tx, end: Ending) {
    var due := end.fee - end.extAmount;
    match end
    case Waits(id, _, _, _, _) =>
      id == NextExit(t) && (LimitsSeen(t).Some? ==> Turn(t) != NextExit(t) || !HasRoom(t, tx, due))
    case PaidAtOnce(_, _, _, _) =>
      due > 0 ==> Turn(t) == NextExit(t) && HasRoom(t, tx, due)
  }

  predicate ProperTransact(depth: nat, t: Trace, tx: Tx, c: Call)
    requires c.TransactSeen?
  {
    var end := c.ending;
    var due := end.fee - end.extAmount;
    && !Halted(t, tx)
    && (end.extAmount == 0 ==> !Pauses(t).1 && end.recipient == Plain(end.relayer))
    && due <= Held(t) - PendingValue(t) - QueuedValue(t)
    && (LimitsSeen(t).Some? ==> end.fee <= LimitsSeen(t).value.maxFee && due <= LimitsSeen(t).value.maxDailyOutflow)
    && Fresh(t, c.nf0, c.nf1)
    && c.out0.commitment != c.out1.commitment && NextLeaves(depth, t, c.out0)
    && ProperEnding(t, tx, end)
  }

  /** A step leaves an exit stranded when at least one of its transfers was refused, each being all or nothing. */
  ghost predicate ProperStrand(t: Trace, tx: Tx, debt: Debt, payout: int, fee: int) {
    && payout <= debt.payout && fee <= debt.fee
    && HasRoom(t, tx, debt.payout - payout + debt.fee - fee)
    && (Room(t, tx).Some? ==>
          exists tried: (int, int) :: Tried(t, tx, debt, tried.0, tried.1)
            && (debt.payout - payout == 0 || debt.payout - payout == tried.0)
            && (debt.fee - fee == 0 || debt.fee - fee == tried.1)
            && (debt.payout - payout, debt.fee - fee) != tried)
  }

  ghost predicate ProperRelease(t: Trace, tx: Tx, c: Call)
    requires c.ExitSettledSeen? || c.ExitPaidSeen? || c.ExitStrandedSeen?
  {
    && !Halted(t, tx)
    && c.id == Turn(t) && InQueue(t, c.id).Some?
    && Covered(t, Pays(t, c))
    && var debt := InQueue(t, c.id).value;
       match c
       case ExitSettledSeen(extAmount, fee, recipient, relayer, _) =>
         && -extAmount == debt.payout && fee == debt.fee && recipient == debt.recipient && relayer == debt.relayer
         && HasRoom(t, tx, fee - extAmount)
       case ExitPaidSeen(_, payoutPaid, feePaid, payoutLeft, feeLeft) =>
         payoutPaid + payoutLeft == debt.payout && feePaid + feeLeft == debt.fee && Tried(t, tx, debt, payoutPaid, feePaid)
       case ExitStrandedSeen(_, payout, fee) => ProperStrand(t, tx, debt, payout, fee)
  }

  predicate ProperAdmission(depth: nat, t: Trace, tx: Tx, c: Call)
    requires c.AdmissionSeen?
  {
    && !Halted(t, tx)
    && ShieldOf(t, c.id).Some? && ShieldOf(t, c.id).value.ShieldSeen?
    && FlagOf(t, c.id) == None
    && c.id <= AttestedUpTo(t)
    && c.out0.commitment == ShieldOf(t, c.id).value.commitment0 && c.out1.commitment == ShieldOf(t, c.id).value.commitment1
    && NextLeaves(depth, t, c.out0)
  }

  /** A refund with a reason is of a deposit that carries this flag, a day after its first; the time wraps. */
  predicate ProperRefund(t: Trace, tx: Tx, c: Call)
    requires c.RefundedSeen?
  {
    && ShieldOf(t, c.id).Some?
    && (c.reason != 0 ==>
          && FlagOf(t, c.id).Some? && FlagOf(t, c.id).value.0 == c.reason
          && (FlagOf(t, c.id).value.1 + DAY) % (U64_MAX + 1) <= tx.closedAt)
    && AmountOf(t, c.id) <= Held(t) && AmountOf(t, c.id) <= PendingValue(t)
  }

  ghost predicate Proper(depth: nat, t: Trace, tx: Tx, c: Call) {
    match c
    case ShieldSeen(nf0, nf1, id, _, _, commitment0, commitment1, _) =>
      !Halted(t, tx) && !Pauses(t).0 && Fresh(t, nf0, nf1) && id == NextDeposit(t) && commitment0 != commitment1
    case TransactSeen(_, _, _, _, _) => ProperTransact(depth, t, tx, c)
    case ExitSettledSeen(_, _, _, _, _) => ProperRelease(t, tx, c)
    case ExitPaidSeen(_, _, _, _, _) => ProperRelease(t, tx, c)
    case ExitStrandedSeen(_, _, _) => ProperRelease(t, tx, c)
    case ExitRequeuedSeen(id, newId, payout, fee) =>
      && !Halted(t, tx) && newId == NextExit(t) && Stranded(t, id).Some?
      && (payout == 0 || payout == Stranded(t, id).value.payout)
      && (fee == 0 || fee == Stranded(t, id).value.fee)
    case AdmissionSeen(_, _, _) => ProperAdmission(depth, t, tx, c)
    case RefundedSeen(_, _) => ProperRefund(t, tx, c)
    case FlaggedSeen(id, _) => ShieldOf(t, id).Some?
    case UnflaggedSeen(id, reason) => ShieldOf(t, id).Some? && FlagOf(t, id).Some? && FlagOf(t, id).value.0 == reason
    case AttestedSeen(upTo) => !Halted(t, tx) && AttestedUpTo(t) < upTo < NextDeposit(t)
    case _ => true
  }

  /** Every call of the trace is proper after the calls before it. */
  ghost predicate AllProper(depth: nat, t: Trace) {
    forall i :: 0 <= i < |t| && t[i].In? ==> Proper(depth, t[..i], t[i].tx, t[i].call)
  }

  // ---------------------------------------------------------------------------------------------
  // The state is what the trace says

  /** When the last call landed. */
  function Latest(t: Trace): nat {
    if t == [] then 0 else if Last(t).In? then Last(t).tx.closedAt else Latest(Init(t))
  }

  /** Times never go back. */
  predicate InOrder(t: Trace) {
    forall i :: 0 <= i < |t| && t[i].In? ==> Latest(t[..i]) <= t[i].tx.closedAt
  }

  ghost predicate RulesSay(t: Trace, s: State) {
    && s.status.haltedUntil == HaltedUntil(t) && s.status.nextHaltAt == NextHalt(t)
    && (s.status.depositsPaused, s.status.transfersPaused) == Pauses(t)
    && s.limits == LimitsSeen(t) && s.queued == LimitsWaiting(t)
    && s.status.attestedUpTo == AttestedUpTo(t)
  }

  ghost predicate TotalsSay(t: Trace, s: State) {
    && s.status.nextDepositId == NextDeposit(t)
    && s.leaves == Leaves(t) && s.nullifierCount == SpentCount(t)
    && s.status.exitTail == NextExit(t) && s.status.exitHead == Turn(t)
    && s.status.tvl == Held(t) && s.status.pendingTotal == PendingValue(t) && s.status.queuedTotal == QueuedValue(t)
  }

  ghost predicate StatusSays(t: Trace, s: State) {
    RulesSay(t, s) && TotalsSay(t, s)
  }

  ghost predicate WindowSays(t: Trace, s: State) {
    && s.status.outflowDay <= Latest(t) / DAY
    && forall day :: Latest(t) / DAY <= day ==> s.status.OutflowOn(day) == PaidOn(t, day)
  }

  /** The deposit a shield and a flag make. */
  ghost predicate DepositSays(t: Trace, id: nat, d: Deposit) {
    && ShieldOf(t, id).Some? && ShieldOf(t, id).value.ShieldSeen?
    && var c := ShieldOf(t, id).value;
       && d.id == id && d.depositor == c.depositor && d.createdAt == c.createdAt && d.amount == c.amount && d.commitment0 == c.commitment0 && d.commitment1 == c.commitment1
       && d.flag == (if FlagOf(t, id).Some? then Some(FlagOf(t, id).value.0) else None)
       && (FlagOf(t, id).Some? ==> d.flaggedAt == FlagOf(t, id).value.1)
  }

  ghost predicate PendingSays(t: Trace, pending: map<nat, Deposit>) {
    forall id :: if id in pending then DepositSays(t, id, pending[id]) else ShieldOf(t, id) == None
  }

  function DebtOf(e: OwedExit): Debt {
    Debt(e.payout, e.fee, e.recipient, e.relayer, Tx(e.ledger, e.queuedAt, e.txHash), None)
  }

  function StrandedDebtOf(e: OwedExit): Debt {
    DebtOf(e).(strandedIn := Some(Tx(e.strandedLedger, e.strandedAt, e.strandedTx)))
  }

  ghost predicate ExitsSay(t: Trace, exits: map<nat, OwedExit>, stranded: map<nat, OwedExit>) {
    && (forall id :: InQueue(t, id) == if id in exits then Some(DebtOf(exits[id])) else None)
    && (forall id :: Stranded(t, id) == if id in stranded then Some(StrandedDebtOf(stranded[id])) else None)
  }

  /** The payments of the window in progress, each with the parties it is owed to. */
  function Settlements(t: Trace): seq<Settlement> {
    if t == [] || Last(t).Cut? then []
    else
      var before, tx := Settlements(Init(t)), Last(t).tx;
      match Last(t).call
      case TransactSeen(_, _, _, _, PaidAtOnce(extAmount, fee, recipient, relayer)) =>
        before + [Settlement(extAmount, fee, recipient, relayer, None, tx)]
      case ExitSettledSeen(extAmount, fee, recipient, relayer, id) => before + [Settlement(extAmount, fee, recipient, relayer, Some(id), tx)]
      case ExitPaidSeen(id, payoutPaid, feePaid, _, _) => before + PaymentTo(InQueue(Init(t), id), payoutPaid, feePaid, id, tx)
      case ExitStrandedSeen(id, payout, fee) =>
        if Pays(Init(t), Last(t).call) <= 0 then before
        else
          var debt := InQueue(Init(t), id);
          before + PaymentTo(debt, debt.value.payout - payout, debt.value.fee - fee, id, tx)
      case _ => before
  }

  function PaymentTo(debt: Option<Debt>, payout: int, fee: int, id: nat, tx: Tx): seq<Settlement> {
    if debt == None then []
    else [Settlement(-payout, fee, debt.value.recipient, debt.value.relayer, Some(id), tx)]
  }

  /** The state of the replay is what the trace it has seen says. */
  ghost predicate StateSays(t: Trace, s: State) {
    && StatusSays(t, s)
    && WindowSays(t, s)
    && PendingSays(t, s.pending)
    && ExitsSay(t, s.exits, s.stranded)
  }

  ghost predicate Says(t: Trace, w: Window) {
    StateSays(t, w.state) && w.spent == Spent(t) && w.delta.settlements == Settlements(t)
  }

  lemma NothingHappened()
    ensures StatusSays([], NEW_STATE) && WindowSays([], NEW_STATE)
  {
  }

  lemma NothingSeen()
    ensures StateSays([], NEW_STATE)
  {
    NothingHappened();
    assert PendingSays([], map[]) && ExitsSay([], map[], map[]);
    hide StatusSays, WindowSays, PendingSays, ExitsSay;
  }

  // ---------------------------------------------------------------------------------------------
  // One more call

  /** Whether the replay accepts a call exactly when it is proper, and then is again what the trace says. */
  ghost predicate StepsWith(depth: nat, t: Trace, w: Window, tx: Tx, c: Call) {
    var next := Apply(depth, w, tx, c);
    && (next.Ok? <==> Proper(depth, t, tx, c))
    && (next.Ok? ==> Says(t + [In(tx, c)], next.value))
  }

  lemma Grown(t: Trace, x: Seen)
    ensures Init(t + [x]) == t && Last(t + [x]) == x && t + [x] != []
  {
  }

  /** The window after a call that pays this much; calls that pay nothing may leave the recorded day alone. */
  lemma WindowGoesOn(t: Trace, tx: Tx, c: Call, s: State, next: State)
    requires WindowSays(t, s) && Latest(t) <= tx.closedAt
    requires
      || (next.status.outflowDay == tx.closedAt / DAY && next.status.outflow == s.status.OutflowOn(tx.closedAt / DAY) + Pays(t, c))
      || (next.status.outflowDay == s.status.outflowDay && next.status.outflow == s.status.outflow && Pays(t, c) == 0)
    ensures WindowSays(t + [In(tx, c)], next)
  {
    Grown(t, In(tx, c));
    hide Pays;
    var u := t + [In(tx, c)];
    assert Latest(u) == tx.closedAt && Latest(t) / DAY <= tx.closedAt / DAY;
    forall day | tx.closedAt / DAY <= day
      ensures PaidOn(u, day) == PaidOn(t, day) + if tx.closedAt / DAY == day then Pays(t, c) else 0
    {
    }
  }

  /** Whether a call is one of the guardian's, which alone change what is halted, paused and limited. */
  predicate IsGovernance(c: Call) {
    c.PausedSeen? || c.HaltedSeen? || c.ResumedSeen? || c.LimitsQueuedSeen? || c.LimitsAppliedSeen? || c.LimitsCancelledSeen?
  }

  lemma RulesAre(t: Trace, s: State)
    requires RulesSay(t, s)
    ensures s.status.haltedUntil == HaltedUntil(t) && s.limits == LimitsSeen(t) && s.status.attestedUpTo == AttestedUpTo(t)
    ensures (s.status.depositsPaused, s.status.transfersPaused) == Pauses(t)
  {
  }

  /** Every other call leaves those rules, and only an attestation the attested ID. */
  lemma RulesGoOn(t: Trace, tx: Tx, c: Call, s: State, next: State)
    requires RulesSay(t, s) && !IsGovernance(c) && !c.AttestedSeen?
    requires next.limits == s.limits && next.queued == s.queued
    requires next.status.haltedUntil == s.status.haltedUntil && next.status.nextHaltAt == s.status.nextHaltAt
    requires next.status.depositsPaused == s.status.depositsPaused && next.status.transfersPaused == s.status.transfersPaused
    requires next.status.attestedUpTo == s.status.attestedUpTo
    ensures RulesSay(t + [In(tx, c)], next)
  {
    Grown(t, In(tx, c));
  }

  /** The guardian's calls and the ASP's leave the totals. */
  lemma TotalsGoOn(t: Trace, tx: Tx, c: Call, s: State, next: State)
    requires TotalsSay(t, s) && (IsGovernance(c) || c.FlaggedSeen? || c.UnflaggedSeen? || c.AttestedSeen?)
    requires next.leaves == s.leaves && next.nullifierCount == s.nullifierCount
    requires next.status.nextDepositId == s.status.nextDepositId
    requires next.status.exitHead == s.status.exitHead && next.status.exitTail == s.status.exitTail
    requires next.status.tvl == s.status.tvl && next.status.pendingTotal == s.status.pendingTotal
    requires next.status.queuedTotal == s.status.queuedTotal
    ensures TotalsSay(t + [In(tx, c)], next)
  {
    Grown(t, In(tx, c));
  }

  /** Only calls about deposits touch them. */
  lemma PendingGoesOn(t: Trace, tx: Tx, c: Call, pending: map<nat, Deposit>)
    requires PendingSays(t, pending)
    requires !c.ShieldSeen? && !c.AdmissionSeen? && !c.RefundedSeen? && !c.FlaggedSeen? && !c.UnflaggedSeen?
    ensures PendingSays(t + [In(tx, c)], pending)
  {
    Grown(t, In(tx, c));
    forall id
      ensures ShieldOf(t + [In(tx, c)], id) == ShieldOf(t, id) && FlagOf(t + [In(tx, c)], id) == FlagOf(t, id)
    {
    }
    hide ShieldOf, FlagOf;
  }

  /** Only transactions, releases and claims touch exits and settle anything. */
  lemma ExitsGoOn(t: Trace, tx: Tx, c: Call, s: State)
    requires ExitsSay(t, s.exits, s.stranded)
    requires !c.TransactSeen? && !c.ExitSettledSeen? && !c.ExitPaidSeen? && !c.ExitStrandedSeen? && !c.ExitRequeuedSeen?
    ensures ExitsSay(t + [In(tx, c)], s.exits, s.stranded)
    ensures Settlements(t + [In(tx, c)]) == Settlements(t)
  {
    Grown(t, In(tx, c));
    forall id
      ensures InQueue(t + [In(tx, c)], id) == InQueue(t, id) && Stranded(t + [In(tx, c)], id) == Stranded(t, id)
    {
    }
    hide InQueue, Stranded;
  }

  // ---------------------------------------------------------------------------------------------
  // Deposits

  lemma ShieldAccepted(depth: nat, t: Trace, w: Window, tx: Tx, c: Call)
    requires Says(t, w) && Latest(t) <= tx.closedAt && c.ShieldSeen?
    ensures Apply(depth, w, tx, c).Ok? <==> Proper(depth, t, tx, c)
  {
    RulesAre(t, w.state);
    hide RulesSay, WindowSays, PendingSays, ExitsSay;
  }

  lemma ShieldSays(depth: nat, t: Trace, w: Window, tx: Tx, c: Call)
    requires Says(t, w) && Latest(t) <= tx.closedAt && c.ShieldSeen?
    requires Apply(depth, w, tx, c).Ok?
    ensures Says(t + [In(tx, c)], Apply(depth, w, tx, c).value)
  {
    hide RulesSay, WindowSays, ExitsSay, Settlements, Fits;
    var next := Apply(depth, w, tx, c).value.state;
    Grown(t, In(tx, c));
    WindowGoesOn(t, tx, c, w.state, next);
    RulesGoOn(t, tx, c, w.state, next);
    ExitsGoOn(t, tx, c, w.state);
    ShieldPending(t, tx, c, w.state, next);
    hide PendingSays;
  }

  lemma ShieldPending(t: Trace, tx: Tx, c: Call, s: State, next: State)
    requires PendingSays(t, s.pending) && c.ShieldSeen? && next.pending == AddDeposit(s, c).pending
    ensures PendingSays(t + [In(tx, c)], next.pending)
  {
    Grown(t, In(tx, c));
  }

  lemma AdmissionAccepted(depth: nat, t: Trace, w: Window, tx: Tx, c: Call)
    requires Says(t, w) && Latest(t) <= tx.closedAt && c.AdmissionSeen?
    ensures Apply(depth, w, tx, c).Ok? <==> Proper(depth, t, tx, c)
  {
    RulesAre(t, w.state);
    hide RulesSay, WindowSays, ExitsSay;
  }

  lemma AdmissionSays(depth: nat, t: Trace, w: Window, tx: Tx, c: Call)
    requires Says(t, w) && Latest(t) <= tx.closedAt && c.AdmissionSeen?
    requires Apply(depth, w, tx, c).Ok?
    ensures Says(t + [In(tx, c)], Apply(depth, w, tx, c).value)
  {
    hide RulesSay, WindowSays, ExitsSay, Settlements, Fits;
    var next := Apply(depth, w, tx, c).value.state;
    Grown(t, In(tx, c));
    WindowGoesOn(t, tx, c, w.state, next);
    RulesGoOn(t, tx, c, w.state, next);
    ExitsGoOn(t, tx, c, w.state);
    GonePending(t, tx, c, w.state, next);
    PendingAmount(t, w.state, c.id);
    hide PendingSays;
  }

  /** An admission and a refund end a deposit. */
  lemma GonePending(t: Trace, tx: Tx, c: Call, s: State, next: State)
    requires PendingSays(t, s.pending) && (c.AdmissionSeen? || c.RefundedSeen?) && next.pending == s.pending - {c.id}
    ensures PendingSays(t + [In(tx, c)], next.pending)
  {
    Grown(t, In(tx, c));
  }

  lemma PendingAmount(t: Trace, s: State, id: nat)
    requires PendingSays(t, s.pending)
    ensures AmountOf(t, id) == if id in s.pending then s.pending[id].amount else 0
  {
  }

  lemma RefundAccepted(depth: nat, t: Trace, w: Window, tx: Tx, c: Call)
    requires Says(t, w) && Latest(t) <= tx.closedAt && c.RefundedSeen?
    ensures Apply(depth, w, tx, c).Ok? <==> Proper(depth, t, tx, c)
  {
    PendingAmount(t, w.state, c.id);
    hide RulesSay, WindowSays, ExitsSay, AmountOf;
  }

  lemma RefundSays(depth: nat, t: Trace, w: Window, tx: Tx, c: Call)
    requires Says(t, w) && Latest(t) <= tx.closedAt && c.RefundedSeen?
    requires Apply(depth, w, tx, c).Ok?
    ensures Says(t + [In(tx, c)], Apply(depth, w, tx, c).value)
  {
    hide RulesSay, WindowSays, ExitsSay, Settlements, Fits;
    var next := Apply(depth, w, tx, c).value.state;
    Grown(t, In(tx, c));
    WindowGoesOn(t, tx, c, w.state, next);
    RulesGoOn(t, tx, c, w.state, next);
    ExitsGoOn(t, tx, c, w.state);
    GonePending(t, tx, c, w.state, next);
    PendingAmount(t, w.state, c.id);
    hide PendingSays, AmountOf;
  }

  lemma FlagAccepted(depth: nat, t: Trace, w: Window, tx: Tx, c: Call)
    requires Says(t, w) && Latest(t) <= tx.closedAt && (c.FlaggedSeen? || c.UnflaggedSeen?)
    ensures Apply(depth, w, tx, c).Ok? <==> Proper(depth, t, tx, c)
  {
    hide RulesSay, WindowSays, ExitsSay, TotalsSay;
  }

  lemma FlagSays(depth: nat, t: Trace, w: Window, tx: Tx, c: Call)
    requires Says(t, w) && Latest(t) <= tx.closedAt && (c.FlaggedSeen? || c.UnflaggedSeen?)
    requires Apply(depth, w, tx, c).Ok?
    ensures Says(t + [In(tx, c)], Apply(depth, w, tx, c).value)
  {
    hide RulesSay, WindowSays, TotalsSay, ExitsSay, Settlements, Fits;
    var next := Apply(depth, w, tx, c).value.state;
    Grown(t, In(tx, c));
    WindowGoesOn(t, tx, c, w.state, next);
    RulesGoOn(t, tx, c, w.state, next);
    TotalsGoOn(t, tx, c, w.state, next);
    ExitsGoOn(t, tx, c, w.state);
    FlagPending(t, tx, c, w.state, next);
    hide PendingSays;
  }

  lemma FlagPending(t: Trace, tx: Tx, c: Call, s: State, next: State)
    requires PendingSays(t, s.pending) && (c.FlaggedSeen? || c.UnflaggedSeen?) && ApplyScreening(s, tx.closedAt, c) == Ok(next)
    ensures PendingSays(t + [In(tx, c)], next.pending)
  {
    Grown(t, In(tx, c));
  }

  lemma AttestedAccepted(depth: nat, t: Trace, w: Window, tx: Tx, c: Call)
    requires Says(t, w) && Latest(t) <= tx.closedAt && c.AttestedSeen?
    ensures Apply(depth, w, tx, c).Ok? <==> Proper(depth, t, tx, c)
  {
    RulesAre(t, w.state);
    hide RulesSay, WindowSays, PendingSays, ExitsSay;
  }

  lemma AttestedSays(depth: nat, t: Trace, w: Window, tx: Tx, c: Call)
    requires Says(t, w) && Latest(t) <= tx.closedAt && c.AttestedSeen?
    requires Apply(depth, w, tx, c).Ok?
    ensures Says(t + [In(tx, c)], Apply(depth, w, tx, c).value)
  {
    hide WindowSays, TotalsSay, PendingSays, ExitsSay, Settlements;
    var next := Apply(depth, w, tx, c).value.state;
    Grown(t, In(tx, c));
    WindowGoesOn(t, tx, c, w.state, next);
    TotalsGoOn(t, tx, c, w.state, next);
    ExitsGoOn(t, tx, c, w.state);
    PendingGoesOn(t, tx, c, w.state.pending);
  }

  lemma GovernanceAccepted(depth: nat, t: Trace, w: Window, tx: Tx, c: Call)
    requires Says(t, w) && Latest(t) <= tx.closedAt && IsGovernance(c)
    ensures Apply(depth, w, tx, c).Ok? <==> Proper(depth, t, tx, c)
  {
  }

  lemma GovernanceSays(depth: nat, t: Trace, w: Window, tx: Tx, c: Call)
    requires Says(t, w) && Latest(t) <= tx.closedAt && IsGovernance(c)
    requires Apply(depth, w, tx, c).Ok?
    ensures Says(t + [In(tx, c)], Apply(depth, w, tx, c).value)
  {
    hide WindowSays, TotalsSay, PendingSays, ExitsSay, Settlements;
    var next := Apply(depth, w, tx, c).value.state;
    Grown(t, In(tx, c));
    WindowGoesOn(t, tx, c, w.state, next);
    TotalsGoOn(t, tx, c, w.state, next);
    ExitsGoOn(t, tx, c, w.state);
    PendingGoesOn(t, tx, c, w.state.pending);
  }

  // ---------------------------------------------------------------------------------------------
  // Transactions and exits

  lemma FitsIsRoom(t: Trace, tx: Tx, s: State, amount: int)
    requires StatusSays(t, s) && WindowSays(t, s) && Latest(t) <= tx.closedAt
    ensures Fits(s, tx.closedAt, amount) <==> HasRoom(t, tx, amount)
  {
  }

  /** Spending and inserting leave the window of the day as it is. */
  lemma FitsSame(w: Window, now: nat, c: Call)
    requires c.TransactSeen?
    ensures forall s: State :: s.limits == w.state.limits && s.status == w.state.status ==>
              Fits(s, now, c.ending.fee - c.ending.extAmount) == Fits(w.state, now, c.ending.fee - c.ending.extAmount)
  {
  }

  lemma TransactAccepted(depth: nat, t: Trace, w: Window, tx: Tx, c: Call)
    requires Says(t, w) && Latest(t) <= tx.closedAt && c.TransactSeen?
    ensures Apply(depth, w, tx, c).Ok? <==> Proper(depth, t, tx, c)
  {
    RulesAre(t, w.state);
    FitsIsRoom(t, tx, w.state, c.ending.fee - c.ending.extAmount);
    FitsSame(w, tx.closedAt, c);
    hide RulesSay, WindowSays, PendingSays, ExitsSay, Fits, HasRoom, Settlements;
  }

  lemma TransactSays(depth: nat, t: Trace, w: Window, tx: Tx, c: Call)
    requires Says(t, w) && Latest(t) <= tx.closedAt && c.TransactSeen?
    requires Apply(depth, w, tx, c).Ok?
    ensures Says(t + [In(tx, c)], Apply(depth, w, tx, c).value)
  {
    hide RulesSay, WindowSays, TotalsSay, PendingSays, ExitsSay, Fits, BadTransact, NewExit;
    var next := Apply(depth, w, tx, c).value.state;
    Grown(t, In(tx, c));
    WindowGoesOn(t, tx, c, w.state, next);
    RulesGoOn(t, tx, c, w.state, next);
    PendingGoesOn(t, tx, c, w.state.pending);
    TransactTotals(t, tx, c, w.state, next);
    TransactExits(t, tx, c, w.state, next);
  }

  lemma TransactTotals(t: Trace, tx: Tx, c: Call, s: State, next: State)
    requires TotalsSay(t, s) && c.TransactSeen?
    requires next.leaves == s.leaves + [c.out0.commitment, c.out1.commitment] && next.nullifierCount == s.nullifierCount + 2
    requires next.status.nextDepositId == s.status.nextDepositId && next.status.pendingTotal == s.status.pendingTotal
    requires next.status.exitHead == s.status.exitHead && next.status.tvl == s.status.tvl - Pays(t, c)
    requires var due := c.ending.fee - c.ending.extAmount;
             && next.status.exitTail == s.status.exitTail + (if c.ending.Waits? then 1 else 0)
             && next.status.queuedTotal == s.status.queuedTotal + (if c.ending.Waits? then due else 0)
    ensures TotalsSay(t + [In(tx, c)], next)
  {
    Grown(t, In(tx, c));
  }

  lemma TransactExits(t: Trace, tx: Tx, c: Call, s: State, next: State)
    requires ExitsSay(t, s.exits, s.stranded) && c.TransactSeen? && next.stranded == s.stranded
    requires next.exits == if c.ending.Waits? then s.exits[c.ending.id := NewExit(c.ending, tx)] else s.exits
    ensures ExitsSay(t + [In(tx, c)], next.exits, next.stranded)
  {
    Grown(t, In(tx, c));
  }

  /** A step of release pays its amount out of what is held and queued, and ends the turn of an exit that leaves. */
  lemma ReleaseTotals(t: Trace, tx: Tx, c: Call, s: State, next: State)
    requires TotalsSay(t, s) && (c.ExitSettledSeen? || c.ExitPaidSeen? || c.ExitStrandedSeen?)
    requires next.leaves == s.leaves && next.nullifierCount == s.nullifierCount
    requires next.status.nextDepositId == s.status.nextDepositId && next.status.pendingTotal == s.status.pendingTotal
    requires next.status.exitTail == s.status.exitTail
    requires next.status.exitHead == s.status.exitHead + (if c.ExitPaidSeen? then 0 else 1)
    requires next.status.tvl == s.status.tvl - Pays(t, c) && next.status.queuedTotal == s.status.queuedTotal - Pays(t, c)
    ensures TotalsSay(t + [In(tx, c)], next)
  {
    Grown(t, In(tx, c));
    hide Pays;
  }

  /** What the state holds of the exit a call names. */
  lemma ExitIs(t: Trace, s: State, id: nat)
    requires ExitsSay(t, s.exits, s.stranded)
    ensures InQueue(t, id) == if id in s.exits then Some(DebtOf(s.exits[id])) else None
    ensures Stranded(t, id) == if id in s.stranded then Some(StrandedDebtOf(s.stranded[id])) else None
  {
  }

  lemma SettledAccepted(depth: nat, t: Trace, w: Window, tx: Tx, c: Call)
    requires Says(t, w) && Latest(t) <= tx.closedAt && c.ExitSettledSeen?
    ensures Apply(depth, w, tx, c).Ok? <==> Proper(depth, t, tx, c)
  {
    RulesAre(t, w.state);
    ExitIs(t, w.state, c.id);
    FitsIsRoom(t, tx, w.state, c.fee - c.extAmount);
    hide RulesSay, WindowSays, PendingSays, ExitsSay, Fits, HasRoom, InQueue, Stranded;
  }

  lemma SettledSays(depth: nat, t: Trace, w: Window, tx: Tx, c: Call)
    requires Says(t, w) && Latest(t) <= tx.closedAt && c.ExitSettledSeen?
    requires Apply(depth, w, tx, c).Ok?
    ensures Says(t + [In(tx, c)], Apply(depth, w, tx, c).value)
  {
    hide RulesSay, WindowSays, TotalsSay, PendingSays, ExitsSay, Fits, CouldStrand, StepOf, InQueue, Stranded;
    var next := Apply(depth, w, tx, c).value.state;
    Grown(t, In(tx, c));
    WindowGoesOn(t, tx, c, w.state, next);
    RulesGoOn(t, tx, c, w.state, next);
    PendingGoesOn(t, tx, c, w.state.pending);
    ReleaseTotals(t, tx, c, w.state, next);
    SettledExits(t, tx, c, w.state, next);
  }

  lemma SettledExits(t: Trace, tx: Tx, c: Call, s: State, next: State)
    requires ExitsSay(t, s.exits, s.stranded) && c.ExitSettledSeen? && next.exits == s.exits - {c.id} && next.stranded == s.stranded
    ensures ExitsSay(t + [In(tx, c)], next.exits, next.stranded)
  {
    Grown(t, In(tx, c));
  }

  /** What a step tries to pay is as much as there is room for. */
  lemma StepIsTried(t: Trace, tx: Tx, s: State, e: OwedExit)
    requires StatusSays(t, s) && WindowSays(t, s) && Latest(t) <= tx.closedAt
    ensures StepOf(s, tx.closedAt, e).Some? <==> Room(t, tx).Some?
    ensures forall x: (int, int) :: Tried(t, tx, DebtOf(e), x.0, x.1) <==> StepOf(s, tx.closedAt, e) == None || Some(x) == StepOf(s, tx.closedAt, e)
  {
  }

  lemma PaidAccepted(depth: nat, t: Trace, w: Window, tx: Tx, c: Call)
    requires Says(t, w) && Latest(t) <= tx.closedAt && c.ExitPaidSeen?
    ensures Apply(depth, w, tx, c).Ok? <==> Proper(depth, t, tx, c)
  {
    RulesAre(t, w.state);
    ExitIs(t, w.state, c.id);
    if c.id in w.state.exits {
      StepIsTried(t, tx, w.state, w.state.exits[c.id]);
      assert Tried(t, tx, DebtOf(w.state.exits[c.id]), c.payoutPaid, c.feePaid) <==>
               var step := StepOf(w.state, tx.closedAt, w.state.exits[c.id]); step == None || (c.payoutPaid, c.feePaid) == step.value;
    }
    hide RulesSay, WindowSays, PendingSays, ExitsSay, StepOf, Tried, InQueue, Stranded;
  }

  lemma PaidSays(depth: nat, t: Trace, w: Window, tx: Tx, c: Call)
    requires Says(t, w) && Latest(t) <= tx.closedAt && c.ExitPaidSeen?
    requires Apply(depth, w, tx, c).Ok?
    ensures Says(t + [In(tx, c)], Apply(depth, w, tx, c).value)
  {
    hide RulesSay, WindowSays, TotalsSay, PendingSays, ExitsSay, Fits, CouldStrand, StepOf, InQueue, Stranded;
    var next := Apply(depth, w, tx, c).value.state;
    Grown(t, In(tx, c));
    WindowGoesOn(t, tx, c, w.state, next);
    RulesGoOn(t, tx, c, w.state, next);
    PendingGoesOn(t, tx, c, w.state.pending);
    ReleaseTotals(t, tx, c, w.state, next);
    ExitIs(t, w.state, c.id);
    PaidExits(t, tx, c, w.state, next);
  }

  lemma PaidExits(t: Trace, tx: Tx, c: Call, s: State, next: State)
    requires ExitsSay(t, s.exits, s.stranded) && c.ExitPaidSeen? && c.id in s.exits && next.stranded == s.stranded
    requires next.exits == s.exits[c.id := s.exits[c.id].(payout := c.payoutLeft, fee := c.feeLeft)]
    ensures ExitsSay(t + [In(tx, c)], next.exits, next.stranded)
  {
    Grown(t, In(tx, c));
  }

  lemma StrandedAsTried(t: Trace, tx: Tx, s: State, e: OwedExit, payout: int, fee: int)
    requires StatusSays(t, s) && WindowSays(t, s) && Latest(t) <= tx.closedAt
    ensures && payout <= e.payout && fee <= e.fee
            && Fits(s, tx.closedAt, e.payout - payout + e.fee - fee) && CouldStrand(s, tx.closedAt, e, e.payout - payout, e.fee - fee)
            <==> ProperStrand(t, tx, DebtOf(e), payout, fee)
  {
    StepIsTried(t, tx, s, e);
    FitsIsRoom(t, tx, s, e.payout - payout + e.fee - fee);
    hide StatusSays, WindowSays, Fits, HasRoom, StepOf, Tried, Room;
    var step := StepOf(s, tx.closedAt, e);
    if step.Some? {
      assert Tried(t, tx, DebtOf(e), step.value.0, step.value.1);
    }
  }

  lemma StrandedExits(t: Trace, tx: Tx, c: Call, s: State, next: State, left: OwedExit)
    requires ExitsSay(t, s.exits, s.stranded) && c.ExitStrandedSeen? && c.id in s.exits
    requires StrandedDebtOf(left) == DebtOf(s.exits[c.id]).(payout := c.payout, fee := c.fee, strandedIn := Some(tx))
    requires next.exits == s.exits - {c.id} && next.stranded == s.stranded[c.id := left]
    ensures ExitsSay(t + [In(tx, c)], next.exits, next.stranded)
  {
    Grown(t, In(tx, c));
  }

  lemma StrandedAccepted(depth: nat, t: Trace, w: Window, tx: Tx, c: Call)
    requires Says(t, w) && Latest(t) <= tx.closedAt && c.ExitStrandedSeen?
    ensures Apply(depth, w, tx, c).Ok? <==> Proper(depth, t, tx, c)
  {
    RulesAre(t, w.state);
    ExitIs(t, w.state, c.id);
    if c.id in w.state.exits {
      StrandedAsTried(t, tx, w.state, w.state.exits[c.id], c.payout, c.fee);
    }
    hide RulesSay, WindowSays, PendingSays, ExitsSay, ProperStrand, CouldStrand, Fits, InQueue, Stranded;
  }

  lemma StrandedSays(depth: nat, t: Trace, w: Window, tx: Tx, c: Call)
    requires Says(t, w) && Latest(t) <= tx.closedAt && c.ExitStrandedSeen?
    requires Apply(depth, w, tx, c).Ok?
    ensures Says(t + [In(tx, c)], Apply(depth, w, tx, c).value)
  {
    ExitIs(t, w.state, c.id);
    hide RulesSay, WindowSays, TotalsSay, PendingSays, ExitsSay, Fits, CouldStrand, StepOf, InQueue, Stranded;
    var next := Apply(depth, w, tx, c).value.state;
    Grown(t, In(tx, c));
    WindowGoesOn(t, tx, c, w.state, next);
    RulesGoOn(t, tx, c, w.state, next);
    PendingGoesOn(t, tx, c, w.state.pending);
    ReleaseTotals(t, tx, c, w.state, next);
    StrandedExits(t, tx, c, w.state, next, next.stranded[c.id]);
  }

  lemma RequeuedAccepted(depth: nat, t: Trace, w: Window, tx: Tx, c: Call)
    requires Says(t, w) && Latest(t) <= tx.closedAt && c.ExitRequeuedSeen?
    ensures Apply(depth, w, tx, c).Ok? <==> Proper(depth, t, tx, c)
  {
    RulesAre(t, w.state);
    ExitIs(t, w.state, c.id);
    hide RulesSay, WindowSays, PendingSays, ExitsSay, InQueue, Stranded, MovedExit, LeftStranded;
  }

  lemma RequeuedSays(depth: nat, t: Trace, w: Window, tx: Tx, c: Call)
    requires Says(t, w) && Latest(t) <= tx.closedAt && c.ExitRequeuedSeen?
    requires Apply(depth, w, tx, c).Ok?
    ensures Says(t + [In(tx, c)], Apply(depth, w, tx, c).value)
  {
    hide RulesSay, WindowSays, PendingSays, ExitsSay, InQueue, Stranded, MovedExit, LeftStranded;
    var next := Apply(depth, w, tx, c).value.state;
    Grown(t, In(tx, c));
    WindowGoesOn(t, tx, c, w.state, next);
    RulesGoOn(t, tx, c, w.state, next);
    PendingGoesOn(t, tx, c, w.state.pending);
    RequeuedExits(t, tx, c, w.state, next);
  }

  lemma RequeuedExits(t: Trace, tx: Tx, c: Call, s: State, next: State)
    requires ExitsSay(t, s.exits, s.stranded) && c.ExitRequeuedSeen? && c.id in s.stranded
    requires next.exits == s.exits[c.newId := MovedExit(s.stranded[c.id], tx, c)]
    requires var left := LeftStranded(s.stranded[c.id], c);
             next.stranded == if left.payout == 0 && left.fee == 0 then s.stranded - {c.id} else s.stranded[c.id := left]
    ensures ExitsSay(t + [In(tx, c)], next.exits, next.stranded)
  {
    Grown(t, In(tx, c));
  }

  lemma CallAccepted(depth: nat, t: Trace, w: Window, tx: Tx, c: Call)
    requires Says(t, w) && Latest(t) <= tx.closedAt
    ensures Apply(depth, w, tx, c).Ok? <==> Proper(depth, t, tx, c)
  {
    hide Says, Proper, Apply;
    match c
    case ShieldSeen(_, _, _, _, _, _, _, _) => ShieldAccepted(depth, t, w, tx, c);
    case TransactSeen(_, _, _, _, _) => TransactAccepted(depth, t, w, tx, c);
    case ExitSettledSeen(_, _, _, _, _) => SettledAccepted(depth, t, w, tx, c);
    case ExitPaidSeen(_, _, _, _, _) => PaidAccepted(depth, t, w, tx, c);
    case ExitStrandedSeen(_, _, _) => StrandedAccepted(depth, t, w, tx, c);
    case ExitRequeuedSeen(_, _, _, _) => RequeuedAccepted(depth, t, w, tx, c);
    case AdmissionSeen(_, _, _) => AdmissionAccepted(depth, t, w, tx, c);
    case RefundedSeen(_, _) => RefundAccepted(depth, t, w, tx, c);
    case FlaggedSeen(_, _) => FlagAccepted(depth, t, w, tx, c);
    case UnflaggedSeen(_, _) => FlagAccepted(depth, t, w, tx, c);
    case AttestedSeen(_) => AttestedAccepted(depth, t, w, tx, c);
    case _ => GovernanceAccepted(depth, t, w, tx, c);
  }

  /** One call after a trace is accepted exactly when it is proper, and the state is then what the longer trace says. */
  lemma CallSteps(depth: nat, t: Trace, w: Window, tx: Tx, c: Call)
    requires Says(t, w) && Latest(t) <= tx.closedAt
    ensures StepsWith(depth, t, w, tx, c)
  {
    CallAccepted(depth, t, w, tx, c);
    hide Says, Proper, Apply;
    if Apply(depth, w, tx, c).Ok? {
      match c
      case ShieldSeen(_, _, _, _, _, _, _, _) => ShieldSays(depth, t, w, tx, c);
      case TransactSeen(_, _, _, _, _) => TransactSays(depth, t, w, tx, c);
      case ExitSettledSeen(_, _, _, _, _) => SettledSays(depth, t, w, tx, c);
      case ExitPaidSeen(_, _, _, _, _) => PaidSays(depth, t, w, tx, c);
      case ExitStrandedSeen(_, _, _) => StrandedSays(depth, t, w, tx, c);
      case ExitRequeuedSeen(_, _, _, _) => RequeuedSays(depth, t, w, tx, c);
      case AdmissionSeen(_, _, _) => AdmissionSays(depth, t, w, tx, c);
      case RefundedSeen(_, _) => RefundSays(depth, t, w, tx, c);
      case FlaggedSeen(_, _) => FlagSays(depth, t, w, tx, c);
      case UnflaggedSeen(_, _) => FlagSays(depth, t, w, tx, c);
      case AttestedSeen(_) => AttestedSays(depth, t, w, tx, c);
      case _ => GovernanceSays(depth, t, w, tx, c);
    }
  }

  /** A new window keeps the state and forgets what was spent. */
  lemma CutSteps(t: Trace, s: State)
    requires StateSays(t, s)
    ensures Says(t + [Cut], Window(s, NO_CHANGE, {}))
  {
    Grown(t, Cut);
  }

  // ---------------------------------------------------------------------------------------------
  // Whole runs

  /** The calls of a window, each under its transaction. */
  function CallsOf(tx: Tx, calls: seq<Call>): Trace
    decreases |calls|
  {
    if calls == [] then [] else [In(tx, calls[0])] + CallsOf(tx, calls[1..])
  }

  function TraceOf(txs: seq<(Tx, seq<Call>)>): Trace
    decreases |txs|
  {
    if txs == [] then [] else CallsOf(txs[0].0, txs[0].1) + TraceOf(txs[1..])
  }

  function TraceOfAll(windows: seq<seq<(Tx, seq<Call>)>>): Trace
    decreases |windows|
  {
    if windows == [] then [] else [Cut] + TraceOf(windows[0]) + TraceOfAll(windows[1..])
  }

  /** Windows replayed one after the other, each from the state that the last one left. */
  function Replayed(depth: nat, s: State, windows: seq<seq<(Tx, seq<Call>)>>): Result<State, Inconsistent>
    decreases |windows|
  {
    if windows == [] then Ok(s)
    else
      match ApplyWindow(depth, Window(s, NO_CHANGE, {}), windows[0])
      case Err(error) => Err(error)
      case Ok(w) => Replayed(depth, w.state, windows[1..])
  }

  /** Every call of `more` is proper after `t` and the calls before it. */
  ghost predicate ProperAfter(depth: nat, t: Trace, more: Trace) {
    forall i :: 0 <= i < |more| && more[i].In? ==> Proper(depth, t + more[..i], more[i].tx, more[i].call)
  }

  ghost predicate InOrderAfter(t: Trace, more: Trace) {
    forall i :: 0 <= i < |more| && more[i].In? ==> Latest(t + more[..i]) <= more[i].tx.closedAt
  }

  lemma ProperJoins(depth: nat, t: Trace, a: Trace, b: Trace)
    ensures ProperAfter(depth, t, a + b) <==> ProperAfter(depth, t, a) && ProperAfter(depth, t + a, b)
    ensures InOrderAfter(t, a + b) <==> InOrderAfter(t, a) && InOrderAfter(t + a, b)
  {
    var c := a + b;
    forall i | 0 <= i < |c|
      ensures if i < |a| then c[i] == a[i] && c[..i] == a[..i] else c[i] == b[i - |a|] && t + c[..i] == (t + a) + b[..i - |a|]
    {
      if i >= |a| {
        assert c[..i] == a + b[..i - |a|];
      }
    }
    assert forall j :: 0 <= j < |b| ==> c[|a| + j] == b[j];
    hide Proper, Latest;
    assert forall i :: 0 <= i < |a| ==> c[i] == a[i] && c[..i] == a[..i];
    assert forall j :: 0 <= j < |b| ==> t + c[..|a| + j] == (t + a) + b[..j];
  }

  lemma OneIsProper(depth: nat, t: Trace, x: Seen)
    ensures ProperAfter(depth, t, [x]) <==> (x.In? ==> Proper(depth, t, x.tx, x.call))
    ensures InOrderAfter(t, [x]) <==> (x.In? ==> Latest(t) <= x.tx.closedAt)
  {
    assert t + [x][..0] == t;
    hide Proper, Latest;
  }

  /** Accepted calls are the proper ones, and lead to what the trace then says. */
  lemma {:induction false} CallsAccepted(depth: nat, t: Trace, w: Window, tx: Tx, calls: seq<Call>)
    requires Says(t, w) && InOrderAfter(t, CallsOf(tx, calls))
    ensures ApplyAll(depth, w, tx, calls).Ok? <==> ProperAfter(depth, t, CallsOf(tx, calls))
    ensures ApplyAll(depth, w, tx, calls).Ok? ==> Says(t + CallsOf(tx, calls), ApplyAll(depth, w, tx, calls).value)
    decreases |calls|
  {
    hide Says, Proper, Latest, Apply, StepsWith;
    if calls == [] {
      assert t + [] == t;
    } else {
      var x, rest := In(tx, calls[0]), CallsOf(tx, calls[1..]);
      ProperJoins(depth, t, [x], rest);
      OneIsProper(depth, t, x);
      CallSteps(depth, t, w, tx, calls[0]);
      Stepped(depth, t, w, tx, calls[0]);
      if Apply(depth, w, tx, calls[0]).Ok? {
        CallsAccepted(depth, t + [x], Apply(depth, w, tx, calls[0]).value, tx, calls[1..]);
        assert (t + [x]) + rest == t + ([x] + rest);
      }
    }
  }

  lemma Stepped(depth: nat, t: Trace, w: Window, tx: Tx, c: Call)
    requires StepsWith(depth, t, w, tx, c)
    ensures Apply(depth, w, tx, c).Ok? <==> Proper(depth, t, tx, c)
    ensures Apply(depth, w, tx, c).Ok? ==> Says(t + [In(tx, c)], Apply(depth, w, tx, c).value)
  {
  }

  lemma {:induction false} WindowAccepted(depth: nat, t: Trace, w: Window, txs: seq<(Tx, seq<Call>)>)
    requires Says(t, w) && InOrderAfter(t, TraceOf(txs))
    ensures ApplyWindow(depth, w, txs).Ok? <==> ProperAfter(depth, t, TraceOf(txs))
    ensures ApplyWindow(depth, w, txs).Ok? ==> Says(t + TraceOf(txs), ApplyWindow(depth, w, txs).value)
    decreases |txs|
  {
    hide Says, ProperAfter, InOrderAfter, ApplyAll;
    if txs == [] {
      assert t + [] == t;
      ProperNone(depth, t);
    } else {
      var calls, rest := CallsOf(txs[0].0, txs[0].1), TraceOf(txs[1..]);
      ProperJoins(depth, t, calls, rest);
      CallsAccepted(depth, t, w, txs[0].0, txs[0].1);
      if ApplyAll(depth, w, txs[0].0, txs[0].1).Ok? {
        WindowAccepted(depth, t + calls, ApplyAll(depth, w, txs[0].0, txs[0].1).value, txs[1..]);
        assert (t + calls) + rest == t + (calls + rest);
      }
    }
  }

  lemma ProperNone(depth: nat, t: Trace)
    ensures ProperAfter(depth, t, []) && InOrderAfter(t, [])
  {
  }

  lemma {:induction false} RunAccepted(depth: nat, t: Trace, s: State, windows: seq<seq<(Tx, seq<Call>)>>)
    requires StateSays(t, s) && InOrderAfter(t, TraceOfAll(windows))
    ensures Replayed(depth, s, windows).Ok? <==> ProperAfter(depth, t, TraceOfAll(windows))
    ensures Replayed(depth, s, windows).Ok? ==> StateSays(t + TraceOfAll(windows), Replayed(depth, s, windows).value)
    decreases |windows|
  {
    hide StateSays, ProperAfter, InOrderAfter, ApplyWindow;
    if windows == [] {
      assert t + [] == t;
      ProperNone(depth, t);
    } else {
      var w, calls, rest := Window(s, NO_CHANGE, {}), TraceOf(windows[0]), TraceOfAll(windows[1..]);
      ProperJoins(depth, t, [Cut] + calls, rest);
      ProperJoins(depth, t, [Cut], calls);
      OneIsProper(depth, t, Cut);
      CutSteps(t, s);
      WindowAccepted(depth, t + [Cut], w, windows[0]);
      assert (t + [Cut]) + calls == t + ([Cut] + calls);
      if ApplyWindow(depth, w, windows[0]).Ok? {
        RunAccepted(depth, t + ([Cut] + calls), ApplyWindow(depth, w, windows[0]).value.state, windows[1..]);
        assert (t + ([Cut] + calls)) + rest == t + (([Cut] + calls) + rest);
      }
    }
  }

  /** The replay of any windows from a new vault accepts them exactly when every call is proper after the calls before
      it, and its state is then what the whole trace says. */
  lemma ReplayAcceptsProper(depth: nat, windows: seq<seq<(Tx, seq<Call>)>>)
    requires InOrder(TraceOfAll(windows))
    ensures Replayed(depth, NEW_STATE, windows).Ok? <==> AllProper(depth, TraceOfAll(windows))
    ensures Replayed(depth, NEW_STATE, windows).Ok? ==> StateSays(TraceOfAll(windows), Replayed(depth, NEW_STATE, windows).value)
  {
    NothingSeen();
    var t := TraceOfAll(windows);
    assert forall i :: 0 <= i < |t| ==> [] + t[..i] == t[..i];
    assert [] + t == t;
    hide Proper, Latest, StateSays, Replayed;
    RunAccepted(depth, [], NEW_STATE, windows);
  }
}
