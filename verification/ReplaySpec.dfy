/** The replay as functions: what each call in the vault's events does to the rebuilt state, and which
    calls contradict the vault's own rules. */
module ReplaySpec {
  import opened Common
  import opened Merkle
  import opened VaultTypes

  /** One inserted commitment as its event reports it. */
  datatype Output = Output(index: nat, commitment: Field, ciphertext: Bytes)

  /** How a transaction ended: paid at once, or waiting in the exit queue. */
  datatype Ending =
    | PaidAtOnce(extAmount: int, fee: int, recipient: MuxedAddress, relayer: Address)
    | Waits(id: nat, extAmount: int, fee: int, recipient: MuxedAddress, relayer: Address)

  /** The shapes the vault's events come in. */
  datatype Call =
    | ShieldSeen(nf0: Field, nf1: Field, id: nat, depositor: Address, amount: int, commitment0: Field, commitment1: Field, createdAt: nat)
    | TransactSeen(nf0: Field, nf1: Field, out0: Output, out1: Output, ending: Ending)
    | ExitSettledSeen(extAmount: int, fee: int, recipient: MuxedAddress, relayer: Address, id: nat)
    | ExitPaidSeen(id: nat, payoutPaid: int, feePaid: int, payoutLeft: int, feeLeft: int)
    | ExitStrandedSeen(id: nat, payout: int, fee: int)
    | ExitRequeuedSeen(id: nat, newId: nat, payout: int, fee: int)
    | AdmissionSeen(out0: Output, out1: Output, id: nat)
    | FlaggedSeen(id: nat, reason: nat)
    | UnflaggedSeen(id: nat, reason: nat)
    | AttestedSeen(upTo: nat)
    | RefundedSeen(id: nat, reason: nat)
    | PausedSeen(deposits: bool, transfers: bool)
    | HaltedSeen(until: nat)
    | ResumedSeen(nextHaltAt: nat)
    | LimitsQueuedSeen(limits: Limits, readyAt: nat)
    | LimitsAppliedSeen(limits: Limits, readyAt: nat)
    | LimitsCancelledSeen(limits: Limits, readyAt: nat)

  datatype Tx = Tx(ledger: nat, closedAt: nat, hash: nat)

  datatype Deposit = Deposit(id: nat, depositor: Address, amount: int, commitment0: Field, commitment1: Field, createdAt: nat,
                             flag: Option<nat>, flaggedAt: nat)

  /** An exit the vault owes. The queued amounts are what it owed when it was queued, the moved ones
      what claims moved to new exits, and payout and fee what is still owed under this ID. */
  datatype OwedExit = OwedExit(
    id: nat,
    payout: int,
    fee: int,
    queuedPayout: int,
    queuedFee: int,
    movedPayout: int,
    movedFee: int,
    recipient: MuxedAddress,
    relayer: Address,
    queuedAt: nat,
    ledger: nat,
    txHash: nat,
    strandedLedger: nat,
    strandedAt: nat,
    strandedTx: nat,
    requeuedFrom: Option<nat>,
    requeuedTo: seq<nat>)
  {
    function Outflow(): int {
      payout + fee
    }

    /** What releases have paid under this ID, as the indexer reports it. */
    function PaidPayout(): int {
      queuedPayout - payout - movedPayout
    }

    function PaidFee(): int {
      queuedFee - fee - movedFee
    }
  }

  /** What the vault's events determine. */
  datatype State = State(
    leaves: seq<Field>,
    nullifierCount: nat,
    status: Status,
    pending: map<nat, Deposit>,
    exits: map<nat, OwedExit>,
    stranded: map<nat, OwedExit>,
    limits: Option<Limits>,
    queued: Option<QueuedLimits>)

  /** One payment out of the vault. */
  datatype Settlement = Settlement(extAmount: int, fee: int, recipient: MuxedAddress, relayer: Address, exitId: Option<nat>, tx: Tx)

  datatype PartPaid = PartPaid(id: nat, payoutLeft: int, feeLeft: int)

  datatype Released = Released(exit: OwedExit, unpaidPayout: int, unpaidFee: int, tx: Tx)

  datatype Requeued = Requeued(from: nat, newId: nat, payoutLeft: int, feeLeft: int, tx: Tx)

  datatype ChangeKind = QueuedChange | PartPaidChange | ReleasedChange | RequeuedChange

  datatype ExitChange = ExitChange(kind: ChangeKind, index: nat)

  /** What one window of transactions changed; `exitOrder` is the order of the exit changes. */
  datatype Delta = Delta(
    settlements: seq<Settlement>,
    queued: seq<OwedExit>,
    partPaid: seq<PartPaid>,
    released: seq<Released>,
    requeued: seq<Requeued>,
    exitOrder: seq<ExitChange>)
  {
    function AddQueued(e: OwedExit): Delta {
      this.(exitOrder := exitOrder + [ExitChange(QueuedChange, |queued|)], queued := queued + [e])
    }

    function AddPartPaid(p: PartPaid): Delta {
      this.(exitOrder := exitOrder + [ExitChange(PartPaidChange, |partPaid|)], partPaid := partPaid + [p])
    }

    function AddReleased(r: Released): Delta {
      this.(exitOrder := exitOrder + [ExitChange(ReleasedChange, |released|)], released := released + [r])
    }

    function AddRequeued(r: Requeued): Delta {
      this.(exitOrder := exitOrder + [ExitChange(RequeuedChange, |requeued|)], requeued := requeued + [r])
    }

    function AddSettlement(s: Settlement): Delta {
      this.(settlements := settlements + [s])
    }
  }

  const NO_CHANGE := Delta([], [], [], [], [], [])

  /** A window in progress: the state, what changed and the nullifiers it spent. */
  datatype Window = Window(state: State, delta: Delta, spent: set<Field>)

  datatype Inconsistent = Inconsistent

  /** The state of a freshly deployed vault; its limits are unknown until the first event of them. */
  const NEW_STATE := State([], 0, Status(false, false, 0, 0, 1, 0, 0, 0, 0, 1, 1, 0, 0), map[], map[], map[], None, None)

  // ---------------------------------------------------------------------------------------------
  // Spending and inserting

  function Spend(w: Window, nf0: Field, nf1: Field): Result<Window, Inconsistent> {
    if nf0 == nf1 || nf0 in w.spent || nf1 in w.spent then Err(Inconsistent)
    else Ok(w.(spent := w.spent + {nf0, nf1}, state := w.state.(nullifierCount := w.state.nullifierCount + 2)))
  }

  function Insert(depth: nat, w: Window, out0: Output, out1: Output): Result<Window, Inconsistent> {
    if out0.index != |w.state.leaves| || |w.state.leaves| + 2 > Pow2(depth) then Err(Inconsistent)
    else Ok(w.(state := w.state.(leaves := w.state.leaves + [out0.commitment, out1.commitment])))
  }

  // ---------------------------------------------------------------------------------------------
  // The window

  /** Whether an outflow fits what is left of today's window, unknown before the first limits. */
  predicate Fits(s: State, now: nat, outflow: int) {
    s.limits == None || s.status.OutflowOn(now / DAY) + outflow <= s.limits.value.maxDailyOutflow
  }

  function Pay(s: State, now: nat, outflow: int): State {
    var today := if now / DAY != s.status.outflowDay then 0 else s.status.outflow;
    s.(status := s.status.(tvl := s.status.tvl - outflow, outflowDay := now / DAY, outflow := today + outflow))
  }

  /** What a release tries to pay of an exit today: the payout first, then the fee. */
  function StepOf(s: State, now: nat, e: OwedExit): Option<(int, int)> {
    if s.limits == None then None
    else
      var room := Max(s.limits.value.maxDailyOutflow - s.status.OutflowOn(now / DAY), 0);
      var payout := Min(e.payout, room);
      Some((payout, Min(e.fee, room - payout)))
  }

  // ---------------------------------------------------------------------------------------------
  // Calls

  function ApplyShield(w: Window, tx: Tx, c: Call): Result<Window, Inconsistent>
    requires c.ShieldSeen?
  {
    var s := w.state;
    if s.status.Halted(tx.closedAt) || s.status.depositsPaused then Err(Inconsistent)
    else
      match Spend(w, c.nf0, c.nf1)
      case Err(error) => Err(error)
      case Ok(spent) =>
        if c.id != s.status.nextDepositId || c.commitment0 == c.commitment1 then Err(Inconsistent)
        else Ok(spent.(state := AddDeposit(spent.state, c)))
  }

  function AddDeposit(s: State, c: Call): State
    requires c.ShieldSeen?
  {
    s.(status := s.status.(nextDepositId := s.status.nextDepositId + 1, tvl := s.status.tvl + c.amount,
                           pendingTotal := s.status.pendingTotal + c.amount),
       pending := s.pending[c.id := Deposit(c.id, c.depositor, c.amount, c.commitment0, c.commitment1, c.createdAt, None, 0)])
  }

  /** The amounts of a transaction before its inputs are spent. */
  predicate BadTransact(s: State, now: nat, c: Call)
    requires c.TransactSeen?
  {
    var end := c.ending;
    var outflow := end.fee - end.extAmount;
    || s.status.Halted(now)
    || (end.extAmount == 0 && (s.status.transfersPaused || end.recipient != Plain(end.relayer)))
    || c.out0.commitment == c.out1.commitment
    || outflow > s.status.tvl - s.status.pendingTotal - s.status.queuedTotal
    || (s.limits.Some? && (end.fee > s.limits.value.maxFee || outflow > s.limits.value.maxDailyOutflow))
  }

  function NewExit(c: Ending, tx: Tx): OwedExit
    requires c.Waits?
  {
    OwedExit(c.id, -c.extAmount, c.fee, -c.extAmount, c.fee, 0, 0, c.recipient, c.relayer, tx.closedAt, tx.ledger, tx.hash, 0, 0, 0, None, [])
  }

  /** The end of a transaction whose inputs are spent and outputs inserted. */
  function EndTransact(w: Window, tx: Tx, end: Ending): Result<Window, Inconsistent> {
    var s, outflow := w.state, end.fee - end.extAmount;
    var fits := s.status.exitHead == s.status.exitTail && Fits(s, tx.closedAt, outflow);
    if end.Waits? then
      if end.id != s.status.exitTail || (fits && s.limits.Some?) then Err(Inconsistent)
      else
        var e := NewExit(end, tx);
        Ok(w.(state := s.(status := s.status.(exitTail := s.status.exitTail + 1, queuedTotal := s.status.queuedTotal + outflow),
                          exits := s.exits[end.id := e]),
              delta := w.delta.AddQueued(e)))
    else if outflow > 0 && !fits then Err(Inconsistent)
    else
      Ok(w.(state := Pay(s, tx.closedAt, outflow),
            delta := w.delta.AddSettlement(Settlement(end.extAmount, end.fee, end.recipient, end.relayer, None, tx))))
  }

  function ApplyTransact(depth: nat, w: Window, tx: Tx, c: Call): Result<Window, Inconsistent>
    requires c.TransactSeen?
  {
    if BadTransact(w.state, tx.closedAt, c) then Err(Inconsistent)
    else
      match Spend(w, c.nf0, c.nf1)
      case Err(error) => Err(error)
      case Ok(spent) =>
        match Insert(depth, spent, c.out0, c.out1)
        case Err(error) => Err(error)
        case Ok(inserted) => EndTransact(inserted, tx, c.ending)
  }

  /** Whether a release may handle this exit next. */
  predicate IsHead(s: State, now: nat, id: nat) {
    !s.status.Halted(now) && id in s.exits && id == s.status.exitHead
  }

  /** Takes the head off the queue and pays what was paid of it. */
  function TakeOff(s: State, now: nat, id: nat, paid: int): Result<State, Inconsistent> {
    var t := Pay(s.(exits := s.exits - {id},
                    status := s.status.(exitHead := s.status.exitHead + 1, queuedTotal := s.status.queuedTotal - paid)), now, paid);
    if t.status.tvl < 0 || t.status.queuedTotal < 0 then Err(Inconsistent) else Ok(t)
  }

  function ApplyExitSettled(w: Window, tx: Tx, c: Call): Result<Window, Inconsistent>
    requires c.ExitSettledSeen?
  {
    var s, now := w.state, tx.closedAt;
    if !IsHead(s, now, c.id) then Err(Inconsistent)
    else
      var e := s.exits[c.id];
      if -c.extAmount != e.payout || c.fee != e.fee || c.recipient != e.recipient || c.relayer != e.relayer then Err(Inconsistent)
      else if !Fits(s, now, e.Outflow()) then Err(Inconsistent)
      else
        match TakeOff(s, now, c.id, e.Outflow())
        case Err(error) => Err(error)
        case Ok(t) =>
          Ok(w.(state := t,
                delta := w.delta.AddReleased(Released(e, 0, 0, tx))
                                .AddSettlement(Settlement(c.extAmount, c.fee, c.recipient, c.relayer, Some(c.id), tx))))
  }

  function ApplyExitPaid(w: Window, tx: Tx, c: Call): Result<Window, Inconsistent>
    requires c.ExitPaidSeen?
  {
    var s, now := w.state, tx.closedAt;
    if !IsHead(s, now, c.id) then Err(Inconsistent)
    else
      var e, step := s.exits[c.id], StepOf(s, now, s.exits[c.id]);
      var paid := c.payoutPaid + c.feePaid;
      if c.payoutPaid + c.payoutLeft != e.payout || c.feePaid + c.feeLeft != e.fee then Err(Inconsistent)
      else if step.Some? && (c.payoutPaid != step.value.0 || c.feePaid != step.value.1) then Err(Inconsistent)
      else
        var t := Pay(s.(exits := s.exits[c.id := e.(payout := c.payoutLeft, fee := c.feeLeft)],
                        status := s.status.(queuedTotal := s.status.queuedTotal - paid)), now, paid);
        if t.status.tvl < 0 || t.status.queuedTotal < 0 then Err(Inconsistent)
        else
          Ok(w.(state := t,
                delta := w.delta.AddPartPaid(PartPaid(c.id, c.payoutLeft, c.feeLeft))
                                .AddSettlement(Settlement(-c.payoutPaid, c.feePaid, e.recipient, e.relayer, Some(c.id), tx))))
  }

  predicate Whole(paid: int, part: int) {
    paid == 0 || paid == part
  }

  /** Each transfer of the step is taken in full or refused in full, and at least one was refused. */
  predicate CouldStrand(s: State, now: nat, e: OwedExit, paidPayout: int, paidFee: int) {
    var step := StepOf(s, now, e);
    step.Some? ==>
      && Whole(paidPayout, step.value.0) && Whole(paidFee, step.value.1)
      && !(paidPayout == step.value.0 && paidFee == step.value.1)
  }

  function ApplyExitStranded(w: Window, tx: Tx, c: Call): Result<Window, Inconsistent>
    requires c.ExitStrandedSeen?
  {
    var s, now := w.state, tx.closedAt;
    if !IsHead(s, now, c.id) then Err(Inconsistent)
    else
      var e := s.exits[c.id];
      var paidPayout, paidFee := e.payout - c.payout, e.fee - c.fee;
      var paid := paidPayout + paidFee;
      if c.payout > e.payout || c.fee > e.fee || !Fits(s, now, paid) || !CouldStrand(s, now, e, paidPayout, paidFee) then Err(Inconsistent)
      else
        match TakeOff(s, now, c.id, paid)
        case Err(error) => Err(error)
        case Ok(t) =>
          var left := e.(payout := c.payout, fee := c.fee, strandedLedger := tx.ledger, strandedAt := tx.closedAt, strandedTx := tx.hash);
          var delta := w.delta.AddReleased(Released(e, c.payout, c.fee, tx));
          Ok(w.(state := t.(stranded := t.stranded[c.id := left]),
                delta := if paid > 0 then delta.AddSettlement(Settlement(-paidPayout, paidFee, e.recipient, e.relayer, Some(c.id), tx))
                         else delta))
  }

  /** The exit a claim moves parts of a stranded one to, and what it leaves stranded. */
  function MovedExit(e: OwedExit, tx: Tx, c: Call): OwedExit
    requires c.ExitRequeuedSeen?
  {
    OwedExit(c.newId, c.payout, c.fee, c.payout, c.fee, 0, 0, e.recipient, e.relayer, tx.closedAt, tx.ledger, tx.hash, 0, 0, 0, Some(c.id), [])
  }

  function LeftStranded(e: OwedExit, c: Call): OwedExit
    requires c.ExitRequeuedSeen?
  {
    e.(payout := e.payout - c.payout, fee := e.fee - c.fee, movedPayout := e.movedPayout + c.payout, movedFee := e.movedFee + c.fee,
       requeuedTo := e.requeuedTo + [c.newId])
  }

  function ApplyExitRequeued(w: Window, tx: Tx, c: Call): Result<Window, Inconsistent>
    requires c.ExitRequeuedSeen?
  {
    var s := w.state;
    if s.status.Halted(tx.closedAt) || c.id !in s.stranded then Err(Inconsistent)
    else
      var e := s.stranded[c.id];
      if !Whole(c.payout, e.payout) || !Whole(c.fee, e.fee) || c.newId != s.status.exitTail then Err(Inconsistent)
      else
        var moved, left := MovedExit(e, tx, c), LeftStranded(e, c);
        Ok(w.(state := s.(exits := s.exits[c.newId := moved],
                          status := s.status.(exitTail := s.status.exitTail + 1),
                          stranded := if left.payout == 0 && left.fee == 0 then s.stranded - {c.id} else s.stranded[c.id := left]),
              delta := w.delta.AddQueued(moved).AddRequeued(Requeued(c.id, c.newId, left.payout, left.fee, tx))))
  }

  function ApplyAdmission(depth: nat, w: Window, tx: Tx, c: Call): Result<Window, Inconsistent>
    requires c.AdmissionSeen?
  {
    var s := w.state;
    if c.id !in s.pending then Err(Inconsistent)
    else
      var deposit := s.pending[c.id];
      if deposit.flag.Some? || c.id > s.status.attestedUpTo || s.status.Halted(tx.closedAt)
         || c.out0.commitment != deposit.commitment0 || c.out1.commitment != deposit.commitment1 then Err(Inconsistent)
      else
        match Insert(depth, w, c.out0, c.out1)
        case Err(error) => Err(error)
        case Ok(inserted) =>
          Ok(inserted.(state := inserted.state.(
            pending := s.pending - {c.id},
            status := s.status.(pendingTotal := s.status.pendingTotal - deposit.amount))))
  }

  /** An addition of the replay's unsigned 64-bit times. */
  function Wrap64(x: nat): nat {
    x % (U64_MAX + 1)
  }

  function ApplyRefunded(w: Window, tx: Tx, c: Call): Result<Window, Inconsistent>
    requires c.RefundedSeen?
  {
    var s := w.state;
    if c.id !in s.pending then Err(Inconsistent)
    else
      var deposit := s.pending[c.id];
      if c.reason != 0 && (deposit.flag != Some(c.reason) || tx.closedAt < Wrap64(deposit.flaggedAt + REFUND_DELAY)) then Err(Inconsistent)
      else
        var status := s.status.(tvl := s.status.tvl - deposit.amount, pendingTotal := s.status.pendingTotal - deposit.amount);
        if status.tvl < 0 || status.pendingTotal < 0 then Err(Inconsistent)
        else Ok(w.(state := s.(status := status, pending := s.pending - {c.id})))
  }

  function ApplyScreening(s: State, now: nat, c: Call): Result<State, Inconsistent>
    requires c.FlaggedSeen? || c.UnflaggedSeen? || c.AttestedSeen?
  {
    match c
    case FlaggedSeen(id, reason) =>
      if id !in s.pending then Err(Inconsistent)
      else
        var d := s.pending[id];
        Ok(s.(pending := s.pending[id := d.(flag := Some(reason), flaggedAt := if d.flag == None then now else d.flaggedAt)]))
    case UnflaggedSeen(id, reason) =>
      if id !in s.pending || s.pending[id].flag != Some(reason) then Err(Inconsistent)
      else Ok(s.(pending := s.pending[id := s.pending[id].(flag := None, flaggedAt := 0)]))
    case AttestedSeen(upTo) =>
      if s.status.Halted(now) || upTo <= s.status.attestedUpTo || upTo >= s.status.nextDepositId then Err(Inconsistent)
      else Ok(s.(status := s.status.(attestedUpTo := upTo)))
  }

  function ApplyGovernance(s: State, now: nat, c: Call): State
    requires c.PausedSeen? || c.HaltedSeen? || c.ResumedSeen? || c.LimitsQueuedSeen? || c.LimitsAppliedSeen? || c.LimitsCancelledSeen?
  {
    match c
    case PausedSeen(deposits, transfers) => s.(status := s.status.(depositsPaused := deposits, transfersPaused := transfers))
    case HaltedSeen(until) => s.(status := s.status.(haltedUntil := until, nextHaltAt := until + HALT_COOLDOWN))
    case ResumedSeen(nextHaltAt) => s.(status := s.status.(haltedUntil := now, nextHaltAt := nextHaltAt))
    case LimitsQueuedSeen(limits, readyAt) => s.(queued := Some(QueuedLimits(limits, readyAt)))
    case LimitsAppliedSeen(limits, readyAt) =>
      s.(limits := Some(limits), queued := if s.queued.Some? && s.queued.value.readyAt == readyAt then None else s.queued)
    case LimitsCancelledSeen(_, _) => s.(queued := None)
  }

  function Apply(depth: nat, w: Window, tx: Tx, c: Call): Result<Window, Inconsistent> {
    match c
    case ShieldSeen(_, _, _, _, _, _, _, _) => ApplyShield(w, tx, c)
    case TransactSeen(_, _, _, _, _) => ApplyTransact(depth, w, tx, c)
    case ExitSettledSeen(_, _, _, _, _) => ApplyExitSettled(w, tx, c)
    case ExitPaidSeen(_, _, _, _, _) => ApplyExitPaid(w, tx, c)
    case ExitStrandedSeen(_, _, _) => ApplyExitStranded(w, tx, c)
    case ExitRequeuedSeen(_, _, _, _) => ApplyExitRequeued(w, tx, c)
    case AdmissionSeen(_, _, _) => ApplyAdmission(depth, w, tx, c)
    case RefundedSeen(_, _) => ApplyRefunded(w, tx, c)
    case FlaggedSeen(_, _) => ApplyToState(w, ApplyScreening(w.state, tx.closedAt, c))
    case UnflaggedSeen(_, _) => ApplyToState(w, ApplyScreening(w.state, tx.closedAt, c))
    case AttestedSeen(_) => ApplyToState(w, ApplyScreening(w.state, tx.closedAt, c))
    case PausedSeen(_, _) => ApplyToState(w, Ok(ApplyGovernance(w.state, tx.closedAt, c)))
    case HaltedSeen(_) => ApplyToState(w, Ok(ApplyGovernance(w.state, tx.closedAt, c)))
    case ResumedSeen(_) => ApplyToState(w, Ok(ApplyGovernance(w.state, tx.closedAt, c)))
    case LimitsQueuedSeen(_, _) => ApplyToState(w, Ok(ApplyGovernance(w.state, tx.closedAt, c)))
    case LimitsAppliedSeen(_, _) => ApplyToState(w, Ok(ApplyGovernance(w.state, tx.closedAt, c)))
    case LimitsCancelledSeen(_, _) => ApplyToState(w, Ok(ApplyGovernance(w.state, tx.closedAt, c)))
  }

  function ApplyToState(w: Window, r: Result<State, Inconsistent>): Result<Window, Inconsistent> {
    match r
    case Err(error) => Err(error)
    case Ok(s) => Ok(w.(state := s))
  }

  /** The calls of one transaction, in order. */
  function ApplyAll(depth: nat, w: Window, tx: Tx, calls: seq<Call>): Result<Window, Inconsistent>
    decreases |calls|
  {
    if calls == [] then Ok(w)
    else
      match Apply(depth, w, tx, calls[0])
      case Err(error) => Err(error)
      case Ok(next) => ApplyAll(depth, next, tx, calls[1..])
  }

  /** A window's transactions, each with the calls its events describe. */
  function ApplyWindow(depth: nat, w: Window, txs: seq<(Tx, seq<Call>)>): Result<Window, Inconsistent>
    decreases |txs|
  {
    if txs == [] then Ok(w)
    else
      match ApplyAll(depth, w, txs[0].0, txs[0].1)
      case Err(error) => Err(error)
      case Ok(next) => ApplyWindow(depth, next, txs[1..])
  }
}
