/** The vault as a state machine: for each entry point, when it fails and with which code, and the
    state, events and transfers of a call that does not. A failing call changes nothing. */
module VaultSpec {
  import opened Common
  import opened Merkle
  import opened VaultTypes
  import VaultTree

  datatype VaultState = VaultState(
    host: Host,
    config: Config,
    limits: Limits,
    queuedLimits: Option<QueuedLimits>,
    status: Status,
    leaves: seq<Field>,
    nullifiers: set<Field>,
    pending: map<nat, PendingDeposit>,
    exits: map<nat, Exit>,
    stranded: map<nat, Exit>,
    dayTotals: map<(Address, nat), int>,
    balance: int)

  datatype Outcome<+T> = Outcome(result: Result<T, Error>, state: VaultState, events: seq<Event>, transfers: seq<Transfer>)

  ghost function Fail<T>(s: VaultState, error: Error): Outcome<T> {
    Outcome(Err(error), s, [], [])
  }

  // ---------------------------------------------------------------------------------------------
  // Reads of the asset contract and the ledger

  predicate MissingAccount(env: Env, step: nat, address: Address) {
    address.Account? && !env.asset.hasAccount(step, address)
  }

  /** Whether a party can receive an amount now; only a large enough native payment creates an
      account. */
  predicate CanReceive(host: Host, env: Env, to: Address, amount: int) {
    && !(MissingAccount(env, 0, to) && !(amount >= NATIVE_ACCOUNT_MIN && host.native))
    && env.asset.authorized(to)
  }

  /** The balance after the vault pays an address. */
  function Debit(host: Host, balance: int, to: Address, amount: int): int {
    if to == host.vault then balance else balance - amount
  }

  /** Whether the asset contract takes the given transfer out of the vault. */
  predicate Takes(env: Env, transfer: nat, balance: int, amount: int) {
    env.asset.accepts(transfer) && amount <= balance
  }

  // ---------------------------------------------------------------------------------------------
  // The checks of a proof and of the data bound to it

  function BindingError(host: Host, ext: ExtData): Option<Error> {
    if ext.vault != host.vault then Some(WrongVault)
    else if ext.networkId != host.networkId then Some(WrongNetwork)
    else if ext.recipient.address == host.vault || ext.relayer == host.vault then Some(BadParties)
    else if |ext.encryptedOutput0| != CIPHERTEXT_LEN || |ext.encryptedOutput1| != CIPHERTEXT_LEN then Some(BadCiphertext)
    else None
  }

  function ShapeError(host: Host, env: Env, proof: TxProof, ext: ExtData): Option<Error> {
    if |proof.inputNullifiers| != 2 || |proof.outputCommitments| != 2 then Some(BadArity)
    else if exists x <- [proof.root, proof.publicAmount, proof.extDataHash] + proof.inputNullifiers + proof.outputCommitments
              :: x >= host.modulus then Some(NonCanonical)
    else if proof.inputNullifiers[0] == proof.inputNullifiers[1] then Some(DuplicateNullifier)
    else if proof.outputCommitments[0] == proof.outputCommitments[1] then Some(DuplicateCommitment)
    else if ext.deadline < env.sequence then Some(Expired)
    else None
  }

  /** `extAmount - fee` as a field element. */
  function PublicAmount(host: Host, ext: ExtData): int {
    var net := ext.extAmount - ext.fee;
    if net < 0 then host.modulus + net else net
  }

  function SpendError(host: Host, nullifiers: set<Field>, proof: TxProof, ext: ExtData): Option<Error>
    requires |proof.inputNullifiers| == 2
  {
    if proof.inputNullifiers[0] in nullifiers || proof.inputNullifiers[1] in nullifiers then Some(NullifierSpent)
    else if host.extDataHash(ext) != proof.extDataHash then Some(ExtDataHashMismatch)
    else if !InI128(ext.extAmount - ext.fee) then Some(Overflow)
    else if PublicAmount(host, ext) != proof.publicAmount then Some(PublicAmountMismatch)
    else if !host.verifies(proof) then Some(InvalidProof)
    else None
  }

  // ---------------------------------------------------------------------------------------------
  // The entry queue

  /** The wait before admission. */
  function Delay(config: Config, limits: Limits, amount: int): nat {
    if amount >= limits.largeDepositThreshold then config.delayLarge else config.delaySmall
  }

  function DayTotal(dayTotals: map<(Address, nat), int>, depositor: Address, day: nat): int {
    if (depositor, day) in dayTotals then dayTotals[(depositor, day)] else 0
  }

  ghost function ShieldError(s: VaultState, env: Env, proof: TxProof, ext: ExtData, depositor: Address): Option<Error> {
    var amount := ext.extAmount;
    var dayTotal := DayTotal(s.dayTotals, depositor, env.Day()) + amount;
    if depositor !in env.signers then Some(Unauthorized)
    else if s.status.Halted(env.now) then Some(Halted)
    else if s.status.depositsPaused then Some(DepositsPaused)
    else if proof.root != Zero(s.host.compress, s.host.depth) then Some(NonEmptyRoot)
    else if amount <= 0 then Some(BadAmount)
    else if ext.fee != 0 then Some(BadFee)
    else if ext.recipient != Plain(depositor) || ext.relayer != depositor then Some(BadParties)
    else if BindingError(s.host, ext).Some? then BindingError(s.host, ext)
    else if amount < s.limits.minDeposit then Some(DepositTooSmall)
    else if amount > s.limits.maxDeposit then Some(DepositTooLarge)
    else if !InI128(dayTotal) then Some(Overflow)
    else if dayTotal > s.limits.maxDailyPerDepositor then Some(DepositorDailyLimit)
    else if !InI128(s.status.tvl + amount) then Some(Overflow)
    else if s.status.tvl + amount > s.limits.tvlCap then Some(TvlCapExceeded)
    else if ShapeError(s.host, env, proof, ext).Some? then ShapeError(s.host, env, proof, ext)
    else if !VaultTree.HasRoom(s.host.depth, |s.leaves|) then Some(TreeFull)
    else SpendError(s.host, s.nullifiers, proof, ext)
  }

  /** Why a checked deposit cannot be taken in. */
  function EnterError(status: Status, env: Env, amount: int): Option<Error> {
    if status.nextDepositId + 1 > U64_MAX || !InI128(status.pendingTotal + amount) then Some(Overflow)
    else if !env.asset.accepts(0) then Some(TransferRefused)
    else None
  }

  ghost function NewDeposit(s: VaultState, env: Env, proof: TxProof, ext: ExtData, depositor: Address): PendingDeposit
    requires |proof.outputCommitments| == 2
  {
    PendingDeposit(depositor, ext.extAmount, proof.outputCommitments[0], proof.outputCommitments[1],
                   ext.encryptedOutput0, ext.encryptedOutput1, env.now, Delay(s.config, s.limits, ext.extAmount), None, 0)
  }

  /** Takes in a checked deposit and returns its ID. */
  ghost function Enter(s: VaultState, env: Env, proof: TxProof, ext: ExtData, depositor: Address): Outcome<nat>
    requires |proof.inputNullifiers| == 2 && |proof.outputCommitments| == 2
  {
    if EnterError(s.status, env, ext.extAmount).Some? then Fail(s, EnterError(s.status, env, ext.extAmount).value)
    else
      var id, amount, day := s.status.nextDepositId, ext.extAmount, env.Day();
      var deposit := NewDeposit(s, env, proof, ext, depositor);
      Outcome(
        Ok(id),
        s.(status := s.status.(nextDepositId := id + 1, tvl := s.status.tvl + amount,
                               pendingTotal := s.status.pendingTotal + amount),
           nullifiers := s.nullifiers + {proof.inputNullifiers[0], proof.inputNullifiers[1]},
           pending := s.pending[id := deposit],
           dayTotals := s.dayTotals[(depositor, day) := DayTotal(s.dayTotals, depositor, day) + amount],
           balance := s.balance + amount),
        [NewNullifier(proof.inputNullifiers[0]), NewNullifier(proof.inputNullifiers[1]),
         DepositPending(id, depositor, amount, deposit.commitment0, deposit.commitment1, env.now)],
        [Received(depositor, amount)])
  }

  /** Queues a deposit and returns its ID. */
  ghost function Shield(s: VaultState, env: Env, proof: TxProof, ext: ExtData, depositor: Address): Outcome<nat> {
    if ShieldError(s, env, proof, ext, depositor).Some? then Fail(s, ShieldError(s, env, proof, ext, depositor).value)
    else Enter(s, env, proof, ext, depositor)
  }

  ghost function AttestError(s: VaultState, env: Env, upTo: nat): Option<Error> {
    if s.config.asp !in env.signers then Some(Unauthorized)
    else if s.status.Halted(env.now) then Some(Halted)
    else if upTo <= s.status.attestedUpTo || upTo >= s.status.nextDepositId then Some(BadAttestation)
    else None
  }

  /** The ASP asserts that every unflagged deposit up to an ID passed screening. */
  ghost function Attest(s: VaultState, env: Env, upTo: nat): Outcome<()> {
    match AttestError(s, env, upTo)
    case Some(error) => Fail(s, error)
    case None => Outcome(Ok(()), s.(status := s.status.(attestedUpTo := upTo)), [Attested(upTo)], [])
  }

  ghost function FlagError(s: VaultState, env: Env, id: nat, reason: nat): Option<Error> {
    if s.config.asp !in env.signers then Some(Unauthorized)
    else if reason == 0 then Some(BadReason)
    else if id !in s.pending then Some(UnknownDeposit)
    else None
  }

  function Flagged(deposit: PendingDeposit, reason: nat, now: nat): PendingDeposit {
    deposit.(flag := Some(reason), flaggedAt := if deposit.flag == None then now else deposit.flaggedAt)
  }

  /** The ASP refuses a pending deposit with a reason; the first flag's time stays. */
  ghost function Flag(s: VaultState, env: Env, id: nat, reason: nat): Outcome<()> {
    match FlagError(s, env, id, reason)
    case Some(error) => Fail(s, error)
    case None =>
      Outcome(Ok(()), s.(pending := s.pending[id := Flagged(s.pending[id], reason, env.now)]), [DepositFlagged(id, reason)], [])
  }

  ghost function UnflagError(s: VaultState, env: Env, id: nat): Option<Error> {
    if s.config.asp !in env.signers then Some(Unauthorized)
    else if id !in s.pending then Some(UnknownDeposit)
    else if s.pending[id].flag == None then Some(NotFlagged)
    else None
  }

  ghost function Unflag(s: VaultState, env: Env, id: nat): Outcome<()> {
    match UnflagError(s, env, id)
    case Some(error) => Fail(s, error)
    case None =>
      var deposit := s.pending[id];
      Outcome(Ok(()), s.(pending := s.pending[id := deposit.(flag := None, flaggedAt := 0)]),
              [DepositUnflagged(id, deposit.flag.value)], [])
  }

  /** Pending, not flagged, attested and past the longer of its delays at shield time and now. */
  predicate Eligible(config: Config, limits: Limits, deposit: PendingDeposit, id: nat, attestedUpTo: nat, now: nat) {
    && deposit.flag == None
    && id <= attestedUpTo
    && now >= SaturatingAdd(deposit.createdAt, Max(deposit.delay, Delay(config, limits, deposit.amount)))
  }

  /** Where an admit stands in its list of IDs. */
  datatype Admitting = Admitting(
    status: Status,
    leaves: seq<Field>,
    pending: map<nat, PendingDeposit>,
    previous: Option<nat>,
    admitted: seq<nat>,
    events: seq<Event>)

  ghost function InsertionEvents(index: nat, c0: Field, c1: Field, e0: Bytes, e1: Bytes): seq<Event> {
    [NewCommitment(index, c0, e0), NewCommitment(index + 1, c1, e1)]
  }

  ghost function AdmitOne(s: VaultState, env: Env, id: nat, a: Admitting): Result<Admitting, Error> {
    if a.previous.Some? && id <= a.previous.value then Err(BadIds)
    else if id !in a.pending
            || !Eligible(s.config, s.limits, a.pending[id], id, a.status.attestedUpTo, env.now) then
      Ok(a.(previous := Some(id)))
    else
      var deposit, index := a.pending[id], |a.leaves|;
      if !VaultTree.HasRoom(s.host.depth, index) then Err(TreeFull)
      else if !InI128(a.status.pendingTotal - deposit.amount) then Err(Overflow)
      else Ok(Admitting(
        a.status.(pendingTotal := a.status.pendingTotal - deposit.amount),
        a.leaves + [deposit.commitment0, deposit.commitment1],
        a.pending - {id},
        Some(id),
        a.admitted + [id],
        a.events
          + InsertionEvents(index, deposit.commitment0, deposit.commitment1, deposit.encryptedOutput0, deposit.encryptedOutput1)
          + [DepositAdmitted(id, index, index + 1)]))
  }

  ghost function AdmitLoop(s: VaultState, env: Env, ids: seq<nat>, a: Admitting): Result<Admitting, Error>
    decreases |ids|
  {
    if ids == [] then Ok(a)
    else
      match AdmitOne(s, env, ids[0], a)
      case Err(error) => Err(error)
      case Ok(next) => AdmitLoop(s, env, ids[1..], next)
  }

  ghost function AdmitStart(s: VaultState): Admitting {
    Admitting(s.status, s.leaves, s.pending, None, [], [])
  }

  /** Inserts the commitments of every listed deposit that is eligible and skips the others. */
  ghost function Admit(s: VaultState, env: Env, ids: seq<nat>): Outcome<seq<nat>> {
    if s.status.Halted(env.now) then Fail(s, Halted)
    else
      match AdmitLoop(s, env, ids, AdmitStart(s))
      case Err(error) => Fail(s, error)
      case Ok(a) => Outcome(Ok(a.admitted), s.(status := a.status, leaves := a.leaves, pending := a.pending), a.events, [])
  }

  ghost function ReturnError(s: VaultState, env: Env, id: nat): Option<Error>
    requires id in s.pending
  {
    var amount := s.pending[id].amount;
    if !InI128(s.status.tvl - amount) || !InI128(s.status.pendingTotal - amount) then Some(Overflow)
    else if !Takes(env, 0, s.balance, amount) then Some(TransferRefused)
    else None
  }

  /** Gives a pending deposit back to the depositor recorded at shield, never to anyone else. */
  ghost function ReturnDeposit(s: VaultState, env: Env, id: nat, reason: nat): Outcome<()>
    requires id in s.pending
  {
    match ReturnError(s, env, id)
    case Some(error) => Fail(s, error)
    case None =>
      var deposit := s.pending[id];
      Outcome(
        Ok(()),
        s.(status := s.status.(tvl := s.status.tvl - deposit.amount, pendingTotal := s.status.pendingTotal - deposit.amount),
           pending := s.pending - {id},
           balance := Debit(s.host, s.balance, deposit.depositor, deposit.amount)),
        [DepositRefunded(id, reason)],
        [Returned(deposit.depositor, deposit.amount)])
  }

  ghost function Cancel(s: VaultState, env: Env, id: nat): Outcome<()> {
    if id !in s.pending then Fail(s, UnknownDeposit)
    else if s.pending[id].depositor !in env.signers then Fail(s, Unauthorized)
    else ReturnDeposit(s, env, id, 0)
  }

  ghost function Refund(s: VaultState, env: Env, id: nat): Outcome<()> {
    if id !in s.pending then Fail(s, UnknownDeposit)
    else if s.pending[id].flag == None then Fail(s, NotFlagged)
    else if env.now < SaturatingAdd(s.pending[id].flaggedAt, REFUND_DELAY) then Fail(s, RefundTooEarly)
    else ReturnDeposit(s, env, id, s.pending[id].flag.value)
  }

  // ---------------------------------------------------------------------------------------------
  // The exit queue

  /** The value of unspent notes: all the vault holds less what depositors and exits are owed. */
  function Notes(status: Status): int {
    status.tvl - status.pendingTotal - status.queuedTotal
  }

  /** Whether a transaction's payment waits in the exit queue instead of being paid at once. */
  predicate MustQueue(status: Status, limits: Limits, day: nat, outflow: int) {
    && outflow > 0
    && !(status.exitHead == status.exitTail && status.OutflowOn(day) + outflow <= limits.maxDailyOutflow)
  }

  ghost function TransactError(s: VaultState, env: Env, proof: TxProof, ext: ExtData, submitter: Address): Option<Error> {
    var payout := -ext.extAmount;
    var outflow := payout + ext.fee;
    if submitter !in env.signers then Some(Unauthorized)
    else if s.status.Halted(env.now) then Some(Halted)
    else if ext.extAmount > 0 then Some(BadAmount)
    else if ext.extAmount == 0 && s.status.transfersPaused then Some(TransfersPaused)
    else if ext.fee < 0 || ext.fee > s.limits.maxFee then Some(BadFee)
    else if ext.extAmount == 0 && ext.recipient != Plain(ext.relayer) then Some(BadParties)
    else if BindingError(s.host, ext).Some? then BindingError(s.host, ext)
    else if !InI128(payout) || !InI128(outflow) then Some(Overflow)
    else if outflow > s.limits.maxDailyOutflow then Some(ExceedsDailyOutflow)
    else if !InI128(s.status.tvl - s.status.pendingTotal) || !InI128(Notes(s.status)) then Some(Overflow)
    else if outflow > Notes(s.status) then Some(ExceedsAdmittedValue)
    else if (payout > 0 && !CanReceive(s.host, env, ext.recipient.address, payout))
            || (ext.fee > 0 && !CanReceive(s.host, env, ext.relayer, 0)) then Some(CannotReceive)
    else if ShapeError(s.host, env, proof, ext).Some? then ShapeError(s.host, env, proof, ext)
    else if !VaultTree.RecentRoot(s.host.compress, s.host.depth, s.leaves, proof.root) then Some(UnknownRoot)
    else if !VaultTree.HasRoom(s.host.depth, |s.leaves|) then Some(TreeFull)
    else SpendError(s.host, s.nullifiers, proof, ext)
  }

  /** What spending the inputs and inserting the outputs of a transaction changes. */
  ghost function Spent(s: VaultState, proof: TxProof): VaultState
    requires |proof.inputNullifiers| == 2 && |proof.outputCommitments| == 2
  {
    s.(nullifiers := s.nullifiers + {proof.inputNullifiers[0], proof.inputNullifiers[1]},
       leaves := s.leaves + [proof.outputCommitments[0], proof.outputCommitments[1]])
  }

  ghost function SpentEvents(s: VaultState, proof: TxProof, ext: ExtData): seq<Event>
    requires |proof.inputNullifiers| == 2 && |proof.outputCommitments| == 2
  {
    [NewNullifier(proof.inputNullifiers[0]), NewNullifier(proof.inputNullifiers[1])]
    + InsertionEvents(|s.leaves|, proof.outputCommitments[0], proof.outputCommitments[1], ext.encryptedOutput0, ext.encryptedOutput1)
  }

  ghost function Payment(to: Address, amount: int, exitId: Option<nat>): seq<Transfer> {
    if amount > 0 then [Paid(to, amount, exitId)] else []
  }

  /** Why a checked transaction can be neither paid nor queued. */
  ghost function SettleError(s: VaultState, env: Env, ext: ExtData): Option<Error> {
    var payout := -ext.extAmount;
    var outflow := payout + ext.fee;
    if !InI128(s.status.OutflowOn(env.Day()) + outflow) then Some(Overflow)
    else if MustQueue(s.status, s.limits, env.Day(), outflow) then
      if s.status.exitTail + 1 > U64_MAX || !InI128(s.status.queuedTotal + outflow) then Some(Overflow) else None
    else if !InI128(s.status.tvl - outflow) then Some(Overflow)
    else if payout > 0 && !Takes(env, 0, s.balance, payout) then Some(TransferRefused)
    else if ext.fee > 0
            && !Takes(env, 1, AfterPayout(s.host, s.balance, ext), ext.fee) then Some(TransferRefused)
    else None
  }

  /** The balance once the payout of a transaction paid at once is out. */
  function AfterPayout(host: Host, balance: int, ext: ExtData): int {
    if ext.extAmount < 0 then Debit(host, balance, ext.recipient.address, -ext.extAmount) else balance
  }

  /** Pays a transaction at once or queues what it pays, its inputs already spent. */
  ghost function Settle(s: VaultState, env: Env, ext: ExtData): Outcome<()> {
    match SettleError(s, env, ext)
    case Some(error) => Fail(s, error)
    case None =>
      var payout, id, day := -ext.extAmount, s.status.exitTail, env.Day();
      var outflow := payout + ext.fee;
      if MustQueue(s.status, s.limits, day, outflow) then
        Outcome(
          Ok(()),
          s.(status := s.status.(exitTail := id + 1, queuedTotal := s.status.queuedTotal + outflow),
             exits := s.exits[id := Exit(ext.recipient, payout, ext.relayer, ext.fee, env.now)]),
          [ExitQueued(id, ext.extAmount, ext.fee, ext.recipient, ext.relayer)],
          [])
      else
        var afterPayout := AfterPayout(s.host, s.balance, ext);
        Outcome(
          Ok(()),
          s.(status := s.status.(tvl := s.status.tvl - outflow, outflowDay := day, outflow := s.status.OutflowOn(day) + outflow),
             balance := if ext.fee > 0 then Debit(s.host, afterPayout, ext.relayer, ext.fee) else afterPayout),
          [Settled(ext.extAmount, ext.fee, ext.recipient, ext.relayer, None)],
          Payment(ext.recipient.address, payout, None) + Payment(ext.relayer, ext.fee, None))
  }

  /** Settles a transfer or an unshield. */
  ghost function Transact(s: VaultState, env: Env, proof: TxProof, ext: ExtData, submitter: Address): Outcome<()> {
    if TransactError(s, env, proof, ext, submitter).Some? then Fail(s, TransactError(s, env, proof, ext, submitter).value)
    else
      var o := Settle(Spent(s, proof), env, ext);
      if o.result.Err? then Fail(s, o.result.error)
      else o.(events := SpentEvents(s, proof, ext) + o.events)
  }

  /** Where a release stands. The vault's funds are read before the first payment only. */
  datatype Releasing = Releasing(
    status: Status,
    exits: map<nat, Exit>,
    stranded: map<nat, Exit>,
    balance: int,
    today: int,
    funds: Option<int>,
    count: nat,
    events: seq<Event>,
    transfers: seq<Transfer>)

  datatype ReleaseStep = Stop | Failed(error: Error) | Next(r: Releasing)

  /** What a transfer pays: all of it, or nothing when the asset contract refuses it. */
  function TryPay(env: Env, transfer: nat, balance: int, amount: int): (paid: int)
    ensures paid == 0 || paid == amount
  {
    if amount > 0 && Takes(env, transfer, balance, amount) then amount else 0
  }

  /** A payout to a missing account is never paid in a part too small to create the account. */
  predicate WaitsForAccount(host: Host, env: Env, step: nat, exit: Exit, payout: int) {
    && payout < NATIVE_ACCOUNT_MIN <= exit.payout
    && MissingAccount(env, step, exit.recipient.address)
    && host.native
  }

  /** The exit at the head after its step: stranded when a transfer was refused, gone when nothing
      is left, and otherwise still at the head with the rest. */
  ghost function Handled(r: Releasing, id: nat, exit: Exit, payout: int, fee: int, payoutPaid: int, feePaid: int): Releasing {
    var left := exit.(payout := exit.payout - payoutPaid, fee := exit.fee - feePaid);
    if payoutPaid < payout || feePaid < fee then
      r.(status := r.status.(exitHead := id + 1), exits := r.exits - {id}, stranded := r.stranded[id := left],
         events := r.events + [ExitStranded(id, left.payout, left.fee)])
    else if left.payout == 0 && left.fee == 0 then
      r.(status := r.status.(exitHead := id + 1), exits := r.exits - {id},
         events := r.events + [Settled(-payoutPaid, feePaid, exit.recipient, exit.relayer, Some(id))])
    else
      r.(exits := r.exits[id := left],
         events := r.events + [ExitPaid(id, payoutPaid, feePaid, left.payout, left.fee)])
  }

  /** What a step will try to pay of the exit at the head, and from which funds. */
  datatype Plan = NoStep | NoFunds(error: Error) | Try(exit: Exit, payout: int, fee: int, available: int)

  function ReleasePlan(s: VaultState, env: Env, r: Releasing): Plan {
    var id, room := r.status.exitHead, s.limits.maxDailyOutflow - r.today;
    if !InI128(room) then NoFunds(Overflow)
    else if room == 0 then NoStep
    else if id !in r.exits then NoFunds(Trapped)
    else
      var exit := r.exits[id];
      var payout := Min(exit.payout, room);
      var fee := Min(exit.fee, room - payout);
      if WaitsForAccount(s.host, env, r.count, exit, payout) then NoStep
      else if r.funds == None && !env.asset.authorized(s.host.vault) then NoFunds(VaultCannotPay)
      else
        var available := if r.funds.Some? then r.funds.value else r.balance;
        if payout + fee > available then (if r.count == 0 then NoFunds(VaultCannotPay) else NoStep)
        else Try(exit, payout, fee, available)
  }

  /** The payments of a step: the totals less what was paid, and the transfers that were taken. */
  ghost function PaidFor(host: Host, r: Releasing, exit: Exit, available: int, payoutPaid: int, feePaid: int): Releasing {
    var paid, id := payoutPaid + feePaid, r.status.exitHead;
    r.(status := r.status.(tvl := r.status.tvl - paid, queuedTotal := r.status.queuedTotal - paid),
       balance := Debit(host, Debit(host, r.balance, exit.recipient.address, payoutPaid), exit.relayer, feePaid),
       today := r.today + paid,
       funds := Some(available - paid),
       count := r.count + 1,
       transfers := r.transfers + Payment(exit.recipient.address, payoutPaid, Some(id)) + Payment(exit.relayer, feePaid, Some(id)))
  }

  ghost function ReleaseOne(s: VaultState, env: Env, r: Releasing): ReleaseStep {
    match ReleasePlan(s, env, r)
    case NoStep => Stop
    case NoFunds(error) => Failed(error)
    case Try(exit, payout, fee, available) =>
      var payoutPaid := TryPay(env, 2 * r.count, r.balance, payout);
      var feePaid := TryPay(env, 2 * r.count + 1, Debit(s.host, r.balance, exit.recipient.address, payoutPaid), fee);
      var paid := payoutPaid + feePaid;
      if !InI128(r.today + paid) || !InI128(r.status.tvl - paid) || !InI128(r.status.queuedTotal - paid) then Failed(Overflow)
      else Next(Handled(PaidFor(s.host, r, exit, available, payoutPaid, feePaid),
                        r.status.exitHead, exit, payout, fee, payoutPaid, feePaid))
  }

  ghost function ReleaseLoop(s: VaultState, env: Env, max: nat, r: Releasing): (result: Result<Releasing, Error>)
    decreases max - r.count
  {
    if r.count >= max || r.status.exitHead >= r.status.exitTail then Ok(r)
    else
      match ReleaseOne(s, env, r)
      case Stop => Ok(r)
      case Failed(error) => Err(error)
      case Next(next) => ReleaseLoop(s, env, max, next)
  }

  ghost function ReleaseStart(s: VaultState, env: Env): Releasing {
    Releasing(s.status, s.exits, s.stranded, s.balance, s.status.OutflowOn(env.Day()), None, 0, [], [])
  }

  /** The vault's state once a release has run this far. */
  ghost function ReleaseState(s: VaultState, env: Env, r: Releasing): VaultState {
    if r.count == 0 then s
    else s.(status := r.status.(outflowDay := env.Day(), outflow := r.today), exits := r.exits, stranded := r.stranded,
            balance := r.balance)
  }

  /** Pays queued exits from the head of the queue and returns how many were handled. */
  ghost function Release(s: VaultState, env: Env, max: nat): Outcome<nat> {
    if s.status.Halted(env.now) then Fail(s, Halted)
    else
      match ReleaseLoop(s, env, max, ReleaseStart(s, env))
      case Err(error) => Fail(s, error)
      case Ok(r) => Outcome(Ok(r.count), ReleaseState(s, env, r), r.events, r.transfers)
  }

  /** The parts of a stranded exit whose party can receive now. */
  function ClaimablePayout(host: Host, env: Env, exit: Exit): int {
    if exit.payout > 0 && CanReceive(host, env, exit.recipient.address, exit.payout) then exit.payout else 0
  }

  function ClaimableFee(host: Host, env: Env, exit: Exit): int {
    if exit.fee > 0 && CanReceive(host, env, exit.relayer, 0) then exit.fee else 0
  }

  ghost function ClaimError(s: VaultState, env: Env, id: nat): Option<Error> {
    if s.status.Halted(env.now) then Some(Halted)
    else if id !in s.stranded then Some(NotStranded)
    else if ClaimablePayout(s.host, env, s.stranded[id]) == 0 && ClaimableFee(s.host, env, s.stranded[id]) == 0 then
      Some(NothingClaimable)
    else if s.status.exitTail + 1 > U64_MAX then Some(Overflow)
    else None
  }

  /** Moves those parts back into the queue, at its tail, as a new exit, and returns its ID. */
  ghost function Claim(s: VaultState, env: Env, id: nat): Outcome<nat> {
    match ClaimError(s, env, id)
    case Some(error) => Fail(s, error)
    case None =>
      var exit, newId := s.stranded[id], s.status.exitTail;
      var payout, fee := ClaimablePayout(s.host, env, exit), ClaimableFee(s.host, env, exit);
      var left := exit.(payout := exit.payout - payout, fee := exit.fee - fee);
      Outcome(
        Ok(newId),
        s.(status := s.status.(exitTail := newId + 1),
           stranded := if left.payout == 0 && left.fee == 0 then s.stranded - {id} else s.stranded[id := left],
           exits := s.exits[newId := exit.(payout := payout, fee := fee, queuedAt := env.now)]),
        [ExitRequeued(id, newId, payout, fee)],
        [])
  }

  // ---------------------------------------------------------------------------------------------
  // The guardian

  ghost function SetPause(s: VaultState, env: Env, deposits: bool, transfers: bool): Outcome<()> {
    if s.config.guardian !in env.signers then Fail(s, Unauthorized)
    else Outcome(Ok(()), s.(status := s.status.(depositsPaused := deposits, transfersPaused := transfers)),
                 [Paused(deposits, transfers)], [])
  }

  ghost function HaltError(s: VaultState, env: Env): Option<Error> {
    if s.config.guardian !in env.signers then Some(Unauthorized)
    else if env.now < s.status.nextHaltAt then Some(HaltCooldown)
    else if env.now + HALT_DURATION + HALT_COOLDOWN > U64_MAX then Some(Trapped)
    else None
  }

  ghost function Halt(s: VaultState, env: Env): Outcome<()> {
    match HaltError(s, env)
    case Some(error) => Fail(s, error)
    case None =>
      var until := env.now + HALT_DURATION;
      Outcome(Ok(()), s.(status := s.status.(haltedUntil := until, nextHaltAt := until + HALT_COOLDOWN)), [HaltedEvent(until)], [])
  }

  ghost function ResumeError(s: VaultState, env: Env): Option<Error> {
    if s.config.guardian !in env.signers then Some(Unauthorized)
    else if !s.status.Halted(env.now) then Some(NotHalted)
    else if env.now + HALT_COOLDOWN > U64_MAX then Some(Trapped)
    else None
  }

  ghost function Resume(s: VaultState, env: Env): Outcome<()> {
    match ResumeError(s, env)
    case Some(error) => Fail(s, error)
    case None =>
      Outcome(Ok(()), s.(status := s.status.(haltedUntil := env.now, nextHaltAt := env.now + HALT_COOLDOWN)),
              [Resumed(env.now + HALT_COOLDOWN)], [])
  }

  function SaturatingSeven(x: int): int {
    if 7 * x > I128_MAX then I128_MAX else if 7 * x < -I128_MAX - 1 then -I128_MAX - 1 else 7 * x
  }

  function LimitsError(limits: Limits): Option<Error> {
    if limits.minDeposit < 1 || limits.maxDeposit < 0 || limits.maxDailyPerDepositor < 0 || limits.tvlCap < 0
       || limits.maxDailyOutflow < 0 || limits.maxFee < 0 || limits.largeDepositThreshold < 0 then Some(BadLimits)
    else if limits.tvlCap > SaturatingSeven(limits.maxDailyOutflow) then Some(BadLimits)
    else None
  }

  function ChangeError(current: Limits, next: Limits): Option<Error> {
    if LimitsError(next).Some? then LimitsError(next)
    else if next.maxDailyOutflow < current.maxDailyOutflow then Some(OutflowDecrease)
    else None
  }

  predicate Tightens(current: Limits, next: Limits) {
    && next.minDeposit >= current.minDeposit
    && next.maxDeposit <= current.maxDeposit
    && next.maxDailyPerDepositor <= current.maxDailyPerDepositor
    && next.tvlCap <= current.tvlCap
    && next.maxDailyOutflow <= current.maxDailyOutflow
    && next.maxFee <= current.maxFee
    && next.largeDepositThreshold <= current.largeDepositThreshold
  }

  ghost function SetLimitsError(s: VaultState, env: Env, limits: Limits): Option<Error> {
    if s.config.guardian !in env.signers then Some(Unauthorized)
    else if ChangeError(s.limits, limits).Some? then ChangeError(s.limits, limits)
    else if !Tightens(s.limits, limits) && env.now + LOOSENING_DELAY > U64_MAX then Some(Trapped)
    else None
  }

  /** Applies a tightening at once, dropping a queued loosening, and queues anything else. */
  ghost function SetLimits(s: VaultState, env: Env, limits: Limits): Outcome<()> {
    match SetLimitsError(s, env, limits)
    case Some(error) => Fail(s, error)
    case None =>
      if Tightens(s.limits, limits) then
        Outcome(
          Ok(()),
          s.(limits := limits, queuedLimits := None),
          (if s.queuedLimits.Some? then [LimitsCancelled(s.queuedLimits.value.limits, s.queuedLimits.value.readyAt)] else [])
            + [LimitsApplied(limits, env.now)],
          [])
      else
        var readyAt := env.now + LOOSENING_DELAY;
        Outcome(Ok(()), s.(queuedLimits := Some(QueuedLimits(limits, readyAt))), [LimitsQueued(limits, readyAt)], [])
  }

  ghost function ApplyLimitsError(s: VaultState, env: Env): Option<Error> {
    if s.queuedLimits == None then Some(NoQueuedLimits)
    else if env.now < s.queuedLimits.value.readyAt then Some(LimitsNotReady)
    else ChangeError(s.limits, s.queuedLimits.value.limits)
  }

  ghost function ApplyLimits(s: VaultState, env: Env): Outcome<()> {
    match ApplyLimitsError(s, env)
    case Some(error) => Fail(s, error)
    case None =>
      var queued := s.queuedLimits.value;
      Outcome(Ok(()), s.(limits := queued.limits, queuedLimits := None), [LimitsApplied(queued.limits, queued.readyAt)], [])
  }

  ghost function CancelLimits(s: VaultState, env: Env): Outcome<()> {
    if s.config.guardian !in env.signers then Fail(s, Unauthorized)
    else if s.queuedLimits == None then Fail(s, NoQueuedLimits)
    else
      var queued := s.queuedLimits.value;
      Outcome(Ok(()), s.(queuedLimits := None), [LimitsCancelled(queued.limits, queued.readyAt)], [])
  }

  // ---------------------------------------------------------------------------------------------
  // Runs

  datatype Call =
    | ShieldCall(proof: TxProof, ext: ExtData, depositor: Address)
    | TransactCall(proof: TxProof, ext: ExtData, submitter: Address)
    | ReleaseCall(max: nat)
    | ClaimCall(id: nat)
    | AttestCall(upTo: nat)
    | FlagCall(id: nat, reason: nat)
    | UnflagCall(id: nat)
    | AdmitCall(ids: seq<nat>)
    | CancelCall(id: nat)
    | RefundCall(id: nat)
    | SetPauseCall(deposits: bool, transfers: bool)
    | HaltCall
    | ResumeCall
    | SetLimitsCall(limits: Limits)
    | ApplyLimitsCall
    | CancelLimitsCall
    | BalanceMoves(amount: int)  // someone gives the vault the asset, or its issuer claws some back

  datatype Effect = Effect(state: VaultState, events: seq<Event>, transfers: seq<Transfer>)

  ghost function Of<T>(o: Outcome<T>): Effect {
    Effect(o.state, o.events, o.transfers)
  }

  ghost function Step(s: VaultState, env: Env, call: Call): Effect {
    match call
    case ShieldCall(proof, ext, depositor) => Of(Shield(s, env, proof, ext, depositor))
    case TransactCall(proof, ext, submitter) => Of(Transact(s, env, proof, ext, submitter))
    case ReleaseCall(max) => Of(Release(s, env, max))
    case ClaimCall(id) => Of(Claim(s, env, id))
    case AttestCall(upTo) => Of(Attest(s, env, upTo))
    case FlagCall(id, reason) => Of(Flag(s, env, id, reason))
    case UnflagCall(id) => Of(Unflag(s, env, id))
    case AdmitCall(ids) => Of(Admit(s, env, ids))
    case CancelCall(id) => Of(Cancel(s, env, id))
    case RefundCall(id) => Of(Refund(s, env, id))
    case SetPauseCall(deposits, transfers) => Of(SetPause(s, env, deposits, transfers))
    case HaltCall => Of(Halt(s, env))
    case ResumeCall => Of(Resume(s, env))
    case SetLimitsCall(limits) => Of(SetLimits(s, env, limits))
    case ApplyLimitsCall => Of(ApplyLimits(s, env))
    case CancelLimitsCall => Of(CancelLimits(s, env))
    case BalanceMoves(amount) => Effect(s.(balance := s.balance + amount), [], [])
  }

  /** What the constructor leaves: limits that pass its check and an empty vault. */
  ghost function Deployed(host: Host, config: Config, limits: Limits): VaultState {
    VaultState(host, config, limits, None, Status(false, false, 0, 0, 1, 0, 0, 0, 0, 1, 1, 0, 0), [], {}, map[], map[], map[], map[], 0)
  }
}
