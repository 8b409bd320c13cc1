/** The data the vault keeps, takes and emits. */
module VaultTypes {
  import opened Common
  import opened Merkle

  type Bytes = seq<bv8>

  const DAY: nat := 86_400
  const HALT_DURATION: nat := 72 * 3_600
  const HALT_COOLDOWN: nat := 7 * DAY
  const LOOSENING_DELAY: nat := 7 * DAY
  const REFUND_DELAY: nat := DAY
  const NATIVE_ACCOUNT_MIN: int := 10_000_000
  const CIPHERTEXT_LEN: nat := 181

  const U64_MAX: nat := 0xFFFF_FFFF_FFFF_FFFF
  const I128_MAX: int := 0x7FFF_FFFF_FFFF_FFFF_FFFF_FFFF_FFFF_FFFF

  /** Whether a checked operation on the contract's signed 128-bit amounts has this result. */
  predicate InI128(x: int) {
    -I128_MAX - 1 <= x <= I128_MAX
  }

  function SaturatingAdd(a: nat, b: nat): nat {
    if a + b > U64_MAX then U64_MAX else a + b
  }

  /** An address is an account, which may be missing from the ledger, or a contract. */
  datatype Address = Account(key: nat) | Contract(id: nat)

  datatype MuxedAddress = MuxedAddress(address: Address, id: Option<nat>)

  function Plain(address: Address): MuxedAddress {
    MuxedAddress(address, None)
  }

  datatype Limits = Limits(
    minDeposit: int,
    maxDeposit: int,
    maxDailyPerDepositor: int,
    tvlCap: int,
    maxDailyOutflow: int,
    maxFee: int,
    largeDepositThreshold: int)

  datatype QueuedLimits = QueuedLimits(limits: Limits, readyAt: nat)

  datatype Config = Config(guardian: Address, asp: Address, delaySmall: nat, delayLarge: nat)

  datatype Status = Status(
    depositsPaused: bool,
    transfersPaused: bool,
    haltedUntil: nat,
    nextHaltAt: nat,
    nextDepositId: nat,
    attestedUpTo: nat,
    tvl: int,
    pendingTotal: int,
    queuedTotal: int,
    exitHead: nat,
    exitTail: nat,
    outflowDay: nat,
    outflow: int)
  {
    predicate Halted(now: nat) {
      now < haltedUntil
    }

    /** What the window of a day has paid; a day other than the recorded one starts from zero. */
    function OutflowOn(day: nat): int {
      if outflowDay == day then outflow else 0
    }
  }

  datatype PendingDeposit = PendingDeposit(
    depositor: Address,
    amount: int,
    commitment0: Field,
    commitment1: Field,
    encryptedOutput0: Bytes,
    encryptedOutput1: Bytes,
    createdAt: nat,
    delay: nat,
    flag: Option<nat>,
    flaggedAt: nat)

  datatype Exit = Exit(recipient: MuxedAddress, payout: int, relayer: Address, fee: int, queuedAt: nat)

  function Owed(exit: Exit): int {
    exit.payout + exit.fee
  }

  datatype ExtData = ExtData(
    vault: Address,
    networkId: nat,
    deadline: nat,
    extAmount: int,
    fee: int,
    recipient: MuxedAddress,
    relayer: Address,
    encryptedOutput0: Bytes,
    encryptedOutput1: Bytes)

  datatype TxProof = TxProof(
    root: Field,
    publicAmount: Field,
    extDataHash: Field,
    inputNullifiers: seq<Field>,
    outputCommitments: seq<Field>)

  /** Codes the contract returns, and the three ways a call fails outside it: a missing signature,
      a transfer the asset contract refuses, and a trap. */
  datatype Error =
    | BadConfig | BadLimits | OutflowDecrease | Halted | DepositsPaused | TransfersPaused | NonEmptyRoot | BadAmount | BadFee
    | BadParties | WrongVault | WrongNetwork | BadCiphertext | DepositTooLarge | DepositorDailyLimit | TvlCapExceeded
    | BadArity | NonCanonical | DuplicateNullifier | DuplicateCommitment | Expired | UnknownRoot | TreeFull
    | NullifierSpent | ExtDataHashMismatch | PublicAmountMismatch | InvalidProof | UnknownDeposit | NotFlagged
    | BadReason | BadAttestation | BadIds | HaltCooldown | NotHalted | NoQueuedLimits | LimitsNotReady | Overflow
    | RefundTooEarly | ExceedsAdmittedValue | DepositTooSmall | ExceedsDailyOutflow | NotStranded | NothingClaimable
    | CannotReceive | VaultCannotPay
    | Unauthorized | TransferRefused | Trapped

  /** What the contract is deployed on: its own address, whether its asset is the native one, the
      depth of its tree, and the host functions and the verifier it calls, which can be any. */
  datatype Host = Host(
    vault: Address,
    native: bool,
    networkId: nat,
    depth: nat,
    modulus: nat,
    compress: Compressor,
    extDataHash: ExtData -> Field,
    verifies: TxProof -> bool)

  /** What the asset contract and the ledger answer during one call. A release asks again for each
      exit it handles, so the answers are indexed by step. */
  datatype Asset = Asset(
    hasAccount: (nat, Address) -> bool,
    authorized: Address -> bool,
    accepts: nat -> bool)

  /** The surroundings of one call. */
  datatype Env = Env(now: nat, sequence: nat, signers: set<Address>, asset: Asset)
  {
    function Day(): nat {
      now / DAY
    }
  }

  datatype Event =
    | DepositPending(id: nat, depositor: Address, amount: int, commitment0: Field, commitment1: Field, createdAt: nat)
    | DepositFlagged(id: nat, reason: nat)
    | DepositUnflagged(id: nat, reason: nat)
    | Attested(upTo: nat)
    | DepositAdmitted(id: nat, leafIndex0: nat, leafIndex1: nat)
    | DepositRefunded(id: nat, reason: nat)
    | NewCommitment(index: nat, commitment: Field, encryptedOutput: Bytes)
    | NewNullifier(nullifier: Field)
    | Settled(extAmount: int, fee: int, recipient: MuxedAddress, relayer: Address, exitId: Option<nat>)
    | ExitQueued(id: nat, extAmount: int, fee: int, recipient: MuxedAddress, relayer: Address)
    | ExitPaid(id: nat, payoutPaid: int, feePaid: int, payoutLeft: int, feeLeft: int)
    | ExitStranded(id: nat, payout: int, fee: int)
    | ExitRequeued(id: nat, newId: nat, payout: int, fee: int)
    | Paused(deposits: bool, transfers: bool)
    | HaltedEvent(until: nat)
    | Resumed(nextHaltAt: nat)
    | LimitsQueued(limits: Limits, readyAt: nat)
    | LimitsApplied(limits: Limits, readyAt: nat)
    | LimitsCancelled(limits: Limits, readyAt: nat)

  /** A movement of the asset into or out of the vault. A payment settles a transaction or, with an
      exit's ID, a step of release; a return gives a deposit back. */
  datatype Transfer =
    | Received(from: Address, amount: int)
    | Returned(to: Address, amount: int)
    | Paid(to: Address, amount: int, exitId: Option<nat>)

  /** What the transfers pay out of the day's window: payments only, not returned deposits. */
  function PaidOut(transfers: seq<Transfer>): int {
    if transfers == [] then 0
    else PaidOut(transfers[..|transfers| - 1]) +
         match transfers[|transfers| - 1] { case Paid(_, amount, _) => amount case _ => 0 }
  }

  /** What the transfers add to the vault's balance; paying itself would change nothing. */
  function Gained(vault: Address, transfers: seq<Transfer>): int {
    if transfers == [] then 0
    else Gained(vault, transfers[..|transfers| - 1]) +
         match transfers[|transfers| - 1]
         case Received(from, amount) => if from == vault then 0 else amount
         case Returned(to, amount) => if to == vault then 0 else -amount
         case Paid(to, amount, _) => if to == vault then 0 else -amount
  }
}
