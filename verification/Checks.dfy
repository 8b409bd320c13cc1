/** What the vault asks of a deposit and of a transaction, all of it and nothing else: each is accepted exactly when
    it meets these conditions, in whatever order they are checked. */
module Checks {
  import opened Common
  import opened Merkle
  import opened VaultTypes
  import opened VaultSpec
  import opened VaultInvariant
  import opened Payees
  import VaultTree

  /** Whether the data of a call is bound to this vault, names neither party as the vault, and carries ciphertexts
      of the right length. */
  predicate Bound(host: Host, ext: ExtData) {
    && ext.vault == host.vault && ext.networkId == host.networkId
    && ext.recipient.address != host.vault && ext.relayer != host.vault
    && |ext.encryptedOutput0| == CIPHERTEXT_LEN == |ext.encryptedOutput1|
  }

  /** Whether a proof has two distinct inputs and two distinct outputs, only canonical elements, and is in time. */
  predicate WellFormed(host: Host, env: Env, proof: TxProof, ext: ExtData) {
    && |proof.inputNullifiers| == 2 == |proof.outputCommitments|
    && proof.root < host.modulus && proof.publicAmount < host.modulus && proof.extDataHash < host.modulus
    && (forall i :: 0 <= i < 2 ==> proof.inputNullifiers[i] < host.modulus && proof.outputCommitments[i] < host.modulus)
    && proof.inputNullifiers[0] != proof.inputNullifiers[1]
    && proof.outputCommitments[0] != proof.outputCommitments[1]
    && env.sequence <= ext.deadline
  }

  /** Whether the verifier accepts the proof for exactly this data and this amount, modulo the field's order, and
      neither input was spent. */
  predicate Proven(s: VaultState, proof: TxProof, ext: ExtData) {
    var net := ext.extAmount - ext.fee;
    && InI128(net)
    && (forall x :: x in proof.inputNullifiers ==> x !in s.nullifiers)
    && s.host.extDataHash(ext) == proof.extDataHash
    && proof.publicAmount == (if net < 0 then s.host.modulus + net else net)
    && s.host.verifies(proof)
  }

  /** What the vault asks of a deposit. */
  ghost predicate Acceptable(s: VaultState, env: Env, proof: TxProof, ext: ExtData, depositor: Address) {
    var amount := ext.extAmount;
    var today := DayTotal(s.dayTotals, depositor, env.Day()) + amount;
    && depositor in env.signers
    && env.now >= s.status.haltedUntil && !s.status.depositsPaused
    && ext.recipient == Plain(depositor) && ext.relayer == depositor && ext.fee == 0
    && amount > 0
    && s.limits.minDeposit <= amount <= s.limits.maxDeposit
    && today <= s.limits.maxDailyPerDepositor && InI128(today)
    && s.status.tvl + amount <= s.limits.tvlCap && InI128(s.status.tvl + amount) && InI128(s.status.pendingTotal + amount)
    && proof.root == Zero(s.host.compress, s.host.depth)
    && Bound(s.host, ext) && WellFormed(s.host, env, proof, ext) && Proven(s, proof, ext)
    && |s.leaves| + 2 <= Pow2(s.host.depth)
    && s.status.nextDepositId < U64_MAX
    && env.asset.accepts(0)
  }

  lemma BoundIs(host: Host, ext: ExtData)
    ensures BindingError(host, ext) == None <==> Bound(host, ext)
  {
  }

  lemma WellFormedIs(host: Host, env: Env, proof: TxProof, ext: ExtData)
    ensures ShapeError(host, env, proof, ext) == None <==> WellFormed(host, env, proof, ext)
  {
    if |proof.inputNullifiers| == 2 == |proof.outputCommitments| {
      var inputs, outputs := proof.inputNullifiers, proof.outputCommitments;
      var all := [proof.root, proof.publicAmount, proof.extDataHash] + inputs + outputs;
      assert all[3] == inputs[0] && all[4] == inputs[1] && all[5] == outputs[0] && all[6] == outputs[1];
      if WellFormed(host, env, proof, ext) {
        forall i | 0 <= i < |all|
          ensures all[i] < host.modulus
        {
        }
      } else if forall i :: 0 <= i < |all| ==> all[i] < host.modulus {
        assert all[0] < host.modulus && all[1] < host.modulus && all[2] < host.modulus;
        assert ShapeError(host, env, proof, ext) != None;
      } else {
        var i :| 0 <= i < |all| && all[i] >= host.modulus;
        assert all[i] in all;
      }
    }
  }

  lemma ProvenIs(s: VaultState, proof: TxProof, ext: ExtData)
    requires |proof.inputNullifiers| == 2
    ensures SpendError(s.host, s.nullifiers, proof, ext) == None <==> Proven(s, proof, ext)
  {
    assert forall x :: x in proof.inputNullifiers <==> x == proof.inputNullifiers[0] || x == proof.inputNullifiers[1];
  }

  /** A deposit is taken in exactly when it is acceptable; then its amount comes from its depositor, it is pending
      under the next ID, and both its nullifiers are spent. Otherwise nothing changes. */
  lemma ShieldTakes(s: VaultState, env: Env, proof: TxProof, ext: ExtData, depositor: Address)
    ensures var o := Shield(s, env, proof, ext, depositor);
            && (o.result.Ok? <==> Acceptable(s, env, proof, ext, depositor))
            && (o.result.Err? ==> Of(o) == Effect(s, [], []))
            && (o.result.Ok? ==>
                  && o.result.value == s.status.nextDepositId && o.result.value in o.state.pending
                  && o.transfers == [Received(depositor, ext.extAmount)]
                  && o.state.leaves == s.leaves && o.state.exits == s.exits && o.state.stranded == s.stranded)
  {
    BoundIs(s.host, ext);
    WellFormedIs(s.host, env, proof, ext);
    if |proof.inputNullifiers| == 2 {
      ProvenIs(s, proof, ext);
    }
    hide BindingError, ShapeError, SpendError, Bound, WellFormed, Proven, Zero;
  }

  /** What the vault asks of a transaction, paid at once or not. */
  ghost predicate Payable(s: VaultState, env: Env, proof: TxProof, ext: ExtData, submitter: Address) {
    var payout, due := -ext.extAmount, ext.fee - ext.extAmount;
    && submitter in env.signers
    && env.now >= s.status.haltedUntil
    && payout >= 0 && InI128(payout) && InI128(due)
    && 0 <= ext.fee <= s.limits.maxFee
    && (payout == 0 ==> !s.status.transfersPaused && ext.recipient == Plain(ext.relayer))
    && due <= s.limits.maxDailyOutflow
    && due <= s.status.tvl - s.status.pendingTotal - s.status.queuedTotal
    && InI128(s.status.tvl - s.status.pendingTotal) && InI128(s.status.tvl - s.status.pendingTotal - s.status.queuedTotal)
    && (payout > 0 ==> CanTake(s, env, ext.recipient.address, payout >= NATIVE_ACCOUNT_MIN))
    && (ext.fee > 0 ==> CanTake(s, env, ext.relayer, false))
    && VaultTree.RecentRoot(s.host.compress, s.host.depth, s.leaves, proof.root)
    && Bound(s.host, ext) && WellFormed(s.host, env, proof, ext) && Proven(s, proof, ext)
    && |s.leaves| + 2 <= Pow2(s.host.depth)
  }

  /** Whether its payment can go out now, or wait. */
  ghost predicate Settles(s: VaultState, env: Env, ext: ExtData) {
    var payout, due, today := -ext.extAmount, ext.fee - ext.extAmount, s.status.OutflowOn(env.Day());
    && InI128(today + due)
    && if due > 0 && (s.exits != map[] || today + due > s.limits.maxDailyOutflow) then
         s.status.exitTail < U64_MAX && InI128(s.status.queuedTotal + due)
       else
         && InI128(s.status.tvl - due)
         && (payout > 0 ==> env.asset.accepts(0) && payout <= s.balance)
         && (ext.fee > 0 ==> env.asset.accepts(1) && due <= s.balance)
  }

  lemma SettlesIs(s: VaultState, env: Env, ext: ExtData)
    requires Solvent(s) && Bound(s.host, ext) && ext.extAmount <= 0
    ensures SettleError(s, env, ext) == None <==> Settles(s, env, ext)
  {
    QueueIsEmpty(s);
    hide Solvent;
  }

  lemma PayableIs(s: VaultState, env: Env, proof: TxProof, ext: ExtData, submitter: Address)
    ensures TransactError(s, env, proof, ext, submitter) == None <==> Payable(s, env, proof, ext, submitter)
  {
    BoundIs(s.host, ext);
    WellFormedIs(s.host, env, proof, ext);
    if |proof.inputNullifiers| == 2 {
      ProvenIs(s, proof, ext);
    }
    hide BindingError, ShapeError, SpendError, Bound, WellFormed, Proven, VaultTree.RecentRoot;
  }

  /** A transaction is accepted exactly when it is payable and its payment can go out or wait; then its two
      commitments are the next leaves. Otherwise nothing changes. */
  lemma TransactTakes(s: VaultState, env: Env, proof: TxProof, ext: ExtData, submitter: Address)
    requires Solvent(s)
    ensures var o := Transact(s, env, proof, ext, submitter);
            && (o.result.Ok? <==> Payable(s, env, proof, ext, submitter) && Settles(s, env, ext))
            && (o.result.Err? ==> Of(o) == Effect(s, [], []))
            && (o.result.Ok? ==> o.state.leaves == s.leaves + proof.outputCommitments && o.state.pending == s.pending)
  {
    PayableIs(s, env, proof, ext, submitter);
    if Payable(s, env, proof, ext, submitter) {
      var spent := Spent(s, proof);
      assert Solvent(spent) by { hide TransactError, Payable; }
      SettlesIs(spent, env, ext);
    }
    hide TransactError, Payable, Solvent, SettleError, Settles, MustQueue;
  }

  // ---------------------------------------------------------------------------------------------
  // Codes

  /** What each code of the checks common to deposits and transactions means. */
  ghost predicate Explains(s: VaultState, env: Env, proof: TxProof, ext: ExtData, error: Error) {
    match error
    case WrongVault => ext.vault != s.host.vault
    case WrongNetwork => ext.networkId != s.host.networkId
    case BadCiphertext => |ext.encryptedOutput0| != CIPHERTEXT_LEN || |ext.encryptedOutput1| != CIPHERTEXT_LEN
    case BadArity => |proof.inputNullifiers| != 2 || |proof.outputCommitments| != 2
    case NonCanonical =>
      || proof.root >= s.host.modulus || proof.publicAmount >= s.host.modulus || proof.extDataHash >= s.host.modulus
      || exists x :: (x in proof.inputNullifiers || x in proof.outputCommitments) && x >= s.host.modulus
    case DuplicateNullifier => |proof.inputNullifiers| == 2 && proof.inputNullifiers[0] == proof.inputNullifiers[1]
    case DuplicateCommitment => |proof.outputCommitments| == 2 && proof.outputCommitments[0] == proof.outputCommitments[1]
    case Expired => ext.deadline < env.sequence
    case TreeFull => |s.leaves| + 2 > Pow2(s.host.depth)
    case NullifierSpent => exists x :: x in proof.inputNullifiers && x in s.nullifiers
    case ExtDataHashMismatch => s.host.extDataHash(ext) != proof.extDataHash
    case PublicAmountMismatch =>
      var net := ext.extAmount - ext.fee;
      proof.publicAmount != (if net < 0 then s.host.modulus + net else net)
    case InvalidProof => !s.host.verifies(proof)
    case _ => false
  }

  lemma BindingCodes(s: VaultState, env: Env, proof: TxProof, ext: ExtData)
    requires BindingError(s.host, ext).Some?
    ensures match BindingError(s.host, ext).value
            case BadParties => ext.recipient.address == s.host.vault || ext.relayer == s.host.vault
            case WrongVault => Explains(s, env, proof, ext, WrongVault)
            case WrongNetwork => Explains(s, env, proof, ext, WrongNetwork)
            case BadCiphertext => Explains(s, env, proof, ext, BadCiphertext)
            case _ => false
  {
  }

  lemma ShapeCodes(s: VaultState, env: Env, proof: TxProof, ext: ExtData)
    requires ShapeError(s.host, env, proof, ext).Some?
    ensures var error := ShapeError(s.host, env, proof, ext).value;
            && Explains(s, env, proof, ext, error)
            && (error.BadArity? || error.NonCanonical? || error.DuplicateNullifier? || error.DuplicateCommitment? || error.Expired?)
  {
  }

  lemma SpendCodes(s: VaultState, env: Env, proof: TxProof, ext: ExtData)
    requires |proof.inputNullifiers| == 2 && SpendError(s.host, s.nullifiers, proof, ext).Some?
    ensures var error := SpendError(s.host, s.nullifiers, proof, ext).value;
            && (error.Overflow? || Explains(s, env, proof, ext, error))
            && (error.Overflow? || error.NullifierSpent? || error.ExtDataHashMismatch? || error.PublicAmountMismatch? || error.InvalidProof?)
  {
  }

  /** The codes of the checks that deposits and transactions share. */
  lemma SharedCodes(s: VaultState, env: Env, proof: TxProof, ext: ExtData)
    ensures BindingError(s.host, ext).Some? ==>
              match BindingError(s.host, ext).value
              case BadParties => ext.recipient.address == s.host.vault || ext.relayer == s.host.vault
              case WrongVault => Explains(s, env, proof, ext, WrongVault)
              case WrongNetwork => Explains(s, env, proof, ext, WrongNetwork)
              case BadCiphertext => Explains(s, env, proof, ext, BadCiphertext)
              case _ => false
    ensures ShapeError(s.host, env, proof, ext).Some? ==>
              var error := ShapeError(s.host, env, proof, ext).value;
              && Explains(s, env, proof, ext, error)
              && (error.BadArity? || error.NonCanonical? || error.DuplicateNullifier? || error.DuplicateCommitment? || error.Expired?)
    ensures |proof.inputNullifiers| == 2 && SpendError(s.host, s.nullifiers, proof, ext).Some? ==>
              var error := SpendError(s.host, s.nullifiers, proof, ext).value;
              && (error.Overflow? || Explains(s, env, proof, ext, error))
              && (error.Overflow? || error.NullifierSpent? || error.ExtDataHashMismatch? || error.PublicAmountMismatch? || error.InvalidProof?)
    ensures Explains(s, env, proof, ext, TreeFull) <==> |s.leaves| + 2 > Pow2(s.host.depth)
    ensures ShapeError(s.host, env, proof, ext) == None ==> |proof.inputNullifiers| == 2 == |proof.outputCommitments|
  {
    if BindingError(s.host, ext).Some? {
      BindingCodes(s, env, proof, ext);
    }
    if ShapeError(s.host, env, proof, ext).Some? {
      ShapeCodes(s, env, proof, ext);
    }
    if |proof.inputNullifiers| == 2 && SpendError(s.host, s.nullifiers, proof, ext).Some? {
      SpendCodes(s, env, proof, ext);
    }
    hide BindingError, SpendError;
  }

  lemma SettleCodes(s: VaultState, env: Env, ext: ExtData)
    requires SettleError(s, env, ext).Some?
    ensures SettleError(s, env, ext) == Some(Overflow) || SettleError(s, env, ext) == Some(TransferRefused)
  {
  }

  /** A code names the condition that failed. */
  lemma ShieldCodes(s: VaultState, env: Env, proof: TxProof, ext: ExtData, depositor: Address)
    requires Shield(s, env, proof, ext, depositor).result.Err?
    ensures var amount, error := ext.extAmount, Shield(s, env, proof, ext, depositor).result.error;
            match error
            case Unauthorized => depositor !in env.signers
            case Halted => env.now < s.status.haltedUntil
            case DepositsPaused => s.status.depositsPaused
            case NonEmptyRoot => proof.root != Zero(s.host.compress, s.host.depth)
            case BadAmount => amount <= 0
            case BadFee => ext.fee != 0
            case BadParties =>
              ext.recipient != Plain(depositor) || ext.relayer != depositor || ext.recipient.address == s.host.vault || ext.relayer == s.host.vault
            case DepositTooSmall => amount < s.limits.minDeposit
            case DepositTooLarge => amount > s.limits.maxDeposit
            case DepositorDailyLimit => DayTotal(s.dayTotals, depositor, env.Day()) + amount > s.limits.maxDailyPerDepositor
            case TvlCapExceeded => s.status.tvl + amount > s.limits.tvlCap
            case TransferRefused => !env.asset.accepts(0)
            case Overflow => true
            case _ => Explains(s, env, proof, ext, error)
  {
    SharedCodes(s, env, proof, ext);
    hide Zero, BindingError, ShapeError, SpendError, Explains, DayTotal;
  }

  /** What the codes of a transaction's checks mean. */
  ghost predicate TransactFails(s: VaultState, env: Env, proof: TxProof, ext: ExtData, submitter: Address, error: Error) {
    var due := ext.fee - ext.extAmount;
    match error
    case Unauthorized => submitter !in env.signers
    case Halted => env.now < s.status.haltedUntil
    case BadAmount => ext.extAmount > 0
    case TransfersPaused => ext.extAmount == 0 && s.status.transfersPaused
    case BadFee => ext.fee < 0 || ext.fee > s.limits.maxFee
    case BadParties =>
      || (ext.extAmount == 0 && ext.recipient != Plain(ext.relayer))
      || ext.recipient.address == s.host.vault || ext.relayer == s.host.vault
    case ExceedsDailyOutflow => due > s.limits.maxDailyOutflow
    case ExceedsAdmittedValue => due > s.status.tvl - s.status.pendingTotal - s.status.queuedTotal
    case CannotReceive =>
      || (ext.extAmount < 0 && !CanTake(s, env, ext.recipient.address, -ext.extAmount >= NATIVE_ACCOUNT_MIN))
      || (ext.fee > 0 && !CanTake(s, env, ext.relayer, false))
    case UnknownRoot => !VaultTree.RecentRoot(s.host.compress, s.host.depth, s.leaves, proof.root)
    case TransferRefused => true
    case Overflow => true
    case _ => Explains(s, env, proof, ext, error)
  }

  lemma CanTakeIs(s: VaultState, env: Env, to: Address, amount: int)
    ensures CanReceive(s.host, env, to, amount) <==> CanTake(s, env, to, amount >= NATIVE_ACCOUNT_MIN)
  {
  }

  lemma CheckCodes(s: VaultState, env: Env, proof: TxProof, ext: ExtData, submitter: Address)
    requires TransactError(s, env, proof, ext, submitter).Some?
    ensures TransactFails(s, env, proof, ext, submitter, TransactError(s, env, proof, ext, submitter).value)
  {
    SharedCodes(s, env, proof, ext);
    CanTakeIs(s, env, ext.recipient.address, -ext.extAmount);
    CanTakeIs(s, env, ext.relayer, 0);
    hide VaultTree.RecentRoot, BindingError, ShapeError, SpendError, Explains, CanReceive, CanTake;
  }

  lemma TransactCodes(s: VaultState, env: Env, proof: TxProof, ext: ExtData, submitter: Address)
    requires Transact(s, env, proof, ext, submitter).result.Err?
    ensures TransactFails(s, env, proof, ext, submitter, Transact(s, env, proof, ext, submitter).result.error)
  {
    if TransactError(s, env, proof, ext, submitter).Some? {
      CheckCodes(s, env, proof, ext, submitter);
    } else {
      SettleCodes(Spent(s, proof), env, ext);
    }
    hide TransactError, SettleError;
  }
}
