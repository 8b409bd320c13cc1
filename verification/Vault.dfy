/** The vault contract: its storage as mutable fields and its entry points in the order the contract
    runs them. The host undoes every write of a call that fails. */
module Vault {
  import opened Common
  import opened Merkle
  import opened VaultTypes
  import Spec = VaultSpec
  import VaultTree

  /** The entries a failing call gives back. */
  datatype Storage = Storage(
    limits: Limits,
    queuedLimits: Option<QueuedLimits>,
    status: Status,
    tree: VaultTree.TreeStore,
    nullifiers: set<Field>,
    pending: map<nat, PendingDeposit>,
    exits: map<nat, Exit>,
    stranded: map<nat, Exit>,
    dayTotals: map<(Address, nat), int>,
    balance: int)

  class Vault {
    const host: Host
    const config: Config
    var limits: Limits
    var queuedLimits: Option<QueuedLimits>
    var status: Status
    var tree: VaultTree.TreeStore
    var nullifiers: set<Field>
    var pending: map<nat, PendingDeposit>
    var exits: map<nat, Exit>
    var stranded: map<nat, Exit>
    var dayTotals: map<(Address, nat), int>
    /** What the asset contract records for the vault. */
    var balance: int
    ghost var leaves: seq<Field>

    ghost predicate Valid()
      reads this
    {
      host.depth >= 1 && VaultTree.Represents(host.compress, host.depth, tree, leaves)
    }

    ghost function State(): Spec.VaultState
      reads this
    {
      Spec.VaultState(host, config, limits, queuedLimits, status, leaves, nullifiers, pending, exits, stranded, dayTotals, balance)
    }

    function Save(): Storage
      reads this
    {
      Storage(limits, queuedLimits, status, tree, nullifiers, pending, exits, stranded, dayTotals, balance)
    }

    constructor (host: Host, config: Config, limits: Limits)
      requires host.depth >= 1
      ensures Valid() && State() == Spec.Deployed(host, config, limits)
    {
      this.host, this.config, this.limits, queuedLimits := host, config, limits, None;
      status := Status(false, false, 0, 0, 1, 0, 0, 0, 0, 1, 1, 0, 0);
      nullifiers, pending, exits, stranded, dayTotals, balance, leaves := {}, map[], map[], map[], map[], 0, [];
      new;
      tree := VaultTree.Init(host.compress, host.depth);
    }

    static method Deploy(host: Host, config: Config, limits: Limits) returns (r: Result<Vault, Error>)
      requires host.depth >= 1
      ensures r.Ok? <==> config.delaySmall <= config.delayLarge && Spec.LimitsError(limits) == None
      ensures r.Err? ==> r.error == if config.delaySmall > config.delayLarge then BadConfig else BadLimits
      ensures r.Ok? ==> fresh(r.value) && r.value.Valid() && r.value.State() == Spec.Deployed(host, config, limits)
    {
      if config.delaySmall > config.delayLarge {
        return Err(BadConfig);
      }
      if Spec.LimitsError(limits).Some? {
        return Err(Spec.LimitsError(limits).value);
      }
      var vault := new Vault(host, config, limits);
      return Ok(vault);
    }

    method Restore(saved: Storage)
      modifies this
      ensures Save() == saved && leaves == old(leaves)
    {
      limits, queuedLimits, status, tree := saved.limits, saved.queuedLimits, saved.status, saved.tree;
      nullifiers, pending, exits, stranded := saved.nullifiers, saved.pending, saved.exits, saved.stranded;
      dayTotals, balance := saved.dayTotals, saved.balance;
    }

    /** Everything `Shield` checks before it writes. */
    method CheckShield(env: Env, proof: TxProof, ext: ExtData, depositor: Address) returns (error: Option<Error>)
      requires Valid()
      ensures error == Spec.ShieldError(State(), env, proof, ext, depositor)
      ensures error == None ==> Spec.ShapeError(host, env, proof, ext) == None
    {
      if depositor !in env.signers {
        return Some(Unauthorized);
      }
      if status.Halted(env.now) {
        return Some(Halted);
      }
      if status.depositsPaused {
        return Some(DepositsPaused);
      }
      if proof.root != Zero(host.compress, host.depth) {
        return Some(NonEmptyRoot);
      }
      if ext.extAmount <= 0 {
        return Some(BadAmount);
      }
      if ext.fee != 0 {
        return Some(BadFee);
      }
      if ext.recipient != Plain(depositor) || ext.relayer != depositor {
        return Some(BadParties);
      }
      if Spec.BindingError(host, ext).Some? {
        return Spec.BindingError(host, ext);
      }
      var amount := ext.extAmount;
      if amount < limits.minDeposit {
        return Some(DepositTooSmall);
      }
      if amount > limits.maxDeposit {
        return Some(DepositTooLarge);
      }
      var day := env.Day();
      var dayTotal := Spec.DayTotal(dayTotals, depositor, day) + amount;
      if !InI128(dayTotal) {
        return Some(Overflow);
      }
      if dayTotal > limits.maxDailyPerDepositor {
        return Some(DepositorDailyLimit);
      }
      var tvl := status.tvl + amount;
      if !InI128(tvl) {
        return Some(Overflow);
      }
      if tvl > limits.tvlCap {
        return Some(TvlCapExceeded);
      }
      if Spec.ShapeError(host, env, proof, ext).Some? {
        return Spec.ShapeError(host, env, proof, ext);
      }
      if !VaultTree.HasRoom(host.depth, tree.nextLeaf) {
        return Some(TreeFull);
      }
      return Spec.SpendError(host, nullifiers, proof, ext);
    }

    /** Takes in a checked deposit. A failure leaves its writes to the caller to undo. */
    method Enter(env: Env, proof: TxProof, ext: ExtData, depositor: Address)
      returns (r: Result<nat, Error>, events: seq<Event>, transfers: seq<Transfer>)
      requires |proof.inputNullifiers| == 2 && |proof.outputCommitments| == 2
      modifies this`nullifiers, this`status, this`pending, this`dayTotals, this`balance
      ensures r == Spec.Enter(old(State()), env, proof, ext, depositor).result
      ensures r.Ok? ==> Spec.Outcome(r, State(), events, transfers) == Spec.Enter(old(State()), env, proof, ext, depositor)
    {
      var status, amount, day := this.status, ext.extAmount, env.Day();
      var dayTotal := Spec.DayTotal(dayTotals, depositor, day) + amount;
      nullifiers := nullifiers + {proof.inputNullifiers[0], proof.inputNullifiers[1]};
      events := [NewNullifier(proof.inputNullifiers[0]), NewNullifier(proof.inputNullifiers[1])];
      var id := status.nextDepositId;
      if id + 1 > U64_MAX || !InI128(status.pendingTotal + amount) {
        return Err(Overflow), [], [];
      }
      status := status.(nextDepositId := id + 1, tvl := status.tvl + amount, pendingTotal := status.pendingTotal + amount);
      var commitment0, commitment1 := proof.outputCommitments[0], proof.outputCommitments[1];
      pending := pending[id := PendingDeposit(depositor, amount, commitment0, commitment1, ext.encryptedOutput0,
                                              ext.encryptedOutput1, env.now, Spec.Delay(config, limits, amount), None, 0)];
      this.status := status;
      dayTotals := dayTotals[(depositor, day) := dayTotal];
      events := events + [DepositPending(id, depositor, amount, commitment0, commitment1, env.now)];
      if !env.asset.accepts(0) {
        return Err(TransferRefused), [], [];
      }
      balance := balance + amount;
      return Ok(id), events, [Received(depositor, amount)];
    }

    method Shield(env: Env, proof: TxProof, ext: ExtData, depositor: Address)
      returns (r: Result<nat, Error>, events: seq<Event>, transfers: seq<Transfer>)
      requires Valid()
      modifies this
      ensures Valid()
      ensures Spec.Outcome(r, State(), events, transfers) == Spec.Shield(old(State()), env, proof, ext, depositor)
    {
      var error := CheckShield(env, proof, ext, depositor);
      if error.Some? {
        return Err(error.value), [], [];
      }
      var saved := Save();
      r, events, transfers := Enter(env, proof, ext, depositor);
      if r.Err? {
        Restore(saved);
        return r, [], [];
      }
    }

    /** Reads the tree, inserts one pair and saves it. */
    method InsertPair(commitment0: Field, commitment1: Field, output0: Bytes, output1: Bytes) returns (events: seq<Event>)
      requires Valid() && VaultTree.HasRoom(host.depth, |leaves|)
      modifies this`tree, this`leaves
      ensures Valid() && leaves == old(leaves) + [commitment0, commitment1]
      ensures events == Spec.InsertionEvents(|old(leaves)|, commitment0, commitment1, output0, output1)
    {
      var appender := new VaultTree.Appender(host.compress, host.depth, tree);
      var index := appender.Append(commitment0, commitment1, leaves);
      tree := appender.Store();
      leaves := leaves + [commitment0, commitment1];
      return [NewCommitment(index, commitment0, output0), NewCommitment(index + 1, commitment1, output1)];
    }

    /** Everything `Transact` checks before it spends anything. */
    method CheckTransact(env: Env, proof: TxProof, ext: ExtData, submitter: Address) returns (error: Option<Error>)
      requires Valid()
      ensures error == Spec.TransactError(State(), env, proof, ext, submitter)
      ensures error == None ==> Spec.ShapeError(host, env, proof, ext) == None && VaultTree.HasRoom(host.depth, |leaves|)
    {
      if submitter !in env.signers {
        return Some(Unauthorized);
      }
      if status.Halted(env.now) {
        return Some(Halted);
      }
      if ext.extAmount > 0 {
        return Some(BadAmount);
      }
      if ext.extAmount == 0 && status.transfersPaused {
        return Some(TransfersPaused);
      }
      if ext.fee < 0 || ext.fee > limits.maxFee {
        return Some(BadFee);
      }
      if ext.extAmount == 0 && ext.recipient != Plain(ext.relayer) {
        return Some(BadParties);
      }
      if Spec.BindingError(host, ext).Some? {
        return Spec.BindingError(host, ext);
      }
      var payout := -ext.extAmount;
      var outflow := payout + ext.fee;
      if !InI128(payout) || !InI128(outflow) {
        return Some(Overflow);
      }
      if outflow > limits.maxDailyOutflow {
        return Some(ExceedsDailyOutflow);
      }
      if !InI128(status.tvl - status.pendingTotal) || !InI128(Spec.Notes(status)) {
        return Some(Overflow);
      }
      if outflow > Spec.Notes(status) {
        return Some(ExceedsAdmittedValue);
      }
      if (payout > 0 && !Spec.CanReceive(host, env, ext.recipient.address, payout))
         || (ext.fee > 0 && !Spec.CanReceive(host, env, ext.relayer, 0)) {
        return Some(CannotReceive);
      }
      if Spec.ShapeError(host, env, proof, ext).Some? {
        return Spec.ShapeError(host, env, proof, ext);
      }
      VaultTree.KnownRootsAreRecent(host.compress, host.depth, tree, leaves, proof.root);
      if !tree.KnowsRoot(proof.root) {
        return Some(UnknownRoot);
      }
      if !VaultTree.HasRoom(host.depth, tree.nextLeaf) {
        return Some(TreeFull);
      }
      return Spec.SpendError(host, nullifiers, proof, ext);
    }

    /** Spends the inputs of a checked transaction and inserts its outputs. */
    method Spend(proof: TxProof, ext: ExtData) returns (events: seq<Event>)
      requires Valid() && VaultTree.HasRoom(host.depth, |leaves|)
      requires |proof.inputNullifiers| == 2 && |proof.outputCommitments| == 2
      modifies this`nullifiers, this`tree, this`leaves
      ensures Valid() && State() == Spec.Spent(old(State()), proof)
      ensures events == Spec.SpentEvents(old(State()), proof, ext)
    {
      nullifiers := nullifiers + {proof.inputNullifiers[0], proof.inputNullifiers[1]};
      events := InsertPair(proof.outputCommitments[0], proof.outputCommitments[1], ext.encryptedOutput0, ext.encryptedOutput1);
      events := [NewNullifier(proof.inputNullifiers[0]), NewNullifier(proof.inputNullifiers[1])] + events;
    }

    /** Pays a transaction at once or queues what it pays. A failure leaves its writes to the caller
        to undo. */
    method Settle(env: Env, ext: ExtData) returns (r: Result<(), Error>, events: seq<Event>, transfers: seq<Transfer>)
      modifies this`status, this`exits, this`balance
      ensures r == Spec.Settle(old(State()), env, ext).result
      ensures r.Ok? ==> Spec.Outcome(r, State(), events, transfers) == Spec.Settle(old(State()), env, ext)
    {
      events, transfers := [], [];
      var status := this.status;
      var payout := -ext.extAmount;
      var outflow := payout + ext.fee;
      var day := env.Day();
      var today := status.OutflowOn(day) + outflow;
      if !InI128(today) {
        return Err(Overflow), [], [];
      }
      var fits := status.exitHead == status.exitTail && today <= limits.maxDailyOutflow;
      if outflow > 0 && !fits {
        var id := status.exitTail;
        if id + 1 > U64_MAX || !InI128(status.queuedTotal + outflow) {
          return Err(Overflow), [], [];
        }
        status := status.(exitTail := id + 1, queuedTotal := status.queuedTotal + outflow);
        exits := exits[id := Exit(ext.recipient, payout, ext.relayer, ext.fee, env.now)];
        this.status := status;
        return Ok(()), [ExitQueued(id, ext.extAmount, ext.fee, ext.recipient, ext.relayer)], [];
      }

      if !InI128(status.tvl - outflow) {
        return Err(Overflow), [], [];
      }
      status := status.(tvl := status.tvl - outflow, outflowDay := day, outflow := today);
      this.status := status;
      events := [Settled(ext.extAmount, ext.fee, ext.recipient, ext.relayer, None)];
      if payout > 0 {
        if !Spec.Takes(env, 0, balance, payout) {
          return Err(TransferRefused), [], [];
        }
        balance := Spec.Debit(host, balance, ext.recipient.address, payout);
        transfers := transfers + [Paid(ext.recipient.address, payout, None)];
      }
      if ext.fee > 0 {
        if !Spec.Takes(env, 1, balance, ext.fee) {
          return Err(TransferRefused), [], [];
        }
        balance := Spec.Debit(host, balance, ext.relayer, ext.fee);
        transfers := transfers + [Paid(ext.relayer, ext.fee, None)];
      }
      r := Ok(());
    }

    method Transact(env: Env, proof: TxProof, ext: ExtData, submitter: Address)
      returns (r: Result<(), Error>, events: seq<Event>, transfers: seq<Transfer>)
      requires Valid()
      modifies this
      ensures Valid()
      ensures Spec.Outcome(r, State(), events, transfers) == Spec.Transact(old(State()), env, proof, ext, submitter)
    {
      var error := CheckTransact(env, proof, ext, submitter);
      if error.Some? {
        return Err(error.value), [], [];
      }
      var saved := Save();
      ghost var leavesBefore := leaves;
      var spent := Spend(proof, ext);
      var settled;
      r, settled, transfers := Settle(env, ext);
      if r.Err? {
        Restore(saved);
        leaves := leavesBefore;
        return r, [], [];
      }
      events := spent + settled;
    }

    /** Pays an amount from the vault, all of it or nothing, without failing the call. */
    method TryPay(env: Env, transfer: nat, to: Address, amount: int) returns (paid: int)
      modifies this`balance
      ensures paid == Spec.TryPay(env, transfer, old(balance), amount)
      ensures balance == Spec.Debit(host, old(balance), to, paid)
    {
      if amount > 0 && env.asset.accepts(transfer) && amount <= balance {
        balance := Spec.Debit(host, balance, to, amount);
        return amount;
      }
      return 0;
    }

    /** What a release tries to pay of the exit at the head, if anything. */
    method PlanHead(env: Env, r: Spec.Releasing, ghost start: Spec.VaultState) returns (plan: Spec.Plan)
      requires start.host == host && start.limits == limits
      ensures plan == Spec.ReleasePlan(start, env, r)
    {
      var id, room := r.status.exitHead, limits.maxDailyOutflow - r.today;
      if !InI128(room) {
        return Spec.NoFunds(Overflow);
      }
      if room == 0 {
        return Spec.NoStep;
      }
      if id !in r.exits {
        return Spec.NoFunds(Trapped);
      }
      var exit := r.exits[id];
      var payout := Min(exit.payout, room);
      var fee := Min(exit.fee, room - payout);
      if Spec.WaitsForAccount(host, env, r.count, exit, payout) {
        return Spec.NoStep;
      }
      var available;
      if r.funds.Some? {
        available := r.funds.value;
      } else if env.asset.authorized(host.vault) {
        available := r.balance;
      } else {
        return Spec.NoFunds(VaultCannotPay);
      }
      if payout + fee > available {
        return if r.count == 0 then Spec.NoFunds(VaultCannotPay) else Spec.NoStep;
      }
      return Spec.Try(exit, payout, fee, available);
    }

    /** Puts the exit at the head where its step leaves it. */
    method PlaceHead(status0: Status, id: nat, exit: Exit, payout: int, fee: int, payoutPaid: int, feePaid: int)
      returns (status: Status, event: Event)
      modifies this`exits, this`stranded
      ensures forall r: Spec.Releasing :: r.status == status0 && r.exits == old(exits) && r.stranded == old(stranded) ==>
        Spec.Handled(r, id, exit, payout, fee, payoutPaid, feePaid) ==
        r.(status := status, exits := exits, stranded := stranded, events := r.events + [event])
    {
      status := status0;
      var left := exit.(payout := exit.payout - payoutPaid, fee := exit.fee - feePaid);
      if payoutPaid < payout || feePaid < fee {
        exits := exits - {id};
        status := status.(exitHead := id + 1);
        stranded := stranded[id := left];
        event := ExitStranded(id, left.payout, left.fee);
      } else if left.payout == 0 && left.fee == 0 {
        exits := exits - {id};
        status := status.(exitHead := id + 1);
        event := Settled(-payoutPaid, feePaid, exit.recipient, exit.relayer, Some(id));
      } else {
        exits := exits[id := left];
        event := ExitPaid(id, payoutPaid, feePaid, left.payout, left.fee);
      }
    }

    /** Both transfers of a step, and the totals after them; None when a total would overflow. */
    method PayHead(env: Env, r: Spec.Releasing, exit: Exit, payout: int, fee: int, available: int)
      returns (run: Option<Spec.Releasing>, payoutPaid: int, feePaid: int)
      requires r.balance == balance
      modifies this`balance
      ensures payoutPaid == Spec.TryPay(env, 2 * r.count, r.balance, payout)
      ensures feePaid == Spec.TryPay(env, 2 * r.count + 1, Spec.Debit(host, r.balance, exit.recipient.address, payoutPaid), fee)
      ensures balance == Spec.Debit(host, Spec.Debit(host, r.balance, exit.recipient.address, payoutPaid), exit.relayer, feePaid)
      ensures run == if !InI128(r.today + (payoutPaid + feePaid)) || !InI128(r.status.tvl - (payoutPaid + feePaid))
                        || !InI128(r.status.queuedTotal - (payoutPaid + feePaid)) then None
                     else Some(Spec.PaidFor(host, r, exit, available, payoutPaid, feePaid))
    {
      var status, id := r.status, r.status.exitHead;
      payoutPaid := TryPay(env, 2 * r.count, exit.recipient.address, payout);
      feePaid := TryPay(env, 2 * r.count + 1, exit.relayer, fee);
      var paid := payoutPaid + feePaid;
      if !InI128(r.today + paid) || !InI128(status.tvl - paid) || !InI128(status.queuedTotal - paid) {
        run := None;
        return;
      }
      var transfers := r.transfers;
      if payoutPaid > 0 {
        transfers := transfers + [Paid(exit.recipient.address, payoutPaid, Some(id))];
      }
      if feePaid > 0 {
        transfers := transfers + [Paid(exit.relayer, feePaid, Some(id))];
      }
      assert transfers == r.transfers + Spec.Payment(exit.recipient.address, payoutPaid, Some(id))
                                      + Spec.Payment(exit.relayer, feePaid, Some(id));
      run := Some(r.(status := status.(tvl := status.tvl - paid, queuedTotal := status.queuedTotal - paid), balance := balance,
                     today := r.today + paid, funds := Some(available - paid), count := r.count + 1, transfers := transfers));
    }

    /** One pass of the release loop over the exit at the head: what it tries to pay, what the asset
        contract takes of it, and where the exit goes. The locals of the loop are passed in `r`. */
    method ReleaseHead(env: Env, r: Spec.Releasing, ghost start: Spec.VaultState) returns (step: Spec.ReleaseStep)
      requires start.host == host && start.limits == limits
      requires r.exits == exits && r.stranded == stranded && r.balance == balance
      modifies this`exits, this`stranded, this`balance
      ensures step == Spec.ReleaseOne(start, env, r)
      ensures step.Next? ==> step.r.count == r.count + 1
      ensures step.Next? ==> exits == step.r.exits && stranded == step.r.stranded && balance == step.r.balance
      ensures !step.Next? ==> exits == old(exits) && stranded == old(stranded) && balance == old(balance)
    {
      hide Spec.ReleasePlan, Spec.Handled, Spec.TryPay, Spec.Payment, Spec.Debit;
      var plan := PlanHead(env, r, start);
      if plan.NoStep? {
        return Spec.Stop;
      }
      if plan.NoFunds? {
        return Spec.Failed(plan.error);
      }
      var run, payoutPaid, feePaid := PayHead(env, r, plan.exit, plan.payout, plan.fee, plan.available);
      if run == None {
        balance := r.balance;
        return Spec.Failed(Overflow);
      }
      var status, event := PlaceHead(run.value.status, r.status.exitHead, plan.exit, plan.payout, plan.fee, payoutPaid, feePaid);
      step := Spec.Next(run.value.(status := status, exits := exits, stranded := stranded, events := r.events + [event]));
    }

    method Release(env: Env, max: nat) returns (r: Result<nat, Error>, events: seq<Event>, transfers: seq<Transfer>)
      requires Valid()
      modifies this
      ensures Valid()
      ensures Spec.Outcome(r, State(), events, transfers) == Spec.Release(old(State()), env, max)
    {
      if status.Halted(env.now) {
        return Err(Halted), [], [];
      }
      var saved := Save();
      ghost var start := State();
      var run := Spec.Releasing(status, exits, stranded, balance, status.OutflowOn(env.Day()), None, 0, [], []);
      while run.count < max && run.status.exitHead < run.status.exitTail
        invariant Valid() && run.count <= max
        invariant State() == start.(exits := run.exits, stranded := run.stranded, balance := run.balance)
        invariant run.count == 0 ==> run == Spec.ReleaseStart(start, env)
        invariant Spec.ReleaseLoop(start, env, max, run) == Spec.ReleaseLoop(start, env, max, Spec.ReleaseStart(start, env))
        decreases max - run.count
      {
        hide Spec.ReleaseOne;
        var step := ReleaseHead(env, run, start);
        if step.Failed? {
          Restore(saved);
          return Err(step.error), [], [];
        }
        if step.Stop? {
          break;
        }
        run := step.r;
      }
      if run.count > 0 {
        status := run.status.(outflowDay := env.Day(), outflow := run.today);
      }
      return Ok(run.count), run.events, run.transfers;
    }

    method Claim(env: Env, id: nat) returns (r: Result<nat, Error>, events: seq<Event>)
      requires Valid()
      modifies this
      ensures Valid()
      ensures Spec.Outcome(r, State(), events, []) == Spec.Claim(old(State()), env, id)
    {
      var status := this.status;
      if status.Halted(env.now) {
        return Err(Halted), [];
      }
      if id !in stranded {
        return Err(NotStranded), [];
      }
      var exit := stranded[id];
      var payout, fee := 0, 0;
      if exit.payout > 0 && Spec.CanReceive(host, env, exit.recipient.address, exit.payout) {
        payout := exit.payout;
      }
      if exit.fee > 0 && Spec.CanReceive(host, env, exit.relayer, 0) {
        fee := exit.fee;
      }
      if payout == 0 && fee == 0 {
        return Err(NothingClaimable), [];
      }
      var saved := Save();
      var left := exit.(payout := exit.payout - payout, fee := exit.fee - fee);
      if left.payout == 0 && left.fee == 0 {
        stranded := stranded - {id};
      } else {
        stranded := stranded[id := left];
      }
      var newId := status.exitTail;
      if newId + 1 > U64_MAX {
        Restore(saved);
        return Err(Overflow), [];
      }
      exits := exits[newId := exit.(payout := payout, fee := fee, queuedAt := env.now)];
      this.status := status.(exitTail := newId + 1);
      return Ok(newId), [ExitRequeued(id, newId, payout, fee)];
    }

    method Attest(env: Env, upTo: nat) returns (r: Result<(), Error>, events: seq<Event>)
      requires Valid()
      modifies this
      ensures Valid()
      ensures Spec.Outcome(r, State(), events, []) == Spec.Attest(old(State()), env, upTo)
    {
      if config.asp !in env.signers {
        return Err(Unauthorized), [];
      }
      if status.Halted(env.now) {
        return Err(Halted), [];
      }
      if upTo <= status.attestedUpTo || upTo >= status.nextDepositId {
        return Err(BadAttestation), [];
      }
      status := status.(attestedUpTo := upTo);
      return Ok(()), [Attested(upTo)];
    }

    method Flag(env: Env, id: nat, reason: nat) returns (r: Result<(), Error>, events: seq<Event>)
      requires Valid()
      modifies this
      ensures Valid()
      ensures Spec.Outcome(r, State(), events, []) == Spec.Flag(old(State()), env, id, reason)
    {
      if config.asp !in env.signers {
        return Err(Unauthorized), [];
      }
      if reason == 0 {
        return Err(BadReason), [];
      }
      if id !in pending {
        return Err(UnknownDeposit), [];
      }
      var deposit := pending[id];
      if deposit.flag == None {
        deposit := deposit.(flaggedAt := env.now);
      }
      pending := pending[id := deposit.(flag := Some(reason))];
      return Ok(()), [DepositFlagged(id, reason)];
    }

    method Unflag(env: Env, id: nat) returns (r: Result<(), Error>, events: seq<Event>)
      requires Valid()
      modifies this
      ensures Valid()
      ensures Spec.Outcome(r, State(), events, []) == Spec.Unflag(old(State()), env, id)
    {
      if config.asp !in env.signers {
        return Err(Unauthorized), [];
      }
      if id !in pending {
        return Err(UnknownDeposit), [];
      }
      var deposit := pending[id];
      if deposit.flag == None {
        return Err(NotFlagged), [];
      }
      var reason := deposit.flag.value;
      pending := pending[id := deposit.(flag := None, flaggedAt := 0)];
      return Ok(()), [DepositUnflagged(id, reason)];
    }

    /** One ID of an admit: inserts the deposit's commitments when it is eligible, and returns the
        status after it, whether it was admitted and its events. The appender is opened and saved
        for each deposit. */
    method AdmitOne(env: Env, id: nat, status: Status, previous: Option<nat>, ghost start: Spec.VaultState, ghost a: Spec.Admitting)
      returns (r: Result<Status, Error>, took: bool, events: seq<Event>)
      requires Valid() && a.status == status && a.previous == previous && a.leaves == leaves && a.pending == pending
      requires start.host == host && start.limits == limits && start.config == config
      modifies this`tree, this`leaves, this`pending
      ensures Valid()
      ensures r.Err? ==> Spec.AdmitOne(start, env, id, a) == Err(r.error)
      ensures r.Ok? ==>
        (Spec.AdmitOne(start, env, id, a) ==
         Ok(Spec.Admitting(r.value, leaves, pending, Some(id), if took then a.admitted + [id] else a.admitted, a.events + events)))
    {
      took, events := false, [];
      assert a.events + [] == a.events;
      if previous.Some? && id <= previous.value {
        return Err(BadIds), false, [];
      }
      if id !in pending {
        return Ok(status), false, [];
      }
      var deposit := pending[id];
      var delay := Max(deposit.delay, Spec.Delay(config, limits, deposit.amount));
      if deposit.flag.Some? || id > status.attestedUpTo || env.now < SaturatingAdd(deposit.createdAt, delay) {
        return Ok(status), false, [];
      }
      if !VaultTree.HasRoom(host.depth, tree.nextLeaf) {
        return Err(TreeFull), false, [];
      }
      var index := tree.nextLeaf;
      events := InsertPair(deposit.commitment0, deposit.commitment1, deposit.encryptedOutput0, deposit.encryptedOutput1);
      assert a.events + (events + [DepositAdmitted(id, index, index + 1)]) == a.events + events + [DepositAdmitted(id, index, index + 1)];
      pending := pending - {id};
      if !InI128(status.pendingTotal - deposit.amount) {
        return Err(Overflow), false, [];
      }
      return Ok(status.(pendingTotal := status.pendingTotal - deposit.amount)), true,
             events + [DepositAdmitted(id, index, index + 1)];
    }

    method Admit(env: Env, ids: seq<nat>) returns (r: Result<seq<nat>, Error>, events: seq<Event>)
      requires Valid()
      modifies this
      ensures Valid()
      ensures Spec.Outcome(r, State(), events, []) == Spec.Admit(old(State()), env, ids)
    {
      var status := this.status;
      if status.Halted(env.now) {
        return Err(Halted), [];
      }
      var saved := Save();
      ghost var start, leavesBefore := State(), leaves;
      var admitted: seq<nat>, previous: Option<nat> := [], None;
      events := [];
      for i := 0 to |ids|
        invariant Valid() && State() == start.(leaves := leaves, pending := pending)
        invariant Spec.AdmitLoop(start, env, ids[i..], Spec.Admitting(status, leaves, pending, previous, admitted, events)) ==
                  Spec.AdmitLoop(start, env, ids, Spec.AdmitStart(start))
      {
        assert ids[i..][1..] == ids[i + 1..];
        hide Spec.AdmitOne;
        ghost var a := Spec.Admitting(status, leaves, pending, previous, admitted, events);
        var next, took, more := AdmitOne(env, ids[i], status, previous, start, a);
        if next.Err? {
          Restore(saved);
          leaves := leavesBefore;
          return Err(next.error), [];
        }
        status, previous, events := next.value, Some(ids[i]), events + more;
        if took {
          admitted := admitted + [ids[i]];
        }
      }
      this.status := status;
      r := Ok(admitted);
    }

    /** Gives a pending deposit back. A failure leaves its writes to the caller to undo. */
    method ReturnDeposit(env: Env, id: nat, reason: nat)
      returns (r: Result<(), Error>, events: seq<Event>, transfers: seq<Transfer>)
      requires Valid() && id in pending
      modifies this
      ensures Valid()
      ensures Spec.Outcome(r, State(), events, transfers) == Spec.ReturnDeposit(old(State()), env, id, reason)
    {
      var saved := Save();
      var deposit := pending[id];
      pending := pending - {id};
      var status := this.status;
      if !InI128(status.tvl - deposit.amount) || !InI128(status.pendingTotal - deposit.amount) {
        Restore(saved);
        return Err(Overflow), [], [];
      }
      this.status := status.(tvl := status.tvl - deposit.amount, pendingTotal := status.pendingTotal - deposit.amount);
      if !Spec.Takes(env, 0, balance, deposit.amount) {
        Restore(saved);
        return Err(TransferRefused), [], [];
      }
      balance := Spec.Debit(host, balance, deposit.depositor, deposit.amount);
      return Ok(()), [DepositRefunded(id, reason)], [Returned(deposit.depositor, deposit.amount)];
    }

    method Cancel(env: Env, id: nat) returns (r: Result<(), Error>, events: seq<Event>, transfers: seq<Transfer>)
      requires Valid()
      modifies this
      ensures Valid()
      ensures Spec.Outcome(r, State(), events, transfers) == Spec.Cancel(old(State()), env, id)
    {
      if id !in pending {
        return Err(UnknownDeposit), [], [];
      }
      if pending[id].depositor !in env.signers {
        return Err(Unauthorized), [], [];
      }
      r, events, transfers := ReturnDeposit(env, id, 0);
    }

    method Refund(env: Env, id: nat) returns (r: Result<(), Error>, events: seq<Event>, transfers: seq<Transfer>)
      requires Valid()
      modifies this
      ensures Valid()
      ensures Spec.Outcome(r, State(), events, transfers) == Spec.Refund(old(State()), env, id)
    {
      if id !in pending {
        return Err(UnknownDeposit), [], [];
      }
      var deposit := pending[id];
      if deposit.flag == None {
        return Err(NotFlagged), [], [];
      }
      if env.now < SaturatingAdd(deposit.flaggedAt, REFUND_DELAY) {
        return Err(RefundTooEarly), [], [];
      }
      r, events, transfers := ReturnDeposit(env, id, deposit.flag.value);
    }

    method SetPause(env: Env, deposits: bool, transfers: bool) returns (r: Result<(), Error>, events: seq<Event>)
      requires Valid()
      modifies this
      ensures Valid()
      ensures Spec.Outcome(r, State(), events, []) == Spec.SetPause(old(State()), env, deposits, transfers)
    {
      if config.guardian !in env.signers {
        return Err(Unauthorized), [];
      }
      status := status.(depositsPaused := deposits, transfersPaused := transfers);
      return Ok(()), [Paused(deposits, transfers)];
    }

    method Halt(env: Env) returns (r: Result<(), Error>, events: seq<Event>)
      requires Valid()
      modifies this
      ensures Valid()
      ensures Spec.Outcome(r, State(), events, []) == Spec.Halt(old(State()), env)
    {
      if config.guardian !in env.signers {
        return Err(Unauthorized), [];
      }
      if env.now < status.nextHaltAt {
        return Err(HaltCooldown), [];
      }
      var until := env.now + HALT_DURATION;
      if until + HALT_COOLDOWN > U64_MAX {
        return Err(Trapped), [];
      }
      status := status.(haltedUntil := until, nextHaltAt := until + HALT_COOLDOWN);
      return Ok(()), [HaltedEvent(until)];
    }

    method Resume(env: Env) returns (r: Result<(), Error>, events: seq<Event>)
      requires Valid()
      modifies this
      ensures Valid()
      ensures Spec.Outcome(r, State(), events, []) == Spec.Resume(old(State()), env)
    {
      if config.guardian !in env.signers {
        return Err(Unauthorized), [];
      }
      if !status.Halted(env.now) {
        return Err(NotHalted), [];
      }
      if env.now + HALT_COOLDOWN > U64_MAX {
        return Err(Trapped), [];
      }
      status := status.(haltedUntil := env.now, nextHaltAt := env.now + HALT_COOLDOWN);
      return Ok(()), [Resumed(status.nextHaltAt)];
    }

    method SetLimits(env: Env, limits: Limits) returns (r: Result<(), Error>, events: seq<Event>)
      requires Valid()
      modifies this
      ensures Valid()
      ensures Spec.Outcome(r, State(), events, []) == Spec.SetLimits(old(State()), env, limits)
    {
      events := [];
      if config.guardian !in env.signers {
        return Err(Unauthorized), [];
      }
      if Spec.ChangeError(this.limits, limits).Some? {
        return Err(Spec.ChangeError(this.limits, limits).value), [];
      }
      if Spec.Tightens(this.limits, limits) {
        if queuedLimits.Some? {
          events := [LimitsCancelled(queuedLimits.value.limits, queuedLimits.value.readyAt)];
          queuedLimits := None;
        }
        this.limits := limits;
        events := events + [LimitsApplied(limits, env.now)];
      } else {
        var readyAt := env.now + LOOSENING_DELAY;
        if readyAt > U64_MAX {
          return Err(Trapped), [];
        }
        queuedLimits := Some(QueuedLimits(limits, readyAt));
        events := [LimitsQueued(limits, readyAt)];
      }
      r := Ok(());
    }

    method ApplyLimits(env: Env) returns (r: Result<(), Error>, events: seq<Event>)
      requires Valid()
      modifies this
      ensures Valid()
      ensures Spec.Outcome(r, State(), events, []) == Spec.ApplyLimits(old(State()), env)
    {
      if queuedLimits == None {
        return Err(NoQueuedLimits), [];
      }
      var queued := queuedLimits.value;
      if env.now < queued.readyAt {
        return Err(LimitsNotReady), [];
      }
      if Spec.ChangeError(limits, queued.limits).Some? {
        return Err(Spec.ChangeError(limits, queued.limits).value), [];
      }
      limits, queuedLimits := queued.limits, None;
      return Ok(()), [LimitsApplied(queued.limits, queued.readyAt)];
    }

    method CancelLimits(env: Env) returns (r: Result<(), Error>, events: seq<Event>)
      requires Valid()
      modifies this
      ensures Valid()
      ensures Spec.Outcome(r, State(), events, []) == Spec.CancelLimits(old(State()), env)
    {
      if config.guardian !in env.signers {
        return Err(Unauthorized), [];
      }
      if queuedLimits == None {
        return Err(NoQueuedLimits), [];
      }
      var queued := queuedLimits.value;
      queuedLimits := None;
      return Ok(()), [LimitsCancelled(queued.limits, queued.readyAt)];
    }
  }
}
