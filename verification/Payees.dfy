/** Who is paid, and how much: the transfers of a release, a transaction and a claim against what the exits
    and the transaction name. */
module Payees {
  import opened Common
  import opened VaultTypes
  import opened VaultSpec
  import opened VaultInvariant
  import opened VaultRuns

  /** The transfers made for one exit, in order. */
  ghost function Under(transfers: seq<Transfer>, id: nat): seq<Transfer> {
    if transfers == [] then []
    else
      var rest, last := transfers[..|transfers| - 1], transfers[|transfers| - 1];
      Under(rest, id) + if last.Paid? && last.exitId == Some(id) then [last] else []
  }

  lemma UnderOneMore(transfers: seq<Transfer>, to: Address, amount: int, id: nat, k: nat)
    ensures var more := [Paid(to, amount, Some(id))];
            Under(transfers + more, k) == Under(transfers, k) + if k == id then more else []
  {
    assert (transfers + [Paid(to, amount, Some(id))])[..|transfers|] == transfers;
  }

  /** One transfer, or none of nothing. */
  function ToParty(to: Address, amount: int, id: Option<nat>): seq<Transfer> {
    if amount > 0 then [Paid(to, amount, id)] else []
  }

  /** What is still owed under an ID, in the queue or stranded. */
  ghost function StillOwed(exits: map<nat, Exit>, stranded: map<nat, Exit>, id: nat): (int, int) {
    if id in exits then (exits[id].payout, exits[id].fee)
    else if id in stranded then (stranded[id].payout, stranded[id].fee)
    else (0, 0)
  }

  /** What an exit no longer owes was paid: the payout to its recipient, then the fee to its relayer. */
  ghost predicate PaidToParties(exit: Exit, left: (int, int), transfers: seq<Transfer>, id: nat) {
    transfers == ToParty(exit.recipient.address, exit.payout - left.0, Some(id)) + ToParty(exit.relayer, exit.fee - left.1, Some(id))
  }

  ghost predicate OnlyExits(s: VaultState, transfers: seq<Transfer>) {
    forall i :: 0 <= i < |transfers| ==> transfers[i].Paid? && transfers[i].exitId.Some? && transfers[i].exitId.value in s.exits
  }

  /** An exit keeps its parties wherever it is. */
  ghost predicate SameParties(before: Exit, after: Exit) {
    after.recipient == before.recipient && after.relayer == before.relayer && after.queuedAt == before.queuedAt
  }

  /** The release asks the asset contract twice for each exit, in ID order: for the payout and for the fee. What
      it pays was taken, what leaves the queue unpaid was refused, and no account is created with too little. */
  ghost predicate Answered(s: VaultState, env: Env, exits: map<nat, Exit>, stranded: map<nat, Exit>, id: nat)
    requires id in s.exits && id >= s.status.exitHead
  {
    var exit, left, k := s.exits[id], StillOwed(exits, stranded, id), id - s.status.exitHead;
    && (exit.payout > left.0 ==> env.asset.accepts(2 * k))
    && (exit.fee > left.1 ==> env.asset.accepts(2 * k + 1))
    && (id !in exits && left != (0, 0) ==>
          (left.0 == exit.payout > 0 && !env.asset.accepts(2 * k)) || (left.1 == exit.fee > 0 && !env.asset.accepts(2 * k + 1)))
    && (0 < exit.payout - left.0 < NATIVE_ACCOUNT_MIN <= exit.payout && s.host.native && exit.recipient.address.Account? ==>
          env.asset.hasAccount(k, exit.recipient.address))
  }

  ghost predicate Parties(s: VaultState, env: Env, exits: map<nat, Exit>, stranded: map<nat, Exit>, transfers: seq<Transfer>) {
    && OnlyExits(s, transfers)
    && (forall id :: id in s.exits ==>
          && id >= s.status.exitHead
          && PaidToParties(s.exits[id], StillOwed(exits, stranded, id), Under(transfers, id), id)
          && Answered(s, env, exits, stranded, id)
          && (id in exits ==> SameParties(s.exits[id], exits[id]))
          && (id in stranded ==> SameParties(s.exits[id], stranded[id])))
    && (forall id :: id !in s.exits ==> id !in exits)
    && (forall id :: id in stranded && id !in s.stranded ==> id in s.exits)
    && (forall id :: id in s.stranded ==> id in stranded && stranded[id] == s.stranded[id])
  }

  /** Each step of a release so far took one exit off the queue, or filled the window. */
  ghost predicate StepsCounted(s: VaultState, env: Env, r: Releasing) {
    && (r.count > 0 ==> env.asset.authorized(s.host.vault))
    && (r.today != s.limits.maxDailyOutflow ==> r.count == r.status.exitHead - s.status.exitHead)
    && (r.funds.Some? ==> r.funds.value == r.balance)
  }

  ghost predicate PaysParties(s: VaultState, env: Env, r: Releasing) {
    Parties(s, env, r.exits, r.stranded, r.transfers) && StepsCounted(s, env, r)
  }

  lemma AppendUnder(transfers: seq<Transfer>, to: Address, amount: int, id: nat, k: nat)
    ensures Under(transfers + Payment(to, amount, Some(id)), k) == Under(transfers, k) + if k == id then Payment(to, amount, Some(id)) else []
  {
    if amount > 0 {
      UnderOneMore(transfers, to, amount, id, k);
    } else {
      assert transfers + Payment(to, amount, Some(id)) == transfers;
    }
  }

  /** With funds read from the balance, a transfer is taken when the asset contract accepts it. */
  lemma PlanPays(s: VaultState, env: Env, r: Releasing)
    requires ReleaseHolds(s, env, r) && r.status.exitHead < r.status.exitTail && ReleasePlan(s, env, r).Try?
    requires r.funds.Some? ==> r.funds.value == r.balance
    ensures var plan := ReleasePlan(s, env, r);
            var payoutPaid := TryPay(env, 2 * r.count, r.balance, plan.payout);
            var after := Debit(s.host, r.balance, plan.exit.recipient.address, payoutPaid);
            && payoutPaid == (if env.asset.accepts(2 * r.count) then plan.payout else 0)
            && after == r.balance - payoutPaid
            && TryPay(env, 2 * r.count + 1, after, plan.fee) == (if env.asset.accepts(2 * r.count + 1) then plan.fee else 0)
            && plan.available == r.balance
            && (plan.payout < NATIVE_ACCOUNT_MIN <= plan.exit.payout && s.host.native && plan.exit.recipient.address.Account? ==>
                  env.asset.hasAccount(r.count, plan.exit.recipient.address))
  {
    PlanFits(s, env, r);
  }

  /** Where the exit at the head is after its step, and what it still owes. */
  lemma HeadOwes(r: Releasing, id: nat, exit: Exit, payout: int, fee: int, payoutPaid: int, feePaid: int)
    requires id in r.exits && id !in r.stranded
    requires payoutPaid == 0 || payoutPaid == payout
    requires feePaid == 0 || feePaid == fee
    ensures var next := Handled(r, id, exit, payout, fee, payoutPaid, feePaid);
            && StillOwed(next.exits, next.stranded, id) == (exit.payout - payoutPaid, exit.fee - feePaid)
            && (forall k :: k != id ==> (k in next.exits <==> k in r.exits) && (k in next.stranded <==> k in r.stranded))
            && (forall k :: k != id && k in r.exits ==> next.exits[k] == r.exits[k])
            && (forall k :: k != id && k in r.stranded ==> next.stranded[k] == r.stranded[k])
            && (id in next.exits ==> SameParties(exit, next.exits[id]))
            && (id in next.stranded ==> SameParties(exit, next.stranded[id]))
            && (id !in next.exits && (payoutPaid < exit.payout || feePaid < exit.fee) ==> payoutPaid < payout || feePaid < fee)
  {
  }

  lemma OtherExits(s: VaultState, env: Env, r: Releasing, next: Releasing, id: nat, k: nat)
    requires Parties(s, env, r.exits, r.stranded, r.transfers) && k in s.exits && k != id
    requires Under(next.transfers, k) == Under(r.transfers, k)
    requires k in next.exits <==> k in r.exits
    requires k in next.stranded <==> k in r.stranded
    requires k in r.exits ==> next.exits[k] == r.exits[k]
    requires k in r.stranded ==> next.stranded[k] == r.stranded[k]
    ensures PaidToParties(s.exits[k], StillOwed(next.exits, next.stranded, k), Under(next.transfers, k), k)
    ensures k >= s.status.exitHead && Answered(s, env, next.exits, next.stranded, k)
    ensures k in next.exits ==> SameParties(s.exits[k], next.exits[k])
    ensures k in next.stranded ==> SameParties(s.exits[k], next.stranded[k])
  {
    assert StillOwed(next.exits, next.stranded, k) == StillOwed(r.exits, r.stranded, k);
  }

  /** A step: what it tries to pay of the exit at the head, and what of it is taken. */
  lemma StepPays(s: VaultState, env: Env, r: Releasing) returns (exit: Exit, payout: int, fee: int, payoutPaid: int, feePaid: int)
    requires ReleaseHolds(s, env, r) && r.status.exitHead < r.status.exitTail && ReleaseOne(s, env, r).Next?
    requires r.funds.Some? ==> r.funds.value == r.balance
    ensures var id := r.status.exitHead;
            && id in r.exits && exit == r.exits[id] && id !in r.stranded
            && 0 <= payout <= exit.payout && 0 <= fee <= exit.fee
            && payoutPaid == (if env.asset.accepts(2 * r.count) then payout else 0)
            && feePaid == (if env.asset.accepts(2 * r.count + 1) then fee else 0)
            && ReleaseOne(s, env, r).r == Handled(PaidFor(s.host, r, exit, r.balance, payoutPaid, feePaid), id, exit, payout, fee,
                                                  payoutPaid, feePaid)
            && PaidFor(s.host, r, exit, r.balance, payoutPaid, feePaid).balance == r.balance - payoutPaid - feePaid
            && (payout < NATIVE_ACCOUNT_MIN <= exit.payout && s.host.native && exit.recipient.address.Account? ==>
                  env.asset.hasAccount(r.count, exit.recipient.address))
  {
    PlanFits(s, env, r);
    PlanPays(s, env, r);
    var plan := ReleasePlan(s, env, r);
    exit, payout, fee := plan.exit, plan.payout, plan.fee;
    payoutPaid := if env.asset.accepts(2 * r.count) then payout else 0;
    feePaid := if env.asset.accepts(2 * r.count + 1) then fee else 0;
    hide ReleasePlan, TryPay, Handled, Payment;
  }

  lemma StepTransfers(host: Host, r: Releasing, exit: Exit, available: int, payoutPaid: int, feePaid: int, k: nat)
    ensures var id := r.status.exitHead;
            var transfers := PaidFor(host, r, exit, available, payoutPaid, feePaid).transfers;
            Under(transfers, k) == Under(r.transfers, k) +
              if k == id then ToParty(exit.recipient.address, payoutPaid, Some(id)) + ToParty(exit.relayer, feePaid, Some(id)) else []
  {
    var id := r.status.exitHead;
    AppendUnder(r.transfers, exit.recipient.address, payoutPaid, id, k);
    AppendUnder(r.transfers + Payment(exit.recipient.address, payoutPaid, Some(id)), exit.relayer, feePaid, id, k);
  }

  /** The exit at the head, after its step. */
  ghost predicate HeadPaid(s: VaultState, env: Env, next: Releasing, id: nat) {
    && id in s.exits && s.status.exitHead <= id
    && PaidToParties(s.exits[id], StillOwed(next.exits, next.stranded, id), Under(next.transfers, id), id)
    && Answered(s, env, next.exits, next.stranded, id)
    && (id in next.exits ==> SameParties(s.exits[id], next.exits[id]))
    && (id in next.stranded ==> SameParties(s.exits[id], next.stranded[id]))
  }

  /** The other exits, and their transfers, are as they were. */
  ghost predicate OthersKept(r: Releasing, next: Releasing, id: nat) {
    && (forall k :: k != id ==> Under(next.transfers, k) == Under(r.transfers, k))
    && (forall k :: k != id ==> (k in next.exits <==> k in r.exits) && (k in next.stranded <==> k in r.stranded))
    && (forall k :: k != id && k in r.exits ==> next.exits[k] == r.exits[k])
    && (forall k :: k != id && k in r.stranded ==> next.stranded[k] == r.stranded[k])
  }

  /** While the window has room, the exit at the head is as the release found it, and unpaid. */
  lemma HeadIsUntouched(s: VaultState, env: Env, r: Releasing)
    requires InTurn(s, r) && PaysParties(s, env, r) && r.status.exitHead in r.exits && r.today != s.limits.maxDailyOutflow
    ensures var id := r.status.exitHead;
            && id in s.exits && r.exits[id] == s.exits[id] && s.status.exitHead <= id && r.count == id - s.status.exitHead
            && Under(r.transfers, id) == []
  {
    hide Answered, Under, SameParties, OnlyExits;
  }

  lemma HeadIsPaid(s: VaultState, env: Env, next: Releasing, id: nat, exit: Exit, payout: int, fee: int, payoutPaid: int, feePaid: int)
    requires id in s.exits && exit == s.exits[id] && s.status.exitHead <= id
    requires 0 <= payout <= exit.payout && 0 <= fee <= exit.fee
    requires payoutPaid == (if env.asset.accepts(2 * (id - s.status.exitHead)) then payout else 0)
    requires feePaid == (if env.asset.accepts(2 * (id - s.status.exitHead) + 1) then fee else 0)
    requires Under(next.transfers, id) == ToParty(exit.recipient.address, payoutPaid, Some(id)) + ToParty(exit.relayer, feePaid, Some(id))
    requires StillOwed(next.exits, next.stranded, id) == (exit.payout - payoutPaid, exit.fee - feePaid)
    requires id in next.exits ==> SameParties(exit, next.exits[id])
    requires id in next.stranded ==> SameParties(exit, next.stranded[id])
    requires id !in next.exits && (payoutPaid < exit.payout || feePaid < exit.fee) ==> payoutPaid < payout || feePaid < fee
    requires payout < NATIVE_ACCOUNT_MIN <= exit.payout && s.host.native && exit.recipient.address.Account? ==>
               env.asset.hasAccount(id - s.status.exitHead, exit.recipient.address)
    ensures HeadPaid(s, env, next, id)
  {
    hide Under, SameParties, StillOwed;
  }

  lemma OnlyExitsStill(s: VaultState, r: Releasing, exit: Exit, available: int, payoutPaid: int, feePaid: int)
    requires OnlyExits(s, r.transfers) && r.status.exitHead in s.exits
    ensures OnlyExits(s, PaidFor(s.host, r, exit, available, payoutPaid, feePaid).transfers)
  {
  }

  lemma HasOnlyExits(s: VaultState, env: Env, r: Releasing)
    requires PaysParties(s, env, r)
    ensures OnlyExits(s, r.transfers)
  {
  }

  lemma PaymentsKeepExits(host: Host, r: Releasing, id: nat, exit: Exit, payout: int, fee: int, payoutPaid: int, feePaid: int)
    ensures var paid := PaidFor(host, r, exit, r.balance, payoutPaid, feePaid);
            var next := Handled(paid, id, exit, payout, fee, payoutPaid, feePaid);
            && paid.exits == r.exits && paid.stranded == r.stranded && paid.funds == Some(r.balance - (payoutPaid + feePaid))
            && next.transfers == paid.transfers && next.balance == paid.balance && next.funds == paid.funds
  {
  }

  /** The step of an exit that is as the release found it. */
  lemma FirstPayments(s: VaultState, env: Env, r: Releasing, exit: Exit, payout: int, fee: int, payoutPaid: int, feePaid: int)
    requires var id := r.status.exitHead;
             && id in s.exits && id in r.exits && exit == s.exits[id] == r.exits[id] && s.status.exitHead <= id && r.count == id - s.status.exitHead
             && id !in r.stranded && Under(r.transfers, id) == []
    requires 0 <= payout <= exit.payout && 0 <= fee <= exit.fee
    requires payoutPaid == (if env.asset.accepts(2 * r.count) then payout else 0)
    requires feePaid == (if env.asset.accepts(2 * r.count + 1) then fee else 0)
    requires payout < NATIVE_ACCOUNT_MIN <= exit.payout && s.host.native && exit.recipient.address.Account? ==>
               env.asset.hasAccount(r.count, exit.recipient.address)
    ensures var id := r.status.exitHead;
            var next := Handled(PaidFor(s.host, r, exit, r.balance, payoutPaid, feePaid), id, exit, payout, fee, payoutPaid, feePaid);
            HeadPaid(s, env, next, id) && OthersKept(r, next, id)
  {
    hide PaidFor, Handled, StillOwed, SameParties, Under, HeadPaid, ToParty;
    var id := r.status.exitHead;
    var paid := PaidFor(s.host, r, exit, r.balance, payoutPaid, feePaid);
    var next := Handled(paid, id, exit, payout, fee, payoutPaid, feePaid);
    PaymentsKeepExits(s.host, r, id, exit, payout, fee, payoutPaid, feePaid);
    HeadOwes(paid, id, exit, payout, fee, payoutPaid, feePaid);
    forall k
      ensures Under(next.transfers, k) == Under(r.transfers, k) +
        if k == id then ToParty(exit.recipient.address, payoutPaid, Some(id)) + ToParty(exit.relayer, feePaid, Some(id)) else []
    {
      StepTransfers(s.host, r, exit, r.balance, payoutPaid, feePaid, k);
    }
    HeadIsPaid(s, env, next, id, exit, payout, fee, payoutPaid, feePaid);
  }

  lemma StepPaysParties(s: VaultState, env: Env, r: Releasing, next: Releasing)
    requires ReleaseHolds(s, env, r) && InTurn(s, r) && PaysParties(s, env, r)
    requires r.status.exitHead < r.status.exitTail && ReleaseOne(s, env, r) == ReleaseStep.Next(next)
    ensures var id := r.status.exitHead;
            HeadPaid(s, env, next, id) && OthersKept(r, next, id) && next.funds == Some(next.balance) && OnlyExits(s, next.transfers)
  {
    hide ReleaseOne, ReleaseHolds, InTurn, Parties, HeadPaid, OthersKept, OnlyExits, PaidFor, Handled, Under, StillOwed, TryPay,
      ReleasePlan, Debit, Payment, GoodExit, RunQueue, Notes;
    StillRoom(s, env, r);
    var exit, payout, fee, payoutPaid, feePaid := StepPays(s, env, r);
    HeadIsUntouched(s, env, r);
    HasOnlyExits(s, env, r);
    OnlyExitsStill(s, r, exit, r.balance, payoutPaid, feePaid);
    PaymentsKeepExits(s.host, r, r.status.exitHead, exit, payout, fee, payoutPaid, feePaid);
    FirstPayments(s, env, r, exit, payout, fee, payoutPaid, feePaid);
  }

  lemma ReleaseOnePays(s: VaultState, env: Env, r: Releasing)
    requires ReleaseHolds(s, env, r) && InTurn(s, r) && PaysParties(s, env, r)
    requires r.status.exitHead < r.status.exitTail && ReleaseOne(s, env, r).Next?
    ensures PaysParties(s, env, ReleaseOne(s, env, r).r)
  {
    StillRoom(s, env, r);
    StepPaysParties(s, env, r, ReleaseOne(s, env, r).r);
    StepMovesHead(s, env, r);
    ReleaseOneKeeps(s, env, r);
    HeadIsNew(s, env, r);
    VaultIsAuthorized(s, env, r);
    hide ReleaseOne, ReleaseHolds, InTurn;
    PartiesOneMore(s, env, r, ReleaseOne(s, env, r).r, r.status.exitHead);
  }

  /** The first step of a release makes sure that the vault itself may pay. */
  lemma VaultIsAuthorized(s: VaultState, env: Env, r: Releasing)
    requires ReleaseHolds(s, env, r) && StepsCounted(s, env, r) && ReleaseOne(s, env, r).Next?
    ensures env.asset.authorized(s.host.vault)
  {
  }

  lemma HeadIsNew(s: VaultState, env: Env, r: Releasing)
    requires ReleaseHolds(s, env, r) && PaysParties(s, env, r) && r.status.exitHead < r.status.exitTail
    ensures r.status.exitHead !in s.stranded
  {
    hide Answered, PaidToParties, SameParties;
  }

  lemma PartiesOneMore(s: VaultState, env: Env, r: Releasing, next: Releasing, id: nat)
    requires Parties(s, env, r.exits, r.stranded, r.transfers) && id !in s.stranded
    requires HeadPaid(s, env, next, id) && OthersKept(r, next, id) && OnlyExits(s, next.transfers)
    ensures Parties(s, env, next.exits, next.stranded, next.transfers)
  {
    hide PaidToParties, Answered, SameParties, Under, OnlyExits;
    forall k | k in s.exits && k != id
      ensures k >= s.status.exitHead
      ensures PaidToParties(s.exits[k], StillOwed(next.exits, next.stranded, k), Under(next.transfers, k), k)
      ensures Answered(s, env, next.exits, next.stranded, k)
      ensures k in next.exits ==> SameParties(s.exits[k], next.exits[k])
      ensures k in next.stranded ==> SameParties(s.exits[k], next.stranded[k])
    {
      OtherExits(s, env, r, next, id, k);
    }
  }

  lemma {:induction false} ReleaseLoopPays(s: VaultState, env: Env, max: nat, r: Releasing)
    requires ReleaseHolds(s, env, r) && InTurn(s, r) && PaysParties(s, env, r) && ReleaseLoop(s, env, max, r).Ok?
    ensures PaysParties(s, env, ReleaseLoop(s, env, max, r).value)
    decreases max - r.count
  {
    hide ReleaseHolds, InTurn, PaysParties, ReleasePlan, Handled;
    if r.count < max && r.status.exitHead < r.status.exitTail && ReleaseOne(s, env, r).Next? {
      ReleaseOneKeeps(s, env, r);
      ReleaseOneInTurn(s, env, r);
      ReleaseOnePays(s, env, r);
      ReleaseLoopPays(s, env, max, ReleaseOne(s, env, r).r);
    }
  }

  lemma StartPays(s: VaultState, env: Env)
    requires Solvent(s)
    ensures var r := ReleaseStart(s, env);
            ReleaseHolds(s, env, r) && InTurn(s, r) && PaysParties(s, env, r)
  {
  }

  lemma {:induction false} AtMostMax(s: VaultState, env: Env, max: nat, r: Releasing)
    requires r.count <= max && ReleaseLoop(s, env, max, r).Ok?
    ensures ReleaseLoop(s, env, max, r).value.count <= max
    decreases max - r.count
  {
    hide ReleasePlan, TryPay, Debit;
    if r.count < max && r.status.exitHead < r.status.exitTail && ReleaseOne(s, env, r).Next? {
      AtMostMax(s, env, max, ReleaseOne(s, env, r).r);
    }
  }

  /** A release that succeeds and handles no exit had nothing to do: no exit is queued, the day's window is full, or
      the head waits for a missing account that what is left of the window could not create. */
  lemma ReleaseIsIdle(s: VaultState, env: Env, max: nat)
    requires Solvent(s) && max > 0 && Release(s, env, max).result == Ok(0)
    ensures || s.exits == map[]
            || s.status.OutflowOn(env.Day()) == s.limits.maxDailyOutflow
            || var head := s.status.exitHead;
               && head in s.exits && s.host.native && s.exits[head].recipient.address.Account?
               && !env.asset.hasAccount(0, s.exits[head].recipient.address)
               && s.limits.maxDailyOutflow - s.status.OutflowOn(env.Day()) < NATIVE_ACCOUNT_MIN <= s.exits[head].payout
  {
    QueueIsEmpty(s);
    var start := ReleaseStart(s, env);
    if s.status.exitHead < s.status.exitTail {
      IdleStep(s, env);
      if ReleaseOne(s, env, start).Next? {
        CountGrows(s, env, max, ReleaseOne(s, env, start).r);
      }
    }
    hide ReleaseOne, Solvent;
  }

  lemma IdleStep(s: VaultState, env: Env)
    requires Solvent(s) && s.status.exitHead < s.status.exitTail
    ensures ReleaseOne(s, env, ReleaseStart(s, env)).Next? ==> ReleaseOne(s, env, ReleaseStart(s, env)).r.count == 1
    ensures ReleaseOne(s, env, ReleaseStart(s, env)).Stop? ==>
              || s.status.OutflowOn(env.Day()) == s.limits.maxDailyOutflow
              || var head := s.status.exitHead;
                 && head in s.exits && s.host.native && s.exits[head].recipient.address.Account?
                 && !env.asset.hasAccount(0, s.exits[head].recipient.address)
                 && s.limits.maxDailyOutflow - s.status.OutflowOn(env.Day()) < NATIVE_ACCOUNT_MIN <= s.exits[head].payout
  {
    hide TryPay, Debit, EntryQueue;
  }

  lemma {:induction false} CountGrows(s: VaultState, env: Env, max: nat, r: Releasing)
    requires ReleaseLoop(s, env, max, r).Ok?
    ensures ReleaseLoop(s, env, max, r).value.count >= r.count
    decreases max - r.count
  {
    hide ReleasePlan, TryPay, Debit;
    if r.count < max && r.status.exitHead < r.status.exitTail && ReleaseOne(s, env, r).Next? {
      CountGrows(s, env, max, ReleaseOne(s, env, r).r);
    }
  }

  /** A release that handled no exit did nothing. */
  lemma NothingIsNothing(s: VaultState, env: Env, max: nat)
    requires Solvent(s) && ReleaseLoop(s, env, max, ReleaseStart(s, env)).Ok?
    ensures var r := ReleaseLoop(s, env, max, ReleaseStart(s, env)).value;
            r.count == 0 ==> r == ReleaseStart(s, env)
  {
    StartPays(s, env);
    ReleaseLoopKeeps(s, env, max, ReleaseStart(s, env));
    hide ReleaseLoop;
  }

  /** Who a release pays: under each queued exit's ID, at most one payment to its recipient and then at most one to
      its relayer, of what its payout and its fee fell by, and under no other ID anything. What is paid was
      taken by the asset contract, what leaves the queue unpaid was refused by it, and a missing account never
      gets a part too small to create it. */
  lemma ReleasePaysParties(s: VaultState, env: Env, max: nat)
    requires Solvent(s)
    ensures var o := Release(s, env, max);
            && Parties(s, env, o.state.exits, o.state.stranded, o.transfers)
            && (o.result.Err? ==> Of(o) == Effect(s, [], []))
            && (o.result.Ok? ==> o.result.value <= max && (o.result.value > 0 ==> env.asset.authorized(s.host.vault)))
  {
    StartPays(s, env);
    hide ReleaseLoop, Solvent, Parties, InTurn, ReleaseHolds;
    if Release(s, env, max).result.Ok? {
      ReleaseLoopPays(s, env, max, ReleaseStart(s, env));
      AtMostMax(s, env, max, ReleaseStart(s, env));
      NothingIsNothing(s, env, max);
    }
  }

  /** Who a transaction pays: while others wait in the queue, or when the day's window has too little room for all
      of it, nobody yet, and an exit with its parties and amounts takes the tail; otherwise its payout goes to its
      recipient and then its fee to its relayer, at once. */
  lemma TransactPaysParties(s: VaultState, env: Env, proof: TxProof, ext: ExtData, submitter: Address)
    requires Solvent(s)
    ensures var o, due, tail := Transact(s, env, proof, ext, submitter), ext.fee - ext.extAmount, s.status.exitTail;
            var waits := due > 0 && (s.exits != map[] || s.status.OutflowOn(env.Day()) + due > s.limits.maxDailyOutflow);
            && (o.result.Err? ==> Of(o) == Effect(s, [], []))
            && (o.result.Ok? && waits ==>
                  && o.transfers == []
                  && tail !in s.exits
                  && o.state.exits == s.exits[tail := Exit(ext.recipient, -ext.extAmount, ext.relayer, ext.fee, env.now)])
            && (o.result.Ok? && !waits ==>
                  && o.transfers == ToParty(ext.recipient.address, -ext.extAmount, None) + ToParty(ext.relayer, ext.fee, None)
                  && o.state.exits == s.exits)
  {
    QueueIsEmpty(s);
    hide TransactError, Solvent;
  }

  lemma QueueIsEmpty(s: VaultState)
    requires Solvent(s)
    ensures s.exits == map[] <==> s.status.exitHead == s.status.exitTail
    ensures s.status.exitTail !in s.exits
  {
    assert s.status.exitHead < s.status.exitTail ==> s.status.exitHead in s.exits;
  }

  /** Whether a party can take a payment now: its account exists or the payment creates it, and it may hold the asset. */
  predicate CanTake(s: VaultState, env: Env, to: Address, creates: bool) {
    && env.asset.authorized(to)
    && (to.Account? ==> env.asset.hasAccount(0, to) || (s.host.native && creates))
  }

  /** A claim, open to anyone, moves the parts of a stranded exit whose party can take them now, each whole, to a new
      exit with the same parties at the tail; what it cannot move stays stranded. It pays nothing. */
  lemma ClaimMovesParts(s: VaultState, env: Env, id: nat)
    requires Solvent(s) && id in s.stranded
    ensures var o, exit, tail := Claim(s, env, id), s.stranded[id], s.status.exitTail;
            var movesPayout := exit.payout > 0 && CanTake(s, env, exit.recipient.address, exit.payout >= NATIVE_ACCOUNT_MIN);
            var movesFee := exit.fee > 0 && CanTake(s, env, exit.relayer, false);
            && (o.result.Ok? <==> !s.status.Halted(env.now) && (movesPayout || movesFee) && tail < U64_MAX)
            && (o.result.Err? ==> Of(o) == Effect(s, [], []))
            && (o.result.Ok? ==>
                  && o.transfers == [] && o.result.value == tail && tail !in s.exits
                  && o.state.exits == s.exits[tail := o.state.exits[tail]]
                  && SameParties(exit.(queuedAt := env.now), o.state.exits[tail])
                  && o.state.exits[tail].payout == (if movesPayout then exit.payout else 0)
                  && o.state.exits[tail].fee == (if movesFee then exit.fee else 0)
                  && (forall k :: k != id ==> (k in o.state.stranded <==> k in s.stranded))
                  && (forall k :: k != id && k in s.stranded ==> o.state.stranded[k] == s.stranded[k])
                  && var left := (if movesPayout then 0 else exit.payout, if movesFee then 0 else exit.fee);
                     && (id in o.state.stranded <==> left != (0, 0))
                     && (id in o.state.stranded ==>
                           o.state.stranded[id] == exit.(payout := left.0, fee := left.1)))
  {
    QueueIsEmpty(s);
    hide Solvent;
  }
}
