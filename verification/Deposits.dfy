/** Deposits from their shield to the tree, over whole runs: what is taken in, how long it waits, and what one
    depositor may bring in a day. */
module Deposits {
  import opened Common
  import opened Merkle
  import opened VaultTypes
  import opened VaultSpec
  import opened VaultInvariant
  import opened VaultRuns
  import opened EntryQueue
  import opened Checks
  import Payees

  // ---------------------------------------------------------------------------------------------
  // Waiting

  /** What a pending deposit keeps from its shield until it leaves the queue: everything but its flag. */
  predicate FromShield(s: VaultState, env: Env, call: Call, id: nat, d: PendingDeposit) {
    && call.ShieldCall? && |call.proof.outputCommitments| == 2
    && id == s.status.nextDepositId
    && d.depositor == call.depositor && d.depositor in env.signers
    && d.amount == call.ext.extAmount
    && d.commitment0 == call.proof.outputCommitments[0] && d.commitment1 == call.proof.outputCommitments[1]
    && d.encryptedOutput0 == call.ext.encryptedOutput0 && d.encryptedOutput1 == call.ext.encryptedOutput1
    && d.createdAt == env.now
    && d.delay == Wait(s.config, s.limits, d.amount)
  }

  /** A call adds a deposit only as its shield describes it, under the next ID. */
  lemma AddsFromShield(s: VaultState, env: Env, call: Call, id: nat)
    requires Solvent(s)
    ensures var after := Step(s, env, call).state;
            id in after.pending && id !in s.pending ==> FromShield(s, env, call, id, after.pending[id]) && after.pending[id].flag == None
  {
    hide Solvent;
    match call
    case ShieldCall(proof, ext, depositor) => ShieldAdds(s, env, proof, ext, depositor, id);
    case TransactCall(proof, ext, submitter) => TransactKeepsPending(s, env, proof, ext, submitter);
    case AdmitCall(ids) => AdmitAddsNone(s, env, ids);
    case ReleaseCall(max) => ReleaseAddsNone(s, env, max);
    case _ => OthersAddNothing(s, env, call, id);
  }

  lemma ShieldAdds(s: VaultState, env: Env, proof: TxProof, ext: ExtData, depositor: Address, id: nat)
    ensures var after := Shield(s, env, proof, ext, depositor).state;
            id in after.pending && id !in s.pending ==>
              FromShield(s, env, ShieldCall(proof, ext, depositor), id, after.pending[id]) && after.pending[id].flag == None
  {
  }

  lemma TransactKeepsPending(s: VaultState, env: Env, proof: TxProof, ext: ExtData, submitter: Address)
    ensures Transact(s, env, proof, ext, submitter).state.pending == s.pending
  {
    hide TransactError;
  }

  lemma OthersAddNothing(s: VaultState, env: Env, call: Call, id: nat)
    requires !call.ShieldCall? && !call.TransactCall? && !call.ReleaseCall? && !call.AdmitCall?
    ensures id in Step(s, env, call).state.pending ==> id in s.pending
  {
  }

  /** Every pending deposit of a run came from a shield of that run, at the time and with the wait it keeps. */
  lemma {:induction false} PendingHasShield(s: VaultState, steps: seq<Timed>, n: nat, id: nat) returns (j: nat)
    requires Solvent(s) && s.pending == map[] && n <= |steps| && id in StateAt(s, steps, n).pending
    ensures j < n && FromShield(StateAt(s, steps, j), steps[j].env, steps[j].call, id, StateAt(s, steps, n).pending[id])
    ensures forall k :: j < k <= n ==> id in StateAt(s, steps, k).pending
  {
    hide Step, Solvent, Fate;
    var before := StateAt(s, steps, n - 1);
    RunSolvent(s, steps, n - 1);
    if id in before.pending {
      j := PendingHasShield(s, steps, n - 1, id);
      DepositFate(before, steps[n - 1].env, steps[n - 1].call, id);
      StaysSame(before, steps[n - 1].env, Step(before, steps[n - 1].env, steps[n - 1].call), id);
    } else {
      j := n - 1;
      AddsFromShield(before, steps[j].env, steps[j].call, id);
    }
  }

  lemma StaysSame(s: VaultState, env: Env, after: Effect, id: nat)
    requires id in s.pending && id in after.state.pending && Fate(s, env, after, id)
    ensures after.state.pending[id] == s.pending[id].(flag := after.state.pending[id].flag, flaggedAt := after.state.pending[id].flaggedAt)
  {
  }

  /** No deposit enters the tree early: one that an admission takes was shielded by an earlier call of the run, and
      its amount has waited the delay it had under the limits of that call, and the delay it has under the limits
      now. */
  lemma AdmittedAfterItsWait(host: Host, config: Config, limits: Limits, steps: seq<Timed>, i: nat, id: nat) returns (j: nat)
    requires LimitsError(limits) == None && i < |steps| && steps[i].call.AdmitCall?
    requires var s := Deployed(host, config, limits);
             id in StateAt(s, steps, i).pending && id !in StateAt(s, steps, i + 1).pending
    ensures var s := Deployed(host, config, limits);
            var d, now := StateAt(s, steps, i).pending[id], steps[i].env.now;
            && j < i && FromShield(StateAt(s, steps, j), steps[j].env, steps[j].call, id, d)
            && now >= SaturatingAdd(steps[j].env.now, if d.amount < StateAt(s, steps, j).limits.largeDepositThreshold
                                                      then config.delaySmall else config.delayLarge)
            && now >= SaturatingAdd(steps[j].env.now, if d.amount < StateAt(s, steps, i).limits.largeDepositThreshold
                                                      then config.delaySmall else config.delayLarge)
            && d.flag == None && id <= StateAt(s, steps, i).status.attestedUpTo
  {
    var s := Deployed(host, config, limits);
    DeployedSolvent(host, config, limits);
    j := PendingHasShield(s, steps, i, id);
    RunSolvent(s, steps, i);
    RunSolvent(s, steps, j);
    hide Solvent, StateAt;
    AdmitFate(StateAt(s, steps, i), steps[i].env, steps[i].call.ids, id);
    AdmitReturnsNone(StateAt(s, steps, i), steps[i].env, steps[i].call.ids);
  }

  lemma AdmitReturnsNone(s: VaultState, env: Env, ids: seq<nat>)
    ensures Admit(s, env, ids).transfers == []
  {
  }

  // ---------------------------------------------------------------------------------------------
  // Admission

  predicate Increasing(ids: seq<nat>) {
    forall i, j :: 0 <= i < j < |ids| ==> ids[i] < ids[j]
  }

  /** The listed deposits that are due, in the order of the list. */
  ghost function DueOf(s: VaultState, now: nat, ids: seq<nat>): seq<nat> {
    if ids == [] then []
    else (if ids[0] in s.pending && Due(s, now, ids[0]) then [ids[0]] else []) + DueOf(s, now, ids[1..])
  }

  /** The commitments of listed deposits, pair by pair. */
  ghost function PairsOf(pending: map<nat, PendingDeposit>, ids: seq<nat>): seq<Field>
    requires forall i :: 0 <= i < |ids| ==> ids[i] in pending
  {
    if ids == [] then []
    else [pending[ids[0]].commitment0, pending[ids[0]].commitment1] + PairsOf(pending, ids[1..])
  }

  lemma {:induction false} DueArePending(s: VaultState, now: nat, ids: seq<nat>)
    ensures forall i :: 0 <= i < |DueOf(s, now, ids)| ==> DueOf(s, now, ids)[i] in s.pending
    ensures forall id :: id in DueOf(s, now, ids) <==> id in ids && id in s.pending && Due(s, now, id)
  {
    if ids != [] {
      DueArePending(s, now, ids[1..]);
      assert ids == [ids[0]] + ids[1..];
      assert DueOf(s, now, ids) == (if ids[0] in s.pending && Due(s, now, ids[0]) then [ids[0]] else []) + DueOf(s, now, ids[1..]);
    }
  }

  /** Where an admission stands: the listed IDs still to come are as the call found them. */
  ghost predicate ToCome(s: VaultState, a: Admitting) {
    && a.status.attestedUpTo == s.status.attestedUpTo
    && forall id: nat :: (a.previous.Some? ==> a.previous.value < id) ==>
         (id in a.pending <==> id in s.pending) && (id in s.pending ==> a.pending[id] == s.pending[id])
  }

  lemma AdmitOneTakes(s: VaultState, env: Env, id: nat, a: Admitting)
    requires ToCome(s, a) && AdmitOne(s, env, id, a).Ok?
    ensures var next, takes := AdmitOne(s, env, id, a).value, id in s.pending && Due(s, env.now, id);
            && (a.previous.Some? ==> a.previous.value < id)
            && next.previous == Some(id) && ToCome(s, next)
            && next.admitted == a.admitted + (if takes then [id] else [])
            && next.leaves == a.leaves + (if takes then [s.pending[id].commitment0, s.pending[id].commitment1] else [])
            && next.pending == (if takes then a.pending - {id} else a.pending)
  {
    if id in s.pending {
      EligibleIsDue(s, env.now, id);
    }
  }

  /** From one point of an admission to another, these deposits were taken, in this order. */
  ghost predicate Took(s: VaultState, a: Admitting, b: Admitting, due: seq<nat>) {
    && (forall i :: 0 <= i < |due| ==> due[i] in s.pending)
    && b.admitted == a.admitted + due
    && b.leaves == a.leaves + PairsOf(s.pending, due)
    && b.pending == a.pending - set id | id in due
  }

  lemma TookNone(s: VaultState, a: Admitting)
    ensures Took(s, a, a, [])
  {
    assert a.pending == a.pending - {};
  }

  lemma TookOneMore(s: VaultState, a: Admitting, b: Admitting, c: Admitting, id: nat, rest: seq<nat>)
    requires id in s.pending && Took(s, b, c, rest)
    requires b.admitted == a.admitted + [id] && b.pending == a.pending - {id}
    requires b.leaves == a.leaves + [s.pending[id].commitment0, s.pending[id].commitment1]
    ensures Took(s, a, c, [id] + rest)
  {
    assert ([id] + rest)[1..] == rest;
    assert (set k | k in [id] + rest) == {id} + set k | k in rest;
  }

  lemma {:induction false} AdmitLoopTakes(s: VaultState, env: Env, ids: seq<nat>, a: Admitting)
    requires ToCome(s, a) && AdmitLoop(s, env, ids, a).Ok?
    ensures Increasing(ids) && (ids != [] && a.previous.Some? ==> a.previous.value < ids[0])
    ensures Took(s, a, AdmitLoop(s, env, ids, a).value, DueOf(s, env.now, ids))
    decreases |ids|
  {
    hide AdmitOne, ToCome, Took, Due;
    if ids == [] {
      TookNone(s, a);
    } else {
      var id, next := ids[0], AdmitOne(s, env, ids[0], a).value;
      AdmitOneTakes(s, env, id, a);
      AdmitLoopTakes(s, env, ids[1..], next);
      var end, rest := AdmitLoop(s, env, ids[1..], next).value, DueOf(s, env.now, ids[1..]);
      if id in s.pending && Due(s, env.now, id) {
        TookOneMore(s, a, next, end, id, rest);
      } else {
        SameTook(s, a, next, end, rest);
        assert [] + rest == rest;
      }
    }
  }

  lemma SameTook(s: VaultState, a: Admitting, b: Admitting, c: Admitting, rest: seq<nat>)
    requires Took(s, b, c, rest) && b.admitted == a.admitted + [] && b.leaves == a.leaves + [] && b.pending == a.pending
    ensures Took(s, a, c, rest)
  {
  }

  /** An admission takes exactly those listed deposits that are due, in the order of their IDs, and inserts exactly
      their pairs; a list out of order fails, and a halted vault admits nothing. */
  lemma AdmitTakesDue(s: VaultState, env: Env, ids: seq<nat>)
    ensures var o, due := Admit(s, env, ids), DueOf(s, env.now, ids);
            && (o.result.Err? ==> Of(o) == Effect(s, [], []))
            && (o.result.Ok? ==>
                  && !s.status.Halted(env.now) && Increasing(ids)
                  && o.result.value == due && o.transfers == []
                  && (forall i :: 0 <= i < |due| ==> due[i] in s.pending)
                  && o.state.leaves == s.leaves + PairsOf(s.pending, due)
                  && o.state.pending == s.pending - set id | id in due)
  {
    if Admit(s, env, ids).result.Ok? {
      AdmitLoopTakes(s, env, ids, AdmitStart(s));
    }
  }

  /** It fails for no other reason than a halt, a list out of order, a full tree, or a total past its width. */
  lemma {:induction false} AdmitLoopFails(s: VaultState, env: Env, ids: seq<nat>, a: Admitting)
    requires AdmitLoop(s, env, ids, a).Err?
    ensures var error := AdmitLoop(s, env, ids, a).error;
            && (error == BadIds ==> !Increasing(ids) || (a.previous.Some? && ids[0] <= a.previous.value))
            && (error == BadIds || error == TreeFull || error == Overflow)
            && (error == TreeFull ==> |a.leaves| + 2 * |ids| > Pow2(s.host.depth))
    decreases |ids|
  {
    if AdmitOne(s, env, ids[0], a).Ok? {
      AdmitLoopFails(s, env, ids[1..], AdmitOne(s, env, ids[0], a).value);
    }
  }

  lemma AdmitFails(s: VaultState, env: Env, ids: seq<nat>)
    requires Admit(s, env, ids).result.Err?
    ensures match Admit(s, env, ids).result.error
            case Halted => s.status.Halted(env.now)
            case BadIds => !Increasing(ids)
            case TreeFull => |s.leaves| + 2 * |ids| > Pow2(s.host.depth)
            case Overflow => true
            case _ => false
  {
    if !s.status.Halted(env.now) {
      AdmitLoopFails(s, env, ids, AdmitStart(s));
    }
  }

  // ---------------------------------------------------------------------------------------------
  // Limits on deposits

  /** What a call brings in from an address. */
  ghost function ReceivedFrom(transfers: seq<Transfer>, depositor: Address): int {
    if transfers == [] then 0
    else
      var last := transfers[|transfers| - 1];
      ReceivedFrom(transfers[..|transfers| - 1], depositor) + if last.Received? && last.from == depositor then last.amount else 0
  }

  /** What a depositor brought in on a UTC day. */
  ghost function ShieldedOn(s: VaultState, steps: seq<Timed>, n: nat, depositor: Address, day: nat): int
    requires n <= |steps|
  {
    if n == 0 then 0
    else ShieldedOn(s, steps, n - 1, depositor, day) +
         if steps[n - 1].env.Day() == day then ReceivedFrom(EffectAt(s, steps, n - 1).transfers, depositor) else 0
  }

  lemma {:induction false} ReceivesNothing(transfers: seq<Transfer>, depositor: Address)
    requires forall i :: 0 <= i < |transfers| ==> !transfers[i].Received?
    ensures ReceivedFrom(transfers, depositor) == 0
  {
    if transfers != [] {
      ReceivesNothing(transfers[..|transfers| - 1], depositor);
    }
  }

  /** A call counts what it receives from a depositor on its own day, and takes no more than the limit on both. */
  ghost predicate CountsDeposits(s: VaultState, env: Env, after: Effect) {
    && (forall depositor, day :: DayTotal(after.state.dayTotals, depositor, day) ==
          DayTotal(s.dayTotals, depositor, day) + if day == env.Day() then ReceivedFrom(after.transfers, depositor) else 0)
    && (forall depositor :: ReceivedFrom(after.transfers, depositor) != 0 ==>
          && ReceivedFrom(after.transfers, depositor) > 0
          && DayTotal(after.state.dayTotals, depositor, env.Day()) <= s.limits.maxDailyPerDepositor
          && after.state.status.tvl <= s.limits.tvlCap)
  }

  lemma NoDeposit(s: VaultState, env: Env, after: Effect)
    requires after.state.dayTotals == s.dayTotals && forall i :: 0 <= i < |after.transfers| ==> !after.transfers[i].Received?
    ensures CountsDeposits(s, env, after)
  {
    forall depositor
      ensures ReceivedFrom(after.transfers, depositor) == 0
    {
      ReceivesNothing(after.transfers, depositor);
    }
  }

  lemma ShieldCounts(s: VaultState, env: Env, proof: TxProof, ext: ExtData, depositor: Address)
    ensures CountsDeposits(s, env, Of(Shield(s, env, proof, ext, depositor)))
  {
    var o := Shield(s, env, proof, ext, depositor);
    ShieldTakes(s, env, proof, ext, depositor);
    if o.result.Ok? {
      assert o.transfers[..0] == [];
      forall other
        ensures ReceivedFrom(o.transfers, other) == if other == depositor then ext.extAmount else 0
      {
      }
    } else {
      NoDeposit(s, env, Of(o));
    }
  }

  lemma StepCounts(s: VaultState, env: Env, call: Call)
    requires Solvent(s)
    ensures CountsDeposits(s, env, Step(s, env, call))
  {
    hide CountsDeposits, Solvent;
    match call
    case ShieldCall(proof, ext, depositor) => ShieldCounts(s, env, proof, ext, depositor);
    case ReleaseCall(max) =>
      Payees.ReleasePaysParties(s, env, max);
      NoDeposit(s, env, Of(Release(s, env, max)));
    case TransactCall(proof, ext, submitter) =>
      Payees.TransactPaysParties(s, env, proof, ext, submitter);
      TransactKeepsTotals(s, env, proof, ext, submitter);
      NoDeposit(s, env, Of(Transact(s, env, proof, ext, submitter)));
    case _ => OthersReceiveNothing(s, env, call);
  }

  lemma TransactKeepsTotals(s: VaultState, env: Env, proof: TxProof, ext: ExtData, submitter: Address)
    ensures Transact(s, env, proof, ext, submitter).state.dayTotals == s.dayTotals
  {
    hide TransactError;
  }

  lemma OthersReceiveNothing(s: VaultState, env: Env, call: Call)
    requires !call.ShieldCall? && !call.TransactCall? && !call.ReleaseCall?
    ensures CountsDeposits(s, env, Step(s, env, call))
  {
    NoDeposit(s, env, Step(s, env, call));
  }

  lemma {:induction false} DayTotalIs(s: VaultState, steps: seq<Timed>, n: nat, depositor: Address, day: nat)
    requires Solvent(s) && s.dayTotals == map[] && n <= |steps|
    ensures DayTotal(StateAt(s, steps, n).dayTotals, depositor, day) == ShieldedOn(s, steps, n, depositor, day)
  {
    if n > 0 {
      hide Step, Solvent, ReceivedFrom, DayTotal;
      DayTotalIs(s, steps, n - 1, depositor, day);
      RunSolvent(s, steps, n - 1);
      StepCounts(StateAt(s, steps, n - 1), steps[n - 1].env, steps[n - 1].call);
    } else {
      assert DayTotal(map[], depositor, day) == 0;
    }
  }

  /** Whatever one depositor brings in on one UTC day, over all its shields, is within the limit on it that stood at
      the last of them, and the total within its cap. */
  lemma DepositorIsCapped(host: Host, config: Config, limits: Limits, steps: seq<Timed>, i: nat, depositor: Address)
    requires LimitsError(limits) == None && i < |steps|
    requires ReceivedFrom(EffectAt(Deployed(host, config, limits), steps, i).transfers, depositor) != 0
    ensures var s := Deployed(host, config, limits);
            && ShieldedOn(s, steps, i + 1, depositor, steps[i].env.Day()) <= StateAt(s, steps, i).limits.maxDailyPerDepositor
            && StateAt(s, steps, i + 1).status.tvl <= StateAt(s, steps, i).limits.tvlCap
  {
    var s := Deployed(host, config, limits);
    DeployedSolvent(host, config, limits);
    DayTotalIs(s, steps, i + 1, depositor, steps[i].env.Day());
    RunSolvent(s, steps, i);
    hide Step, Solvent, ReceivedFrom, DayTotal, Deployed;
    StepCounts(StateAt(s, steps, i), steps[i].env, steps[i].call);
  }
}
