/** What the guardian can do to users over a whole run: how long it can halt the vault, and what it
    takes to loosen a limit. */
module Guardian {
  import opened Common
  import opened VaultTypes
  import opened VaultSpec
  import opened VaultInvariant
  import opened VaultRuns

  /** The times up to which the vault is halted and from which it may be halted again. */
  ghost predicate SameHalt(a: Status, b: Status) {
    a.haltedUntil == b.haltedUntil && a.nextHaltAt == b.nextHaltAt
  }

  /** The only two ways those times change. */
  ghost predicate HaltMoves(before: Status, now: nat, after: Status) {
    || SameHalt(before, after)
    || (now >= before.nextHaltAt && after.haltedUntil == now + HALT_DURATION && after.nextHaltAt == after.haltedUntil + HALT_COOLDOWN)
    || (now < before.haltedUntil && after.haltedUntil == now && after.nextHaltAt == now + HALT_COOLDOWN)
  }

  lemma ReleaseKeepsHalt(s: VaultState, env: Env, max: nat)
    requires Solvent(s)
    ensures SameHalt(s.status, Release(s, env, max).state.status)
  {
    if Release(s, env, max).result.Ok? {
      ReleaseLoopKeeps(s, env, max, ReleaseStart(s, env));
    }
  }

  lemma AdmitKeepsHalt(s: VaultState, env: Env, ids: seq<nat>)
    requires Solvent(s)
    ensures SameHalt(s.status, Admit(s, env, ids).state.status)
  {
    if Admit(s, env, ids).result.Ok? {
      AdmitLoopKeeps(s, env, ids, AdmitStart(s));
    }
  }

  lemma LimitCallsKeepHalt(s: VaultState, env: Env, call: Call)
    requires call.SetLimitsCall? || call.ApplyLimitsCall? || call.CancelLimitsCall?
    ensures SameHalt(s.status, Step(s, env, call).state.status)
  {
    hide LimitsError, Tightens;
  }

  lemma OthersKeepHalt(s: VaultState, env: Env, call: Call)
    requires !call.ReleaseCall? && !call.AdmitCall? && !call.HaltCall? && !call.ResumeCall?
    requires !call.SetLimitsCall? && !call.ApplyLimitsCall? && !call.CancelLimitsCall?
    ensures SameHalt(s.status, Step(s, env, call).state.status)
  {
    hide ShieldError, TransactError, SettleError, Eligible;
  }

  lemma StepHalts(s: VaultState, env: Env, call: Call)
    requires Solvent(s)
    ensures HaltMoves(s.status, env.now, Step(s, env, call).state.status)
  {
    match call
    case ReleaseCall(max) => ReleaseKeepsHalt(s, env, max);
    case AdmitCall(ids) => AdmitKeepsHalt(s, env, ids);
    case HaltCall =>
    case ResumeCall =>
    case SetLimitsCall(_) => LimitCallsKeepHalt(s, env, call);
    case ApplyLimitsCall => LimitCallsKeepHalt(s, env, call);
    case CancelLimitsCall => LimitCallsKeepHalt(s, env, call);
    case _ => OthersKeepHalt(s, env, call);
  }

  /** Every call of a run moves the halt in one of these ways, or not at all. */
  lemma HaltMovesAt(s: VaultState, steps: seq<Timed>, i: nat)
    requires Solvent(s) && i < |steps|
    ensures HaltMoves(StateAt(s, steps, i).status, steps[i].env.now, StateAt(s, steps, i + 1).status)
  {
    hide Step, Solvent, HaltMoves;
    RunSolvent(s, steps, i);
    StepHalts(StateAt(s, steps, i), steps[i].env, steps[i].call);
  }

  /** After every prefix of a run, a halt ends at most 72 hours after the last call, and the next is
      allowed exactly 7 days after it ends. */
  lemma {:induction false} HaltTimes(s: VaultState, steps: seq<Timed>, n: nat)
    requires Solvent(s) && s.status.haltedUntil == 0 && s.status.nextHaltAt == 0
    requires n <= |steps| && Ordered(steps)
    ensures var status := StateAt(s, steps, n).status;
            && (status.nextHaltAt == status.haltedUntil + HALT_COOLDOWN || (status.haltedUntil == 0 && status.nextHaltAt == 0))
            && (if n == 0 then status.haltedUntil == 0 else status.haltedUntil <= steps[n - 1].env.now + HALT_DURATION)
  {
    hide Step, Solvent, HaltMoves;
    if n > 0 {
      assert n > 1 ==> steps[n - 2].env.now <= steps[n - 1].env.now;
      hide StateAt, Ordered;
      HaltTimes(s, steps, n - 1);
      HaltMovesAt(s, steps, n - 1);
      NextHaltTimes(StateAt(s, steps, n - 1).status, steps[n - 1].env.now, StateAt(s, steps, n).status,
                    if n == 1 then 0 else steps[n - 2].env.now);
    }
  }

  lemma NextHaltTimes(before: Status, now: nat, after: Status, last: nat)
    requires HaltMoves(before, now, after) && last <= now
    requires before.nextHaltAt == before.haltedUntil + HALT_COOLDOWN || (before.haltedUntil == 0 && before.nextHaltAt == 0)
    requires before.haltedUntil == 0 || before.haltedUntil <= last + HALT_DURATION
    ensures after.nextHaltAt == after.haltedUntil + HALT_COOLDOWN || (after.haltedUntil == 0 && after.nextHaltAt == 0)
    ensures after.haltedUntil <= now + HALT_DURATION
  {
  }

  /** How many calls have landed once second `t` is over. */
  ghost function Landed(steps: seq<Timed>, t: nat, n: nat): (k: nat)
    requires n <= |steps|
    ensures k <= n
    ensures k > 0 ==> steps[k - 1].env.now <= t
    ensures k < n ==> steps[k].env.now > t
  {
    if n == 0 || steps[n - 1].env.now <= t then n else Landed(steps, t, n - 1)
  }

  /** Whether the vault is halted in second `t` of a run. */
  ghost predicate HaltedAt(s: VaultState, steps: seq<Timed>, t: nat) {
    StateAt(s, steps, Landed(steps, t, |steps|)).status.Halted(t)
  }

  /** A vault that is not halted and may not be halted yet stays as it is. */
  lemma {:induction false} Quiet(s: VaultState, steps: seq<Timed>, n: nat, k: nat)
    requires Solvent(s) && Ordered(steps) && n <= k <= |steps|
    requires var status := StateAt(s, steps, n).status;
             forall i :: n <= i < k ==> status.haltedUntil <= steps[i].env.now < status.nextHaltAt
    ensures SameHalt(StateAt(s, steps, n).status, StateAt(s, steps, k).status)
    decreases k - n
  {
    hide StateAt, Solvent, Ordered;
    if n < k {
      Quiet(s, steps, n, k - 1);
      HaltMovesAt(s, steps, k - 1);
    }
  }

  /** When the halt in force after `n` calls ends: on time, or when a later call resumes it. */
  ghost function HaltEnd(s: VaultState, steps: seq<Timed>, n: nat): nat
    requires n <= |steps|
    decreases |steps| - n
  {
    var status := StateAt(s, steps, n).status;
    if n == |steps| || steps[n].env.now >= status.haltedUntil then status.haltedUntil
    else if !SameHalt(status, StateAt(s, steps, n + 1).status) then steps[n].env.now
    else HaltEnd(s, steps, n + 1)
  }

  lemma {:induction false} HaltEndBounds(s: VaultState, steps: seq<Timed>, n: nat, t: nat)
    requires n <= |steps| && Ordered(steps)
    requires t < StateAt(s, steps, n).status.haltedUntil
    requires n < |steps| ==> t < steps[n].env.now
    ensures t < HaltEnd(s, steps, n) <= StateAt(s, steps, n).status.haltedUntil
    decreases |steps| - n
  {
    hide Step;
    if n < |steps| && steps[n].env.now < StateAt(s, steps, n).status.haltedUntil
       && SameHalt(StateAt(s, steps, n).status, StateAt(s, steps, n + 1).status) {
      HaltEndBounds(s, steps, n + 1, t);
    }
  }

  /** A halt in force in one second never halts another second between its end and a week later. */
  lemma {:induction false} WeekAfterHalt(s: VaultState, steps: seq<Timed>, n: nat, t: nat)
    requires Solvent(s) && s.status.haltedUntil == 0 && s.status.nextHaltAt == 0
    requires n <= |steps| && Ordered(steps)
    requires n <= Landed(steps, t, |steps|) && HaltedAt(s, steps, t)
    requires 0 < StateAt(s, steps, n).status.haltedUntil
    ensures t < HaltEnd(s, steps, n) || t >= HaltEnd(s, steps, n) + HALT_COOLDOWN
    decreases |steps| - n
  {
    hide StateAt, Solvent;
    HaltTimes(s, steps, n);
    var k, status := Landed(steps, t, |steps|), StateAt(s, steps, n).status;
    if k == n {
      if n < |steps| && steps[n].env.now < status.haltedUntil {
        HaltEndBounds(s, steps, n, t);
      }
    } else if steps[n].env.now >= status.haltedUntil {
      if t < status.nextHaltAt {
        QuietUntil(s, steps, n, k, t);
      }
    } else if SameHalt(status, StateAt(s, steps, n + 1).status) {
      WeekAfterHalt(s, steps, n + 1, t);
    } else {
      HaltMovesAt(s, steps, n);
      if t < steps[n].env.now + HALT_COOLDOWN {
        QuietUntil(s, steps, n + 1, k, t);
      }
    }
  }

  /** Through the calls that land by a second before the next halt is allowed, nothing moves. */
  lemma QuietUntil(s: VaultState, steps: seq<Timed>, n: nat, k: nat, t: nat)
    requires Solvent(s) && Ordered(steps) && n <= k <= |steps|
    requires n < |steps| && n < k ==> StateAt(s, steps, n).status.haltedUntil <= steps[n].env.now
    requires k > 0 ==> steps[k - 1].env.now <= t
    requires t < StateAt(s, steps, n).status.nextHaltAt
    ensures SameHalt(StateAt(s, steps, n).status, StateAt(s, steps, k).status)
  {
    forall i | n <= i < k
      ensures steps[n].env.now <= steps[i].env.now <= steps[k - 1].env.now
    {
    }
    hide StateAt, Solvent, Ordered, SameHalt;
    Quiet(s, steps, n, k);
  }

  lemma LandedInOrder(steps: seq<Timed>, a: nat, b: nat)
    requires Ordered(steps) && a <= b
    ensures Landed(steps, a, |steps|) <= Landed(steps, b, |steps|)
  {
    var i, j := Landed(steps, a, |steps|), Landed(steps, b, |steps|);
    forall x | 0 <= x < i
      ensures steps[x].env.now <= a
    {
      assert x < i - 1 ==> steps[x].env.now <= steps[i - 1].env.now;
    }
  }

  /** For every halted second there is an end at most 72 hours later, after which a full week is free
      of halts. */
  lemma HaltedSecond(s: VaultState, steps: seq<Timed>, m: nat) returns (end: nat)
    requires Solvent(s) && s.status.haltedUntil == 0 && s.status.nextHaltAt == 0 && Ordered(steps)
    requires HaltedAt(s, steps, m)
    ensures m < end <= m + HALT_DURATION
    ensures forall t: nat :: t >= m && HaltedAt(s, steps, t) ==> t < end || t >= end + HALT_COOLDOWN
  {
    var n := Landed(steps, m, |steps|);
    end := HaltEnd(s, steps, n);
    HaltTimes(s, steps, n);
    HaltEndBounds(s, steps, n, m);
    forall t: nat | t >= m && HaltedAt(s, steps, t)
      ensures t < end || t >= end + HALT_COOLDOWN
    {
      LandedInOrder(steps, m, t);
      WeekAfterHalt(s, steps, n, t);
    }
  }

  ghost function Seconds(from: int, end: int): set<int>
    decreases end - from
  {
    if from >= end then {} else Seconds(from, end - 1) + {end - 1}
  }

  lemma {:induction false} SecondsCount(from: int, end: int)
    requires from <= end
    ensures |Seconds(from, end)| == end - from
    ensures forall t :: t in Seconds(from, end) <==> from <= t < end
    decreases end - from
  {
    if from < end {
      SecondsCount(from, end - 1);
    }
  }

  lemma SubsetCount(a: set<int>, b: set<int>)
    requires a <= b
    ensures |a| <= |b|
  {
    assert b == a + (b - a);
  }

  lemma {:induction false} Least(a: set<int>, from: int, end: int) returns (m: int)
    requires forall t :: t in a ==> from <= t < end
    requires exists t :: t in a
    ensures m in a
    ensures forall t :: t in a ==> m <= t
    decreases end - from
  {
    if from in a {
      m := from;
    } else {
      m := Least(a, from + 1, end);
    }
  }

  ghost function HaltedSeconds(s: VaultState, steps: seq<Timed>, from: nat, end: nat): set<int> {
    set t: int | from <= t < end && t >= 0 && HaltedAt(s, steps, t)
  }

  /** In any span of ten days of any run, the vault is halted for at most 72 hours, however often the
      guardian halts and resumes it. */
  lemma HaltBudget(host: Host, config: Config, limits: Limits, steps: seq<Timed>, from: nat)
    requires LimitsError(limits) == None && Ordered(steps)
    ensures |HaltedSeconds(Deployed(host, config, limits), steps, from, from + 10 * DAY)| <= HALT_DURATION
  {
    var s, to := Deployed(host, config, limits), from + 10 * DAY;
    DeployedSolvent(host, config, limits);
    var halted := HaltedSeconds(s, steps, from, to);
    if halted != {} {
      assert |halted| > 0;
      var m := Least(halted, from, to);
      var end := HaltedSecond(s, steps, m);
      var again := end + HALT_COOLDOWN;
      SecondsCount(m, end);
      if again < to {
        SecondsCount(again, to);
        SubsetCount(halted, Seconds(m, end) + Seconds(again, to));
      } else {
        SubsetCount(halted, Seconds(m, end));
      }
    }
  }

  // ---------------------------------------------------------------------------------------------
  // Limits

  /** Whether any limit leaves users more room than before: a smaller least deposit, or a larger one of the others. */
  predicate Loosens(before: Limits, after: Limits) {
    || after.minDeposit < before.minDeposit
    || after.maxDeposit > before.maxDeposit
    || after.maxDailyPerDepositor > before.maxDailyPerDepositor
    || after.tvlCap > before.tvlCap
    || after.maxDailyOutflow > before.maxDailyOutflow
    || after.maxFee > before.maxFee
    || after.largeDepositThreshold > before.largeDepositThreshold
  }

  /** What limits may be: a least deposit of at least one unit, no limit negative, and a total of at most
      seven daily windows. */
  predicate GoodLimits(limits: Limits) {
    && limits.minDeposit >= 1
    && limits.maxDeposit >= 0
    && limits.maxDailyPerDepositor >= 0
    && 0 <= limits.tvlCap <= 7 * limits.maxDailyOutflow
    && limits.maxFee >= 0
    && limits.largeDepositThreshold >= 0
  }

  /** The check of limits is this, though its product saturates: amounts have 128 bits. */
  lemma LimitsCheck(limits: Limits)
    requires InI128(limits.tvlCap) && InI128(limits.maxDailyOutflow)
    ensures LimitsError(limits) == None <==> GoodLimits(limits)
  {
  }

  /** What the guardian may set: good limits that do not lower the daily window. What loosens nothing applies at
      once and drops a queued change; anything else waits 7 days, and leaves the limits in force. */
  lemma GuardianSetsLimits(s: VaultState, env: Env, limits: Limits)
    requires InI128(limits.tvlCap) && InI128(limits.maxDailyOutflow)
    ensures var o := SetLimits(s, env, limits);
            var waits := Loosens(s.limits, limits);
            && (o.result.Ok? <==>
                  && s.config.guardian in env.signers
                  && GoodLimits(limits)
                  && s.limits.maxDailyOutflow <= limits.maxDailyOutflow
                  && (waits ==> env.now + LOOSENING_DELAY <= U64_MAX))
            && (o.result.Ok? && waits ==> o.state == s.(queuedLimits := Some(QueuedLimits(limits, env.now + LOOSENING_DELAY))))
            && (o.result.Ok? && waits ==> o.events == [LimitsQueued(limits, env.now + LOOSENING_DELAY)])
            && (o.result.Ok? && !waits ==> o.state == s.(limits := limits, queuedLimits := None))
            && (o.result.Ok? && !waits && s.queuedLimits == None ==> o.events == [LimitsApplied(limits, env.now)])
            && (o.result.Ok? && !waits && s.queuedLimits.Some? ==>
                  o.events == [LimitsCancelled(s.queuedLimits.value.limits, s.queuedLimits.value.readyAt), LimitsApplied(limits, env.now)])
            && o.transfers == []
            && (o.result.Err? ==> Of(o) == Effect(s, [], []))
  {
    LimitsCheck(limits);
    hide LimitsError;
  }

  /** Queued limits apply for anyone, once ready, unless they have become a lower daily window. */
  lemma AnyoneAppliesLimits(s: VaultState, env: Env)
    requires s.queuedLimits.Some? ==> InI128(s.queuedLimits.value.limits.tvlCap) && InI128(s.queuedLimits.value.limits.maxDailyOutflow)
    ensures var o, q := ApplyLimits(s, env), s.queuedLimits;
            && (o.result.Ok? <==> q.Some? && q.value.readyAt <= env.now && GoodLimits(q.value.limits)
                                  && s.limits.maxDailyOutflow <= q.value.limits.maxDailyOutflow)
            && o.state == if o.result.Ok? then s.(limits := q.value.limits, queuedLimits := None) else s
  {
    if s.queuedLimits.Some? {
      LimitsCheck(s.queuedLimits.value.limits);
    }
    hide LimitsError;
  }

  /** The guardian takes back whatever limits it queued, which are reported. */
  lemma GuardianTakesBack(s: VaultState, env: Env)
    ensures var o, q := CancelLimits(s, env), s.queuedLimits;
            && (o.result.Ok? <==> s.config.guardian in env.signers && q.Some?)
            && Of(o) == if o.result.Ok? then Effect(s.(queuedLimits := None), [LimitsCancelled(q.value.limits, q.value.readyAt)], [])
                        else Effect(s, [], [])
  {
  }

  /** Whether the call after the first `j` queued these limits. */
  ghost predicate QueuedBy(s: VaultState, steps: seq<Timed>, j: nat, limits: Limits)
    requires j < |steps|
  {
    && steps[j].call == SetLimitsCall(limits)
    && StateAt(s, steps, j).config.guardian in steps[j].env.signers
    && Loosens(StateAt(s, steps, j).limits, limits)
  }

  /** Where queued limits come from: a call of the guardian exactly 7 days before they are ready, with
      the limits in force and the queued ones unchanged since. */
  ghost predicate Origin(s: VaultState, steps: seq<Timed>, j: nat, n: nat, queued: QueuedLimits)
    requires j < n <= |steps|
  {
    && QueuedBy(s, steps, j, queued.limits)
    && queued.readyAt == steps[j].env.now + LOOSENING_DELAY
    && forall k :: j < k <= n ==>
         StateAt(s, steps, k).limits == StateAt(s, steps, n).limits && StateAt(s, steps, k).queuedLimits == Some(queued)
  }

  /** The only ways limits in force and queued limits change. */
  lemma StepLimits(s: VaultState, env: Env, call: Call)
    ensures var after := Step(s, env, call).state;
            || (after.limits == s.limits && after.queuedLimits == s.queuedLimits)
            || (call.SetLimitsCall? && after.limits == call.limits && after.queuedLimits == None && !Loosens(s.limits, call.limits)
                && s.config.guardian in env.signers)
            || (call.SetLimitsCall? && after.limits == s.limits && Loosens(s.limits, call.limits) && s.config.guardian in env.signers
                && after.queuedLimits == Some(QueuedLimits(call.limits, env.now + LOOSENING_DELAY)))
            || (call.CancelLimitsCall? && after.limits == s.limits && after.queuedLimits == None && s.config.guardian in env.signers)
            || (call.ApplyLimitsCall? && s.queuedLimits.Some? && after.limits == s.queuedLimits.value.limits
                && after.queuedLimits == None && env.now >= s.queuedLimits.value.readyAt)
  {
    hide ShieldError, TransactError, SettleError, Eligible, LimitsError, Debit, Payment;
  }

  lemma {:induction false} QueuedHasOrigin(s: VaultState, steps: seq<Timed>, n: nat) returns (j: nat)
    requires s.queuedLimits == None && n <= |steps| && StateAt(s, steps, n).queuedLimits.Some?
    ensures j < n && Origin(s, steps, j, n, StateAt(s, steps, n).queuedLimits.value)
  {
    hide Step, Loosens;
    var before, after := StateAt(s, steps, n - 1), StateAt(s, steps, n);
    StepLimits(before, steps[n - 1].env, steps[n - 1].call);
    if after.limits == before.limits && after.queuedLimits == before.queuedLimits {
      j := QueuedHasOrigin(s, steps, n - 1);
    } else {
      j := n - 1;
    }
  }

  /** A call that loosens any limit applies limits that the guardian queued, exactly as they are, at
      least 7 days before, with neither a tightening nor another change of the queue since, and without
      lowering the daily window. */
  lemma LooseningWaited(host: Host, config: Config, limits: Limits, steps: seq<Timed>, i: nat) returns (j: nat)
    requires LimitsError(limits) == None && i < |steps|
    requires var s := Deployed(host, config, limits);
             Loosens(StateAt(s, steps, i).limits, StateAt(s, steps, i + 1).limits)
    ensures var s := Deployed(host, config, limits);
            && j < i && QueuedBy(s, steps, j, StateAt(s, steps, i + 1).limits)
            && steps[j].env.now + LOOSENING_DELAY <= steps[i].env.now
            && StateAt(s, steps, i).limits.maxDailyOutflow <= StateAt(s, steps, i + 1).limits.maxDailyOutflow
            && forall k :: j < k <= i ==>
                 StateAt(s, steps, k).limits == StateAt(s, steps, i).limits
                 && StateAt(s, steps, k).queuedLimits ==
                    Some(QueuedLimits(StateAt(s, steps, i + 1).limits, steps[j].env.now + LOOSENING_DELAY))
  {
    var s := Deployed(host, config, limits);
    StepLimits(StateAt(s, steps, i), steps[i].env, steps[i].call);
    assert !Loosens(StateAt(s, steps, i).limits, StateAt(s, steps, i).limits);
    hide Step, Loosens, QueuedBy, Solvent;
    DeployedSolvent(host, config, limits);
    RunSolvent(s, steps, i);
    StepWidens(StateAt(s, steps, i), steps[i].env, steps[i].call);
    j := QueuedHasOrigin(s, steps, i);
  }
}
