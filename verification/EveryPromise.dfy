/** The indexer's promise along every run of the vault from its deployment. */
module EveryPromise {
  import opened Common
  import opened VaultTypes
  import opened VaultSpec
  import opened VaultInvariant
  import opened VaultRuns
  import opened ParseCalls
  import opened Refinement
  import opened WaitBound
  import opened Promises
  import R = ReplaySpec
  import Lineage
  import EndToEnd

  /** What a reached state is known to satisfy: all that the indexer's promise rests on, but the future. */
  lemma ReachedIsGood(host: Host, config: Config, limits: Limits, past: seq<Timed>, txs: nat -> R.Tx, v: VaultState, r: R.State, now: nat)
    requires Reaches(host, config, limits, past, txs, v, r) && forall i :: 0 <= i < |past| ==> past[i].env.now <= now
    ensures Solvent(v) && Agrees(v, r) && Lineage.AllPartlyPaid(r) && Lineage.OnlyHeadPaid(r) && v.status.outflowDay <= now / DAY
    ensures forall id :: r.status.exitHead <= id < r.status.exitTail ==> id in r.exits
  {
    var s := Deployed(host, config, limits);
    DeployedSolvent(host, config, limits);
    DayIsCapped(s, past, |past|, 0);
    hide Step, Agrees, Follows, R.ApplyAll, Parsed, Deployed, LimitsError, Lineage.AllPartlyPaid, Lineage.OnlyHeadPaid, Lineage.Accounted, Solvent;
    RunSolvent(s, past, |past|);
    RunIsReplayed(host, config, limits, past, |past|, txs);
    EndToEnd.RunIsKept(host, config, limits, past, |past|, txs);
    QueueIsKnown(v.host.native, v.limits.maxDailyOutflow, v, r);
  }

  /** The wait bound, from the vault's deployment on: in every state a run can reach, each exit queued leaves
      the queue by the time the indexer promises it. */
  lemma EveryPromiseIsKept(host: Host, config: Config, limits: Limits, past: seq<Timed>, txs: nat -> R.Tx, v: VaultState, r: R.State,
                           future: seq<Timed>, now: nat, i: nat, last: seq<nat>)
    requires Reaches(host, config, limits, past, txs, v, r) && forall j :: 0 <= j < |past| ==> past[j].env.now <= now
    requires Ordered(future) && forall j :: 0 <= j < |future| ==> now <= future[j].env.now
    requires i < r.status.exitTail - r.status.exitHead && v.limits.maxDailyOutflow > 0
    requires (forall id :: r.status.exitHead <= id < r.status.exitTail ==> id in r.exits) ==>
               ReleasedUntil(v, r, future, now, QueueOf(v.host.native, r, i + 1), last)
    ensures forall id :: r.status.exitHead <= id < r.status.exitTail ==> id in r.exits
    ensures var queue := QueueOf(v.host.native, r, r.status.exitTail - r.status.exitHead);
            && |queue| == r.status.exitTail - r.status.exitHead && |last| > 0 && last[|last| - 1] < |future|
            && var promise := Promise(queue[..i + 1], now, r.status.haltedUntil, v.limits.maxDailyOutflow);
               promise.Some? && future[last[|last| - 1]].env.now <= promise.value
    ensures r.status.exitHead + i !in StateAt(v, future, last[|last| - 1] + 1).exits
  {
    hide Step, StateAt, Promise, ReleasedUntil, Solvent, Agrees, Lineage.AllPartlyPaid, Lineage.OnlyHeadPaid, Reaches, Ordered, QueueOf;
    ReachedIsGood(host, config, limits, past, txs, v, r, now);
    PromiseIsKept(v, r, future, now, i, last);
  }
}
