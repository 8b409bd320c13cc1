/** The day the indexer promises each queued exit, and why the promise is kept. */
module Promises {
  import opened Common
  import opened VaultTypes
  import opened VaultSpec
  import opened VaultInvariant
  import opened VaultRuns
  import opened WaitBound
  import R = ReplaySpec
  import Refinement
  import Lineage

  // ---------------------------------------------------------------------------------------------
  // The prediction

  function Wrap(x: int): nat {
    x % (U64_MAX + 1)
  }

  function Total(owed: seq<int>): int {
    if owed == [] then 0 else Total(owed[..|owed| - 1]) + owed[|owed| - 1]
  }

  /** The prediction for one exit, in the indexer's 64-bit arithmetic; none without a daily window. */
  function Promise(owed: seq<int>, now: nat, haltedUntil: nat, maxDaily: int): Option<nat> {
    if maxDaily <= 0 then None
    else Some(Wrap(Wrap(Wrap(Max(now, haltedUntil) / DAY + Wrap(Windows(Total(owed), maxDaily))) + 1) * DAY - 1))
  }

  method PaidBy(owed: seq<int>, now: nat, haltedUntil: nat, maxDaily: int) returns (out: seq<Option<nat>>)
    ensures |out| == |owed|
    ensures forall i :: 0 <= i < |out| ==> out[i] == Promise(owed[..i + 1], now, haltedUntil, maxDaily)
  {
    if maxDaily <= 0 {
      return seq(|owed|, _ => None);
    }
    var day := Max(now, haltedUntil) / DAY;
    var total := 0;
    out := [];
    for i := 0 to |owed|
      invariant total == Total(owed[..i])
      invariant |out| == i
      invariant forall k :: 0 <= k < i ==> out[k] == Promise(owed[..k + 1], now, haltedUntil, maxDaily)
    {
      assert owed[..i + 1][..i] == owed[..i];
      total := total + owed[i];
      var days := Windows(total, maxDaily);
      out := out + [Some(Wrap(Wrap(Wrap(day + Wrap(days)) + 1) * DAY - 1))];
    }
  }

  // ---------------------------------------------------------------------------------------------
  // The promise

  /** What the indexer counts an exit as taking. */
  function TakesOf(native: bool, e: R.OwedExit): int {
    var first := e.payout > 0 && e.payout == e.queuedPayout;
    e.Outflow() + if native && first && e.recipient.address.Account? then NATIVE_ACCOUNT_MIN - 1 else 0
  }

  /** That is what it is owed, and once, before anything of its payout was paid, the rest of a window that could not
      create its account. */
  lemma AllowanceIsOnce(native: bool, e: R.OwedExit)
    requires e.movedPayout == 0
    ensures TakesOf(native, e) - e.payout - e.fee ==
            if native && e.recipient.address.Account? && e.payout > 0 && e.PaidPayout() == 0 then 9_999_999 else 0
  {
  }

  /** The queue of the replayed state, from its head. */
  function QueueOf(native: bool, r: R.State, n: nat): seq<int>
    requires forall id :: r.status.exitHead <= id < r.status.exitHead + n ==> id in r.exits
  {
    if n == 0 then [] else QueueOf(native, r, n - 1) + [TakesOf(native, r.exits[r.status.exitHead + n - 1])]
  }

  function LineOf(native: bool, window: int, r: R.State): Line {
    Line(native, window, map id | id in r.exits :: r.exits[id].queuedPayout)
  }

  /** The replay knows every queued exit, and counts of each what it can take. */
  lemma QueueIsKnown(native: bool, window: int, v: VaultState, r: R.State)
    requires Solvent(v) && Refinement.Agrees(v, r)
    ensures 1 <= v.status.exitHead == r.status.exitHead <= v.status.exitTail == r.status.exitTail
    ensures forall id: nat :: id in v.exits <==> v.status.exitHead <= id < v.status.exitTail
    ensures r.exits.Keys == v.exits.Keys
    ensures forall id :: id in r.exits ==> TakesOf(native, r.exits[id]) == CanTake(LineOf(native, window, r), id, v.exits[id])
  {
  }

  /** The running total of the prediction is what the exits up to each one can take. */
  lemma {:induction false} TotalIsAhead(native: bool, window: int, v: VaultState, r: R.State, n: nat)
    requires Solvent(v) && Refinement.Agrees(v, r) && n <= v.status.exitTail - v.status.exitHead
    requires v.status.exitHead >= 1 && forall id :: r.status.exitHead <= id < r.status.exitHead + n ==> id in r.exits
    ensures |QueueOf(native, r, n)| == n
    ensures Total(QueueOf(native, r, n)) == Ahead(LineOf(native, window, r), v.exits, v.status.exitHead + n - 1)
  {
    hide Solvent, Refinement.Agrees, LineOf, TakesOf, CanTake;
    QueueIsKnown(native, window, v, r);
    if n == 0 {
      NothingBelowHead(LineOf(native, window, r), v.exits, v.status.exitHead - 1);
    } else {
      TotalIsAhead(native, window, v, r, n - 1);
      var queue := QueueOf(native, r, n);
      assert queue[..n - 1] == QueueOf(native, r, n - 1);
    }
  }

  lemma {:induction false} NothingBelowHead(line: Line, exits: map<nat, Exit>, id: nat)
    requires forall k: nat :: k <= id ==> k !in exits
    ensures Ahead(line, exits, id) == 0
  {
    if id > 0 {
      NothingBelowHead(line, exits, id - 1);
    }
  }

  lemma {:induction false} QueuePrefix(native: bool, r: R.State, n: nat, i: nat)
    requires i <= n && forall id :: r.status.exitHead <= id < r.status.exitHead + n ==> id in r.exits
    ensures |QueueOf(native, r, n)| == n && QueueOf(native, r, n)[..i] == QueueOf(native, r, i)
  {
    if i < n {
      QueuePrefix(native, r, n - 1, i);
    } else if n > 0 {
      QueuePrefix(native, r, n - 1, n - 1);
    }
  }

  /** A promise within the range of 64-bit times is the last second of its day. */
  lemma PromiseIsEndOfDay(owed: seq<int>, now: nat, haltedUntil: nat, maxDaily: int)
    requires maxDaily > 0 && Windows(Total(owed), maxDaily) >= 0
    requires (Max(now, haltedUntil) / DAY + Windows(Total(owed), maxDaily) + 1) * DAY <= U64_MAX
    ensures Promise(owed, now, haltedUntil, maxDaily)
            == Some((Max(now, haltedUntil) / DAY + Windows(Total(owed), maxDaily) + 1) * DAY - 1)
  {
    hide Windows, Total, Wrap;
    DayInRange(Max(now, haltedUntil) / DAY, Windows(Total(owed), maxDaily));
  }

  lemma DayInRange(d: nat, k: nat)
    requires (d + k + 1) * DAY <= U64_MAX
    ensures Wrap(Wrap(Wrap(d + Wrap(k)) + 1) * DAY - 1) == (d + k + 1) * DAY - 1
  {
    assert d + k + 1 <= (d + k + 1) * DAY;
  }

  /** The first day the indexer counts from. */
  function FirstDay(r: R.State, now: nat): nat {
    Max(now, r.status.haltedUntil) / DAY
  }

  /** The prediction over a line of exits whose total is known. */
  lemma LinePromiseIsKept(line: Line, v: VaultState, r: R.State, steps: seq<Timed>, now: nat, owed: seq<int>, id: nat, last: seq<nat>)
    requires Solvent(v) && v.status.outflowDay <= now / DAY && Promised(line, v, id)
    requires DatedBy(v, steps) && v.limits.maxDailyOutflow > 0
    requires Total(owed) == Ahead(line, v.exits, id) && |last| == Windows(Total(owed), v.limits.maxDailyOutflow)
    requires ReleasedDaily(v, steps, FirstDay(r, now), last) && (FirstDay(r, now) + |last| + 1) * DAY <= U64_MAX
    ensures |last| > 0 && last[|last| - 1] < |steps|
    ensures var promise := Promise(owed, now, r.status.haltedUntil, v.limits.maxDailyOutflow);
            promise.Some? && steps[last[|last| - 1]].env.now <= promise.value
    ensures id !in StateAt(v, steps, last[|last| - 1] + 1).exits
  {
    hide Step, Release, RanOut, Solvent, Ahead, Promised, StateAt, Windows, Promise, ReleasedDaily, DatedBy, Total;
    ExitLeavesInTime(line, v, steps, FirstDay(r, now), last, id);
    PromiseIsEndOfDay(owed, now, r.status.haltedUntil, v.limits.maxDailyOutflow);
    EndOfDay(steps[last[|last| - 1]].env, FirstDay(r, now) + |last|);
  }

  /** On every day up to an exit's promise a release runs out, in a vault that can pay. */
  ghost predicate ReleasedUntil(v: VaultState, r: R.State, steps: seq<Timed>, now: nat, owed: seq<int>, last: seq<nat>)
    requires v.limits.maxDailyOutflow > 0
  {
    && |last| == Windows(Total(owed), v.limits.maxDailyOutflow)
    && ReleasedDaily(v, steps, FirstDay(r, now), last)
    && (FirstDay(r, now) + |last| + 1) * DAY <= U64_MAX
  }

  /** The indexer's promise is kept. Take any state the vault can be in, the state replayed from its
      events, and the times `paidBy` gives its exits. Whatever calls come after, each exit has left the
      queue by its time, settled or stranded, if on each day up to it a release runs out in a vault that
      can pay, whatever accounts are created or merged away. */
  lemma PromiseIsKept(v: VaultState, r: R.State, steps: seq<Timed>, now: nat, i: nat, last: seq<nat>)
    requires Solvent(v) && Refinement.Agrees(v, r) && v.status.outflowDay <= now / DAY
    requires Lineage.AllPartlyPaid(r) && Lineage.OnlyHeadPaid(r) && Ordered(steps) && forall j :: 0 <= j < |steps| ==> now <= steps[j].env.now
    requires i < r.status.exitTail - r.status.exitHead && v.limits.maxDailyOutflow > 0
    requires forall id :: r.status.exitHead <= id < r.status.exitTail ==> id in r.exits
    requires ReleasedUntil(v, r, steps, now, QueueOf(v.host.native, r, i + 1), last)
    ensures var queue := QueueOf(v.host.native, r, r.status.exitTail - r.status.exitHead);
            && |queue| == r.status.exitTail - r.status.exitHead && |last| > 0 && last[|last| - 1] < |steps|
            && var promise := Promise(queue[..i + 1], now, r.status.haltedUntil, v.limits.maxDailyOutflow);
               promise.Some? && steps[last[|last| - 1]].env.now <= promise.value
    ensures r.status.exitHead + i !in StateAt(v, steps, last[|last| - 1] + 1).exits
  {
    hide Step, StateAt, QueueOf, Promise, ReleasedDaily, Total, Solvent, Refinement.Agrees, Promised, DatedBy, Ahead, LineOf, Ordered, Windows;
    var native, window, id := v.host.native, v.limits.maxDailyOutflow, r.status.exitHead + i;
    QueueIsKnown(native, window, v, r);
    QueuePrefix(native, r, r.status.exitTail - r.status.exitHead, i + 1);
    TotalIsAhead(native, window, v, r, i + 1);
    PromisedTo(v, r, id);
    DaysFrom(v, steps, now);
    LinePromiseIsKept(LineOf(native, window, r), v, r, steps, now, QueueOf(native, r, i + 1), id, last);
  }

  lemma DaysFrom(v: VaultState, steps: seq<Timed>, now: nat)
    requires Ordered(steps) && v.status.outflowDay <= now / DAY
    requires forall j :: 0 <= j < |steps| ==> now <= steps[j].env.now
    ensures DatedBy(v, steps)
  {
  }

  lemma EndOfDay(env: Env, day: nat)
    requires env.Day() == day
    ensures env.now <= (day + 1) * DAY - 1
  {
  }

  lemma PromisedTo(v: VaultState, r: R.State, id: nat)
    requires Refinement.Agrees(v, r) && Lineage.AllPartlyPaid(r) && Lineage.OnlyHeadPaid(r)
    requires v.status.exitHead <= id < v.status.exitTail
    ensures Promised(LineOf(v.host.native, v.limits.maxDailyOutflow, r), v, id)
  {
  }
}
