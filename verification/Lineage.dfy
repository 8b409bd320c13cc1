/** What becomes of what an exit was queued with, over every run the replay accepts. */
module Lineage {
  import opened Common
  import opened Merkle
  import opened VaultTypes
  import opened R = ReplaySpec

  /** The two amounts of an exit, which are kept apart throughout. */
  datatype Part = ThePayout | TheFee

  function Of(e: OwedExit, part: Part): int {
    if part.ThePayout? then e.payout else e.fee
  }

  function QueuedWith(e: OwedExit, part: Part): int {
    if part.ThePayout? then e.queuedPayout else e.queuedFee
  }

  function MovedOn(e: OwedExit, part: Part): int {
    if part.ThePayout? then e.movedPayout else e.movedFee
  }

  function Paying(x: Settlement, part: Part): int {
    if part.ThePayout? then -x.extAmount else x.fee
  }

  /** What the settlements under one exit's ID paid. */
  function Paid(xs: seq<Settlement>, id: nat, part: Part): int {
    if xs == [] then 0
    else Paid(xs[..|xs| - 1], id, part) + if xs[|xs| - 1].exitId == Some(id) then Paying(xs[|xs| - 1], part) else 0
  }

  /** What claims moved from one exit to others. */
  function Moved(log: seq<OwedExit>, id: nat, part: Part): int {
    if log == [] then 0
    else Moved(log[..|log| - 1], id, part) + if log[|log| - 1].requeuedFrom == Some(id) then Of(log[|log| - 1], part) else 0
  }

  /** What the vault owes under an ID, queued or stranded. */
  function Owed(s: State, id: nat, part: Part): int {
    if id in s.exits then Of(s.exits[id], part) else if id in s.stranded then Of(s.stranded[id], part) else 0
  }

  // ---------------------------------------------------------------------------------------------
  // One exit

  predicate SameParties(e: OwedExit, f: OwedExit) {
    e.recipient == f.recipient && e.relayer == f.relayer
  }

  /** Exits are logged under consecutive IDs, each moved, if at all, from an older exit of the same parties. */
  ghost predicate Log(log: seq<OwedExit>) {
    forall i :: 0 <= i < |log| ==> Logged(log, i)
  }

  ghost predicate Logged(log: seq<OwedExit>, i: nat)
    requires i < |log|
  {
    && log[i].id == i + 1
    && (log[i].requeuedFrom.Some? ==>
          var p := log[i].requeuedFrom.value; 1 <= p <= i && SameParties(log[i], log[p - 1]))
  }

  /** Each payment out of the queue is of a logged exit, to its parties. */
  ghost predicate PaysLogged(xs: seq<Settlement>, log: seq<OwedExit>) {
    forall x :: x in xs && x.exitId.Some? ==>
      1 <= x.exitId.value <= |log| && x.recipient == log[x.exitId.value - 1].recipient && x.relayer == log[x.exitId.value - 1].relayer
  }

  /** An exit the vault still owes records what it was queued with and what moved on. */
  ghost predicate Recorded(log: seq<OwedExit>, id: nat, e: OwedExit) {
    && 1 <= id <= |log|
    && SameParties(e, log[id - 1])
    && (forall part :: QueuedWith(e, part) == Of(log[id - 1], part) && MovedOn(e, part) == Moved(log, id, part))
  }

  /** What an exit was queued with is what was paid under its ID, what moved on, and what it still owes. */
  ghost predicate Conserved(w: Window, id: nat)
    requires 1 <= id <= |w.delta.queued|
  {
    forall part ::
      Of(w.delta.queued[id - 1], part) == Paid(w.delta.settlements, id, part) + Moved(w.delta.queued, id, part) + Owed(w.state, id, part)
  }

  ghost predicate Accounted(w: Window) {
    var s, log := w.state, w.delta.queued;
    && s.status.exitTail == |log| + 1
    && Log(log)
    && PaysLogged(w.delta.settlements, log)
    && s.exits.Keys !! s.stranded.Keys
    && (forall id :: id in s.exits ==> Recorded(log, id, s.exits[id]))
    && (forall id :: id in s.stranded ==> Recorded(log, id, s.stranded[id]))
    && (forall id :: 1 <= id <= |log| ==> Conserved(w, id))
  }

  lemma NewVaultAccounted()
    ensures Accounted(Window(NEW_STATE, NO_CHANGE, {}))
  {
  }

  lemma PaidMore(xs: seq<Settlement>, x: Settlement, id: nat, part: Part)
    ensures Paid(xs + [x], id, part) == Paid(xs, id, part) + if x.exitId == Some(id) then Paying(x, part) else 0
  {
    assert (xs + [x])[..|xs|] == xs;
  }

  lemma MovedMore(log: seq<OwedExit>, e: OwedExit, id: nat, part: Part)
    ensures Moved(log + [e], id, part) == Moved(log, id, part) + if e.requeuedFrom == Some(id) then Of(e, part) else 0
  {
    assert (log + [e])[..|log|] == log;
  }

  /** No exit is moved before it is queued, nor paid. */
  lemma {:induction false} NotYetMoved(log: seq<OwedExit>, id: nat, part: Part)
    requires Log(log) && id > |log|
    ensures Moved(log, id, part) == 0
  {
    if log != [] {
      assert Logged(log, |log| - 1);
      var rest := log[..|log| - 1];
      forall i | 0 <= i < |rest|
        ensures Logged(rest, i)
      {
        assert Logged(log, i);
      }
      NotYetMoved(rest, id, part);
    }
  }

  lemma {:induction false} NotYetPaid(xs: seq<Settlement>, log: seq<OwedExit>, id: nat, part: Part)
    requires PaysLogged(xs, log) && id > |log|
    ensures Paid(xs, id, part) == 0
  {
    if xs != [] {
      var rest := xs[..|xs| - 1];
      assert xs[|xs| - 1] in xs;
      assert forall x :: x in rest ==> x in xs;
      NotYetPaid(rest, log, id, part);
    }
  }

  /** A change of amounts that touches only one exit, with nothing queued: what leaves the exit is paid. */
  lemma PayAccounted(w: Window, next: Window, id: nat, x: Settlement)
    requires Accounted(w)
    requires id in w.state.exits && next.delta.queued == w.delta.queued
    requires next.state.status.exitTail == w.state.status.exitTail
    requires forall k :: k != id ==> (k in next.state.exits <==> k in w.state.exits) && (k in next.state.stranded <==> k in w.state.stranded)
    requires forall k :: k != id && k in w.state.exits ==> next.state.exits[k] == w.state.exits[k]
    requires forall k :: k != id && k in w.state.stranded ==> next.state.stranded[k] == w.state.stranded[k]
    requires id in next.state.exits ==> id !in next.state.stranded && Recorded(w.delta.queued, id, next.state.exits[id])
    requires id in next.state.stranded ==> Recorded(w.delta.queued, id, next.state.stranded[id])
    requires next.delta.settlements == w.delta.settlements + [x]
             || (next.delta.settlements == w.delta.settlements && forall part :: Paying(x, part) == 0)
    requires x.exitId == Some(id) && x.recipient == w.state.exits[id].recipient && x.relayer == w.state.exits[id].relayer
    requires forall part :: Owed(w.state, id, part) == Owed(next.state, id, part) + Paying(x, part)
    ensures Accounted(next)
  {
    hide Log, Logged, Moved, Of, Paying, MovedOn, QueuedWith;
    var log := w.delta.queued;
    assert Recorded(log, id, w.state.exits[id]);
    forall k | 1 <= k <= |log|
      ensures Conserved(next, k)
    {
      assert Conserved(w, k);
      forall part {
        PaidMore(w.delta.settlements, x, k, part);
      }
    }
  }

  /** A call that neither queues nor pays an exit. */
  lemma UntouchedAccounted(w: Window, next: Window)
    requires Accounted(w) && next.delta.queued == w.delta.queued
    requires next.state.status.exitTail == w.state.status.exitTail
    requires next.state.exits == w.state.exits && next.state.stranded == w.state.stranded
    requires next.delta.settlements == w.delta.settlements
             || exists x :: next.delta.settlements == w.delta.settlements + [x] && x.exitId == None
    ensures Accounted(next)
  {
    hide Log, Logged, Moved, Of, Paying, MovedOn, QueuedWith;
    forall k | 1 <= k <= |w.delta.queued|
      ensures Conserved(next, k)
    {
      assert Conserved(w, k);
      if next.delta.settlements != w.delta.settlements {
        var x :| next.delta.settlements == w.delta.settlements + [x] && x.exitId == None;
        forall part {
          PaidMore(w.delta.settlements, x, k, part);
        }
      }
    }
  }

  lemma LogMore(log: seq<OwedExit>, e: OwedExit)
    requires Log(log) && e.id == |log| + 1
    requires e.requeuedFrom.Some? ==> 1 <= e.requeuedFrom.value <= |log| && SameParties(e, log[e.requeuedFrom.value - 1])
    ensures Log(log + [e])
  {
    forall i | 0 <= i < |log| + 1
      ensures Logged(log + [e], i)
    {
      if i < |log| {
        assert Logged(log, i);
      }
    }
  }

  /** What queueing an exit changes: nothing else, or the stranded exit that moved what it starts with. */
  ghost predicate Queues(w: Window, next: Window, e: OwedExit) {
    && e.id == w.state.status.exitTail
    && next.delta.queued == w.delta.queued + [e] && next.delta.settlements == w.delta.settlements
    && next.state.status.exitTail == e.id + 1 && next.state.exits == w.state.exits[e.id := e]
    && (forall part :: QueuedWith(e, part) == Of(e, part) && MovedOn(e, part) == 0)
    && (e.requeuedFrom == None ==> next.state.stranded == w.state.stranded)
    && (e.requeuedFrom.Some? ==> MovesFrom(w.state, next.state, e, e.requeuedFrom.value))
  }

  ghost predicate MovesFrom(s: State, after: State, e: OwedExit, p: nat) {
    && p in s.stranded && SameParties(e, s.stranded[p])
    && (forall k :: k != p ==> (k in after.stranded <==> k in s.stranded))
    && (forall k :: k != p && k in s.stranded ==> after.stranded[k] == s.stranded[k])
    && (p in after.stranded ==>
          && SameParties(after.stranded[p], s.stranded[p])
          && forall part :: QueuedWith(after.stranded[p], part) == QueuedWith(s.stranded[p], part)
                            && MovedOn(after.stranded[p], part) == MovedOn(s.stranded[p], part) + Of(e, part))
    && (forall part :: Owed(s, p, part) == Owed(after, p, part) + Of(e, part))
  }

  lemma KnownIds(w: Window)
    requires Accounted(w)
    ensures forall id :: id in w.state.exits || id in w.state.stranded ==> 1 <= id <= |w.delta.queued|
    ensures forall id :: id in w.state.stranded ==> SameParties(w.state.stranded[id], w.delta.queued[id - 1])
  {
    forall id | id in w.state.exits || id in w.state.stranded
      ensures 1 <= id <= |w.delta.queued|
      ensures id in w.state.stranded ==> SameParties(w.state.stranded[id], w.delta.queued[id - 1])
    {
      assert id in w.state.exits ==> Recorded(w.delta.queued, id, w.state.exits[id]);
      assert id in w.state.stranded ==> Recorded(w.delta.queued, id, w.state.stranded[id]);
    }
  }

  lemma QueueRecords(w: Window, next: Window, e: OwedExit, id: nat)
    requires Accounted(w) && Queues(w, next, e)
    ensures id in next.state.exits ==> Recorded(next.delta.queued, id, next.state.exits[id])
    ensures id in next.state.stranded ==> Recorded(next.delta.queued, id, next.state.stranded[id])
  {
    var log := w.delta.queued;
    KnownIds(w);
    forall part
      ensures Moved(log + [e], id, part) == Moved(log, id, part) + if e.requeuedFrom == Some(id) then Of(e, part) else 0
      ensures id == e.id ==> Moved(log, id, part) == 0
    {
      MovedMore(log, e, id, part);
      if id == e.id {
        NotYetMoved(log, id, part);
      }
    }
    assert id in w.state.exits ==> Recorded(log, id, w.state.exits[id]);
    assert id in w.state.stranded ==> Recorded(log, id, w.state.stranded[id]);
    hide Log, PaysLogged, Moved, Of, MovedOn, QueuedWith, Owed;
  }

  lemma QueueConserves(w: Window, next: Window, e: OwedExit, id: nat)
    requires Accounted(w) && Queues(w, next, e) && 1 <= id <= |next.delta.queued|
    ensures Conserved(next, id)
  {
    var log := w.delta.queued;
    KnownIds(w);
    forall part
      ensures Moved(log + [e], id, part) == Moved(log, id, part) + if e.requeuedFrom == Some(id) then Of(e, part) else 0
      ensures id == e.id ==> Moved(log, id, part) == 0 && Paid(w.delta.settlements, id, part) == 0
    {
      MovedMore(log, e, id, part);
      if id == e.id {
        NotYetMoved(log, id, part);
        NotYetPaid(w.delta.settlements, log, id, part);
      }
    }
    hide Log, PaysLogged, Moved, Paid, Of, MovedOn, QueuedWith;
    assert id <= |log| ==> Conserved(w, id);
  }

  lemma QueueAccounted(w: Window, next: Window, e: OwedExit)
    requires Accounted(w) && Queues(w, next, e)
    ensures Accounted(next)
  {
    KnownIds(w);
    LogMore(w.delta.queued, e);
    forall id
      ensures id in next.state.exits ==> Recorded(next.delta.queued, id, next.state.exits[id])
      ensures id in next.state.stranded ==> Recorded(next.delta.queued, id, next.state.stranded[id])
    {
      QueueRecords(w, next, e, id);
    }
    forall id | 1 <= id <= |next.delta.queued|
      ensures Conserved(next, id)
    {
      QueueConserves(w, next, e, id);
    }
    hide Log, Recorded, Conserved, Of, MovedOn, QueuedWith, Owed;
  }

  // ---------------------------------------------------------------------------------------------
  // Calls

  lemma TransactAccounted(depth: nat, w: Window, tx: Tx, c: Call)
    requires Accounted(w) && c.TransactSeen? && ApplyTransact(depth, w, tx, c).Ok?
    ensures Accounted(ApplyTransact(depth, w, tx, c).value)
  {
    var end, next := c.ending, ApplyTransact(depth, w, tx, c).value;
    hide Accounted;
    if end.Waits? {
      QueueAccounted(w, next, NewExit(end, tx));
    } else {
      assert next.delta.settlements == w.delta.settlements + [Settlement(end.extAmount, end.fee, end.recipient, end.relayer, None, tx)];
      UntouchedAccounted(w, next);
    }
  }

  lemma SettledAccounted(w: Window, tx: Tx, c: Call)
    requires Accounted(w) && c.ExitSettledSeen? && ApplyExitSettled(w, tx, c).Ok?
    ensures Accounted(ApplyExitSettled(w, tx, c).value)
  {
    var next, e := ApplyExitSettled(w, tx, c).value, w.state.exits[c.id];
    assert c.id !in w.state.stranded;
    hide Accounted;
    var x := Settlement(c.extAmount, c.fee, c.recipient, c.relayer, Some(c.id), tx);
    assert next.delta.settlements == w.delta.settlements + [x];
    assert forall part :: Owed(w.state, c.id, part) == Of(e, part) && Owed(next.state, c.id, part) == 0;
    PayAccounted(w, next, c.id, x);
  }

  lemma PaidAccounted(w: Window, tx: Tx, c: Call)
    requires Accounted(w) && c.ExitPaidSeen? && ApplyExitPaid(w, tx, c).Ok?
    ensures Accounted(ApplyExitPaid(w, tx, c).value)
  {
    var next, e := ApplyExitPaid(w, tx, c).value, w.state.exits[c.id];
    assert c.id !in w.state.stranded;
    assert Recorded(w.delta.queued, c.id, e);
    hide Accounted;
    var x := Settlement(-c.payoutPaid, c.feePaid, e.recipient, e.relayer, Some(c.id), tx);
    var left := e.(payout := c.payoutLeft, fee := c.feeLeft);
    assert next.delta.settlements == w.delta.settlements + [x] && next.state.exits[c.id] == left;
    assert forall part :: Owed(w.state, c.id, part) == Of(e, part) && Owed(next.state, c.id, part) == Of(left, part);
    assert forall part :: QueuedWith(left, part) == QueuedWith(e, part) && MovedOn(left, part) == MovedOn(e, part);
    PayAccounted(w, next, c.id, x);
  }

  lemma StrandedAccounted(w: Window, tx: Tx, c: Call)
    requires Accounted(w) && c.ExitStrandedSeen? && ApplyExitStranded(w, tx, c).Ok?
    ensures Accounted(ApplyExitStranded(w, tx, c).value)
  {
    var next, e := ApplyExitStranded(w, tx, c).value, w.state.exits[c.id];
    assert c.id !in w.state.stranded;
    assert Recorded(w.delta.queued, c.id, e);
    hide Accounted;
    var x := Settlement(-(e.payout - c.payout), e.fee - c.fee, e.recipient, e.relayer, Some(c.id), tx);
    var left := next.state.stranded[c.id];
    assert forall part :: Owed(w.state, c.id, part) == Of(e, part) && Owed(next.state, c.id, part) == Of(left, part);
    assert forall part :: QueuedWith(left, part) == QueuedWith(e, part) && MovedOn(left, part) == MovedOn(e, part);
    PayAccounted(w, next, c.id, x);
  }

  lemma RequeuedAccounted(w: Window, tx: Tx, c: Call)
    requires Accounted(w) && c.ExitRequeuedSeen? && ApplyExitRequeued(w, tx, c).Ok?
    ensures Accounted(ApplyExitRequeued(w, tx, c).value)
  {
    var next, e := ApplyExitRequeued(w, tx, c).value, w.state.stranded[c.id];
    assert Recorded(w.delta.queued, c.id, e);
    assert c.id !in w.state.exits;
    hide Accounted;
    QueueAccounted(w, next, MovedExit(e, tx, c));
  }

  lemma CallAccounted(depth: nat, w: Window, tx: Tx, c: Call)
    requires Accounted(w) && Apply(depth, w, tx, c).Ok?
    ensures Accounted(Apply(depth, w, tx, c).value)
  {
    hide Accounted, ApplyTransact, ApplyExitSettled, ApplyExitPaid, ApplyExitStranded, ApplyExitRequeued;
    match c
    case TransactSeen(_, _, _, _, _) => TransactAccounted(depth, w, tx, c);
    case ExitSettledSeen(_, _, _, _, _) => SettledAccounted(w, tx, c);
    case ExitPaidSeen(_, _, _, _, _) => PaidAccounted(w, tx, c);
    case ExitStrandedSeen(_, _, _) => StrandedAccounted(w, tx, c);
    case ExitRequeuedSeen(_, _, _, _) => RequeuedAccounted(w, tx, c);
    case _ => UntouchedAccounted(w, Apply(depth, w, tx, c).value);
  }

  lemma {:induction false} CallsAccounted(depth: nat, w: Window, tx: Tx, calls: seq<Call>)
    requires Accounted(w) && ApplyAll(depth, w, tx, calls).Ok?
    ensures Accounted(ApplyAll(depth, w, tx, calls).value)
    decreases |calls|
  {
    hide Accounted, Apply;
    if calls != [] {
      CallAccounted(depth, w, tx, calls[0]);
      CallsAccounted(depth, Apply(depth, w, tx, calls[0]).value, tx, calls[1..]);
    }
  }

  lemma {:induction false} TxsAccounted(depth: nat, w: Window, txs: seq<(Tx, seq<Call>)>)
    requires Accounted(w) && ApplyWindow(depth, w, txs).Ok?
    ensures Accounted(ApplyWindow(depth, w, txs).value)
    decreases |txs|
  {
    hide Accounted;
    if txs != [] {
      CallsAccounted(depth, w, txs[0].0, txs[0].1);
      TxsAccounted(depth, ApplyAll(depth, w, txs[0].0, txs[0].1).value, txs[1..]);
    }
  }

  /** A vault's whole history, from its deployment. */
  function History(depth: nat, txs: seq<(Tx, seq<Call>)>): Result<Window, Inconsistent> {
    ApplyWindow(depth, Window(NEW_STATE, NO_CHANGE, {}), txs)
  }

  /** Over any accepted run, what an exit was queued with is what was paid under its ID, plus what claims
      moved on, plus what it still owes. */
  lemma ExitIsConserved(depth: nat, txs: seq<(Tx, seq<Call>)>, id: nat, part: Part)
    requires History(depth, txs).Ok?
    requires 1 <= id < History(depth, txs).value.state.status.exitTail
    ensures var w := History(depth, txs).value;
            && |w.delta.queued| == w.state.status.exitTail - 1
            && w.delta.queued[id - 1].id == id
            && Of(w.delta.queued[id - 1], part)
               == Paid(w.delta.settlements, id, part) + Moved(w.delta.queued, id, part) + Owed(w.state, id, part)
  {
    NewVaultAccounted();
    TxsAccounted(depth, Window(NEW_STATE, NO_CHANGE, {}), txs);
    var w := History(depth, txs).value;
    assert Conserved(w, id) && Logged(w.delta.queued, id - 1);
  }

  /** What the indexer reports as paid of an exit still owed is what its settlements paid. */
  lemma ReportedPaidIsPaid(depth: nat, txs: seq<(Tx, seq<Call>)>, id: nat)
    requires History(depth, txs).Ok?
    requires var s := History(depth, txs).value.state; id in s.exits || id in s.stranded
    ensures var w := History(depth, txs).value;
            var e := if id in w.state.exits then w.state.exits[id] else w.state.stranded[id];
            e.PaidPayout() == Paid(w.delta.settlements, id, ThePayout) && e.PaidFee() == Paid(w.delta.settlements, id, TheFee)
  {
    NewVaultAccounted();
    TxsAccounted(depth, Window(NEW_STATE, NO_CHANGE, {}), txs);
    var w := History(depth, txs).value;
    var e := if id in w.state.exits then w.state.exits[id] else w.state.stranded[id];
    assert Recorded(w.delta.queued, id, e);
    assert Conserved(w, id);
    forall part
      ensures QueuedWith(e, part) - MovedOn(e, part) - Of(e, part) == Paid(w.delta.settlements, id, part)
    {
    }
    assert QueuedWith(e, ThePayout) == e.queuedPayout && QueuedWith(e, TheFee) == e.queuedFee;
  }

  // ---------------------------------------------------------------------------------------------
  // Requeue trees

  /** Whether an exit is another or was moved from it, directly or through others. */
  predicate Descends(log: seq<OwedExit>, root: nat, id: nat)
    requires Log(log) && 1 <= id <= |log|
    decreases id
  {
    id == root ||
    (assert Logged(log, id - 1); log[id - 1].requeuedFrom.Some? && Descends(log, root, log[id - 1].requeuedFrom.value))
  }

  /** Everything paid under the IDs of a requeue tree. */
  function PaidInTree(xs: seq<Settlement>, log: seq<OwedExit>, root: nat, part: Part): int
    requires Log(log) && PaysLogged(xs, log)
  {
    if xs == [] then 0
    else
      var rest, x := xs[..|xs| - 1], xs[|xs| - 1];
      assert x in xs && forall y :: y in rest ==> y in xs;
      PaidInTree(rest, log, root, part)
      + if x.exitId.Some? && Descends(log, root, x.exitId.value) then Paying(x, part) else 0
  }

  /** What is still owed under the first `n` IDs of a requeue tree. */
  function OwedInTree(s: State, log: seq<OwedExit>, root: nat, n: nat, part: Part): int
    requires Log(log) && n <= |log|
  {
    if n == 0 then 0
    else OwedInTree(s, log, root, n - 1, part) + if Descends(log, root, n) then Owed(s, n, part) else 0
  }

  /** The sums of one exit's amounts, over the first `n` IDs of a tree. */
  function PaidUnder(xs: seq<Settlement>, log: seq<OwedExit>, root: nat, n: nat, part: Part): int
    requires Log(log) && n <= |log|
  {
    if n == 0 then 0
    else PaidUnder(xs, log, root, n - 1, part) + if Descends(log, root, n) then Paid(xs, n, part) else 0
  }

  function MovedUnder(log: seq<OwedExit>, moves: seq<OwedExit>, root: nat, n: nat, part: Part): int
    requires Log(log) && n <= |log|
  {
    if n == 0 then 0
    else MovedUnder(log, moves, root, n - 1, part) + if Descends(log, root, n) then Moved(moves, n, part) else 0
  }

  function QueuedUnder(log: seq<OwedExit>, root: nat, n: nat, part: Part): int
    requires Log(log) && n <= |log|
  {
    if n == 0 then 0
    else QueuedUnder(log, root, n - 1, part) + if Descends(log, root, n) then Of(log[n - 1], part) else 0
  }

  lemma {:induction false} TreeIsNewer(log: seq<OwedExit>, root: nat, id: nat)
    requires Log(log) && 1 <= id <= |log| && Descends(log, root, id)
    ensures root <= id
    decreases id
  {
    if id != root {
      assert Logged(log, id - 1);
      TreeIsNewer(log, root, log[id - 1].requeuedFrom.value);
    }
  }

  /** The tree's payments, exit by exit. */
  lemma {:induction false} PaidByExit(xs: seq<Settlement>, log: seq<OwedExit>, root: nat, part: Part)
    requires Log(log) && PaysLogged(xs, log)
    ensures PaidInTree(xs, log, root, part) == PaidUnder(xs, log, root, |log|, part)
  {
    if xs == [] {
      NothingPaid(log, root, |log|, part);
    } else {
      var rest, x := xs[..|xs| - 1], xs[|xs| - 1];
      assert x in xs && forall y :: y in rest ==> y in xs;
      PaidByExit(rest, log, root, part);
      OnePaid(rest, x, log, root, |log|, part);
      assert rest + [x] == xs;
    }
  }

  lemma {:induction false} NothingPaid(log: seq<OwedExit>, root: nat, n: nat, part: Part)
    requires Log(log) && n <= |log|
    ensures PaidUnder([], log, root, n, part) == 0
  {
    if n > 0 {
      NothingPaid(log, root, n - 1, part);
    }
  }

  lemma {:induction false} OnePaid(rest: seq<Settlement>, x: Settlement, log: seq<OwedExit>, root: nat, n: nat, part: Part)
    requires Log(log) && n <= |log| && (x.exitId.Some? ==> 1 <= x.exitId.value <= |log|)
    ensures PaidUnder(rest + [x], log, root, n, part)
            == PaidUnder(rest, log, root, n, part)
               + if x.exitId.Some? && x.exitId.value <= n && Descends(log, root, x.exitId.value) then Paying(x, part) else 0
  {
    if n > 0 {
      OnePaid(rest, x, log, root, n - 1, part);
      PaidMore(rest, x, n, part);
    }
  }

  /** What a tree's exits moved on is what its other exits started with. */
  lemma {:induction false} MovedIsQueued(log: seq<OwedExit>, root: nat, k: nat, part: Part)
    requires Log(log) && 1 <= root <= |log| && k <= |log|
    ensures MovedUnder(log, log[..k], root, |log|, part)
            == QueuedUnder(log, root, k, part) - if root <= k then Of(log[root - 1], part) else 0
  {
    if k == 0 {
      assert log[..0] == [];
      NothingMoved(log, root, |log|, part);
    } else {
      assert Logged(log, k - 1);
      MovedIsQueued(log, root, k - 1, part);
      assert log[..k] == log[..k - 1] + [log[k - 1]];
      OneMoved(log, log[..k - 1], log[k - 1], root, |log|, part);
      if root == k && log[k - 1].requeuedFrom.Some? {
        var p := log[k - 1].requeuedFrom.value;
        if Descends(log, root, p) {
          TreeIsNewer(log, root, p);
        }
      }
    }
  }

  lemma {:induction false} NothingMoved(log: seq<OwedExit>, root: nat, n: nat, part: Part)
    requires Log(log) && n <= |log|
    ensures MovedUnder(log, [], root, n, part) == 0
  {
    if n > 0 {
      NothingMoved(log, root, n - 1, part);
    }
  }

  lemma {:induction false} OneMoved(log: seq<OwedExit>, moves: seq<OwedExit>, e: OwedExit, root: nat, n: nat, part: Part)
    requires Log(log) && n <= |log| && (e.requeuedFrom.Some? ==> 1 <= e.requeuedFrom.value <= |log|)
    ensures MovedUnder(log, moves + [e], root, n, part)
            == MovedUnder(log, moves, root, n, part)
               + if e.requeuedFrom.Some? && e.requeuedFrom.value <= n && Descends(log, root, e.requeuedFrom.value) then Of(e, part) else 0
  {
    if n > 0 {
      OneMoved(log, moves, e, root, n - 1, part);
      MovedMore(moves, e, n, part);
    }
  }

  lemma {:induction false} SumOfExits(w: Window, root: nat, n: nat, part: Part)
    requires Accounted(w) && n <= |w.delta.queued|
    ensures var log := w.delta.queued;
            QueuedUnder(log, root, n, part)
            == PaidUnder(w.delta.settlements, log, root, n, part) + MovedUnder(log, log, root, n, part)
               + OwedInTree(w.state, log, root, n, part)
  {
    if n > 0 {
      SumOfExits(w, root, n - 1, part);
      assert Conserved(w, n);
    }
  }

  /** Over an exit's whole requeue tree, the amount it was queued with is everything paid under the tree's
      IDs plus what its exits still owe, and each of those payments went to the exit's own parties. */
  lemma TreeIsConserved(depth: nat, txs: seq<(Tx, seq<Call>)>, root: nat, part: Part)
    requires History(depth, txs).Ok?
    requires 1 <= root < History(depth, txs).value.state.status.exitTail
    ensures var w := History(depth, txs).value;
            var log := w.delta.queued;
            && |log| == w.state.status.exitTail - 1 && Log(log) && PaysLogged(w.delta.settlements, log)
            && Of(log[root - 1], part)
               == PaidInTree(w.delta.settlements, log, root, part) + OwedInTree(w.state, log, root, |log|, part)
            && (forall x :: x in w.delta.settlements && x.exitId.Some? && Descends(log, root, x.exitId.value) ==>
                  x.recipient == log[root - 1].recipient && x.relayer == log[root - 1].relayer)
  {
    NewVaultAccounted();
    TxsAccounted(depth, Window(NEW_STATE, NO_CHANGE, {}), txs);
    var w := History(depth, txs).value;
    var log := w.delta.queued;
    SumOfExits(w, root, |log|, part);
    PaidByExit(w.delta.settlements, log, root, part);
    MovedIsQueued(log, root, |log|, part);
    assert log[..|log|] == log;
    forall x | x in w.delta.settlements && x.exitId.Some? && Descends(log, root, x.exitId.value)
      ensures x.recipient == log[root - 1].recipient && x.relayer == log[root - 1].relayer
    {
      TreeSharesParties(log, root, x.exitId.value);
    }
  }

  lemma {:induction false} TreeSharesParties(log: seq<OwedExit>, root: nat, id: nat)
    requires Log(log) && 1 <= id <= |log| && Descends(log, root, id)
    ensures 1 <= root <= |log| && SameParties(log[id - 1], log[root - 1])
    decreases id
  {
    if id != root {
      assert Logged(log, id - 1);
      TreeSharesParties(log, root, log[id - 1].requeuedFrom.value);
    }
  }

  // ---------------------------------------------------------------------------------------------
  // Signs

  /** The signs of amounts that events must have to decode. */
  predicate Decodes(c: Call) {
    match c
    case TransactSeen(_, _, _, _, end) => end.extAmount <= 0 <= end.fee || !end.Waits?
    case ExitPaidSeen(_, payoutPaid, feePaid, payoutLeft, feeLeft) => payoutPaid >= 0 && feePaid >= 0 && payoutLeft >= 0 && feeLeft >= 0
    case ExitStrandedSeen(_, payout, fee) => payout >= 0 && fee >= 0 && (payout > 0 || fee > 0)
    case ExitRequeuedSeen(_, _, payout, fee) => payout >= 0 && fee >= 0 && (payout > 0 || fee > 0)
    case _ => true
  }

  predicate PartlyPaid(e: OwedExit) {
    0 <= e.payout <= e.queuedPayout && 0 <= e.fee <= e.queuedFee
  }

  ghost predicate AllPartlyPaid(s: State) {
    (forall id :: id in s.exits ==> PartlyPaid(s.exits[id])) && (forall id :: id in s.stranded ==> PartlyPaid(s.stranded[id]))
  }

  lemma CallNeverOverpays(depth: nat, w: Window, tx: Tx, c: Call)
    requires AllPartlyPaid(w.state) && Decodes(c) && Apply(depth, w, tx, c).Ok?
    ensures AllPartlyPaid(Apply(depth, w, tx, c).value.state)
  {
  }

  lemma {:induction false} CallsNeverOverpay(depth: nat, w: Window, tx: Tx, calls: seq<Call>)
    requires AllPartlyPaid(w.state) && ApplyAll(depth, w, tx, calls).Ok? && forall c :: c in calls ==> Decodes(c)
    ensures AllPartlyPaid(ApplyAll(depth, w, tx, calls).value.state)
    decreases |calls|
  {
    hide AllPartlyPaid, Apply;
    if calls != [] {
      CallNeverOverpays(depth, w, tx, calls[0]);
      CallsNeverOverpay(depth, Apply(depth, w, tx, calls[0]).value, tx, calls[1..]);
    }
  }

  /** No exit owes more than it was queued with, however its parts were paid, stranded and moved. */
  lemma {:induction false} NeverOverpaid(depth: nat, w: Window, txs: seq<(Tx, seq<Call>)>)
    requires AllPartlyPaid(w.state) && ApplyWindow(depth, w, txs).Ok?
    requires forall tx, c :: tx in txs && c in tx.1 ==> Decodes(c)
    ensures AllPartlyPaid(ApplyWindow(depth, w, txs).value.state)
    decreases |txs|
  {
    hide AllPartlyPaid;
    if txs != [] {
      CallsNeverOverpay(depth, w, txs[0].0, txs[0].1);
      NeverOverpaid(depth, ApplyAll(depth, w, txs[0].0, txs[0].1).value, txs[1..]);
    }
  }

  /** Only the exit at the head has been paid in part. */
  ghost predicate OnlyHeadPaid(s: State) {
    forall id :: id in s.exits && id != s.status.exitHead ==>
      s.exits[id].payout == s.exits[id].queuedPayout && s.exits[id].fee == s.exits[id].queuedFee
  }

  lemma CallPaysOnlyHead(depth: nat, w: Window, tx: Tx, c: Call)
    requires OnlyHeadPaid(w.state) && Apply(depth, w, tx, c).Ok?
    ensures OnlyHeadPaid(Apply(depth, w, tx, c).value.state)
  {
    hide Insert, Spend, Fits, StepOf, CouldStrand, BadTransact, ApplyScreening, ApplyGovernance;
    if c.FlaggedSeen? || c.UnflaggedSeen? || c.AttestedSeen? {
      ScreeningKeepsExits(w.state, tx.closedAt, c);
    } else if c.PausedSeen? || c.HaltedSeen? || c.ResumedSeen? || c.LimitsQueuedSeen? || c.LimitsAppliedSeen? || c.LimitsCancelledSeen? {
      GovernanceKeepsExits(w.state, tx.closedAt, c);
    } else if c.ShieldSeen? || c.TransactSeen? || c.AdmissionSeen? {
      TreeAndSpendsKeepExits(depth, w, c);
    }
  }

  predicate SameQueue(s: State, t: State) {
    t.exits == s.exits && t.status.exitHead == s.status.exitHead
  }

  lemma ScreeningKeepsExits(s: State, now: nat, c: Call)
    requires (c.FlaggedSeen? || c.UnflaggedSeen? || c.AttestedSeen?) && ApplyScreening(s, now, c).Ok?
    ensures SameQueue(s, ApplyScreening(s, now, c).value)
  {
  }

  lemma GovernanceKeepsExits(s: State, now: nat, c: Call)
    requires c.PausedSeen? || c.HaltedSeen? || c.ResumedSeen? || c.LimitsQueuedSeen? || c.LimitsAppliedSeen? || c.LimitsCancelledSeen?
    ensures SameQueue(s, ApplyGovernance(s, now, c))
  {
  }

  lemma TreeAndSpendsKeepExits(depth: nat, w: Window, c: Call)
    ensures forall nf0, nf1 :: Spend(w, nf0, nf1).Ok? ==> SameQueue(w.state, Spend(w, nf0, nf1).value.state)
    ensures forall v: Window, out0, out1 :: Insert(depth, v, out0, out1).Ok? ==> SameQueue(v.state, Insert(depth, v, out0, out1).value.state)
  {
  }

  /** Part payments take turns: no accepted call leaves a part paid exit behind the head. */
  lemma {:induction false} CallsPayOnlyHead(depth: nat, w: Window, tx: Tx, calls: seq<Call>)
    requires OnlyHeadPaid(w.state) && ApplyAll(depth, w, tx, calls).Ok?
    ensures OnlyHeadPaid(ApplyAll(depth, w, tx, calls).value.state)
    decreases |calls|
  {
    hide OnlyHeadPaid, Apply;
    if calls != [] {
      CallPaysOnlyHead(depth, w, tx, calls[0]);
      CallsPayOnlyHead(depth, Apply(depth, w, tx, calls[0]).value, tx, calls[1..]);
    }
  }
}
