/** From the vault's own runs to the indexer's rows: what is proved of accepted events holds of every run. */
module EndToEnd {
  import opened Common
  import opened VaultTypes
  import opened VaultSpec
  import opened VaultInvariant
  import opened VaultRuns
  import opened ParseCalls
  import opened Refinement
  import R = ReplaySpec
  import Rows
  import Lineage
  import opened Signs

  ghost predicate AllDecode(calls: seq<R.Call>) {
    forall c :: c in calls ==> Lineage.Decodes(c) && Rows.StrandsSomething(c)
  }

  lemma SignsDecode(c: R.Call)
    requires AllWellSigned(EventsOf(c))
    ensures Lineage.Decodes(c) && Rows.StrandsSomething(c)
  {
    var events := EventsOf(c);
    if c.TransactSeen? {
      assert WellSigned(events[4]);
    } else if c.ExitPaidSeen? || c.ExitStrandedSeen? || c.ExitRequeuedSeen? {
      assert WellSigned(events[0]);
    }
  }

  lemma {:induction false} CallsDecode(calls: seq<R.Call>)
    requires AllWellSigned(EventsOfAll(calls))
    ensures AllDecode(calls)
    decreases |calls|
  {
    if calls != [] {
      var events, first := EventsOfAll(calls), EventsOf(calls[0]);
      assert forall i :: 0 <= i < |first| ==> events[i] == first[i];
      var rest := EventsOfAll(calls[1..]);
      assert forall i :: 0 <= i < |rest| ==> events[|first| + i] == rest[i];
      SignsDecode(calls[0]);
      CallsDecode(calls[1..]);
      assert calls == [calls[0]] + calls[1..];
    }
  }

  /** The calls the events of one step describe. */
  lemma StepDecodes(s: VaultState, env: Env, call: Call, calls: seq<R.Call>)
    requires Solvent(s) && Parsed(Step(s, env, call).events) == Ok(calls)
    ensures AllDecode(calls)
  {
    hide Step;
    StepSigns(s, env, call);
    ParseLosesNothing(Step(s, env, call).events);
    CallsDecode(calls);
  }

  /** What holds of a window along any run: its exits are conserved, none is overpaid, only the head is paid
      in part, and its changes,
      written in order onto an empty table, leave rows that load as its exits. */
  ghost predicate Kept(w: R.Window) {
    && Lineage.Accounted(w)
    && Lineage.AllPartlyPaid(w.state)
    && Lineage.OnlyHeadPaid(w.state)
    && exists t :: Rows.Commits(map[], w.delta, t) && Rows.Represents(t, w.state)
  }

  lemma StartKept()
    ensures Kept(R.Window(R.NEW_STATE, R.NO_CHANGE, {}))
  {
    var w := R.Window(R.NEW_STATE, R.NO_CHANGE, {});
    Lineage.NewVaultAccounted();
    assert Rows.Commits(map[], w.delta, map[]) && Rows.Represents(map[], w.state);
  }

  lemma CallsKeep(depth: nat, w: R.Window, tx: R.Tx, calls: seq<R.Call>)
    requires Kept(w) && R.ApplyAll(depth, w, tx, calls).Ok? && AllDecode(calls)
    ensures Kept(R.ApplyAll(depth, w, tx, calls).value)
  {
    hide Lineage.Accounted, Lineage.AllPartlyPaid, Lineage.OnlyHeadPaid, Rows.Commits, Rows.Represents, R.ApplyAll;
    Lineage.CallsAccounted(depth, w, tx, calls);
    Lineage.CallsNeverOverpay(depth, w, tx, calls);
    Lineage.CallsPayOnlyHead(depth, w, tx, calls);
    var t :| Rows.Commits(map[], w.delta, t) && Rows.Represents(t, w.state);
    Rows.CallsRepresent(depth, map[], w, t, tx, calls);
  }

  lemma StepKept(v: VaultState, env: Env, call: Call, w: R.Window, tx: R.Tx)
    requires Follows(v, w) && tx.closedAt == env.now && Kept(w)
    ensures var calls := Parsed(Step(v, env, call).events);
            calls.Ok? && R.ApplyAll(v.host.depth, w, tx, calls.value).Ok? && Kept(R.ApplyAll(v.host.depth, w, tx, calls.value).value)
  {
    assert Solvent(v);
    hide Step, Solvent, Follows, Kept, R.ApplyAll, Parsed, AllDecode;
    var calls := StepIsReplayed(v, env, call, w, tx);
    StepDecodes(v, env, call, calls);
    CallsKeep(v.host.depth, w, tx, calls);
  }

  lemma {:induction false} RunIsKept(host: Host, config: Config, limits: Limits, steps: seq<Timed>, n: nat, txs: nat -> R.Tx)
    requires LimitsError(limits) == None && n <= |steps|
    requires forall i: nat :: i < |steps| ==> txs(i).closedAt == steps[i].env.now
    ensures RunWindow(Deployed(host, config, limits), steps, n, txs).Some?
    ensures Kept(RunWindow(Deployed(host, config, limits), steps, n, txs).value)
  {
    hide Step, Solvent, Agrees, Follows, Kept, R.ApplyAll, Parsed, Deployed, LimitsError;
    var s := Deployed(host, config, limits);
    RunIsReplayed(host, config, limits, steps, n, txs);
    if n == 0 {
      StartKept();
    } else {
      RunIsKept(host, config, limits, steps, n - 1, txs);
      RunIsReplayed(host, config, limits, steps, n - 1, txs);
      DeployedSolvent(host, config, limits);
      RunSolvent(s, steps, n - 1);
      var v, w := StateAt(s, steps, n - 1), RunWindow(s, steps, n - 1, txs).value;
      StepKept(v, steps[n - 1].env, steps[n - 1].call, w, txs(n - 1));
    }
  }

  // ---------------------------------------------------------------------------------------------
  // Windows

  /** A window in progress, and the table the windows before it were committed to. */
  datatype Stored = Stored(window: R.Window, table: Rows.Table)

  /** Commits a window in progress and starts the next one from the state it reached. */
  ghost function CommitWindow(stored: Stored): Option<Stored> {
    var d := stored.window.delta;
    if !Rows.WellIndexed(d) then None
    else
      match Rows.CommitFirst(stored.table, d, |d.exitOrder|)
      case Err(_) => None
      case Ok(table) => Some(Stored(R.Window(stored.window.state, R.NO_CHANGE, {}), table))
  }

  /** Replays the first `n` steps of a run, cut into windows after the steps in `cuts`, each committed onto
      the table of the last. */
  ghost function CutRun(s: VaultState, steps: seq<Timed>, n: nat, txs: nat -> R.Tx, cuts: set<nat>): Option<Stored>
    requires n <= |steps|
    decreases n
  {
    if n == 0 then Some(Stored(R.Window(R.NEW_STATE, R.NO_CHANGE, {}), map[]))
    else
      var before := CutRun(s, steps, n - 1, txs, cuts);
      var calls := Parsed(EffectAt(s, steps, n - 1).events);
      if before == None || calls.Err? then None
      else
        match R.ApplyAll(s.host.depth, before.value.window, txs(n - 1), calls.value)
        case Err(_) => None
        case Ok(w) =>
          var after := Stored(w, before.value.table);
          if n in cuts then CommitWindow(after) else Some(after)
  }

  /** What holds of a run cut into windows: the window in progress follows the vault, and its changes, on top
      of the table, lead to rows that load as its state. */
  ghost predicate StoredFollows(v: VaultState, stored: Stored) {
    && Follows(v, stored.window)
    && exists t :: Rows.Commits(stored.table, stored.window.delta, t) && Rows.Represents(t, stored.window.state)
  }

  lemma StartStored(host: Host, config: Config, limits: Limits)
    requires LimitsError(limits) == None
    ensures StoredFollows(Deployed(host, config, limits), Stored(R.Window(R.NEW_STATE, R.NO_CHANGE, {}), map[]))
  {
    DeployedSolvent(host, config, limits);
    StartFollows(host, config, limits);
    hide Deployed, Follows;
    var w := R.Window(R.NEW_STATE, R.NO_CHANGE, {});
    assert Rows.Commits(map[], w.delta, map[]) && Rows.Represents(map[], w.state);
  }

  lemma StepStored(v: VaultState, env: Env, call: Call, stored: Stored, tx: R.Tx)
    requires StoredFollows(v, stored) && tx.closedAt == env.now
    ensures var calls := Parsed(Step(v, env, call).events);
            && calls.Ok? && R.ApplyAll(v.host.depth, stored.window, tx, calls.value).Ok?
            && StoredFollows(Step(v, env, call).state,
                             Stored(R.ApplyAll(v.host.depth, stored.window, tx, calls.value).value, stored.table))
  {
    assert Follows(v, stored.window) && Solvent(v);
    hide Step, Solvent, Follows, R.ApplyAll, Parsed, Rows.Commits, Rows.Represents;
    var t :| Rows.Commits(stored.table, stored.window.delta, t) && Rows.Represents(t, stored.window.state);
    var calls := StepIsReplayed(v, env, call, stored.window, tx);
    StepDecodes(v, env, call, calls);
    Rows.CallsRepresent(v.host.depth, stored.table, stored.window, t, tx, calls);
  }

  /** A cut changes nothing: the next window starts from a table that loads as the state. */
  lemma CutStored(v: VaultState, stored: Stored)
    requires StoredFollows(v, stored)
    ensures var next := CommitWindow(stored);
            next.Some? && StoredFollows(v, next.value) && Rows.Represents(next.value.table, next.value.window.state)
  {
    hide Rows.Represents, Solvent, Agrees, Orderly;
    var t :| Rows.Commits(stored.table, stored.window.delta, t) && Rows.Represents(t, stored.window.state);
    var next := CommitWindow(stored).value;
    assert Rows.Commits(next.table, next.window.delta, next.table);
  }

  lemma {:induction false} RunIsCut(host: Host, config: Config, limits: Limits, steps: seq<Timed>, n: nat, txs: nat -> R.Tx, cuts: set<nat>)
    requires LimitsError(limits) == None && n <= |steps|
    requires forall i: nat :: i < |steps| ==> txs(i).closedAt == steps[i].env.now
    ensures var s := Deployed(host, config, limits);
            var stored := CutRun(s, steps, n, txs, cuts);
            && stored.Some? && StoredFollows(StateAt(s, steps, n), stored.value)
            && (n > 0 && n in cuts ==> Rows.Represents(stored.value.table, stored.value.window.state))
  {
    hide Step, StoredFollows, R.ApplyAll, Parsed, Deployed, LimitsError, Rows.Represents, CommitWindow;
    if n == 0 {
      StartStored(host, config, limits);
    } else {
      RunIsCut(host, config, limits, steps, n - 1, txs, cuts);
      RunIsHosted(host, config, limits, steps, n - 1);
      var s := Deployed(host, config, limits);
      var v, before := StateAt(s, steps, n - 1), CutRun(s, steps, n - 1, txs, cuts).value;
      StepStored(v, steps[n - 1].env, steps[n - 1].call, before, txs(n - 1));
      var calls := Parsed(EffectAt(s, steps, n - 1).events).value;
      var after := Stored(R.ApplyAll(host.depth, before.window, txs(n - 1), calls).value, before.table);
      if n in cuts {
        CutStored(StateAt(s, steps, n), after);
      }
    }
  }

  /** A vault never changes what it is deployed on. */
  lemma RunIsHosted(host: Host, config: Config, limits: Limits, steps: seq<Timed>, n: nat)
    requires LimitsError(limits) == None && n <= |steps|
    ensures var s := Deployed(host, config, limits); s.host == host && StateAt(s, steps, n).host == host
  {
    DeployedSolvent(host, config, limits);
    RunSolvent(Deployed(host, config, limits), steps, n);
  }

  /** From the vault to the rows: wherever a run of the vault is cut into windows, every window commits onto the
      table of the one before it, and the table after the last loads as exits which are the vault's own, queued
      and stranded. */
  lemma RunIsStored(host: Host, config: Config, limits: Limits, steps: seq<Timed>, n: nat, txs: nat -> R.Tx, cuts: set<nat>)
    requires LimitsError(limits) == None && 0 < n <= |steps| && n in cuts
    requires forall i: nat :: i < |steps| ==> txs(i).closedAt == steps[i].env.now
    ensures var v, stored := StateAt(Deployed(host, config, limits), steps, n), CutRun(Deployed(host, config, limits), steps, n, txs, cuts);
            && stored.Some?
            && stored.value.window.delta == R.NO_CHANGE
            && Agrees(v, stored.value.window.state)
            && ExitsAgree(v.exits, Rows.LoadQueued(stored.value.table, v.status.exitTail))
            && ExitsAgree(v.stranded, Rows.LoadStranded(stored.value.table, v.status.exitTail))
  {
    hide Deployed, Rows.Commits, Rows.Represents, Step, Solvent, LimitsError, R.ApplyAll, ExitsAgree;
    RunIsCut(host, config, limits, steps, n, txs, cuts);
    var stored := CutRun(Deployed(host, config, limits), steps, n, txs, cuts).value;
    Rows.RepresentedLoads(stored.table, stored.window.state);
  }
}
