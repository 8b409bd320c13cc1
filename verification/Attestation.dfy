/** How far the screener attests: the run of deposits it vouches for, and the steps of one attestation. */
module Attestation {
  import opened Common

  const U64: nat := 0x1_0000_0000_0000_0000
  const REFUND_DELAY: nat := 24 * 60 * 60
  const REASON_HELD: nat := 6

  datatype Verdict = NotChecked | Pass | Refuse | Error

  datatype Row = Row(
    id: nat,
    flag: Option<nat>,
    flagSent: Option<nat>,
    lifted: bool,
    needsFlag: bool,
    recheck: Verdict,
    recheckAt: Option<nat>)
  {
    /** The flag this service sent last, or else the chain's, unless its hold was lifted. */
    function Reason(): Option<nat> {
      if flagSent.Some? then flagSent else if lifted then None else flag
    }

    /** A final check that passed lately enough to vouch for the deposit. */
    predicate Fresh(now: nat, window: nat) {
      recheck == Pass && recheckAt.Some? && now <= (recheckAt.value + window) % U64
    }
  }

  /** What an attestation is judged by: the last attested ID, the time, how long a pass vouches, and which
      deposits may be held instead. */
  datatype Rules = Rules(attested: nat, now: nat, window: nat, holdable: Row -> bool)
  {
    predicate Skips(r: Row) {
      r.id <= attested || r.Reason().Some?
    }

    predicate Vouches(r: Row) {
      !r.needsFlag && r.Fresh(now, window)
    }

    /** A deposit the run may pass once it is held. */
    predicate Waits(r: Row) {
      !Skips(r) && !Vouches(r) && !r.needsFlag && holdable(r)
    }

    /** A deposit that ends the run. */
    predicate Ends(r: Row) {
      !Skips(r) && !Vouches(r) && (r.needsFlag || !holdable(r))
    }
  }

  /** The rows are the pending deposits in ID order, and IDs start at one. */
  predicate InIdOrder(rows: seq<Row>) {
    (forall i :: 0 <= i < |rows| ==> rows[i].id > 0) && (forall i, j :: 0 <= i < j < |rows| ==> rows[i].id < rows[j].id)
  }

  /** What an attestation up to an ID needs: it is zero or a deposit that passed; every deposit it covers is
      flagged, passed, or held; and no deposit that passed above it could have been reached. */
  ghost predicate IsCandidate(rules: Rules, rows: seq<Row>, best: nat) {
    && (best > 0 ==> exists i :: 0 <= i < |rows| && rows[i].id == best && !rules.Skips(rows[i]) && rules.Vouches(rows[i]))
    && (forall i :: 0 <= i < |rows| && rows[i].id <= best ==> !rules.Ends(rows[i]))
    && (forall i :: 0 <= i < |rows| && rows[i].id > best && !rules.Skips(rows[i]) && rules.Vouches(rows[i]) ==>
          exists j :: 0 <= j < i && rows[j].id > best && rules.Ends(rows[j]))
  }

  /** The deposits an attestation up to an ID covers only once they are held. */
  ghost predicate AreHolds(rules: Rules, rows: seq<Row>, best: nat, holds: seq<nat>) {
    && (forall k :: 0 <= k < |holds| ==> holds[k] < |rows|)
    && (forall k, l :: 0 <= k < l < |holds| ==> holds[k] < holds[l])
    && (forall i :: 0 <= i < |rows| ==> (i in holds <==> rows[i].id <= best && rules.Waits(rows[i])))
  }

  /** There is only one such ID: the candidate is the end of the longest run. */
  lemma CandidateIsUnique(rules: Rules, rows: seq<Row>, a: nat, b: nat)
    requires InIdOrder(rows) && IsCandidate(rules, rows, a) && IsCandidate(rules, rows, b)
    ensures a == b
  {
    if a < b {
      NotShorter(rules, rows, a, b);
    } else if b < a {
      NotShorter(rules, rows, b, a);
    }
  }

  lemma NotShorter(rules: Rules, rows: seq<Row>, a: nat, b: nat)
    requires InIdOrder(rows) && IsCandidate(rules, rows, a) && IsCandidate(rules, rows, b)
    ensures b <= a
  {
    assert forall j :: 0 <= j < |rows| && rules.Ends(rows[j]) ==> rows[j].id > b;
    if b > 0 {
      var i :| 0 <= i < |rows| && rows[i].id == b && !rules.Skips(rows[i]) && rules.Vouches(rows[i]);
    }
  }

  /** Longer runs are never refused for lack of a hold: what an attestation covers is what its holds and
      checks account for. */
  lemma EverythingCovered(rules: Rules, rows: seq<Row>, best: nat, holds: seq<nat>, i: nat)
    requires IsCandidate(rules, rows, best) && AreHolds(rules, rows, best, holds)
    requires i < |rows| && rules.attested < rows[i].id <= best
    ensures rows[i].Reason().Some? || rules.Vouches(rows[i]) || (i in holds && rules.holdable(rows[i]))
  {
  }

  /** The same, deposit by deposit: one that is attested was flagged here, or on the chain and not lifted since; or it
      passed its last check less than the window ago; or it is among those held first. */
  lemma NothingUnchecked(rules: Rules, rows: seq<Row>, best: nat, holds: seq<nat>, i: nat)
    requires IsCandidate(rules, rows, best) && AreHolds(rules, rows, best, holds)
    requires i < |rows| && rules.attested < rows[i].id <= best
    ensures var r := rows[i];
            || r.flagSent.Some? || (r.flag.Some? && !r.lifted)
            || (!r.needsFlag && r.recheck == Pass && r.recheckAt.Some?
                && (r.recheckAt.value + rules.window < U64 ==> rules.now <= r.recheckAt.value + rules.window))
            || (!r.needsFlag && i in holds && rules.holdable(r))
  {
    EverythingCovered(rules, rows, best, holds, i);
    assert rows[i].recheckAt.Some? && rows[i].recheckAt.value + rules.window < U64 ==>
             (rows[i].recheckAt.value + rules.window) % U64 == rows[i].recheckAt.value + rules.window;
  }

  /** And no further deposit could be attested: one above the run's end that passed comes after one above the end that
      is not flagged, has not passed, and may not be held. */
  lemma NothingLeftOut(rules: Rules, rows: seq<Row>, best: nat, i: nat) returns (j: nat)
    requires IsCandidate(rules, rows, best) && i < |rows| && rows[i].id > best && rows[i].id > rules.attested
    requires rows[i].flagSent == None && (rows[i].flag == None || rows[i].lifted)
    requires !rows[i].needsFlag && rows[i].recheck == Pass && rows[i].recheckAt.Some?
    requires rows[i].recheckAt.value + rules.window < U64 && rules.now <= rows[i].recheckAt.value + rules.window
    ensures j < i && rows[j].id > best && rows[j].id > rules.attested
    ensures rows[j].flagSent == None && (rows[j].flag == None || rows[j].lifted)
    ensures rows[j].needsFlag || !rules.holdable(rows[j])
    ensures rows[j].needsFlag || rows[j].recheck != Pass || rows[j].recheckAt == None
            || rules.now > (rows[j].recheckAt.value + rules.window) % U64
  {
    assert (rows[i].recheckAt.value + rules.window) % U64 == rows[i].recheckAt.value + rules.window;
    assert !rules.Skips(rows[i]) && rules.Vouches(rows[i]);
    j :| 0 <= j < i && rows[j].id > best && rules.Ends(rows[j]);
  }

  /** What the loop knows once it has read the first `n` rows: `best` ends the run so far, and the rows
      after it wait. */
  ghost predicate Scanned(rules: Rules, rows: seq<Row>, n: nat, best: nat, holds: seq<nat>, waiting: seq<nat>)
    requires n <= |rows|
  {
    && (best > 0 ==> exists i :: 0 <= i < n && rows[i].id == best && !rules.Skips(rows[i]) && rules.Vouches(rows[i]))
    && (forall i :: 0 <= i < n ==> !rules.Ends(rows[i]))
    && (forall i :: 0 <= i < n && rows[i].id > best && !rules.Skips(rows[i]) ==> !rules.Vouches(rows[i]))
    && (forall k :: 0 <= k < |holds + waiting| ==> (holds + waiting)[k] < n)
    && (forall k, l :: 0 <= k < l < |holds + waiting| ==> (holds + waiting)[k] < (holds + waiting)[l])
    && (forall k :: 0 <= k < |waiting| ==> waiting[k] < |rows| && rows[waiting[k]].id > best)
    && (forall k :: 0 <= k < |holds| ==> holds[k] < |rows| && rows[holds[k]].id <= best)
    && (forall i :: 0 <= i < n ==> (rules.Waits(rows[i]) <==> i in holds + waiting))
  }

  method AttestCandidate(rules: Rules, rows: seq<Row>) returns (best: nat, holds: seq<nat>)
    requires InIdOrder(rows)
    ensures IsCandidate(rules, rows, best)
    ensures AreHolds(rules, rows, best, holds)
  {
    best, holds := 0, [];
    var waiting: seq<nat> := [];
    var i := 0;
    assert Scanned(rules, rows, 0, best, holds, waiting);
    hide Scanned, IsCandidate, AreHolds, InIdOrder;
    while i < |rows|
      invariant 0 <= i <= |rows|
      invariant Scanned(rules, rows, i, best, holds, waiting)
    {
      var r := rows[i];
      if r.id <= rules.attested || r.Reason() != None {
        Skipped(rules, rows, i, best, holds, waiting);
        i := i + 1;
        continue;
      }
      if r.needsFlag || r.recheck != Pass || r.recheckAt == None || rules.now > (r.recheckAt.value + rules.window) % U64 {
        if !r.needsFlag && rules.holdable(r) {
          Waited(rules, rows, i, best, holds, waiting);
          waiting := waiting + [i];
          i := i + 1;
          continue;
        }
        EndedHere(rules, rows, i, best, holds, waiting);
        return;
      }
      Vouched(rules, rows, i, best, holds, waiting);
      best := r.id;
      holds, waiting := holds + waiting, [];
      i := i + 1;
    }
    EndedLast(rules, rows, best, holds, waiting);
  }

  lemma Skipped(rules: Rules, rows: seq<Row>, n: nat, best: nat, holds: seq<nat>, waiting: seq<nat>)
    requires n < |rows| && Scanned(rules, rows, n, best, holds, waiting) && rules.Skips(rows[n])
    ensures Scanned(rules, rows, n + 1, best, holds, waiting)
  {
  }

  lemma Waited(rules: Rules, rows: seq<Row>, n: nat, best: nat, holds: seq<nat>, waiting: seq<nat>)
    requires InIdOrder(rows) && n < |rows| && Scanned(rules, rows, n, best, holds, waiting) && rules.Waits(rows[n])
    ensures Scanned(rules, rows, n + 1, best, holds, waiting + [n])
  {
    var all, more := holds + waiting, holds + (waiting + [n]);
    assert more == all + [n];
    forall i | 0 <= i < n + 1
      ensures i in more <==> i in all || i == n
    {
    }
  }

  lemma Vouched(rules: Rules, rows: seq<Row>, n: nat, best: nat, holds: seq<nat>, waiting: seq<nat>)
    requires InIdOrder(rows) && n < |rows| && Scanned(rules, rows, n, best, holds, waiting)
    requires !rules.Skips(rows[n]) && rules.Vouches(rows[n])
    ensures Scanned(rules, rows, n + 1, rows[n].id, holds + waiting, [])
  {
    var all := holds + waiting;
    assert all + [] == all;
    assert forall k :: 0 <= k < |all| ==> rows[all[k]].id < rows[n].id;
  }

  lemma HoldsAreAll(rules: Rules, rows: seq<Row>, n: nat, best: nat, holds: seq<nat>, waiting: seq<nat>)
    requires InIdOrder(rows) && n <= |rows| && Scanned(rules, rows, n, best, holds, waiting)
    requires n < |rows| ==> rows[n].id > best
    ensures AreHolds(rules, rows, best, holds)
  {
    var all := holds + waiting;
    assert forall k :: 0 <= k < |holds| ==> all[k] == holds[k];
    forall i | 0 <= i < |rows|
      ensures i in holds <==> rows[i].id <= best && rules.Waits(rows[i])
    {
      if i < n {
        assert i in all <==> i in holds || i in waiting;
      }
    }
  }

  /** IDs from a place on are above the best so far. */
  lemma RestIsAbove(rules: Rules, rows: seq<Row>, n: nat, best: nat, holds: seq<nat>, waiting: seq<nat>)
    requires InIdOrder(rows) && n < |rows| && Scanned(rules, rows, n, best, holds, waiting)
    ensures forall i :: n <= i < |rows| ==> rows[i].id > best
  {
    if best > 0 {
      var i :| 0 <= i < n && rows[i].id == best;
    }
  }

  lemma EndedHere(rules: Rules, rows: seq<Row>, n: nat, best: nat, holds: seq<nat>, waiting: seq<nat>)
    requires InIdOrder(rows) && n < |rows| && Scanned(rules, rows, n, best, holds, waiting) && rules.Ends(rows[n])
    ensures IsCandidate(rules, rows, best) && AreHolds(rules, rows, best, holds)
  {
    RestIsAbove(rules, rows, n, best, holds, waiting);
    HoldsAreAll(rules, rows, n, best, holds, waiting);
  }

  lemma EndedLast(rules: Rules, rows: seq<Row>, best: nat, holds: seq<nat>, waiting: seq<nat>)
    requires InIdOrder(rows) && Scanned(rules, rows, |rows|, best, holds, waiting)
    ensures IsCandidate(rules, rows, best) && AreHolds(rules, rows, best, holds)
  {
    HoldsAreAll(rules, rows, |rows|, best, holds, waiting);
  }

  // ---------------------------------------------------------------------------------------------
  // One attestation

  /** What the screener sends to the vault. */
  datatype Sent = FlagSent(id: nat) | AttestSent(upTo: nat)

  /** What the chain and the sources answer during one attestation: whether the sources are fresh, whether
      the vault is halted, its next deposit ID, which flags it takes, the flag of each deposit still
      pending when it is read, and whether the attestation is taken. */
  datatype Chain = Chain(current: bool, halted: bool, nextDepositId: nat, takesFlag: nat -> bool, readable: bool,
                         pending: map<nat, Option<nat>>, takesAttest: bool)

  /** A deposit an attestation may cover: resolved, flagged on the chain, or passed here. */
  ghost predicate Accounted(chain: Chain, rules: Rules, rows: seq<Row>, id: nat) {
    id in chain.pending && chain.pending[id] == None ==> exists i :: 0 <= i < |rows| && rows[i].id == id && rows[i].Fresh(rules.now, rules.window)
  }

  /** The flags of the holds, in order. */
  function FlagsOf(rows: seq<Row>, holds: seq<nat>): seq<Sent>
    requires forall k :: 0 <= k < |holds| ==> holds[k] < |rows|
  {
    seq(|holds|, k requires 0 <= k < |holds| => FlagSent(rows[holds[k]].id))
  }

  function HeldRow(r: Row): Row {
    r.(flagSent := Some(REASON_HELD), lifted := false)
  }

  /** The rows once some of them are held. */
  ghost predicate RowsHeld(was: seq<Row>, rows: seq<Row>, held: seq<nat>) {
    |rows| == |was| && forall i :: 0 <= i < |rows| ==> rows[i] == if i in held then HeldRow(was[i]) else was[i]
  }

  /** What must hold before an attestation is sent: it is for the run's end, the chain accounts for every
      deposit it covers, and each of them is flagged or passed, those that wait by the flags just sent. */
  ghost predicate MayAttest(rules: Rules, chain: Chain, was: seq<Row>, rows: seq<Row>, flags: seq<Sent>, upTo: nat) {
    && chain.current && !chain.halted && 0 < upTo < chain.nextDepositId
    && |rows| == |was|
    && IsCandidate(rules, was, upTo)
    && (forall id :: rules.attested < id <= upTo ==> Accounted(chain, rules, was, id))
    && (forall i :: 0 <= i < |rows| && rules.attested < rows[i].id <= upTo ==> rows[i].Reason().Some? || rules.Vouches(was[i]))
    && (forall i :: 0 <= i < |rows| && rows[i].id <= upTo && rules.Waits(was[i]) ==> FlagSent(rows[i].id) in flags)
  }

  /** Only deposits that may be held are flagged. */
  ghost predicate OnlyHolds(rules: Rules, rows: seq<Row>, flags: seq<Sent>) {
    forall s :: s in flags ==> s.FlagSent? && exists i :: 0 <= i < |rows| && rows[i].id == s.id && rules.Waits(rows[i])
  }

  lemma HoldsOnly(rules: Rules, rows: seq<Row>, best: nat, holds: seq<nat>, n: nat)
    requires AreHolds(rules, rows, best, holds) && n <= |holds|
    ensures OnlyHolds(rules, rows, FlagsOf(rows, holds)[..n])
  {
    forall s | s in FlagsOf(rows, holds)[..n]
      ensures s.FlagSent? && exists i :: 0 <= i < |rows| && rows[i].id == s.id && rules.Waits(rows[i])
    {
      var k :| 0 <= k < n && s == FlagsOf(rows, holds)[k];
      assert holds[k] in holds;
    }
  }

  lemma HeldMayAttest(rules: Rules, chain: Chain, was: seq<Row>, rows: seq<Row>, holds: seq<nat>, upTo: nat)
    requires chain.current && !chain.halted && 0 < upTo < chain.nextDepositId
    requires IsCandidate(rules, was, upTo) && AreHolds(rules, was, upTo, holds) && RowsHeld(was, rows, holds)
    requires forall id :: rules.attested < id <= upTo ==> Accounted(chain, rules, rows, id)
    ensures MayAttest(rules, chain, was, rows, FlagsOf(was, holds), upTo)
  {
    forall id | rules.attested < id <= upTo
      ensures Accounted(chain, rules, was, id)
    {
      assert Accounted(chain, rules, rows, id);
    }
    forall i | 0 <= i < |rows| && rules.attested < rows[i].id <= upTo
      ensures rows[i].Reason().Some? || rules.Vouches(was[i])
    {
      EverythingCovered(rules, was, upTo, holds, i);
    }
    forall i | 0 <= i < |rows| && rows[i].id <= upTo && rules.Waits(was[i])
      ensures FlagSent(rows[i].id) in FlagsOf(was, holds)
    {
      var k :| 0 <= k < |holds| && holds[k] == i;
      assert FlagsOf(was, holds)[k] == FlagSent(was[i].id);
    }
  }

  class Screener {
    var rows: seq<Row>
    var sent: seq<Sent>

    /** Attests the run's end, after flagging every deposit the run passes only once it is held, and only
        if the chain itself accounts for every deposit the attestation covers. */
    method Attest(rules: Rules, chain: Chain) returns (ok: bool)
      requires InIdOrder(rows)
      modifies this
      ensures exists flags ::
                && OnlyHolds(rules, old(rows), flags)
                && (sent == old(sent) + flags
                    || exists upTo :: sent == old(sent) + flags + [AttestSent(upTo)]
                                      && MayAttest(rules, chain, old(rows), rows, flags, upTo))
    {
      ghost var none: seq<Sent> := [];
      assert sent == sent + none && OnlyHolds(rules, rows, none);
      if !chain.current || chain.halted {
        return true;
      }
      ghost var was, before := rows, sent;
      var upTo, holds := AttestCandidate(rules, rows);
      if upTo == 0 || upTo >= chain.nextDepositId {
        return true;
      }
      var held: bool;
      ghost var n: nat;
      held, n := HoldAll(chain, holds);
      ghost var flags := FlagsOf(was, holds)[..n];
      HoldsOnly(rules, was, upTo, holds, n);
      if !held {
        return false;
      }
      assert flags == FlagsOf(was, holds) && holds[..n] == holds;
      var agrees := ChainAgrees(rules, chain, upTo);
      if !agrees || !chain.takesAttest {
        return false;
      }
      HeldMayAttest(rules, chain, was, rows, holds, upTo);
      sent := sent + [AttestSent(upTo)];
      return true;
    }

    /** Flags the deposits to hold, in order, until one flag fails. */
    method HoldAll(chain: Chain, holds: seq<nat>) returns (ok: bool, ghost n: nat)
      requires forall k :: 0 <= k < |holds| ==> holds[k] < |rows|
      requires forall k, l :: 0 <= k < l < |holds| ==> holds[k] < holds[l]
      modifies this
      ensures n <= |holds| && (ok ==> n == |holds|)
      ensures sent == old(sent) + FlagsOf(old(rows), holds)[..n] && RowsHeld(old(rows), rows, holds[..n])
    {
      ghost var was, before := rows, sent;
      n := 0;
      for k := 0 to |holds|
        invariant n == k && RowsHeld(was, rows, holds[..k])
        invariant sent == before + FlagsOf(was, holds)[..k]
      {
        var i := holds[k];
        assert i !in holds[..k];
        if !chain.takesFlag(rows[i].id) {
          return false, n;
        }
        rows := rows[i := HeldRow(rows[i])];
        sent := sent + [FlagSent(rows[i].id)];
        assert holds[..k + 1] == holds[..k] + [i];
        n := n + 1;
      }
      return true, n;
    }

    /** Reads every deposit the attestation would cover from the chain. */
    method ChainAgrees(rules: Rules, chain: Chain, upTo: nat) returns (ok: bool)
      ensures ok ==> forall id :: rules.attested < id <= upTo ==> Accounted(chain, rules, rows, id)
      ensures !ok ==> !chain.readable || exists id :: rules.attested < id <= upTo && !Accounted(chain, rules, rows, id)
    {
      var passed: set<nat> := {};
      for i := 0 to |rows|
        invariant forall id :: id in passed <==> exists j :: 0 <= j < i && rows[j].id == id && rows[j].Fresh(rules.now, rules.window)
      {
        if rows[i].Fresh(rules.now, rules.window) {
          passed := passed + {rows[i].id};
        }
      }
      if !chain.readable {
        return false;
      }
      var id := rules.attested + 1;
      while id <= upTo
        invariant rules.attested < id
        invariant forall k :: rules.attested < k < id && k <= upTo ==> Accounted(chain, rules, rows, k)
      {
        if id in chain.pending && chain.pending[id] == None && id !in passed {
          assert !Accounted(chain, rules, rows, id);
          return false;
        }
        id := id + 1;
      }
      return true;
    }
  }
}
