/** The exits table: what each change of a window writes, and what loading the table gives back. */
module Rows {
  import opened Common
  import opened Merkle
  import opened VaultTypes
  import opened R = ReplaySpec

  /** One row of the exits table, keyed by the exit's ID. */
  datatype Row = Row(
    payout: int,
    fee: int,
    recipient: MuxedAddress,
    relayer: Address,
    queuedAt: nat,
    ledger: nat,
    txHash: nat,
    payoutLeft: Option<int>,
    feeLeft: Option<int>,
    released: Option<Tx>,
    unpaidPayout: Option<int>,
    unpaidFee: Option<int>,
    requeuedFrom: Option<nat>,
    requeued: Option<Tx>)
  {
    predicate Waiting() {
      released == None
    }

    predicate Stranded() {
      released.Some? && unpaidPayout.Some? && requeued == None
    }
  }

  type Table = map<nat, Row>

  function Coalesce(x: Option<int>, default: int): int {
    if x.Some? then x.value else default
  }

  // ---------------------------------------------------------------------------------------------
  // Writing

  function InsertExit(t: Table, e: OwedExit): Result<Table, Inconsistent> {
    if e.id in t then Err(Inconsistent)
    else Ok(t[e.id := Row(e.payout, e.fee, e.recipient, e.relayer, e.queuedAt, e.ledger, e.txHash, None, None, None, None, None,
                          e.requeuedFrom, None)])
  }

  function UpdatePartPaid(t: Table, p: PartPaid): Result<Table, Inconsistent> {
    if p.id !in t || !t[p.id].Waiting() then Err(Inconsistent)
    else Ok(t[p.id := t[p.id].(payoutLeft := Some(p.payoutLeft), feeLeft := Some(p.feeLeft))])
  }

  function UpdateReleased(t: Table, r: Released): Result<Table, Inconsistent> {
    var id := r.exit.id;
    if id !in t || !t[id].Waiting() then Err(Inconsistent)
    else
      var unpaid := r.unpaidPayout > 0 || r.unpaidFee > 0;
      Ok(t[id := t[id].(released := Some(r.tx),
                        unpaidPayout := if unpaid then Some(r.unpaidPayout) else None,
                        unpaidFee := if unpaid then Some(r.unpaidFee) else None)])
  }

  /** Once nothing is left stranded, the row records when its last part moved. */
  function UpdateRequeued(t: Table, r: Requeued): Result<Table, Inconsistent> {
    if r.from !in t || t[r.from].unpaidPayout == None || t[r.from].requeued.Some? then Err(Inconsistent)
    else Ok(t[r.from := t[r.from].(unpaidPayout := Some(r.payoutLeft), unpaidFee := Some(r.feeLeft),
                                   requeued := if r.payoutLeft == 0 && r.feeLeft == 0 then Some(r.tx) else None)])
  }

  predicate InRange(d: Delta, c: ExitChange) {
    match c.kind
    case QueuedChange => c.index < |d.queued|
    case PartPaidChange => c.index < |d.partPaid|
    case ReleasedChange => c.index < |d.released|
    case RequeuedChange => c.index < |d.requeued|
  }

  function Commit(t: Table, d: Delta, c: ExitChange): Result<Table, Inconsistent>
    requires InRange(d, c)
  {
    match c.kind
    case QueuedChange => InsertExit(t, d.queued[c.index])
    case PartPaidChange => UpdatePartPaid(t, d.partPaid[c.index])
    case ReleasedChange => UpdateReleased(t, d.released[c.index])
    case RequeuedChange => UpdateRequeued(t, d.requeued[c.index])
  }

  /** The first `n` exit changes of a window, in the order they happened. */
  function CommitFirst(t: Table, d: Delta, n: nat): Result<Table, Inconsistent>
    requires n <= |d.exitOrder| && forall c :: c in d.exitOrder ==> InRange(d, c)
  {
    if n == 0 then Ok(t)
    else
      match CommitFirst(t, d, n - 1)
      case Err(error) => Err(error)
      case Ok(before) => Commit(before, d, d.exitOrder[n - 1])
  }

  // ---------------------------------------------------------------------------------------------
  // Loading

  predicate IsChild(t: Table, parent: nat, id: nat) {
    id in t && t[id].requeuedFrom == Some(parent)
  }

  /** The exits below an ID that claims moved from a parent, in ID order, and what they moved. */
  function Children(t: Table, parent: nat, n: nat): seq<nat> {
    if n == 0 then [] else Children(t, parent, n - 1) + if IsChild(t, parent, n - 1) then [n - 1] else []
  }

  function MovedPayout(t: Table, parent: nat, n: nat): int {
    if n == 0 then 0 else MovedPayout(t, parent, n - 1) + if IsChild(t, parent, n - 1) then t[n - 1].payout else 0
  }

  function MovedFee(t: Table, parent: nat, n: nat): int {
    if n == 0 then 0 else MovedFee(t, parent, n - 1) + if IsChild(t, parent, n - 1) then t[n - 1].fee else 0
  }

  /** The exit a row stands for, in a table of IDs below `n`. */
  function LoadRow(t: Table, n: nat, id: nat): OwedExit
    requires id in t
  {
    var row := t[id];
    var tx := if row.released.Some? then row.released.value else Tx(0, 0, 0);
    OwedExit(
      id,
      if row.released.Some? then Coalesce(row.unpaidPayout, 0) else Coalesce(row.payoutLeft, row.payout),
      if row.released.Some? then Coalesce(row.unpaidFee, 0) else Coalesce(row.feeLeft, row.fee),
      row.payout, row.fee, MovedPayout(t, id, n), MovedFee(t, id, n), row.recipient, row.relayer, row.queuedAt, row.ledger, row.txHash,
      tx.ledger, tx.closedAt, tx.hash, row.requeuedFrom, Children(t, id, n))
  }

  function LoadQueued(t: Table, n: nat): map<nat, OwedExit> {
    map id | id in t && t[id].Waiting() :: LoadRow(t, n, id)
  }

  function LoadStranded(t: Table, n: nat): map<nat, OwedExit> {
    map id | id in t && t[id].Stranded() :: LoadRow(t, n, id)
  }

  class Store {
    var exits: Table

    /** Writes one exit change onto the row the changes before it left. */
    method CommitExit(d: Delta, c: ExitChange) returns (ok: bool)
      requires InRange(d, c)
      modifies this
      ensures ok <==> Commit(old(exits), d, c).Ok?
      ensures exits == if ok then Commit(old(exits), d, c).value else old(exits)
    {
      match c.kind {
      case QueuedChange =>
        var e := d.queued[c.index];
        if e.id in exits {
          return false;
        }
        exits := exits[e.id := Row(e.payout, e.fee, e.recipient, e.relayer, e.queuedAt, e.ledger, e.txHash, None, None, None, None,
                                   None, e.requeuedFrom, None)];
      case PartPaidChange =>
        var p := d.partPaid[c.index];
        if p.id !in exits || exits[p.id].released.Some? {
          return false;
        }
        exits := exits[p.id := exits[p.id].(payoutLeft := Some(p.payoutLeft), feeLeft := Some(p.feeLeft))];
      case ReleasedChange =>
        var r := d.released[c.index];
        var unpaidPayout: Option<int>, unpaidFee: Option<int> := None, None;
        if r.unpaidPayout > 0 || r.unpaidFee > 0 {
          unpaidPayout, unpaidFee := Some(r.unpaidPayout), Some(r.unpaidFee);
        }
        var id := r.exit.id;
        if id !in exits || exits[id].released.Some? {
          return false;
        }
        exits := exits[id := exits[id].(released := Some(r.tx), unpaidPayout := unpaidPayout, unpaidFee := unpaidFee)];
      case RequeuedChange =>
        var r := d.requeued[c.index];
        var last: Option<Tx> := None;
        if r.payoutLeft == 0 && r.feeLeft == 0 {
          last := Some(r.tx);
        }
        if r.from !in exits || exits[r.from].unpaidPayout == None || exits[r.from].requeued.Some? {
          return false;
        }
        exits := exits[r.from := exits[r.from].(unpaidPayout := Some(r.payoutLeft), unpaidFee := Some(r.feeLeft), requeued := last)];
      }
      return true;
    }

    /** Writes a window's exit changes in order; a change that finds no row undoes all of them. */
    method CommitExits(d: Delta) returns (ok: bool)
      requires forall c :: c in d.exitOrder ==> InRange(d, c)
      modifies this
      ensures ok <==> CommitFirst(old(exits), d, |d.exitOrder|).Ok?
      ensures exits == if ok then CommitFirst(old(exits), d, |d.exitOrder|).value else old(exits)
    {
      var saved := exits;
      for i := 0 to |d.exitOrder|
        invariant CommitFirst(saved, d, i) == Ok(exits)
      {
        var written := CommitExit(d, d.exitOrder[i]);
        if !written {
          exits := saved;
          CommitFails(saved, d, i + 1);
          return false;
        }
      }
      return true;
    }

    /** Reads the queued and the stranded exits back, in ID order. */
    method LoadExits(n: nat) returns (queued: map<nat, OwedExit>, stranded: map<nat, OwedExit>)
      requires forall id :: id in exits ==> id < n
      ensures queued == LoadQueued(exits, n) && stranded == LoadStranded(exits, n)
    {
      queued, stranded := map[], map[];
      for id := 0 to n
        invariant queued == map k | k in exits && k < id && exits[k].Waiting() :: LoadRow(exits, n, k)
        invariant stranded == map k | k in exits && k < id && exits[k].Stranded() :: LoadRow(exits, n, k)
      {
        if id in exits && (exits[id].Waiting() || exits[id].Stranded()) {
          var row := exits[id];
          var movedPayout, movedFee, children := Moved(id, n);
          var payout, fee := Coalesce(row.payoutLeft, row.payout), Coalesce(row.feeLeft, row.fee);
          var tx := Tx(0, 0, 0);
          if row.released.Some? {
            payout, fee := Coalesce(row.unpaidPayout, 0), Coalesce(row.unpaidFee, 0);
            tx := row.released.value;
          }
          var e := OwedExit(id, payout, fee, row.payout, row.fee, movedPayout, movedFee, row.recipient, row.relayer, row.queuedAt,
                            row.ledger, row.txHash, tx.ledger, tx.closedAt, tx.hash, row.requeuedFrom, children);
          if row.released.Some? {
            stranded := stranded[id := e];
          } else {
            queued := queued[id := e];
          }
        }
      }
    }

    /** The sums and the list the table's subqueries give for one exit. */
    method Moved(parent: nat, n: nat) returns (payout: int, fee: int, children: seq<nat>)
      ensures payout == MovedPayout(exits, parent, n) && fee == MovedFee(exits, parent, n) && children == Children(exits, parent, n)
    {
      payout, fee, children := 0, 0, [];
      for id := 0 to n
        invariant payout == MovedPayout(exits, parent, id) && fee == MovedFee(exits, parent, id) && children == Children(exits, parent, id)
      {
        if IsChild(exits, parent, id) {
          payout, fee, children := payout + exits[id].payout, fee + exits[id].fee, children + [id];
        }
      }
    }
  }

  lemma {:induction false} CommitFails(t: Table, d: Delta, n: nat)
    requires n <= |d.exitOrder| && forall c :: c in d.exitOrder ==> InRange(d, c)
    requires CommitFirst(t, d, n).Err?
    ensures CommitFirst(t, d, |d.exitOrder|).Err?
    decreases |d.exitOrder| - n
  {
    if n < |d.exitOrder| {
      CommitFails(t, d, n + 1);
    }
  }

  // ---------------------------------------------------------------------------------------------
  // Agreement

  /** A row is loaded as the queued or the stranded exit the state holds under its ID, or as neither. */
  ghost predicate Shows(t: Table, n: nat, id: nat, s: State)
    requires id in t
  {
    && (id in s.exits <==> t[id].Waiting())
    && (t[id].Waiting() ==> t[id].requeued == None)
    && (id in s.stranded <==> t[id].Stranded())
    && (id in s.exits ==> s.exits[id] == LoadRow(t, n, id))
    && (id in s.stranded ==> s.stranded[id] == LoadRow(t, n, id))
  }

  /** Every exit ever queued has a row and a row is only ever moved from an older one. */
  ghost predicate Rooted(t: Table, n: nat) {
    && (forall id :: id in t <==> 1 <= id < n)
    && (forall id :: id in t && t[id].requeuedFrom.Some? ==> t[id].requeuedFrom.value < id)
  }

  /** The table holds a row for every exit ever queued, and loads as the state's exits. */
  ghost predicate Represents(t: Table, s: State) {
    var n := s.status.exitTail;
    && n >= 1
    && Rooted(t, n)
    && (forall id :: id in s.exits || id in s.stranded ==> id in t)
    && (forall id :: id in t ==> Shows(t, n, id, s))
  }

  /** What agreement means: loading the table gives exactly the state's queued and stranded exits. */
  lemma RepresentedLoads(t: Table, s: State)
    requires Represents(t, s)
    ensures LoadQueued(t, s.status.exitTail) == s.exits && LoadStranded(t, s.status.exitTail) == s.stranded
  {
    var n := s.status.exitTail;
    forall id
      ensures id in LoadQueued(t, n) <==> id in s.exits
      ensures id in LoadStranded(t, n) <==> id in s.stranded
    {
      assert id in t ==> Shows(t, n, id, s);
    }
    forall id | id in t
      ensures id in s.exits ==> LoadQueued(t, n)[id] == s.exits[id]
      ensures id in s.stranded ==> LoadStranded(t, n)[id] == s.stranded[id]
    {
      assert Shows(t, n, id, s);
    }
  }

  /** Exits, their children and what these moved depend on the queued columns alone. */
  lemma {:induction false} SameChildren(t: Table, u: Table, parent: nat, n: nat)
    requires forall id: nat :: id < n ==> IsChild(t, parent, id) == IsChild(u, parent, id)
    requires forall id: nat :: id < n && IsChild(t, parent, id) && IsChild(u, parent, id) ==>
      t[id].payout == u[id].payout && t[id].fee == u[id].fee
    ensures Children(t, parent, n) == Children(u, parent, n)
    ensures MovedPayout(t, parent, n) == MovedPayout(u, parent, n) && MovedFee(t, parent, n) == MovedFee(u, parent, n)
  {
    if n > 0 {
      SameChildren(t, u, parent, n - 1);
    }
  }

  lemma {:induction false} NoChildren(t: Table, parent: nat, n: nat)
    requires forall id: nat :: id < n ==> !IsChild(t, parent, id)
    ensures Children(t, parent, n) == [] && MovedPayout(t, parent, n) == 0 && MovedFee(t, parent, n) == 0
  {
    if n > 0 {
      NoChildren(t, parent, n - 1);
    }
  }

  /** What a new row changes of an older exit: its parent gains a child. */
  lemma InsertLoads(t: Table, n: nat, row: Row, id: nat)
    requires n !in t && id in t && id < n
    ensures var u := t[n := row];
            LoadRow(u, n + 1, id) ==
            if row.requeuedFrom == Some(id) then
              var e := LoadRow(t, n, id);
              e.(movedPayout := e.movedPayout + row.payout, movedFee := e.movedFee + row.fee, requeuedTo := e.requeuedTo + [n])
            else LoadRow(t, n, id)
  {
    SameChildren(t, t[n := row], id, n);
  }

  /** Changing a row without touching what it was queued with changes no exit but its own. */
  lemma UpdateLoads(t: Table, n: nat, row: Row, id: nat, other: nat)
    requires id in t && other in t
    requires row.payout == t[id].payout && row.fee == t[id].fee && row.requeuedFrom == t[id].requeuedFrom
    ensures var u := t[id := row];
            && Children(u, other, n) == Children(t, other, n)
            && MovedPayout(u, other, n) == MovedPayout(t, other, n) && MovedFee(u, other, n) == MovedFee(t, other, n)
            && (other != id ==> LoadRow(u, n, other) == LoadRow(t, n, other))
  {
    SameChildren(t, t[id := row], other, n);
  }

  /** An exit as it is when it enters the queue. */
  predicate Fresh(e: OwedExit) {
    && e.queuedPayout == e.payout && e.queuedFee == e.fee && e.movedPayout == 0 && e.movedFee == 0 && e.requeuedTo == []
    && e.strandedLedger == 0 && e.strandedAt == 0 && e.strandedTx == 0
  }

  /** A new exit's own row loads as that exit. */
  lemma InsertedLoads(t: Table, e: OwedExit)
    requires Rooted(t, e.id) && Fresh(e) && e.id >= 1
    requires e.requeuedFrom.Some? ==> e.requeuedFrom.value < e.id
    ensures InsertExit(t, e).Ok?
    ensures var u := InsertExit(t, e).value;
            e.id in u && u[e.id].Waiting() && LoadRow(u, e.id + 1, e.id) == e && Rooted(u, e.id + 1) && u == t[e.id := u[e.id]]
            && u[e.id].requeuedFrom == e.requeuedFrom && u[e.id].payout == e.payout && u[e.id].fee == e.fee
  {
    NoChildren(InsertExit(t, e).value, e.id, e.id + 1);
  }

  /** A new exit at the tail. */
  lemma QueuedRepresents(t: Table, s: State, e: OwedExit, after: State)
    requires Represents(t, s) && e.id == s.status.exitTail && e.requeuedFrom == None && Fresh(e)
    requires after.status.exitTail == e.id + 1 && after.exits == s.exits[e.id := e] && after.stranded == s.stranded
    ensures InsertExit(t, e).Ok? && Represents(InsertExit(t, e).value, after)
  {
    var n := e.id;
    InsertedLoads(t, e);
    var u := InsertExit(t, e).value;
    hide LoadRow, InsertExit;
    forall id | id in u
      ensures Shows(u, n + 1, id, after)
    {
      if id != n {
        assert Shows(t, n, id, s);
        InsertLoads(t, n, u[n], id);
      }
    }
  }

  /** Writing one row that keeps what its exit was queued with. */
  lemma UpdatedRepresents(t: Table, s: State, id: nat, row: Row, after: State)
    requires Represents(t, s) && id in t
    requires row.payout == t[id].payout && row.fee == t[id].fee && row.requeuedFrom == t[id].requeuedFrom
    requires after.status.exitTail == s.status.exitTail
    requires forall k :: k != id ==> (k in after.exits <==> k in s.exits) && (k in after.stranded <==> k in s.stranded)
    requires forall k :: k != id && k in s.exits ==> after.exits[k] == s.exits[k]
    requires forall k :: k != id && k in s.stranded ==> after.stranded[k] == s.stranded[k]
    requires Shows(t[id := row], s.status.exitTail, id, after)
    ensures Represents(t[id := row], after)
  {
    hide LoadRow;
    var u, n := t[id := row], s.status.exitTail;
    forall k | k in u
      ensures Shows(u, n, k, after)
    {
      if k != id {
        assert Shows(t, n, k, s);
        UpdateLoads(t, n, row, id, k);
      }
    }
  }

  lemma PartPaidRepresents(t: Table, s: State, p: PartPaid, after: State)
    requires Represents(t, s) && p.id in s.exits
    requires after.status.exitTail == s.status.exitTail && after.stranded == s.stranded
    requires after.exits == s.exits[p.id := s.exits[p.id].(payout := p.payoutLeft, fee := p.feeLeft)]
    ensures UpdatePartPaid(t, p).Ok? && Represents(UpdatePartPaid(t, p).value, after)
  {
    var n := s.status.exitTail;
    assert Shows(t, n, p.id, s);
    var row := t[p.id].(payoutLeft := Some(p.payoutLeft), feeLeft := Some(p.feeLeft));
    UpdateLoads(t, n, row, p.id, p.id);
    assert Shows(t[p.id := row], n, p.id, after);
    UpdatedRepresents(t, s, p.id, row, after);
  }

  /** The exit that is left when the head strands. */
  function LeftBy(r: Released): OwedExit {
    r.exit.(payout := r.unpaidPayout, fee := r.unpaidFee, strandedLedger := r.tx.ledger, strandedAt := r.tx.closedAt, strandedTx := r.tx.hash)
  }

  /** The head leaves the queue, paid in full or with something stranded. */
  lemma ReleasedRepresents(t: Table, s: State, r: Released, after: State)
    requires Represents(t, s) && r.exit.id in s.exits && r.exit == s.exits[r.exit.id]
    requires after.status.exitTail == s.status.exitTail && after.exits == s.exits - {r.exit.id}
    requires after.stranded == if r.unpaidPayout > 0 || r.unpaidFee > 0 then s.stranded[r.exit.id := LeftBy(r)] else s.stranded
    ensures UpdateReleased(t, r).Ok? && Represents(UpdateReleased(t, r).value, after)
  {
    var id, n := r.exit.id, s.status.exitTail;
    assert Shows(t, n, id, s);
    var u := UpdateReleased(t, r).value;
    UpdateLoads(t, n, u[id], id, id);
    assert id !in s.stranded && id !in after.exits && u[id].released.Some?;
    if r.unpaidPayout > 0 || r.unpaidFee > 0 {
      assert u[id].Stranded();
      assert LoadRow(u, n, id) == LeftBy(r);
    } else {
      assert !u[id].Stranded();
    }
    assert Shows(u, n, id, after);
    UpdatedRepresents(t, s, id, u[id], after);
  }

  /** The insert of a claim, before its parent's row is written: the parent shows what moved, and still
      owes all it did. */
  lemma ClaimInserts(t: Table, s: State, e: OwedExit, moved: OwedExit, mid: State)
    requires Represents(t, s) && e.id in s.stranded && e == s.stranded[e.id]
    requires moved.id == s.status.exitTail && moved.requeuedFrom == Some(e.id) && Fresh(moved)
    requires mid.status.exitTail == moved.id + 1 && mid.exits == s.exits[moved.id := moved]
    requires mid.stranded == s.stranded[e.id := e.(movedPayout := e.movedPayout + moved.payout, movedFee := e.movedFee + moved.fee,
                                                   requeuedTo := e.requeuedTo + [moved.id])]
    ensures InsertExit(t, moved).Ok? && Represents(InsertExit(t, moved).value, mid)
  {
    var n := moved.id;
    InsertedLoads(t, moved);
    var u := InsertExit(t, moved).value;
    hide LoadRow, InsertExit;
    forall id | id in u
      ensures Shows(u, n + 1, id, mid)
    {
      if id != n {
        assert Shows(t, n, id, s);
        InsertLoads(t, n, u[n], id);
      }
    }
  }

  /** The update of a claim: the parent owes only what is left. */
  lemma ClaimUpdates(u: Table, mid: State, r: Requeued, after: State)
    requires Represents(u, mid) && r.from in mid.stranded
    requires after.status.exitTail == mid.status.exitTail && after.exits == mid.exits
    requires after.stranded == if r.payoutLeft == 0 && r.feeLeft == 0 then mid.stranded - {r.from}
                               else mid.stranded[r.from := mid.stranded[r.from].(payout := r.payoutLeft, fee := r.feeLeft)]
    ensures UpdateRequeued(u, r).Ok? && Represents(UpdateRequeued(u, r).value, after)
  {
    var id, n := r.from, mid.status.exitTail;
    assert Shows(u, n, id, mid);
    var v := UpdateRequeued(u, r).value;
    UpdateLoads(u, n, v[id], id, id);
    assert Shows(v, n, id, after);
    UpdatedRepresents(u, mid, id, v[id], after);
  }

  // ---------------------------------------------------------------------------------------------
  // Windows

  ghost predicate WellIndexed(d: Delta) {
    forall c :: c in d.exitOrder ==> InRange(d, c)
  }

  /** One delta's changes begin another's. */
  ghost predicate Begins(d: Delta, e: Delta) {
    d.queued <= e.queued && d.partPaid <= e.partPaid && d.released <= e.released && d.requeued <= e.requeued && d.exitOrder <= e.exitOrder
  }

  lemma {:induction false} BeginningCommits(t: Table, d: Delta, e: Delta, n: nat)
    requires WellIndexed(d) && WellIndexed(e) && Begins(d, e) && n <= |d.exitOrder|
    ensures CommitFirst(t, d, n) == CommitFirst(t, e, n)
  {
    if n > 0 {
      BeginningCommits(t, d, e, n - 1);
      var c := d.exitOrder[n - 1];
      assert c in d.exitOrder && e.exitOrder[n - 1] == c;
    }
  }

  /** Writing all of a window's exit changes turns one table into another. */
  ghost predicate Commits(t: Table, d: Delta, u: Table) {
    WellIndexed(d) && CommitFirst(t, d, |d.exitOrder|) == Ok(u)
  }

  /** Writing one more change at the end of a window. */
  lemma CommitsOneMore(t: Table, d: Delta, u: Table, e: Delta, c: ExitChange, v: Table)
    requires Commits(t, d, u) && WellIndexed(e) && Begins(d, e) && e.exitOrder == d.exitOrder + [c]
    requires Commit(u, e, c) == Ok(v)
    ensures Commits(t, e, v)
  {
    BeginningCommits(t, d, e, |d.exitOrder|);
  }

  lemma AddsStayIndexed(d: Delta)
    requires WellIndexed(d)
    ensures forall e :: WellIndexed(d.AddQueued(e))
    ensures forall p :: WellIndexed(d.AddPartPaid(p))
    ensures forall r :: WellIndexed(d.AddReleased(r))
    ensures forall r :: WellIndexed(d.AddRequeued(r))
  {
  }

  lemma SettlementCommits(t: Table, d: Delta, u: Table, x: Settlement)
    requires Commits(t, d, u)
    ensures Commits(t, d.AddSettlement(x), u)
  {
    BeginningCommits(t, d, d.AddSettlement(x), |d.exitOrder|);
  }

  /** Events that strand nothing never decode. */
  predicate StrandsSomething(c: Call) {
    c.ExitStrandedSeen? ==> c.payout > 0 || c.fee > 0
  }

  lemma TransactRepresents(depth: nat, t: Table, w: Window, u: Table, tx: Tx, c: Call)
    requires Commits(t, w.delta, u) && Represents(u, w.state)
    requires c.TransactSeen? && ApplyTransact(depth, w, tx, c).Ok?
    ensures var next := ApplyTransact(depth, w, tx, c).value;
            exists v :: Commits(t, next.delta, v) && Represents(v, next.state)
  {
    hide Commits, Represents;
    var inserted := Insert(depth, Spend(w, c.nf0, c.nf1).value, c.out0, c.out1).value;
    var next := EndTransact(inserted, tx, c.ending).value;
    SameExits(u, w.state, inserted.state);
    EndRepresents(t, inserted, u, tx, c.ending);
  }

  lemma SameExits(t: Table, s: State, after: State)
    requires Represents(t, s) && after.status.exitTail == s.status.exitTail && after.exits == s.exits && after.stranded == s.stranded
    ensures Represents(t, after)
  {
    forall id | id in t
      ensures Shows(t, after.status.exitTail, id, after)
    {
      assert Shows(t, s.status.exitTail, id, s);
    }
  }

  lemma EndRepresents(t: Table, w: Window, u: Table, tx: Tx, end: Ending)
    requires Commits(t, w.delta, u) && Represents(u, w.state)
    requires EndTransact(w, tx, end).Ok?
    ensures var next := EndTransact(w, tx, end).value;
            exists v :: Commits(t, next.delta, v) && Represents(v, next.state)
  {
    var next := EndTransact(w, tx, end).value;
    if end.Waits? {
      var e := NewExit(end, tx);
      QueuedRepresents(u, w.state, e, next.state);
      QueuedCommits(t, w.delta, u, e);
    } else {
      SameExits(u, w.state, next.state);
      SettlementCommits(t, w.delta, u, Settlement(end.extAmount, end.fee, end.recipient, end.relayer, None, tx));
    }
  }

  lemma QueuedCommits(t: Table, d: Delta, u: Table, e: OwedExit)
    requires Commits(t, d, u) && InsertExit(u, e).Ok?
    ensures Commits(t, d.AddQueued(e), InsertExit(u, e).value)
  {
    AddsStayIndexed(d);
    CommitsOneMore(t, d, u, d.AddQueued(e), ExitChange(QueuedChange, |d.queued|), InsertExit(u, e).value);
  }

  lemma PartPaidCommits(t: Table, d: Delta, u: Table, p: PartPaid)
    requires Commits(t, d, u) && UpdatePartPaid(u, p).Ok?
    ensures Commits(t, d.AddPartPaid(p), UpdatePartPaid(u, p).value)
  {
    AddsStayIndexed(d);
    CommitsOneMore(t, d, u, d.AddPartPaid(p), ExitChange(PartPaidChange, |d.partPaid|), UpdatePartPaid(u, p).value);
  }

  lemma ReleasedCommits(t: Table, d: Delta, u: Table, r: Released)
    requires Commits(t, d, u) && UpdateReleased(u, r).Ok?
    ensures Commits(t, d.AddReleased(r), UpdateReleased(u, r).value)
  {
    AddsStayIndexed(d);
    CommitsOneMore(t, d, u, d.AddReleased(r), ExitChange(ReleasedChange, |d.released|), UpdateReleased(u, r).value);
  }

  lemma RequeuedCommits(t: Table, d: Delta, u: Table, r: Requeued)
    requires Commits(t, d, u) && UpdateRequeued(u, r).Ok?
    ensures Commits(t, d.AddRequeued(r), UpdateRequeued(u, r).value)
  {
    AddsStayIndexed(d);
    CommitsOneMore(t, d, u, d.AddRequeued(r), ExitChange(RequeuedChange, |d.requeued|), UpdateRequeued(u, r).value);
  }

  lemma SettledRepresents(t: Table, w: Window, u: Table, tx: Tx, c: Call)
    requires Commits(t, w.delta, u) && Represents(u, w.state)
    requires c.ExitSettledSeen? && ApplyExitSettled(w, tx, c).Ok?
    ensures var next := ApplyExitSettled(w, tx, c).value;
            exists v :: Commits(t, next.delta, v) && Represents(v, next.state)
  {
    var next, r := ApplyExitSettled(w, tx, c).value, Released(w.state.exits[c.id], 0, 0, tx);
    ExitIds(u, w.state);
    ReleasedRepresents(u, w.state, r, next.state);
    ReleasedCommits(t, w.delta, u, r);
    var v := UpdateReleased(u, r).value;
    SettlementCommits(t, w.delta.AddReleased(r), v, Settlement(c.extAmount, c.fee, c.recipient, c.relayer, Some(c.id), tx));
  }

  lemma ExitIds(t: Table, s: State)
    requires Represents(t, s)
    ensures forall id :: id in s.exits ==> s.exits[id].id == id
    ensures forall id :: id in s.stranded ==> s.stranded[id].id == id && id !in s.exits && id < s.status.exitTail
  {
    forall id | id in s.exits || id in s.stranded
      ensures id in t && Shows(t, s.status.exitTail, id, s)
    {
    }
  }

  lemma PaidRepresents(t: Table, w: Window, u: Table, tx: Tx, c: Call)
    requires Commits(t, w.delta, u) && Represents(u, w.state)
    requires c.ExitPaidSeen? && ApplyExitPaid(w, tx, c).Ok?
    ensures var next := ApplyExitPaid(w, tx, c).value;
            exists v :: Commits(t, next.delta, v) && Represents(v, next.state)
  {
    var next, p := ApplyExitPaid(w, tx, c).value, PartPaid(c.id, c.payoutLeft, c.feeLeft);
    PartPaidRepresents(u, w.state, p, next.state);
    PartPaidCommits(t, w.delta, u, p);
    var v, e := UpdatePartPaid(u, p).value, w.state.exits[c.id];
    SettlementCommits(t, w.delta.AddPartPaid(p), v, Settlement(-c.payoutPaid, c.feePaid, e.recipient, e.relayer, Some(c.id), tx));
  }

  /** A strand agrees with its row exactly when it leaves something: the row of a strand of nothing is
      written as settled, while the replay would still hold it. */
  lemma StrandedRepresents(t: Table, w: Window, u: Table, tx: Tx, c: Call)
    requires Commits(t, w.delta, u) && Represents(u, w.state)
    requires c.ExitStrandedSeen? && ApplyExitStranded(w, tx, c).Ok?
    ensures var next := ApplyExitStranded(w, tx, c).value;
            exists v :: Commits(t, next.delta, v) && (Represents(v, next.state) <==> StrandsSomething(c))
  {
    var next, r := ApplyExitStranded(w, tx, c).value, Released(w.state.exits[c.id], c.payout, c.fee, tx);
    ExitIds(u, w.state);
    StrandedShows(w, u, tx, c, r);
    var v, e := UpdateReleased(u, r).value, w.state.exits[c.id];
    hide Represents, UpdateReleased, Fits, CouldStrand;
    ReleasedCommits(t, w.delta, u, r);
    hide Commits;
    SettlementCommits(t, w.delta.AddReleased(r), v,
                      Settlement(-(e.payout - c.payout), e.fee - c.fee, e.recipient, e.relayer, Some(c.id), tx));
  }

  lemma StrandedShows(w: Window, u: Table, tx: Tx, c: Call, r: Released)
    requires Represents(u, w.state) && c.ExitStrandedSeen? && ApplyExitStranded(w, tx, c).Ok?
    requires c.id in w.state.exits && w.state.exits[c.id].id == c.id && r == Released(w.state.exits[c.id], c.payout, c.fee, tx)
    ensures UpdateReleased(u, r).Ok?
    ensures Represents(UpdateReleased(u, r).value, ApplyExitStranded(w, tx, c).value.state) <==> StrandsSomething(c)
  {
    var after := ApplyExitStranded(w, tx, c).value.state;
    assert Shows(u, w.state.status.exitTail, c.id, w.state);
    assert UpdateReleased(u, r).Ok?;
    hide Represents, UpdateReleased, Shows, LoadRow, Fits, CouldStrand;
    if StrandsSomething(c) {
      ReleasedRepresents(u, w.state, r, after);
    } else {
      SettledRowShowsNothing(u, r, after);
    }
  }

  /** The row of an exit released with nothing left shows no stranded exit. */
  lemma SettledRowShowsNothing(u: Table, r: Released, after: State)
    requires UpdateReleased(u, r).Ok? && r.unpaidPayout <= 0 && r.unpaidFee <= 0 && r.exit.id in after.stranded
    ensures !Represents(UpdateReleased(u, r).value, after)
  {
    var v := UpdateReleased(u, r).value;
    assert r.exit.id in v && !v[r.exit.id].Stranded();
    assert !Shows(v, after.status.exitTail, r.exit.id, after);
  }

  /** Both rows of a claim, written in order. */
  lemma ClaimRepresents(u: Table, s: State, tx: Tx, c: Call, after: State)
    requires Represents(u, s) && c.ExitRequeuedSeen? && c.id in s.stranded && c.newId == s.status.exitTail
    requires after.status.exitTail == c.newId + 1
    requires after.exits == s.exits[c.newId := MovedExit(s.stranded[c.id], tx, c)]
    requires var left := LeftStranded(s.stranded[c.id], c);
             after.stranded == (if left.payout == 0 && left.fee == 0 then s.stranded - {c.id} else s.stranded[c.id := left])
    ensures var moved, left := MovedExit(s.stranded[c.id], tx, c), LeftStranded(s.stranded[c.id], c);
            var r := Requeued(c.id, c.newId, left.payout, left.fee, tx);
            && InsertExit(u, moved).Ok?
            && UpdateRequeued(InsertExit(u, moved).value, r).Ok?
            && Represents(UpdateRequeued(InsertExit(u, moved).value, r).value, after)
  {
    var e := s.stranded[c.id];
    var moved, left := MovedExit(e, tx, c), LeftStranded(e, c);
    var r := Requeued(c.id, c.newId, left.payout, left.fee, tx);
    ExitIds(u, s);
    var shown := left.(payout := e.payout, fee := e.fee);
    var mid := s.(status := s.status.(exitTail := c.newId + 1), exits := s.exits[c.newId := moved], stranded := s.stranded[c.id := shown]);
    hide Represents;
    assert left == shown.(payout := r.payoutLeft, fee := r.feeLeft);
    ClaimInserts(u, s, e, moved, mid);
    if left.payout == 0 && left.fee == 0 {
      assert after.stranded == mid.stranded - {c.id};
    } else {
      assert after.stranded == mid.stranded[c.id := left];
    }
    ClaimUpdates(InsertExit(u, moved).value, mid, r, after);
  }

  lemma RequeuedRepresents(t: Table, w: Window, u: Table, tx: Tx, c: Call)
    requires Commits(t, w.delta, u) && Represents(u, w.state)
    requires c.ExitRequeuedSeen? && ApplyExitRequeued(w, tx, c).Ok?
    ensures var next := ApplyExitRequeued(w, tx, c).value;
            exists v :: Commits(t, next.delta, v) && Represents(v, next.state)
  {
    var next, e := ApplyExitRequeued(w, tx, c).value, w.state.stranded[c.id];
    hide Represents, Commits;
    ClaimRepresents(u, w.state, tx, c, next.state);
    var moved, left := MovedExit(e, tx, c), LeftStranded(e, c);
    hide MovedExit, LeftStranded, InsertExit, UpdateRequeued;
    QueuedCommits(t, w.delta, u, moved);
    RequeuedCommits(t, w.delta.AddQueued(moved), InsertExit(u, moved).value, Requeued(c.id, c.newId, left.payout, left.fee, tx));
  }

  /** One call: writing the window it ends, in order, leaves a table that loads as the new state. */
  lemma CallRepresents(depth: nat, t: Table, w: Window, u: Table, tx: Tx, c: Call)
    requires Commits(t, w.delta, u) && Represents(u, w.state)
    requires Apply(depth, w, tx, c).Ok? && StrandsSomething(c)
    ensures var next := Apply(depth, w, tx, c).value;
            exists v :: Commits(t, next.delta, v) && Represents(v, next.state)
  {
    hide Commits, Represents, ApplyTransact, ApplyExitSettled, ApplyExitPaid, ApplyExitStranded, ApplyExitRequeued;
    var next := Apply(depth, w, tx, c).value;
    match c {
      case TransactSeen(_, _, _, _, _) => TransactRepresents(depth, t, w, u, tx, c);
      case ExitSettledSeen(_, _, _, _, _) => SettledRepresents(t, w, u, tx, c);
      case ExitPaidSeen(_, _, _, _, _) => PaidRepresents(t, w, u, tx, c);
      case ExitStrandedSeen(_, _, _) => StrandedRepresents(t, w, u, tx, c);
      case ExitRequeuedSeen(_, _, _, _) => RequeuedRepresents(t, w, u, tx, c);
      case _ =>
        assert next.delta == w.delta;
        SameExits(u, w.state, next.state);
    }
  }

  /** A transaction's calls, one after another. */
  lemma {:induction false} CallsRepresent(depth: nat, t: Table, w: Window, u: Table, tx: Tx, calls: seq<Call>)
    requires Commits(t, w.delta, u) && Represents(u, w.state)
    requires ApplyAll(depth, w, tx, calls).Ok? && forall c :: c in calls ==> StrandsSomething(c)
    ensures var next := ApplyAll(depth, w, tx, calls).value;
            exists v :: Commits(t, next.delta, v) && Represents(v, next.state)
    decreases |calls|
  {
    hide Commits, Represents, Apply;
    if calls != [] {
      CallRepresents(depth, t, w, u, tx, calls[0]);
      var next := Apply(depth, w, tx, calls[0]).value;
      var v :| Commits(t, next.delta, v) && Represents(v, next.state);
      CallsRepresent(depth, t, next, v, tx, calls[1..]);
    }
  }

  lemma {:induction false} TxsRepresent(depth: nat, t: Table, w: Window, u: Table, txs: seq<(Tx, seq<Call>)>)
    requires Commits(t, w.delta, u) && Represents(u, w.state)
    requires ApplyWindow(depth, w, txs).Ok? && forall tx, c :: tx in txs && c in tx.1 ==> StrandsSomething(c)
    ensures var next := ApplyWindow(depth, w, txs).value;
            exists v :: Commits(t, next.delta, v) && Represents(v, next.state)
    decreases |txs|
  {
    hide Commits, Represents;
    if txs != [] {
      CallsRepresent(depth, t, w, u, txs[0].0, txs[0].1);
      var next := ApplyAll(depth, w, txs[0].0, txs[0].1).value;
      var v :| Commits(t, next.delta, v) && Represents(v, next.state);
      TxsRepresent(depth, t, next, v, txs[1..]);
    }
  }

  /** The store follows the replay: from a table that loads as the window's first state, writing what the
      window changed succeeds and leaves a table that loads as its last, however many times the window
      queued, part paid, stranded and moved the same exit. */
  lemma WindowIsStored(depth: nat, t: Table, s: State, spent: set<Field>, txs: seq<(Tx, seq<Call>)>)
    requires Represents(t, s)
    requires ApplyWindow(depth, Window(s, NO_CHANGE, spent), txs).Ok?
    requires forall tx, c :: tx in txs && c in tx.1 ==> StrandsSomething(c)
    ensures var next := ApplyWindow(depth, Window(s, NO_CHANGE, spent), txs).value;
            exists v :: Commits(t, next.delta, v) && Represents(v, next.state)
                        && LoadQueued(v, next.state.status.exitTail) == next.state.exits
                        && LoadStranded(v, next.state.status.exitTail) == next.state.stranded
  {
    hide Represents;
    var w := Window(s, NO_CHANGE, spent);
    assert Commits(t, w.delta, t);
    TxsRepresent(depth, t, w, t, txs);
    var next := ApplyWindow(depth, w, txs).value;
    var v :| Commits(t, next.delta, v) && Represents(v, next.state);
    RepresentedLoads(v, next.state);
  }

  /** Once the limits are known, the replay accepts no strand of nothing. */
  lemma KnownLimitsStrandSomething(w: Window, tx: Tx, c: Call)
    requires c.ExitStrandedSeen? && ApplyExitStranded(w, tx, c).Ok? && w.state.limits.Some?
    requires w.state.exits[c.id].payout >= 0 && w.state.exits[c.id].fee >= 0
    ensures StrandsSomething(c)
  {
  }

  /** Before that it would: the replay keeps the exit, and its row reads as settled. */
  lemma StrandOfNothing()
    ensures var e := OwedExit(1, 5, 1, 5, 1, 0, 0, Plain(Account(1)), Account(2), 0, 0, 0, 0, 0, 0, None, []);
            var s := NEW_STATE.(exits := map[1 := e], status := NEW_STATE.status.(exitTail := 2, tvl := 6, queuedTotal := 6));
            var r := ApplyExitStranded(Window(s, NO_CHANGE, {}), Tx(1, 1, 1), ExitStrandedSeen(1, 0, 0));
            && Represents(InsertExit(map[], e).value, s)
            && r.Ok? && 1 in r.value.state.stranded
            && CommitFirst(InsertExit(map[], e).value, r.value.delta, 1).Ok?
            && LoadStranded(CommitFirst(InsertExit(map[], e).value, r.value.delta, 1).value, 2) == map[]
  {
    var e := OwedExit(1, 5, 1, 5, 1, 0, 0, Plain(Account(1)), Account(2), 0, 0, 0, 0, 0, 0, None, []);
    var empty := NEW_STATE.(status := NEW_STATE.status.(tvl := 6, queuedTotal := 6));
    var s := empty.(exits := map[1 := e], status := empty.status.(exitTail := 2));
    QueuedRepresents(map[], empty, e, s);
  }
}
