/** Reading a range of ledgers back from the archive's files. */
module ArchiveEvents {
  import opened Common
  import opened Archive

  /** The number of ledgers per file. */
  const WINDOW: nat := 17_280

  datatype RangeError = BadRange | Unread(error: ReadError)

  /** The first ledger of the file that holds a ledger. */
  function WindowStart(ledger: nat): (start: nat)
    ensures start % WINDOW == 0 && start <= ledger < start + WINDOW
  {
    ledger - ledger % WINDOW
  }

  /** The finished writes of the files from a window on, in order; the first file that is missing or
      damaged fails the read. */
  function AllWrites(c: Codec, vault: nat, files: map<nat, seq<Byte>>, start: nat, last: nat): Result<seq<Finished>, ReadError>
    decreases last + WINDOW - start
  {
    if start > last then Ok([])
    else if start !in files then Err(NotCovered)
    else
      match ReadFile(c, vault, files[start])
      case Err(error) => Err(error)
      case Ok(done) =>
        match AllWrites(c, vault, files, start + WINDOW, last)
        case Err(error) => Err(error)
        case Ok(rest) => Ok(done + rest)
  }

  /** The last write that covers a ledger, or -1. */
  function Owner(writes: seq<Finished>, ledger: nat): (i: int)
    ensures -1 <= i < |writes|
    ensures i >= 0 ==> writes[i].lo <= ledger <= writes[i].hi
    ensures forall k :: i < k < |writes| ==> !(writes[k].lo <= ledger <= writes[k].hi)
  {
    if writes == [] then -1
    else
      var n := |writes| - 1;
      if writes[n].lo <= ledger <= writes[n].hi then n else Owner(writes[..n], ledger)
  }

  /** The events of one write that a range keeps: those of the ledgers it owns. */
  function KeptOf(writes: seq<Finished>, i: nat, events: seq<Event>, first: nat, last: nat): seq<Event> {
    if events == [] then []
    else
      var e := events[|events| - 1];
      KeptOf(writes, i, events[..|events| - 1], first, last)
      + if first <= e.pos.ledger <= last && Owner(writes, e.pos.ledger) == i then [e] else []
  }

  /** The events the range keeps of its first `n` writes. */
  function Kept(writes: seq<Finished>, n: nat, first: nat, last: nat): seq<Event>
    requires n <= |writes|
  {
    if n == 0 then [] else Kept(writes, n - 1, first, last) + KeptOf(writes, n - 1, writes[n - 1].events, first, last)
  }

  /** The event is of a ledger of the range, and of the last write to cover that ledger. */
  ghost predicate Holds(writes: seq<Finished>, n: nat, first: nat, last: nat, e: Event)
    requires n <= |writes|
  {
    && first <= e.pos.ledger <= last
    && exists i :: 0 <= i < n && e in writes[i].events
         && writes[i].lo <= e.pos.ledger <= writes[i].hi
         && forall k :: i < k < |writes| ==> !(writes[k].lo <= e.pos.ledger <= writes[k].hi)
  }

  lemma {:induction false} KeptOfHolds(writes: seq<Finished>, i: nat, events: seq<Event>, first: nat, last: nat, e: Event)
    requires i < |writes|
    ensures e in KeptOf(writes, i, events, first, last) <==>
              && e in events && first <= e.pos.ledger <= last
              && writes[i].lo <= e.pos.ledger <= writes[i].hi
              && forall k :: i < k < |writes| ==> !(writes[k].lo <= e.pos.ledger <= writes[k].hi)
  {
    if events != [] {
      KeptOfHolds(writes, i, events[..|events| - 1], first, last, e);
      assert events == events[..|events| - 1] + [events[|events| - 1]];
    }
  }

  /** What a range keeps of its writes is what they hold of it. */
  lemma {:induction false} KeptHolds(writes: seq<Finished>, n: nat, first: nat, last: nat, e: Event)
    requires n <= |writes|
    ensures e in Kept(writes, n, first, last) <==> Holds(writes, n, first, last, e)
  {
    if n > 0 {
      KeptHolds(writes, n - 1, first, last, e);
      KeptOfHolds(writes, n - 1, writes[n - 1].events, first, last, e);
      hide KeptOf, Owner;
      if e in Kept(writes, n, first, last) && !Holds(writes, n - 1, first, last, e) {
        assert e in writes[n - 1].events;
      }
    }
  }

  predicate Covered(writes: seq<Finished>, first: nat, last: nat) {
    forall l :: first <= l <= last ==> Owner(writes, l) >= 0
  }

  ghost predicate SharePosition(events: seq<Event>) {
    exists i, j :: 0 <= i < j < |events| && events[i].pos == events[j].pos
  }

  predicate InChainOrder(events: seq<Event>) {
    forall i, j :: 0 <= i < j < |events| ==> events[i].pos.Less(events[j].pos)
  }

  // ---------------------------------------------------------------------------------------------
  // Sorting

  predicate Sorted(events: seq<Event>) {
    forall i, j :: 0 <= i < j < |events| ==> !events[j].pos.Less(events[i].pos)
  }

  function InsertEvent(events: seq<Event>, e: Event): seq<Event> {
    if events == [] || !events[0].pos.Less(e.pos) then [e] + events
    else [events[0]] + InsertEvent(events[1..], e)
  }

  function SortEvents(events: seq<Event>): seq<Event> {
    if events == [] then [] else InsertEvent(SortEvents(events[1..]), events[0])
  }

  lemma {:induction false} InsertSorts(events: seq<Event>, e: Event)
    requires Sorted(events)
    ensures Sorted(InsertEvent(events, e))
    ensures multiset(InsertEvent(events, e)) == multiset(events) + multiset{e}
    ensures InsertEvent(events, e) != []
    ensures var r := InsertEvent(events, e)[0]; r == if events == [] || !events[0].pos.Less(e.pos) then e else events[0]
  {
    if events != [] && events[0].pos.Less(e.pos) {
      InsertSorts(events[1..], e);
      assert events == [events[0]] + events[1..];
      PutFirst(events[0], InsertEvent(events[1..], e));
    } else {
      PutFirst(e, events);
    }
  }

  lemma PutFirst(e: Event, events: seq<Event>)
    requires Sorted(events) && (events == [] || !events[0].pos.Less(e.pos))
    ensures Sorted([e] + events)
  {
    var all := [e] + events;
    forall j | 0 < j < |all|
      ensures !all[j].pos.Less(e.pos)
    {
      assert j > 1 ==> !events[j - 1].pos.Less(events[0].pos);
    }
  }

  lemma {:induction false} SortSorts(events: seq<Event>)
    ensures Sorted(SortEvents(events)) && multiset(SortEvents(events)) == multiset(events)
  {
    if events != [] {
      SortSorts(events[1..]);
      InsertSorts(SortEvents(events[1..]), events[0]);
      assert events == [events[0]] + events[1..];
    }
  }

  /** Sharing a position does not depend on the order. */
  lemma SameEventsShare(s: seq<Event>, t: seq<Event>)
    requires multiset(s) == multiset(t) && SharePosition(s)
    ensures SharePosition(t)
  {
    var i, j :| 0 <= i < j < |s| && s[i].pos == s[j].pos;
    if s[i] == s[j] {
      TwiceIn(s, i, j);
      FoundTwice(t, s[i]);
    } else {
      assert s[i] in multiset(t) && s[j] in multiset(t);
      var k :| 0 <= k < |t| && t[k] == s[i];
      var l :| 0 <= l < |t| && t[l] == s[j];
      assert k < l || l < k;
    }
  }

  lemma {:induction false} TwiceIn(s: seq<Event>, i: nat, j: nat)
    requires i < j < |s| && s[i] == s[j]
    ensures multiset(s)[s[i]] >= 2
  {
    var front := s[..j];
    assert s == front + [s[j]] + s[j + 1..];
    assert front[i] in multiset(front);
  }

  lemma {:induction false} FoundTwice(t: seq<Event>, e: Event)
    requires multiset(t)[e] >= 2
    ensures SharePosition(t)
  {
    assert e in multiset(t);
    var i :| 0 <= i < |t| && t[i] == e;
    assert t == t[..i] + [e] + t[i + 1..];
    assert multiset(t[..i])[e] + multiset(t[i + 1..])[e] >= 1;
    if e in multiset(t[..i]) {
      var k :| 0 <= k < i && t[..i][k] == e;
      assert t[k].pos == t[i].pos;
    } else {
      assert e in multiset(t[i + 1..]);
      var k :| 0 <= k < |t[i + 1..]| && t[i + 1..][k] == e;
      assert t[i].pos == t[i + 1 + k].pos;
    }
  }

  // ---------------------------------------------------------------------------------------------
  // The read

  /** The archived events of a range of ledgers, in chain order, each ledger from the last finished write
      that covers it. It fails exactly for a range that ends before it starts, a file that is missing or
      damaged, a ledger no write covers, or two kept events that share a position. */
  method Events(c: Codec, vault: nat, files: map<nat, seq<Byte>>, first: nat, last: nat) returns (r: Result<seq<Event>, RangeError>)
    ensures r.Ok? ==>
              && first <= last && AllWrites(c, vault, files, WindowStart(first), last).Ok?
              && var writes := AllWrites(c, vault, files, WindowStart(first), last).value;
                 forall e :: e in r.value <==> Holds(writes, |writes|, first, last, e)
    ensures first > last ==> r == Err(BadRange)
    ensures first <= last ==>
              var all := AllWrites(c, vault, files, WindowStart(first), last);
              && (all.Err? ==> r == Err(Unread(all.error)))
              && (all.Ok? ==>
                    && (!Covered(all.value, first, last) ==> r == Err(Unread(NotCovered)))
                    && (Covered(all.value, first, last) ==>
                          var kept := Kept(all.value, |all.value|, first, last);
                          && (SharePosition(kept) ==> r == Err(Unread(Malformed)))
                          && (!SharePosition(kept) ==> r.Ok? && InChainOrder(r.value) && multiset(r.value) == multiset(kept))))
  {
    if first > last {
      return Err(BadRange);
    }
    var all := ReadWindows(c, vault, files, first, last);
    if all.Err? {
      return Err(Unread(all.error));
    }
    var writes := all.value;
    var owner := FindOwners(writes, first, last);
    var covered := AllOwned(writes, owner, first, last);
    if !covered {
      return Err(Unread(NotCovered));
    }
    var kept := Collect(writes, owner, first, last);
    var out := SortEvents(kept);
    SortSorts(kept);
    hide Kept, AllWrites, Owner, SortEvents;
    var distinct := InDistinctPlaces(out);
    if SharePosition(kept) {
      SameEventsShare(kept, out);
    }
    if !distinct {
      SameEventsShare(out, kept);
      return Err(Unread(Malformed));
    }
    forall e
      ensures e in out <==> Holds(writes, |writes|, first, last, e)
    {
      KeptHolds(writes, |writes|, first, last, e);
      assert e in out <==> e in multiset(kept);
    }
    return Ok(out);
  }

  /** Whether every ledger of the range has an owner. */
  method AllOwned(writes: seq<Finished>, owner: array<int>, first: nat, last: nat) returns (covered: bool)
    requires first <= last && owner.Length == last - first + 1
    requires forall k :: 0 <= k < owner.Length ==> owner[k] == Owner(writes, first + k)
    ensures covered <==> Covered(writes, first, last)
  {
    for i := 0 to owner.Length
      invariant forall k :: 0 <= k < i ==> owner[k] >= 0
    {
      if owner[i] < 0 {
        assert Owner(writes, first + i) < 0;
        return false;
      }
    }
    forall l | first <= l <= last
      ensures Owner(writes, l) >= 0
    {
      assert owner[l - first] >= 0;
    }
    return true;
  }

  /** Whether no two neighbours of a sorted list share a position: then they are in strict order. */
  method InDistinctPlaces(out: seq<Event>) returns (distinct: bool)
    requires Sorted(out)
    ensures distinct ==> InChainOrder(out) && !SharePosition(out)
    ensures !distinct ==> SharePosition(out)
  {
    var i := 1;
    while i < |out|
      invariant 1 <= i
      invariant forall k :: 0 < k < i && k < |out| ==> out[k].pos != out[k - 1].pos
    {
      if out[i].pos == out[i - 1].pos {
        return false;
      }
      i := i + 1;
    }
    NeighboursDiffer(out);
    return true;
  }

  /** In a sorted list, neighbours at different places mean all are. */
  lemma NeighboursDiffer(out: seq<Event>)
    requires Sorted(out) && forall k :: 0 < k < |out| ==> out[k].pos != out[k - 1].pos
    ensures InChainOrder(out) && !SharePosition(out)
  {
    forall i, j | 0 <= i < j < |out|
      ensures out[i].pos.Less(out[j].pos) && out[i].pos != out[j].pos
    {
      Climb(out, i, j);
    }
  }

  lemma {:induction false} Climb(out: seq<Event>, i: nat, j: nat)
    requires Sorted(out) && i < j < |out| && forall k :: 0 < k < |out| ==> out[k].pos != out[k - 1].pos
    ensures out[i].pos.Less(out[j].pos)
    decreases j - i
  {
    if i + 1 < j {
      Climb(out, i, j - 1);
    }
    assert !out[j].pos.Less(out[j - 1].pos);
  }

  /** These writes and those a read gives after them. */
  function With(writes: seq<Finished>, r: Result<seq<Finished>, ReadError>): Result<seq<Finished>, ReadError> {
    if r.Ok? then Ok(writes + r.value) else r
  }

  lemma NothingBefore(r: Result<seq<Finished>, ReadError>)
    ensures With([], r) == r
  {
    if r.Ok? {
      assert [] + r.value == r.value;
    }
  }

  lemma WithMore(writes: seq<Finished>, done: seq<Finished>, r: Result<seq<Finished>, ReadError>)
    ensures With(writes, With(done, r)) == With(writes + done, r)
  {
    if r.Ok? {
      assert writes + (done + r.value) == writes + done + r.value;
    }
  }

  method ReadWindows(c: Codec, vault: nat, files: map<nat, seq<Byte>>, first: nat, last: nat) returns (r: Result<seq<Finished>, ReadError>)
    ensures r == AllWrites(c, vault, files, WindowStart(first), last)
  {
    var writes: seq<Finished> := [];
    var start := WindowStart(first);
    hide ReadFile;
    NothingBefore(AllWrites(c, vault, files, start, last));
    while start <= last
      invariant AllWrites(c, vault, files, WindowStart(first), last) == With(writes, AllWrites(c, vault, files, start, last))
      decreases last + WINDOW - start
    {
      if start !in files {
        return Err(NotCovered);
      }
      var done := ReadArchiveFile(c, vault, files[start]);
      if done.Err? {
        return done;
      }
      WithMore(writes, done.value, AllWrites(c, vault, files, start + WINDOW, last));
      writes := writes + done.value;
      start := start + WINDOW;
    }
    assert writes + [] == writes;
    return Ok(writes);
  }

  /** Writes claim their ledgers in order, each taking over from those before it. */
  method FindOwners(writes: seq<Finished>, first: nat, last: nat) returns (owner: array<int>)
    requires first <= last
    ensures fresh(owner) && owner.Length == last - first + 1
    ensures forall k :: 0 <= k < owner.Length ==> owner[k] == Owner(writes, first + k)
  {
    owner := new int[last - first + 1](_ => -1);
    for i := 0 to |writes|
      invariant forall k :: 0 <= k < owner.Length ==> owner[k] == Owner(writes[..i], first + k)
    {
      var w := writes[i];
      var l := Max(w.lo, first);
      var end := Min(w.hi, last);
      while l <= end
        invariant first <= l
        invariant forall k :: 0 <= k < owner.Length ==>
                    owner[k] == if w.lo <= first + k <= w.hi && first + k < l then i else Owner(writes[..i], first + k)
        decreases end + 1 - l
      {
        owner[l - first] := i;
        if l == last {
          l := l + 1;
          break;
        }
        l := l + 1;
      }
      assert writes[..i + 1][..i] == writes[..i];
    }
    assert writes[..|writes|] == writes;
  }

  /** The events each write keeps, in the order they were written. */
  method Collect(writes: seq<Finished>, owner: array<int>, first: nat, last: nat) returns (out: seq<Event>)
    requires first <= last && owner.Length == last - first + 1
    requires forall k :: 0 <= k < owner.Length ==> owner[k] == Owner(writes, first + k)
    ensures out == Kept(writes, |writes|, first, last)
  {
    out := [];
    for i := 0 to |writes|
      invariant out == Kept(writes, i, first, last)
    {
      var events := writes[i].events;
      for j := 0 to |events|
        invariant out == Kept(writes, i, first, last) + KeptOf(writes, i, events[..j], first, last)
      {
        assert events[..j + 1][..j] == events[..j];
        var e := events[j];
        if first <= e.pos.ledger <= last && owner[e.pos.ledger - first] == i {
          out := out + [e];
        }
      }
      assert events[..|events|] == events;
    }
  }

  // ---------------------------------------------------------------------------------------------
  // Recovery

  /** The finished writes of all the windows a directory was built from. */
  function AllFinished(c: Codec, histories: map<nat, seq<Attempt>>, start: nat, last: nat): seq<Finished>
    decreases last + WINDOW - start
  {
    if start > last then []
    else (if start in histories then FinishedIn(c, histories[start]) else []) + AllFinished(c, histories, start + WINDOW, last)
  }

  function BuildAll(c: Codec, histories: map<nat, seq<Attempt>>): map<nat, seq<Byte>> {
    map s | s in histories :: Build(c, histories[s])
  }

  /** Read back from files that writes and crashes made, none of them torn twice, a range has exactly the
      finished writes of its windows. */
  lemma {:induction false} DirectoryRecovers(c: Codec, vault: nat, histories: map<nat, seq<Attempt>>, start: nat, last: nat)
    requires Sound(c)
    requires forall s :: s in histories ==> Proper(c, vault, histories[s]) && !TornTwice(c, histories[s])
    requires forall s :: start <= s <= last && (s - start) % WINDOW == 0 ==> s in histories
    ensures AllWrites(c, vault, BuildAll(c, histories), start, last) == Ok(AllFinished(c, histories, start, last))
    decreases last + WINDOW - start
  {
    hide Sound, Proper, TornTwice, ReadFile, FinishedIn, Build, Lines;
    if start <= last {
      assert (start - start) % WINDOW == 0;
      FileRecovers(c, vault, histories[start]);
      forall s | start + WINDOW <= s <= last && (s - (start + WINDOW)) % WINDOW == 0
        ensures s in histories
      {
        QuotientIs(s - start, WINDOW, (s - (start + WINDOW)) / WINDOW + 1, 0);
      }
      DirectoryRecovers(c, vault, histories, start + WINDOW, last);
      assert BuildAll(c, histories)[start] == Build(c, histories[start]);
    }
  }
}
