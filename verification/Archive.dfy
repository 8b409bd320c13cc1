/** The append-only archive of events: what a write puts in a file, what a crash leaves of it, and what a
    reader makes of the file afterwards. */
module Archive {
  import opened Common

  type Byte = x: nat | x < 256

  const NEWLINE: Byte := 10
  const RETURN: Byte := 13
  const MAX_LINE: nat := 0x10_0000
  const MAX_READ: nat := 0x40_0000

  datatype Position = Position(ledger: nat, tx: nat, op: nat, index: nat)
  {
    predicate Less(o: Position) {
      if ledger != o.ledger then ledger < o.ledger
      else if tx != o.tx then tx < o.tx
      else if op != o.op then op < o.op
      else index < o.index
    }
  }

  datatype Event = Event(pos: Position, contract: nat, body: nat)

  /** One record of a file, with the fields a line may have. */
  datatype Line = Line(write: nat, event: Option<Event>, covered: Option<(nat, nat)>, count: Option<int>, sum: Option<nat>)

  /** The encoding of records and the digest of event lines, which can be any. */
  datatype Codec = Codec(encode: Line -> seq<Byte>, decode: seq<Byte> -> Option<Line>, digest: seq<Byte> -> nat)

  predicate Plain(s: seq<Byte>) {
    |s| > 0 && forall i :: 0 <= i < |s| ==> s[i] != NEWLINE && s[i] != RETURN
  }

  /** A record decodes to itself, its encoding holds no line break, and no part of it cut short decodes. */
  ghost predicate Encodes(c: Codec, l: Line) {
    && Plain(c.encode(l))
    && c.decode(c.encode(l)) == Some(l)
    && (forall k :: 0 < k < |c.encode(l)| ==> c.decode(c.encode(l)[..k]) == None)
  }

  ghost predicate Sound(c: Codec) {
    forall l :: Encodes(c, l)
  }

  // ---------------------------------------------------------------------------------------------
  // Lines

  /** Lines with the breaks that end them. */
  function Flat(lines: seq<seq<Byte>>): seq<Byte> {
    if lines == [] then [] else lines[0] + [NEWLINE] + Flat(lines[1..])
  }

  /** Where the first line ends. */
  function FirstBreak(b: seq<Byte>): (n: nat)
    ensures n <= |b| && (n < |b| ==> b[n] == NEWLINE)
    ensures forall i :: 0 <= i < n ==> b[i] != NEWLINE
  {
    if b == [] || b[0] == NEWLINE then 0 else 1 + FirstBreak(b[1..])
  }

  /** A line without the carriage return that may end it. */
  function Trim(s: seq<Byte>): seq<Byte> {
    if s != [] && s[|s| - 1] == RETURN then s[..|s| - 1] else s
  }

  /** The lines a scanner finds; the last needs no break. */
  function Lines(b: seq<Byte>): seq<seq<Byte>>
    decreases |b|
  {
    if b == [] then []
    else
      var n := FirstBreak(b);
      if n == |b| then [Trim(b)] else [Trim(b[..n])] + Lines(b[n + 1..])
  }

  /** A file ends whole when no line of it is left half written. */
  predicate EndsWhole(f: seq<Byte>) {
    f == [] || f[|f| - 1] == NEWLINE
  }

  /** What ends a line a crash left half written. */
  function Terminator(f: seq<Byte>): seq<Byte> {
    if EndsWhole(f) then [] else [NEWLINE]
  }

  lemma {:induction false} FirstBreakIn(f: seq<Byte>, g: seq<Byte>)
    ensures FirstBreak(f) < |f| ==> FirstBreak(f + g) == FirstBreak(f)
    ensures FirstBreak(f) == |f| && g != [] && g[0] == NEWLINE ==> FirstBreak(f + g) == |f|
  {
    if f == [] {
      assert f + g == g;
    } else if f[0] != NEWLINE {
      assert (f + g)[1..] == f[1..] + g;
      FirstBreakIn(f[1..], g);
    }
  }

  lemma LastLineAppends(f: seq<Byte>, g: seq<Byte>)
    requires f != [] && FirstBreak(f) == |f|
    ensures Lines(f + Terminator(f) + g) == Lines(f) + Lines(g)
  {
    var all := f + ([NEWLINE] + g);
    assert Terminator(f) == [NEWLINE] && f + Terminator(f) + g == all;
    FirstBreakIn(f, [NEWLINE] + g);
    assert all[..|f|] == f && all[|f| + 1..] == g;
  }

  lemma FirstLineStays(f: seq<Byte>, g: seq<Byte>, rest: seq<Byte>)
    requires FirstBreak(f) < |f| && rest == f[FirstBreak(f) + 1..]
    requires Lines(rest + Terminator(rest) + g) == Lines(rest) + Lines(g)
    ensures Lines(f + Terminator(f) + g) == Lines(f) + Lines(g)
  {
    hide *;
    FirstLineOfBoth(f, g);
    LinesSplit(f);
    Joined([Trim(f[..FirstBreak(f)])], Lines(rest), Lines(g));
  }

  lemma Joined(a: seq<seq<Byte>>, b: seq<seq<Byte>>, c: seq<seq<Byte>>)
    ensures a + (b + c) == a + b + c
  {
  }

  lemma FirstLineOfBoth(f: seq<Byte>, g: seq<Byte>)
    requires FirstBreak(f) < |f|
    ensures var n := FirstBreak(f);
            var rest := f[n + 1..];
            Lines(f + Terminator(f) + g) == [Trim(f[..n])] + Lines(rest + Terminator(rest) + g)
  {
    hide Lines, Trim;
    var all := f + Terminator(f) + g;
    assert all == f + (Terminator(f) + g);
    FirstBreakIn(f, Terminator(f) + g);
    RestMoves(f, g, FirstBreak(f));
    hide FirstBreak, Terminator;
    LinesSplit(all);
  }

  lemma LinesSplit(b: seq<Byte>)
    requires FirstBreak(b) < |b|
    ensures Lines(b) == [Trim(b[..FirstBreak(b)])] + Lines(b[FirstBreak(b) + 1..])
  {
  }

  lemma RestMoves(f: seq<Byte>, g: seq<Byte>, n: nat)
    requires n < |f| && f[n] == NEWLINE
    ensures var all, rest := f + Terminator(f) + g, f[n + 1..];
            all[..n] == f[..n] && all[n + 1..] == rest + Terminator(rest) + g
  {
    assert Terminator(f[n + 1..]) == Terminator(f);
  }

  /** Bytes after a terminated file are lines of their own. */
  lemma {:induction false} LinesAppend(f: seq<Byte>, g: seq<Byte>)
    ensures Lines(f + Terminator(f) + g) == Lines(f) + Lines(g)
    decreases |f|
  {
    if f == [] {
      assert f + Terminator(f) + g == g;
    } else if FirstBreak(f) == |f| {
      LastLineAppends(f, g);
    } else {
      var rest := f[FirstBreak(f) + 1..];
      hide Lines, Terminator, FirstBreak;
      LinesAppend(rest, g);
      FirstLineStays(f, g, rest);
    }
  }

  /** How many of the lines are whole in their first `k` bytes, a last break apart. */
  function Whole(lines: seq<seq<Byte>>, k: nat): (n: nat)
    ensures n <= |lines|
  {
    if lines == [] || k < |lines[0]| then 0 else 1 + Whole(lines[1..], Max(k - |lines[0]| - 1, 0))
  }

  /** What the first `k` bytes hold of the next line. */
  function Rest(lines: seq<seq<Byte>>, k: nat): seq<Byte> {
    if lines == [] then []
    else if k < |lines[0]| then lines[0][..k]
    else Rest(lines[1..], Max(k - |lines[0]| - 1, 0))
  }

  function RestLines(lines: seq<seq<Byte>>, k: nat): seq<seq<Byte>> {
    if Rest(lines, k) == [] then [] else [Rest(lines, k)]
  }

  predicate AllPlain(lines: seq<seq<Byte>>) {
    forall i :: 0 <= i < |lines| ==> Plain(lines[i])
  }

  lemma {:induction false} NoBreak(s: seq<Byte>)
    requires forall i :: 0 <= i < |s| ==> s[i] != NEWLINE
    ensures FirstBreak(s) == |s|
  {
    if s != [] {
      NoBreak(s[1..]);
    }
  }

  lemma OneLine(s: seq<Byte>, k: nat)
    requires Plain(s) && k <= |s|
    ensures Lines(s[..k]) == if k == 0 then [] else [s[..k]]
  {
    if k > 0 {
      NoBreak(s[..k]);
    }
  }

  lemma LineThenMore(first: seq<Byte>, g: seq<Byte>)
    requires Plain(first)
    ensures Lines(first + [NEWLINE] + g) == [first] + Lines(g)
  {
    LinesAppend(first, g);
    OneLine(first, |first|);
    assert first[..|first|] == first;
    assert Terminator(first) == [NEWLINE];
  }

  /** What is left of a next line is the start of it. */
  lemma {:induction false} RestIsStart(lines: seq<seq<Byte>>, k: nat)
    requires AllPlain(lines) && Rest(lines, k) != []
    ensures var w, n := Whole(lines, k), |Rest(lines, k)|;
            w < |lines| && n < |lines[w]| && Rest(lines, k) == lines[w][..n]
    decreases |lines|
  {
    if k >= |lines[0]| {
      RestIsStart(lines[1..], Max(k - |lines[0]| - 1, 0));
    }
  }

  lemma CutInFirst(lines: seq<seq<Byte>>, k: nat)
    requires AllPlain(lines) && lines != [] && k <= |lines[0]|
    ensures Lines(Flat(lines)[..k]) == lines[..Whole(lines, k)] + RestLines(lines, k)
  {
    var first := lines[0];
    assert Flat(lines)[..k] == first[..k];
    OneLine(first, k);
    if k == |first| {
      NothingKept(lines[1..]);
      assert first[..k] == first;
    }
  }

  lemma CutPastFirst(lines: seq<seq<Byte>>, k: nat)
    requires AllPlain(lines) && lines != [] && |lines[0]| < k <= |Flat(lines)|
    requires var rest, m := lines[1..], k - |lines[0]| - 1;
             m <= |Flat(rest)| && Lines(Flat(rest)[..m]) == rest[..Whole(rest, m)] + RestLines(rest, m)
    ensures Lines(Flat(lines)[..k]) == lines[..Whole(lines, k)] + RestLines(lines, k)
  {
    var m := k - |lines[0]| - 1;
    FlatCut(lines, k);
    WholePast(lines, k);
    var first, rest := lines[0], lines[1..];
    assert Plain(first);
    hide *;
    LineThenMore(first, Flat(rest)[..m]);
    Regrouped(lines, Whole(rest, m), RestLines(rest, m));
  }

  lemma FlatCut(lines: seq<seq<Byte>>, k: nat)
    requires lines != [] && |lines[0]| < k <= |Flat(lines)|
    ensures var m := k - |lines[0]| - 1;
            m <= |Flat(lines[1..])| && Flat(lines)[..k] == lines[0] + [NEWLINE] + Flat(lines[1..])[..m]
  {
  }

  lemma WholePast(lines: seq<seq<Byte>>, k: nat)
    requires lines != [] && |lines[0]| < k
    ensures var m := k - |lines[0]| - 1;
            Whole(lines, k) == Whole(lines[1..], m) + 1 && RestLines(lines, k) == RestLines(lines[1..], m)
  {
  }

  lemma Regrouped(lines: seq<seq<Byte>>, w: nat, r: seq<seq<Byte>>)
    requires lines != [] && w <= |lines| - 1
    ensures [lines[0]] + (lines[1..][..w] + r) == lines[..w + 1] + r
  {
  }

  /** Cut at any byte, lines leave the whole ones before the cut and the part of the next. */
  lemma {:induction false} LinesOfCut(lines: seq<seq<Byte>>, k: nat)
    requires AllPlain(lines) && k <= |Flat(lines)|
    ensures Lines(Flat(lines)[..k]) == lines[..Whole(lines, k)] + RestLines(lines, k)
    decreases |lines|
  {
    if lines != [] {
      if k <= |lines[0]| {
        CutInFirst(lines, k);
      } else {
        LinesOfCut(lines[1..], k - |lines[0]| - 1);
        CutPastFirst(lines, k);
      }
    }
  }

  lemma NothingKept(lines: seq<seq<Byte>>)
    requires AllPlain(lines)
    ensures Whole(lines, 0) == 0 && Rest(lines, 0) == []
  {
  }

  /** All lines are whole exactly when at most their last break is missing. */
  lemma {:induction false} AllWhole(lines: seq<seq<Byte>>, k: nat)
    requires AllPlain(lines) && lines != [] && k <= |Flat(lines)|
    ensures Whole(lines, k) == |lines| <==> k + 1 >= |Flat(lines)|
    decreases |lines|
  {
    var n := |lines[0]|;
    assert |Flat(lines)| == n + 1 + |Flat(lines[1..])|;
    if |lines| == 1 {
      assert lines[1..] == [];
    } else {
      assert |Flat(lines[1..])| >= |lines[1]| + 1;
      if k > n {
        AllWhole(lines[1..], k - n - 1);
      } else if k == n {
        NothingKept(lines[1..]);
      }
    }
  }

  // ---------------------------------------------------------------------------------------------
  // Writing

  function EventLine(write: nat, e: Event): Line {
    Line(write, Some(e), None, None, None)
  }

  function EventLines(c: Codec, write: nat, events: seq<Event>): seq<seq<Byte>> {
    if events == [] then []
    else EventLines(c, write, events[..|events| - 1]) + [c.encode(EventLine(write, events[|events| - 1]))]
  }

  /** The record that closes a write: its range, and the number and digest of its event lines. */
  function Closing(c: Codec, write: nat, lo: nat, hi: nat, lines: seq<seq<Byte>>): Line {
    Line(write, None, Some((lo, hi)), Some(|lines|), Some(c.digest(Flat(lines))))
  }

  function WriteLinesOf(c: Codec, write: nat, events: seq<Event>, lo: nat, hi: nat): seq<seq<Byte>> {
    var lines := EventLines(c, write, events);
    lines + [c.encode(Closing(c, write, lo, hi, lines))]
  }

  function InRange(events: seq<Event>, lo: nat, hi: nat): seq<Event> {
    if events == [] then []
    else
      var last := events[|events| - 1];
      InRange(events[..|events| - 1], lo, hi) + if lo <= last.pos.ledger <= hi then [last] else []
  }

  predicate Fits(c: Codec, write: nat, events: seq<Event>) {
    forall i :: 0 <= i < |events| ==> |c.encode(EventLine(write, events[i]))| < MAX_LINE
  }

  datatype WriteError = TooLarge | WriteFailed

  class File {
    var data: seq<Byte>

    /** Appends the events of a range and the record that closes the write. A write with an event too large
        for a line is refused, and one that fails part way is cut off the file again. */
    method AppendWrite(c: Codec, write: nat, events: seq<Event>, lo: nat, hi: nat, written: nat) returns (r: Result<(), WriteError>)
      modifies this
      ensures r == Err(TooLarge) <==> !Fits(c, write, InRange(events, lo, hi))
      ensures r.Ok? ==> data == old(data) + Terminator(old(data)) + Flat(WriteLinesOf(c, write, InRange(events, lo, hi), lo, hi))
      ensures r.Err? ==> data == old(data)
    {
      var collected := CollectLines(c, write, events, lo, hi);
      if collected == None {
        return Err(TooLarge);
      }
      var lines := collected.value;
      lines := lines + [c.encode(Closing(c, write, lo, hi, lines))];
      var body := JoinLines(lines);
      var out := Terminator(data) + body;
      var size := |data|;
      if written < |out| {
        // The device took only part of the write.
        data := data + out[..written];
        data := data[..size];
        assert data == old(data);
        return Err(WriteFailed);
      }
      data := data + out;
      assert data == old(data) + Terminator(old(data)) + body;
      return Ok(());
    }
  }

  method JoinLines(lines: seq<seq<Byte>>) returns (out: seq<Byte>)
    ensures out == Flat(lines)
  {
    out := [];
    for i := 0 to |lines|
      invariant out == Flat(lines[..i])
    {
      assert lines[..i + 1] == lines[..i] + [lines[i]];
      FlatOneMore(lines[..i], lines[i]);
      out := out + lines[i] + [NEWLINE];
    }
    assert lines[..|lines|] == lines;
  }

  /** The lines of the events in a range, unless one is too large. */
  method CollectLines(c: Codec, write: nat, events: seq<Event>, lo: nat, hi: nat) returns (r: Option<seq<seq<Byte>>>)
    ensures r.Some? <==> Fits(c, write, InRange(events, lo, hi))
    ensures r.Some? ==> r.value == EventLines(c, write, InRange(events, lo, hi))
  {
    var lines: seq<seq<Byte>> := [];
    for i := 0 to |events|
      invariant Fits(c, write, InRange(events[..i], lo, hi))
      invariant lines == EventLines(c, write, InRange(events[..i], lo, hi))
    {
      assert events[..i + 1][..i] == events[..i];
      var e := events[i];
      if lo <= e.pos.ledger <= hi {
        var line := c.encode(EventLine(write, e));
        if |line| >= MAX_LINE {
          TooLargeStays(c, write, events, lo, hi, i);
          return None;
        }
        ghost var before := InRange(events[..i], lo, hi);
        assert (before + [e])[..|before|] == before && InRange(events[..i + 1], lo, hi) == before + [e];
        lines := lines + [line];
      } else {
        assert InRange(events[..i + 1], lo, hi) == InRange(events[..i], lo, hi);
      }
    }
    assert events[..|events|] == events;
    return Some(lines);
  }

  lemma {:induction false} FlatOneMore(lines: seq<seq<Byte>>, line: seq<Byte>)
    ensures Flat(lines + [line]) == Flat(lines) + line + [NEWLINE]
  {
    if lines != [] {
      FlatOneMore(lines[1..], line);
      assert (lines + [line])[1..] == lines[1..] + [line];
    }
  }

  lemma {:induction false} TooLargeStays(c: Codec, write: nat, events: seq<Event>, lo: nat, hi: nat, i: nat)
    requires i < |events| && lo <= events[i].pos.ledger <= hi && |c.encode(EventLine(write, events[i]))| >= MAX_LINE
    ensures !Fits(c, write, InRange(events, lo, hi))
    decreases |events|
  {
    var n := |events| - 1;
    var kept := InRange(events, lo, hi);
    if i == n {
      assert kept[|kept| - 1] == events[i];
    } else {
      TooLargeStays(c, write, events[..n], lo, hi, i);
      var before := InRange(events[..n], lo, hi);
      var k :| 0 <= k < |before| && |c.encode(EventLine(write, before[k]))| >= MAX_LINE;
      assert kept[k] == before[k];
    }
  }

  // ---------------------------------------------------------------------------------------------
  // Reading a file

  datatype OpenWrite = OpenWrite(events: seq<Event>, bytes: seq<Byte>, count: nat)

  datatype Finished = Finished(lo: nat, hi: nat, events: seq<Event>)

  /** Where a reader stands: the writes that are open, those that ended or were torn, the finished ones,
      and whether the last line was unreadable. */
  datatype Reading = Reading(open: map<nat, OpenWrite>, ended: set<nat>, done: seq<Finished>, torn: bool)

  datatype ReadError = Damaged | LineTooLong | NotCovered | Malformed

  const NOTHING_READ := Reading(map[], {}, [], false)
  const NEW_WRITE := OpenWrite([], [], 0)

  function ReadEvent(vault: nat, r: Reading, l: Line, bytes: seq<Byte>): Result<Reading, ReadError>
    requires l.event.Some?
  {
    if l.event.value.contract != vault then Err(Damaged)
    else
      var w := if l.write in r.open then r.open[l.write] else NEW_WRITE;
      Ok(r.(open := r.open[l.write := OpenWrite(w.events + [l.event.value], w.bytes + bytes + [NEWLINE], w.count + 1)], torn := false))
  }

  function ReadClosing(c: Codec, r: Reading, l: Line): Result<Reading, ReadError>
    requires l.covered.Some? && l.count.Some?
  {
    var w := if l.write in r.open then r.open[l.write] else NEW_WRITE;
    if w.count != l.count.value || Some(c.digest(w.bytes)) != l.sum then Err(Damaged)
    else Ok(Reading(r.open - {l.write}, r.ended + {l.write}, r.done + [Finished(l.covered.value.0, l.covered.value.1, w.events)], false))
  }

  function ReadLine(c: Codec, vault: nat, r: Reading, bytes: seq<Byte>): Result<Reading, ReadError> {
    if |bytes| >= MAX_READ then Err(LineTooLong)
    else
      match c.decode(bytes)
      case None => if r.torn then Err(Damaged) else Ok(r.(torn := true, ended := r.ended + r.open.Keys, open := map[]))
      case Some(l) =>
        if l.write in r.ended then Err(Damaged)
        else if l.event.Some? && l.covered == None && l.count == None && l.sum == None then ReadEvent(vault, r, l, bytes)
        else if l.event == None && l.covered.Some? && l.count.Some? && l.covered.value.0 <= l.covered.value.1 then ReadClosing(c, r, l)
        else Err(Damaged)
  }

  function ReadLines(c: Codec, vault: nat, r: Reading, lines: seq<seq<Byte>>): Result<Reading, ReadError> {
    if lines == [] then Ok(r)
    else
      match ReadLines(c, vault, r, lines[..|lines| - 1])
      case Err(error) => Err(error)
      case Ok(next) => ReadLine(c, vault, next, lines[|lines| - 1])
  }

  /** The finished writes of one file, in the order they were made. */
  function ReadFile(c: Codec, vault: nat, data: seq<Byte>): Result<seq<Finished>, ReadError> {
    match ReadLines(c, vault, NOTHING_READ, Lines(data))
    case Err(error) => Err(error)
    case Ok(r) => Ok(r.done)
  }

  /** Reads a file line by line. */
  method ReadArchiveFile(c: Codec, vault: nat, data: seq<Byte>) returns (r: Result<seq<Finished>, ReadError>)
    ensures r == ReadFile(c, vault, data)
  {
    var lines := Lines(data);
    var open: map<nat, OpenWrite> := map[];
    var ended: set<nat> := {};
    var done: seq<Finished> := [];
    var torn := false;
    for n := 0 to |lines|
      invariant ReadLines(c, vault, NOTHING_READ, lines[..n]) == Ok(Reading(open, ended, done, torn))
    {
      var bytes := lines[n];
      assert lines[..n + 1][..n] == lines[..n];
      ghost var before := Reading(open, ended, done, torn);
      assert ReadLines(c, vault, NOTHING_READ, lines[..n + 1]) == ReadLine(c, vault, before, bytes);
      StaysFailed(c, vault, NOTHING_READ, lines, n + 1);
      if |bytes| >= MAX_READ {
        return Err(LineTooLong);
      }
      var decoded := c.decode(bytes);
      if decoded == None {
        if torn {
          return Err(Damaged);
        }
        torn := true;
        ended := ended + open.Keys;
        open := map[];
        continue;
      }
      var l := decoded.value;
      if l.write in ended {
        return Err(Damaged);
      }
      var w := if l.write in open then open[l.write] else NEW_WRITE;
      torn := false;
      if l.event.Some? && l.covered == None && l.count == None && l.sum == None {
        if l.event.value.contract != vault {
          return Err(Damaged);
        }
        open := open[l.write := OpenWrite(w.events + [l.event.value], w.bytes + bytes + [NEWLINE], w.count + 1)];
      } else if l.event == None && l.covered.Some? && l.count.Some? && l.covered.value.0 <= l.covered.value.1 {
        if w.count != l.count.value || Some(c.digest(w.bytes)) != l.sum {
          return Err(Damaged);
        }
        done := done + [Finished(l.covered.value.0, l.covered.value.1, w.events)];
        open := open - {l.write};
        ended := ended + {l.write};
      } else {
        return Err(Damaged);
      }
    }
    assert lines[..|lines|] == lines;
    return Ok(done);
  }

  lemma {:induction false} StaysFailed(c: Codec, vault: nat, r: Reading, lines: seq<seq<Byte>>, n: nat)
    requires n <= |lines|
    ensures ReadLines(c, vault, r, lines[..n]).Err? ==> ReadLines(c, vault, r, lines) == ReadLines(c, vault, r, lines[..n])
    decreases |lines| - n
  {
    if n < |lines| {
      assert lines[..n + 1][..n] == lines[..n];
      StaysFailed(c, vault, r, lines, n + 1);
    } else {
      assert lines[..n] == lines;
    }
  }

  // ---------------------------------------------------------------------------------------------
  // Crashes

  /** One write as it was tried: a crash keeps only the first bytes of what it puts in the file. */
  datatype Attempt = Attempt(write: nat, events: seq<Event>, lo: nat, hi: nat, kept: nat)

  function LinesOf(c: Codec, a: Attempt): seq<seq<Byte>> {
    WriteLinesOf(c, a.write, a.events, a.lo, a.hi)
  }

  /** The file once a write was tried on it. */
  function After(c: Codec, f: seq<Byte>, a: Attempt): seq<Byte> {
    var out := Terminator(f) + Flat(LinesOf(c, a));
    f + out[..Min(a.kept, |out|)]
  }

  function Build(c: Codec, history: seq<Attempt>): seq<Byte> {
    if history == [] then []
    else After(c, Build(c, history[..|history| - 1]), history[|history| - 1])
  }

  /** A write finished once it is in the file, its last line break apart. */
  predicate Finishes(c: Codec, f: seq<Byte>, a: Attempt) {
    a.kept + 1 >= |Terminator(f) + Flat(LinesOf(c, a))|
  }

  function FinishedIn(c: Codec, history: seq<Attempt>): seq<Finished> {
    if history == [] then []
    else
      var before, a := history[..|history| - 1], history[|history| - 1];
      FinishedIn(c, before) + if Finishes(c, Build(c, before), a) then [Finished(a.lo, a.hi, a.events)] else []
  }

  /** Writes of this vault, each with an ID of its own, and no line longer than a line may be. */
  ghost predicate Proper(c: Codec, vault: nat, history: seq<Attempt>) {
    && (forall i :: 0 <= i < |history| ==> ProperWrite(c, vault, history[i]))
    && (forall i, j :: 0 <= i < j < |history| ==> history[i].write != history[j].write)
  }

  ghost predicate ProperWrite(c: Codec, vault: nat, a: Attempt) {
    && a.lo <= a.hi
    && (forall i :: 0 <= i < |a.events| ==> a.events[i].contract == vault)
    && (forall i :: 0 <= i < |LinesOf(c, a)| ==> |LinesOf(c, a)[i]| < MAX_READ)
  }

  predicate Unreadable(c: Codec, line: seq<Byte>) {
    c.decode(line) == None
  }

  /** No two unreadable lines follow each other. */
  predicate NoneAdjoin(c: Codec, lines: seq<seq<Byte>>) {
    forall i, j :: 0 <= i && j == i + 1 < |lines| && Unreadable(c, lines[i]) ==> !Unreadable(c, lines[j])
  }

  predicate LastUnreadable(c: Codec, lines: seq<seq<Byte>>) {
    lines != [] && Unreadable(c, lines[|lines| - 1])
  }

  /** Which bytes of the write's lines a crash kept. */
  function KeptOf(f: seq<Byte>, a: Attempt): nat {
    Max(a.kept - |Terminator(f)|, 0)
  }

  lemma {:induction false} EventLinesAre(c: Codec, write: nat, events: seq<Event>)
    ensures |EventLines(c, write, events)| == |events|
    ensures forall i :: 0 <= i < |events| ==> EventLines(c, write, events)[i] == c.encode(EventLine(write, events[i]))
  {
    if events != [] {
      EventLinesAre(c, write, events[..|events| - 1]);
    }
  }

  lemma LinesArePlain(c: Codec, a: Attempt)
    requires Sound(c)
    ensures AllPlain(LinesOf(c, a)) && |LinesOf(c, a)| == |a.events| + 1
  {
    EventLinesAre(c, a.write, a.events);
    var lines := EventLines(c, a.write, a.events);
    assert Encodes(c, Closing(c, a.write, a.lo, a.hi, lines));
    forall i | 0 <= i < |a.events|
      ensures Plain(LinesOf(c, a)[i])
    {
      assert Encodes(c, EventLine(a.write, a.events[i]));
    }
  }

  /** The lines of a file after a write: those before, the write's whole ones, and the part of the next. */
  lemma LinesAfter(c: Codec, f: seq<Byte>, a: Attempt)
    requires Sound(c)
    ensures var lines, k := LinesOf(c, a), Min(KeptOf(f, a), |Flat(LinesOf(c, a))|);
            && Lines(After(c, f, a)) == Lines(f) + (lines[..Whole(lines, k)] + RestLines(lines, k))
            && (Finishes(c, f, a) <==> Whole(lines, k) == |lines|)
  {
    LinesArePlain(c, a);
    var lines, end := LinesOf(c, a), Terminator(f);
    var flat := Flat(lines);
    var k := Min(KeptOf(f, a), |flat|);
    LinesOfCut(lines, k);
    AllWhole(lines, k);
    if a.kept < |end| {
      assert (end + flat)[..Min(a.kept, |end + flat|)] == [];
      assert After(c, f, a) == f;
      NothingKept(lines);
      assert Lines(f) + (lines[..0] + []) == Lines(f);
    } else {
      assert (end + flat)[..Min(a.kept, |end + flat|)] == end + flat[..k];
      assert After(c, f, a) == f + end + flat[..k];
      LinesAppend(f, flat[..k]);
    }
  }

  lemma {:induction false} ReadSum(c: Codec, vault: nat, r: Reading, s: seq<seq<Byte>>, t: seq<seq<Byte>>)
    ensures ReadLines(c, vault, r, s + t) ==
            match ReadLines(c, vault, r, s) { case Err(error) => Err(error) case Ok(next) => ReadLines(c, vault, next, t) }
    decreases |t|
  {
    if t == [] {
      assert s + t == s;
    } else {
      var rest := t[..|t| - 1];
      ReadSum(c, vault, r, s, rest);
      assert (s + t)[..|s + t| - 1] == s + rest;
    }
  }

  /** A reader that never met this write. */
  predicate Unmet(r: Reading, write: nat) {
    write !in r.open && write !in r.ended
  }

  /** Reading a write's first event lines opens it. */
  lemma {:induction false} ReadsEvents(c: Codec, vault: nat, r: Reading, write: nat, events: seq<Event>)
    requires Sound(c) && Unmet(r, write)
    requires forall i :: 0 <= i < |events| ==> events[i].contract == vault && |c.encode(EventLine(write, events[i]))| < MAX_READ
    ensures ReadLines(c, vault, r, EventLines(c, write, events)) ==
            Ok(if events == [] then r
               else r.(open := r.open[write := OpenWrite(events, Flat(EventLines(c, write, events)), |events|)], torn := false))
  {
    if events != [] {
      var rest, e := events[..|events| - 1], events[|events| - 1];
      ReadsEvents(c, vault, r, write, rest);
      var lines, line := EventLines(c, write, rest), c.encode(EventLine(write, e));
      EventLinesAre(c, write, rest);
      assert EventLines(c, write, events) == lines + [line] && (lines + [line])[..|lines|] == lines;
      assert Encodes(c, EventLine(write, e));
      assert rest + [e] == events;
      FlatOneMore(lines, line);
      ReadsOneEvent(c, vault, r, write, rest, e);
      hide ReadLine, Sound, Flat;
    }
  }

  lemma ReadsOneEvent(c: Codec, vault: nat, r: Reading, write: nat, rest: seq<Event>, e: Event)
    requires Encodes(c, EventLine(write, e)) && Unmet(r, write)
    requires e.contract == vault && |c.encode(EventLine(write, e))| < MAX_READ
    ensures var flat, line := Flat(EventLines(c, write, rest)), c.encode(EventLine(write, e));
            var before := if rest == [] then r else r.(open := r.open[write := OpenWrite(rest, flat, |rest|)], torn := false);
            ReadLine(c, vault, before, line)
            == Ok(r.(open := r.open[write := OpenWrite(rest + [e], flat + line + [NEWLINE], |rest| + 1)], torn := false))
  {
    if rest != [] {
      var flat := Flat(EventLines(c, write, rest));
      var w, after := OpenWrite(rest, flat, |rest|), OpenWrite(rest + [e], flat + c.encode(EventLine(write, e)) + [NEWLINE], |rest| + 1);
      assert r.open[write := w][write := after] == r.open[write := after];
    }
  }

  /** Reading the closing line after all of them finishes the write. */
  lemma ReadsWrite(c: Codec, vault: nat, r: Reading, a: Attempt)
    requires Sound(c) && Unmet(r, a.write) && ProperWrite(c, vault, a)
    ensures ReadLines(c, vault, r, LinesOf(c, a))
            == Ok(Reading(r.open, r.ended + {a.write}, r.done + [Finished(a.lo, a.hi, a.events)], false))
  {
    EventsOfAttempt(c, vault, a);
    ReadsEvents(c, vault, r, a.write, a.events);
    EventLinesAre(c, a.write, a.events);
    var lines := EventLines(c, a.write, a.events);
    var closing := Closing(c, a.write, a.lo, a.hi, lines);
    assert Encodes(c, closing);
    assert LinesOf(c, a)[..|lines|] == lines && LinesOf(c, a)[|lines|] == c.encode(closing);
    assert r.open[a.write := OpenWrite(a.events, Flat(lines), |lines|)] - {a.write} == r.open;
    assert r.open - {a.write} == r.open;
  }

  lemma EventsOfAttempt(c: Codec, vault: nat, a: Attempt)
    requires ProperWrite(c, vault, a)
    ensures forall i :: 0 <= i < |a.events| ==> a.events[i].contract == vault && |c.encode(EventLine(a.write, a.events[i]))| < MAX_READ
  {
    EventLinesAre(c, a.write, a.events);
    forall i | 0 <= i < |a.events|
      ensures |c.encode(EventLine(a.write, a.events[i]))| < MAX_READ
    {
      assert LinesOf(c, a)[i] == c.encode(EventLine(a.write, a.events[i]));
    }
  }

  /** What a reader has after a write's whole lines, when it did not finish. */
  function Partly(c: Codec, r: Reading, a: Attempt, n: nat): Reading
    requires n <= |a.events|
  {
    if n == 0 then r
    else r.(open := r.open[a.write := OpenWrite(a.events[..n], Flat(EventLines(c, a.write, a.events[..n])), n)], torn := false)
  }

  lemma ReadsPart(c: Codec, vault: nat, r: Reading, a: Attempt, n: nat)
    requires Sound(c) && Unmet(r, a.write) && ProperWrite(c, vault, a) && n <= |a.events|
    ensures |LinesOf(c, a)| == |a.events| + 1 && ReadLines(c, vault, r, LinesOf(c, a)[..n]) == Ok(Partly(c, r, a, n))
  {
    EventsOfAttempt(c, vault, a);
    EventLinesAre(c, a.write, a.events);
    EventLinesAre(c, a.write, a.events[..n]);
    ReadsEvents(c, vault, r, a.write, a.events[..n]);
    assert LinesOf(c, a)[..n] == EventLines(c, a.write, a.events[..n]);
  }

  /** What a crash leaves to read: the write's whole lines, and perhaps the part of one that no reader
      understands. */
  lemma ReadsAttempt(c: Codec, vault: nat, f: seq<Byte>, r: Reading, a: Attempt)
    requires Sound(c) && Unmet(r, a.write) && ProperWrite(c, vault, a)
    ensures var lines, k := LinesOf(c, a), Min(KeptOf(f, a), |Flat(LinesOf(c, a))|);
            var n, rest := Whole(lines, k), RestLines(lines, k);
            && |lines| == |a.events| + 1 && n <= |lines|
            && (rest != [] ==> n < |lines| && |rest| == 1 && Unreadable(c, rest[0]) && |rest[0]| < MAX_READ)
            && (forall i :: 0 <= i < n ==> !Unreadable(c, lines[i]))
  {
    LinesArePlain(c, a);
    var lines, k := LinesOf(c, a), Min(KeptOf(f, a), |Flat(LinesOf(c, a))|);
    EventLinesAre(c, a.write, a.events);
    assert Encodes(c, Closing(c, a.write, a.lo, a.hi, EventLines(c, a.write, a.events)));
    forall i | 0 <= i < |lines|
      ensures !Unreadable(c, lines[i])
      ensures forall p :: 0 < p < |lines[i]| ==> c.decode(lines[i][..p]) == None
    {
      assert i < |a.events| ==> Encodes(c, EventLine(a.write, a.events[i]));
    }
    if Rest(lines, k) != [] {
      RestIsStart(lines, k);
    }
  }

  /** Where a reader stands after the lines one attempt left: the file reads on as before, with the write
      finished if it was, unless its first line is unreadable and so was the last one before it. */
  ghost predicate ReadOn(c: Codec, r: Reading, a: Attempt, finished: bool, next: Result<Reading, ReadError>) {
    && next.Ok?
    && next.value.done == r.done + (if finished then [Finished(a.lo, a.hi, a.events)] else [])
    && next.value.open.Keys + next.value.ended <= r.open.Keys + r.ended + {a.write}
  }

  lemma ReadsOn(c: Codec, vault: nat, f: seq<Byte>, r: Reading, a: Attempt)
    requires Sound(c) && Unmet(r, a.write) && ProperWrite(c, vault, a)
    ensures var lines, k := LinesOf(c, a), Min(KeptOf(f, a), |Flat(LinesOf(c, a))|);
            var n, rest := Whole(lines, k), RestLines(lines, k);
            var next := ReadLines(c, vault, r, lines[..n] + rest);
            && (n == 0 && rest != [] && r.torn ==> next == Err(Damaged))
            && (!(n == 0 && rest != [] && r.torn) ==> ReadOn(c, r, a, n == |lines|, next))
            && (next.Ok? ==> next.value.torn == if rest != [] then true else if n > 0 then false else r.torn)
  {
    ReadsAttempt(c, vault, f, r, a);
    var lines, k := LinesOf(c, a), Min(KeptOf(f, a), |Flat(LinesOf(c, a))|);
    var n, rest := Whole(lines, k), RestLines(lines, k);
    hide Sound, ReadLine, Flat, EventLines, LinesOf, Whole, RestLines, ProperWrite, KeptOf;
    ReadSum(c, vault, r, lines[..n], rest);
    if n == |lines| {
      ReadsWrite(c, vault, r, a);
      assert lines[..n] == lines;
    } else {
      ReadsPart(c, vault, r, a, n);
      if rest != [] {
        OneLineRead(c, vault, Partly(c, r, a, n), rest);
      }
    }
  }

  lemma OneLineRead(c: Codec, vault: nat, r: Reading, rest: seq<seq<Byte>>)
    requires |rest| == 1 && Unreadable(c, rest[0]) && |rest[0]| < MAX_READ
    ensures ReadLines(c, vault, r, rest)
            == if r.torn then Err(Damaged) else Ok(r.(torn := true, ended := r.ended + r.open.Keys, open := map[]))
  {
    assert rest[..0] == [];
    assert ReadLines(c, vault, r, rest[..0]) == Ok(r);
  }

  function WriteIds(history: seq<Attempt>): set<nat> {
    set a <- history :: a.write
  }

  /** Unreadable lines adjoin across a join only where it is made. */
  lemma NoneAdjoinAcross(c: Codec, s: seq<seq<Byte>>, t: seq<seq<Byte>>)
    requires forall i :: 0 <= i < |t| - 1 ==> !Unreadable(c, t[i])
    ensures NoneAdjoin(c, s + t) <==> NoneAdjoin(c, s) && !(LastUnreadable(c, s) && t != [] && Unreadable(c, t[0]))
  {
    var all := s + t;
    assert forall i :: 0 <= i < |s| ==> all[i] == s[i];
    assert forall i :: |s| <= i < |all| ==> all[i] == t[i - |s|];
    if NoneAdjoin(c, all) {
      if LastUnreadable(c, s) && t != [] {
        assert !Unreadable(c, all[|s|]);
      }
    }
  }

  lemma LastOfJoin(c: Codec, s: seq<seq<Byte>>, t: seq<seq<Byte>>)
    ensures LastUnreadable(c, s + t) <==> if t == [] then LastUnreadable(c, s) else LastUnreadable(c, t)
  {
    if t == [] {
      assert s + t == s;
    }
  }

  /** What a reader has of lines that writes with these IDs left: their finished ones, or none of them. */
  ghost predicate ReadsAs(c: Codec, vault: nat, lines: seq<seq<Byte>>, done: seq<Finished>, ids: set<nat>) {
    var r := ReadLines(c, vault, NOTHING_READ, lines);
    && (!NoneAdjoin(c, lines) ==> r == Err(Damaged))
    && (NoneAdjoin(c, lines) ==>
          && r.Ok?
          && r.value.done == done
          && r.value.open.Keys + r.value.ended <= ids
          && r.value.torn == LastUnreadable(c, lines))
  }

  /** What a reader has of a file that writes and crashes made. */
  ghost predicate Recovered(c: Codec, vault: nat, history: seq<Attempt>) {
    ReadsAs(c, vault, Lines(Build(c, history)), FinishedIn(c, history), WriteIds(history))
  }

  lemma {:induction false} Recovers(c: Codec, vault: nat, history: seq<Attempt>)
    requires Sound(c) && Proper(c, vault, history)
    ensures Recovered(c, vault, history)
  {
    if history == [] {
      NothingToRecover(c, vault);
    } else {
      var before, a := history[..|history| - 1], history[|history| - 1];
      assert ProperWrite(c, vault, a);
      ProperBefore(c, vault, history);
      hide *;
      Recovers(c, vault, before);
      RecoversOneMore(c, vault, before, a);
      assert before + [a] == history;
    }
  }

  lemma NothingToRecover(c: Codec, vault: nat)
    ensures Recovered(c, vault, [])
  {
  }

  lemma ProperBefore(c: Codec, vault: nat, history: seq<Attempt>)
    requires history != [] && Proper(c, vault, history)
    ensures Proper(c, vault, history[..|history| - 1])
    ensures history[|history| - 1].write !in WriteIds(history[..|history| - 1])
  {
  }

  lemma RecoversOneMore(c: Codec, vault: nat, before: seq<Attempt>, a: Attempt)
    requires Sound(c) && ProperWrite(c, vault, a) && Recovered(c, vault, before) && a.write !in WriteIds(before)
    ensures Recovered(c, vault, before + [a])
  {
    var f, history := Build(c, before), before + [a];
    LinesAfter(c, f, a);
    OneMoreAttempt(c, before, a);
    hide *;
    LinesReadOn(c, vault, f, a, Lines(f), FinishedIn(c, before), WriteIds(before));
  }

  lemma OneMoreAttempt(c: Codec, before: seq<Attempt>, a: Attempt)
    ensures var f, history := Build(c, before), before + [a];
            && Build(c, history) == After(c, f, a)
            && FinishedIn(c, history) == FinishedIn(c, before) + (if Finishes(c, f, a) then [Finished(a.lo, a.hi, a.events)] else [])
            && WriteIds(history) == WriteIds(before) + {a.write}
  {
    var history := before + [a];
    assert history[..|before|] == before && history[|before|] == a;
  }

  lemma LinesReadOn(c: Codec, vault: nat, f: seq<Byte>, a: Attempt, s: seq<seq<Byte>>, done: seq<Finished>, ids: set<nat>)
    requires Sound(c) && ProperWrite(c, vault, a) && ReadsAs(c, vault, s, done, ids) && a.write !in ids
    ensures var lines, k := LinesOf(c, a), Min(KeptOf(f, a), |Flat(LinesOf(c, a))|);
            ReadsAs(c, vault, s + (lines[..Whole(lines, k)] + RestLines(lines, k)),
                    done + (if Whole(lines, k) == |lines| then [Finished(a.lo, a.hi, a.events)] else []), ids + {a.write})
  {
    var lines, k := LinesOf(c, a), Min(KeptOf(f, a), |Flat(LinesOf(c, a))|);
    var some := lines[..Whole(lines, k)] + RestLines(lines, k);
    var start := ReadLines(c, vault, NOTHING_READ, s);
    SomeLines(c, vault, f, a);
    hide Sound, ProperWrite, Flat, LinesOf, ReadLines, KeptOf, Whole, RestLines;
    ReadSum(c, vault, NOTHING_READ, s, some);
    NoneAdjoinAcross(c, s, some);
    LastOfJoin(c, s, some);
    hide NoneAdjoin, LastUnreadable;
    if NoneAdjoin(c, s) {
      ReadsOn(c, vault, f, start.value, a);
    }
  }

  /** Of a write's lines in the file, only the last can be unreadable. */
  lemma SomeLines(c: Codec, vault: nat, f: seq<Byte>, a: Attempt)
    requires Sound(c) && ProperWrite(c, vault, a)
    ensures var lines, k := LinesOf(c, a), Min(KeptOf(f, a), |Flat(LinesOf(c, a))|);
            var n, rest := Whole(lines, k), RestLines(lines, k);
            var some := lines[..n] + rest;
            && (forall i :: 0 <= i < |some| - 1 ==> !Unreadable(c, some[i]))
            && (some != [] ==> (Unreadable(c, some[0]) <==> n == 0 && rest != []) && (LastUnreadable(c, some) <==> rest != []))
            && (some == [] <==> n == 0 && rest == [])
  {
    ReadsAttempt(c, vault, f, NOTHING_READ, a);
  }

  // ---------------------------------------------------------------------------------------------
  // Two crashes

  /** The first `k` bytes of these lines end strictly inside line `n`: neither before it nor with all of it. */
  predicate EndsInLine(lines: seq<seq<Byte>>, k: nat, n: nat)
    requires n < |lines|
  {
    |Flat(lines[..n])| < k < |Flat(lines[..n])| + |lines[n]|
  }

  /** A write was cut off strictly inside one of its lines. */
  ghost predicate StopsInLine(c: Codec, f: seq<Byte>, a: Attempt) {
    exists n: nat :: n < |LinesOf(c, a)| && EndsInLine(LinesOf(c, a), KeptOf(f, a), n)
  }

  /** A write was cut off strictly inside its first line. */
  predicate StopsInFirst(c: Codec, f: seq<Byte>, a: Attempt) {
    LinesOf(c, a) != [] && 0 < KeptOf(f, a) < |LinesOf(c, a)[0]|
  }

  /** A write left nothing, but perhaps the break that ends a torn line. */
  predicate KeepsNothing(f: seq<Byte>, a: Attempt) {
    KeptOf(f, a) == 0
  }

  /** The file as the attempt of a history found it. */
  function Found(c: Codec, history: seq<Attempt>, i: nat): seq<Byte>
    requires i <= |history|
  {
    Build(c, history[..i])
  }

  /** The last attempt that left anything was cut off inside a line. */
  ghost predicate EndsTorn(c: Codec, history: seq<Attempt>) {
    exists i: nat :: i < |history| && StopsInLine(c, Found(c, history, i), history[i]) && NothingBetween(c, history, i, |history|)
  }

  ghost predicate NothingBetween(c: Codec, history: seq<Attempt>, i: nat, j: nat)
    requires j <= |history|
  {
    forall k: nat :: i < k < j ==> KeepsNothing(Found(c, history, k), history[k])
  }

  /** One attempt was cut off inside a line, and the next that left anything inside its very first one. */
  ghost predicate TornTwice(c: Codec, history: seq<Attempt>) {
    exists i: nat, j: nat :: i < j < |history| && TornAt(c, history, i, j)
  }

  ghost predicate TornAt(c: Codec, history: seq<Attempt>, i: nat, j: nat)
    requires i < j < |history|
  {
    && StopsInLine(c, Found(c, history, i), history[i])
    && NothingBetween(c, history, i, j)
    && StopsInFirst(c, Found(c, history, j), history[j])
  }


  lemma EndsInRest(lines: seq<seq<Byte>>, k: nat, n: nat)
    requires lines != [] && n < |lines[1..]| && k > |lines[0]|
    ensures EndsInLine(lines, k, n + 1) <==> EndsInLine(lines[1..], k - |lines[0]| - 1, n)
  {
    assert lines[..n + 1] == [lines[0]] + lines[1..][..n];
  }

  /** Something is left of a next line exactly when the bytes end inside a line. */
  lemma {:induction false} RestEndsInLine(lines: seq<seq<Byte>>, k: nat)
    requires AllPlain(lines)
    ensures Rest(lines, k) != [] ==> exists n: nat :: n < |lines| && EndsInLine(lines, k, n)
    ensures forall n: nat :: n < |lines| && EndsInLine(lines, k, n) ==> Rest(lines, k) != []
    decreases |lines|
  {
    if lines != [] {
      var rest, m := lines[1..], Max(k - |lines[0]| - 1, 0);
      assert lines[..0] == [];
      if k < |lines[0]| {
        if k > 0 {
          assert EndsInLine(lines, k, 0);
        }
        forall n: nat | n < |lines| && EndsInLine(lines, k, n)
          ensures n == 0
        {
          LaterLinesStartLater(lines, n);
        }
      } else {
        RestEndsInLine(rest, m);
        if k == |lines[0]| {
          NothingKept(rest);
        } else {
          if Rest(rest, m) != [] {
            var n: nat :| n < |rest| && EndsInLine(rest, m, n);
            EndsInRest(lines, k, n);
          }
        }
        forall n: nat | n < |lines| && EndsInLine(lines, k, n)
          ensures Rest(lines, k) != []
        {
          LaterLinesStartLater(lines, n);
          if k > |lines[0]| {
            EndsInRest(lines, k, n - 1);
          }
        }
      }
    }
  }

  lemma LaterLinesStartLater(lines: seq<seq<Byte>>, n: nat)
    requires lines != [] && n < |lines|
    ensures n > 0 ==> |Flat(lines[..n])| >= |lines[0]| + 1
  {
    if n > 0 {
      assert lines[..n] == [lines[0]] + lines[1..n];
    }
  }

  /** What one attempt does to the lines, in terms of the bytes it kept. */
  lemma AttemptLeaves(c: Codec, vault: nat, f: seq<Byte>, a: Attempt)
    requires Sound(c) && ProperWrite(c, vault, a)
    ensures NoneAdjoin(c, Lines(After(c, f, a))) <==>
              NoneAdjoin(c, Lines(f)) && !(LastUnreadable(c, Lines(f)) && StopsInFirst(c, f, a))
    ensures LastUnreadable(c, Lines(After(c, f, a))) <==>
              StopsInLine(c, f, a) || (LastUnreadable(c, Lines(f)) && KeepsNothing(f, a))
  {
    LinesArePlain(c, a);
    var lines, flat := LinesOf(c, a), Flat(LinesOf(c, a));
    var k := Min(KeptOf(f, a), |flat|);
    LinesAfter(c, f, a);
    SomeLines(c, vault, f, a);
    WholeOfCut(lines, KeptOf(f, a));
    RestEndsInLine(lines, KeptOf(f, a));
    hide Lines, Sound, After, ProperWrite, Flat, Whole, Rest, LinesOf;
    var some := lines[..Whole(lines, k)] + RestLines(lines, k);
    NoneAdjoinAcross(c, Lines(f), some);
    LastOfJoin(c, Lines(f), some);
  }

  /** More bytes than there are keep all lines, as all bytes do; the first line decides the rest. */
  lemma {:induction false} WholeOfCut(lines: seq<seq<Byte>>, k: nat)
    requires AllPlain(lines)
    ensures var m := Min(k, |Flat(lines)|); Whole(lines, m) == Whole(lines, k) && Rest(lines, m) == Rest(lines, k)
    ensures lines != [] ==> (Whole(lines, k) == 0 && Rest(lines, k) != [] <==> 0 < k < |lines[0]|)
    ensures lines != [] ==> (Whole(lines, k) == 0 && Rest(lines, k) == [] <==> k == 0)
    decreases |lines|
  {
    if lines != [] {
      var rest, m := lines[1..], Min(k, |Flat(lines)|);
      assert |Flat(lines)| == |lines[0]| + 1 + |Flat(rest)|;
      if k > |lines[0]| {
        WholeOfCut(rest, k - |lines[0]| - 1);
        assert m - |lines[0]| - 1 == Min(k - |lines[0]| - 1, |Flat(rest)|);
      }
    }
  }

  lemma SameBefore(c: Codec, before: seq<Attempt>, a: Attempt)
    ensures forall i: nat :: i <= |before| ==> Found(c, before + [a], i) == Found(c, before, i)
    ensures Found(c, before + [a], |before|) == Build(c, before)
    ensures forall i: nat, j: nat :: j <= |before| ==> (NothingBetween(c, before + [a], i, j) <==> NothingBetween(c, before, i, j))
  {
    var history := before + [a];
    forall i: nat | i <= |before|
      ensures Found(c, history, i) == Found(c, before, i)
    {
      assert history[..i] == before[..i];
    }
    assert before[..|before|] == before;
  }

  lemma TornOneMore(c: Codec, before: seq<Attempt>, a: Attempt)
    ensures TornTwice(c, before + [a]) <==> TornTwice(c, before) || (EndsTorn(c, before) && StopsInFirst(c, Build(c, before), a))
  {
    var history, n := before + [a], |before|;
    SameBefore(c, before, a);
    hide StopsInLine, StopsInFirst, NothingBetween, Found;
    if TornTwice(c, history) {
      var i: nat, j: nat :| i < j < |history| && TornAt(c, history, i, j);
      if j < n {
        assert TornAt(c, before, i, j);
      }
    }
    if TornTwice(c, before) {
      var i: nat, j: nat :| i < j < |before| && TornAt(c, before, i, j);
      assert TornAt(c, history, i, j);
    }
    if EndsTorn(c, before) && StopsInFirst(c, Build(c, before), a) {
      var i: nat :| i < n && StopsInLine(c, Found(c, before, i), before[i]) && NothingBetween(c, before, i, n);
      assert TornAt(c, history, i, n);
    }
  }

  lemma EndOneMore(c: Codec, before: seq<Attempt>, a: Attempt)
    ensures EndsTorn(c, before + [a]) <==>
              StopsInLine(c, Build(c, before), a) || (EndsTorn(c, before) && KeepsNothing(Build(c, before), a))
  {
    var history, n := before + [a], |before|;
    SameBefore(c, before, a);
    hide StopsInLine, Found, KeepsNothing;
    if EndsTorn(c, history) {
      var i: nat :| i < n + 1 && StopsInLine(c, Found(c, history, i), history[i]) && NothingBetween(c, history, i, n + 1);
      if i < n {
        assert NothingBetween(c, history, i, n) && KeepsNothing(Found(c, history, n), history[n]);
      }
    }
    if StopsInLine(c, Build(c, before), a) {
      assert NothingBetween(c, history, n, n + 1);
    } else if EndsTorn(c, before) && KeepsNothing(Build(c, before), a) {
      var i: nat :| i < n && StopsInLine(c, Found(c, before, i), before[i]) && NothingBetween(c, before, i, n);
      assert NothingBetween(c, history, i, n);
      assert NothingBetween(c, history, i, n + 1);
    }
  }

  /** Unreadable lines adjoin in a file exactly when two crashes of its history tore them so. */
  lemma {:induction false} AdjoinIsTornTwice(c: Codec, vault: nat, history: seq<Attempt>)
    requires Sound(c) && Proper(c, vault, history)
    ensures NoneAdjoin(c, Lines(Build(c, history))) <==> !TornTwice(c, history)
    ensures LastUnreadable(c, Lines(Build(c, history))) <==> EndsTorn(c, history)
  {
    if history != [] {
      var before, a := history[..|history| - 1], history[|history| - 1];
      assert ProperWrite(c, vault, a);
      ProperBefore(c, vault, history);
      OneMoreAttempt(c, before, a);
      assert before + [a] == history;
      hide *;
      AdjoinIsTornTwice(c, vault, before);
      AttemptLeaves(c, vault, Build(c, before), a);
      TornOneMore(c, before, a);
      EndOneMore(c, before, a);
    }
  }

  /** Recovery: of a file built from writes and from writes cut short at any byte, a reader takes exactly the
      finished writes, in order, unless a write was cut off inside a line and the next one that left anything
      inside its first line; of such a file it takes nothing. */
  lemma FileRecovers(c: Codec, vault: nat, history: seq<Attempt>)
    requires Sound(c) && Proper(c, vault, history)
    ensures ReadFile(c, vault, Build(c, history)) == if TornTwice(c, history) then Err(Damaged) else Ok(FinishedIn(c, history))
  {
    Recovers(c, vault, history);
    AdjoinIsTornTwice(c, vault, history);
  }

  lemma FirstByte(c: Codec, a: Attempt)
    requires AllPlain(LinesOf(c, a)) && LinesOf(c, a) != [] && a.kept == 1
    ensures |After(c, [], a)| == 1 && !EndsWhole(After(c, [], a))
  {
    var line, out := LinesOf(c, a)[0], Terminator([]) + Flat(LinesOf(c, a));
    assert Flat(LinesOf(c, a)) == line + [NEWLINE] + Flat(LinesOf(c, a)[1..]);
    assert out[0] == line[0];
  }

  /** Two crashes that damage a file: one write cut off after its first byte, and the next after its first byte
      beyond the break that ends that line. */
  lemma TwoCrashesDamage(c: Codec, vault: nat, a: Attempt, b: Attempt)
    requires Sound(c) && ProperWrite(c, vault, a) && ProperWrite(c, vault, b) && a.write != b.write
    requires |LinesOf(c, a)[0]| > 1 && |LinesOf(c, b)[0]| > 1 && a.kept == 1 && b.kept == 2
    ensures ReadFile(c, vault, Build(c, [a, b])) == Err(Damaged)
  {
    var history := [a, b];
    assert history[..0] == [] && history[..1] == [a] && [a][..0] == [];
    LinesArePlain(c, a);
    FirstByte(c, a);
    assert Found(c, history, 0) == [] && Found(c, history, 1) == After(c, [], a);
    assert KeptOf([], a) == 1 && LinesOf(c, a)[..0] == [];
    assert EndsInLine(LinesOf(c, a), KeptOf([], a), 0);
    assert StopsInLine(c, Found(c, history, 0), a);
    assert TornAt(c, history, 0, 1);
    FileRecovers(c, vault, history);
  }
}
