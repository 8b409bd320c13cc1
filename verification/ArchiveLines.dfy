/** Which files a reader of the archive accepts, whatever they hold, and what it makes of them: judged from the lines
    alone, every write it returns is whole, and every line belongs to a sound write or was cut off. */
module ArchiveLines {
  import opened Common
  import opened Archive

  type Lines = seq<seq<Byte>>

  function Init(lines: Lines): Lines
    requires lines != []
  {
    lines[..|lines| - 1]
  }

  function Record(c: Codec, lines: Lines): Option<Line>
    requires lines != []
  {
    c.decode(lines[|lines| - 1])
  }

  /** Whether the last line is an event line of this write. */
  predicate EndsInEventOf(c: Codec, lines: Lines, write: nat)
    requires lines != []
  {
    Record(c, lines).Some? && Record(c, lines).value.write == write && Record(c, lines).value.event.Some?
  }

  /** The events that the lines hold of a write. */
  function EventsOf(c: Codec, lines: Lines, write: nat): seq<Event> {
    if lines == [] then []
    else EventsOf(c, Init(lines), write) + if EndsInEventOf(c, lines, write) then [Record(c, lines).value.event.value] else []
  }

  /** Those lines themselves, as they are in the file. */
  function LinesOf(c: Codec, lines: Lines, write: nat): Lines {
    if lines == [] then []
    else LinesOf(c, Init(lines), write) + if EndsInEventOf(c, lines, write) then [lines[|lines| - 1]] else []
  }

  /** The writes with event lines since the last line that was cut off, and no closing record. */
  function Open(c: Codec, lines: Lines): set<nat> {
    if lines == [] || Record(c, lines) == None then {}
    else if Record(c, lines).value.event.Some? then Open(c, Init(lines)) + {Record(c, lines).value.write}
    else Open(c, Init(lines)) - {Record(c, lines).value.write}
  }

  /** The writes that are closed, or that a cut-off line found open. */
  function Over(c: Codec, lines: Lines): set<nat> {
    if lines == [] then {}
    else if Record(c, lines) == None then Over(c, Init(lines)) + Open(c, Init(lines))
    else if Record(c, lines).value.event == None then Over(c, Init(lines)) + {Record(c, lines).value.write}
    else Over(c, Init(lines))
  }

  /** A closing record: a range of ledgers, and the number and the digest of the write's event lines. */
  predicate Closes(c: Codec, before: Lines, l: Line) {
    && l.event == None
    && l.covered.Some? && l.covered.value.0 <= l.covered.value.1
    && l.count == Some(|LinesOf(c, before, l.write)|)
    && l.sum == Some(c.digest(Flat(LinesOf(c, before, l.write))))
  }

  /** Which line may follow these: one that was cut off, unless the last was; an event of this vault, or the closing
      record of a write, whose write is not over. */
  predicate MayFollow(c: Codec, vault: nat, before: Lines, line: seq<Byte>) {
    && |line| < MAX_READ
    && match c.decode(line)
       case None => before == [] || Record(c, before).Some?
       case Some(l) =>
         && l.write !in Over(c, before)
         && if l.event.Some? then
              l.event.value.contract == vault && l.covered == None && l.count == None && l.sum == None
            else Closes(c, before, l)
  }

  ghost predicate AllFollow(c: Codec, vault: nat, lines: Lines) {
    forall i :: 0 <= i < |lines| ==> MayFollow(c, vault, lines[..i], lines[i])
  }

  /** The closed writes, in the order of their closing records. */
  function Closed(c: Codec, lines: Lines): seq<Finished> {
    if lines == [] then []
    else if Record(c, lines).Some? && Record(c, lines).value.event == None && Record(c, lines).value.covered.Some? then
      var l := Record(c, lines).value;
      Closed(c, Init(lines)) + [Finished(l.covered.value.0, l.covered.value.1, EventsOf(c, Init(lines), l.write))]
    else Closed(c, Init(lines))
  }

  lemma {:induction false} FlatSnoc(lines: Lines, line: seq<Byte>)
    ensures Flat(lines + [line]) == Flat(lines) + line + [NEWLINE]
  {
    if lines == [] {
      assert Flat([]) == [];
      assert ([] + [line])[1..] == [];
    } else {
      FlatSnoc(lines[1..], line);
      assert (lines + [line])[1..] == lines[1..] + [line];
    }
  }

  /** What a reader knows after lines it accepted. */
  ghost predicate Knows(c: Codec, lines: Lines, r: Reading) {
    && r.open.Keys == Open(c, lines)
    && r.ended == Over(c, lines)
    && r.done == Closed(c, lines)
    && r.torn == (lines != [] && Record(c, lines) == None)
    && (forall w :: w in r.open ==>
          r.open[w] == OpenWrite(EventsOf(c, lines, w), Flat(LinesOf(c, lines, w)), |LinesOf(c, lines, w)|))
    && (forall w :: w !in r.open && w !in r.ended ==> EventsOf(c, lines, w) == [] && LinesOf(c, lines, w) == [])
  }

  lemma OneMore(c: Codec, before: Lines, line: seq<Byte>)
    ensures Init(before + [line]) == before && Record(c, before + [line]) == c.decode(line)
  {
  }

  lemma LineIsAccepted(c: Codec, vault: nat, before: Lines, line: seq<Byte>, r: Reading)
    requires Knows(c, before, r)
    ensures ReadLine(c, vault, r, line).Ok? <==> MayFollow(c, vault, before, line)
  {
    assert Flat([]) == [];
  }

  lemma TornIsKnown(c: Codec, vault: nat, before: Lines, line: seq<Byte>, r: Reading)
    requires Knows(c, before, r) && ReadLine(c, vault, r, line).Ok? && c.decode(line) == None
    ensures Knows(c, before + [line], ReadLine(c, vault, r, line).value)
  {
    OneMore(c, before, line);
  }

  /** A line adds to its own write only, and a closing record to none. */
  lemma OthersStay(c: Codec, before: Lines, line: seq<Byte>)
    requires c.decode(line).Some?
    ensures var after, l := before + [line], c.decode(line).value;
            && (forall w :: w != l.write || l.event == None ==>
                  EventsOf(c, after, w) == EventsOf(c, before, w) && LinesOf(c, after, w) == LinesOf(c, before, w))
            && (l.event.Some? ==>
                  && EventsOf(c, after, l.write) == EventsOf(c, before, l.write) + [l.event.value]
                  && LinesOf(c, after, l.write) == LinesOf(c, before, l.write) + [line])
  {
    OneMore(c, before, line);
  }

  lemma EventIsKnown(c: Codec, vault: nat, before: Lines, line: seq<Byte>, r: Reading)
    requires Knows(c, before, r) && ReadLine(c, vault, r, line).Ok? && c.decode(line).Some? && c.decode(line).value.event.Some?
    ensures Knows(c, before + [line], ReadLine(c, vault, r, line).value)
  {
    var l := c.decode(line).value;
    OneMore(c, before, line);
    OthersStay(c, before, line);
    FlatSnoc(LinesOf(c, before, l.write), line);
    assert Flat([]) == [];
    hide EventsOf, LinesOf, Flat;
  }

  lemma ClosingIsKnown(c: Codec, vault: nat, before: Lines, line: seq<Byte>, r: Reading)
    requires Knows(c, before, r) && ReadLine(c, vault, r, line).Ok? && c.decode(line).Some? && c.decode(line).value.event == None
    ensures Knows(c, before + [line], ReadLine(c, vault, r, line).value)
  {
    OneMore(c, before, line);
    OthersStay(c, before, line);
    hide EventsOf, LinesOf, Flat;
  }

  lemma LineIsRead(c: Codec, vault: nat, before: Lines, line: seq<Byte>, r: Reading)
    requires Knows(c, before, r)
    ensures ReadLine(c, vault, r, line).Ok? <==> MayFollow(c, vault, before, line)
    ensures ReadLine(c, vault, r, line).Ok? ==> Knows(c, before + [line], ReadLine(c, vault, r, line).value)
  {
    LineIsAccepted(c, vault, before, line, r);
    hide ReadLine, Knows, MayFollow;
    if ReadLine(c, vault, r, line).Ok? {
      if c.decode(line) == None {
        TornIsKnown(c, vault, before, line, r);
      } else if c.decode(line).value.event.Some? {
        EventIsKnown(c, vault, before, line, r);
      } else {
        ClosingIsKnown(c, vault, before, line, r);
      }
    }
  }

  lemma {:induction false} LinesAreRead(c: Codec, vault: nat, lines: Lines)
    ensures ReadLines(c, vault, NOTHING_READ, lines).Ok? <==> AllFollow(c, vault, lines)
    ensures ReadLines(c, vault, NOTHING_READ, lines).Ok? ==> Knows(c, lines, ReadLines(c, vault, NOTHING_READ, lines).value)
  {
    if lines != [] {
      var before, line := Init(lines), lines[|lines| - 1];
      LinesAreRead(c, vault, before);
      assert before + [line] == lines;
      forall i | 0 <= i < |before|
        ensures before[..i] == lines[..i] && before[i] == lines[i]
      {
      }
      hide ReadLine, MayFollow, Knows;
      if ReadLines(c, vault, NOTHING_READ, before).Ok? {
        LineIsRead(c, vault, before, line, ReadLines(c, vault, NOTHING_READ, before).value);
      }
      assert AllFollow(c, vault, lines) <==> AllFollow(c, vault, before) && MayFollow(c, vault, before, line) by {
        assert lines[..|lines| - 1] == before;
      }
    }
  }

  /** A file is accepted exactly when every line may follow those before it, and then holds the closed writes, each with
      all its events. */
  lemma FileIsRead(c: Codec, vault: nat, data: seq<Byte>)
    ensures ReadFile(c, vault, data).Ok? <==> AllFollow(c, vault, Archive.Lines(data))
    ensures ReadFile(c, vault, data).Ok? ==> ReadFile(c, vault, data).value == Closed(c, Archive.Lines(data))
  {
    LinesAreRead(c, vault, Archive.Lines(data));
  }

  /** Nothing is returned of a write but all of it: its closing record is in the file, and counts and sums exactly the
      lines that its events come from. */
  lemma {:induction false} ClosedAreWhole(c: Codec, vault: nat, lines: Lines, k: nat) returns (i: nat)
    requires AllFollow(c, vault, lines) && k < |Closed(c, lines)|
    ensures i < |lines| && c.decode(lines[i]).Some?
    ensures var l := c.decode(lines[i]).value;
            && Closes(c, lines[..i], l)
            && Closed(c, lines)[k] == Finished(l.covered.value.0, l.covered.value.1, EventsOf(c, lines[..i], l.write))
            && |LinesOf(c, lines[..i], l.write)| == |EventsOf(c, lines[..i], l.write)|
  {
    var before := Init(lines);
    assert forall j :: 0 <= j < |before| ==> before[..j] == lines[..j] && before[j] == lines[j];
    if k < |Closed(c, before)| {
      i := ClosedAreWhole(c, vault, before, k);
    } else {
      i := |lines| - 1;
      assert lines[..i] == before;
      assert MayFollow(c, vault, lines[..i], lines[i]);
      EventPerLine(c, before, c.decode(lines[i]).value.write);
    }
  }

  lemma {:induction false} EventPerLine(c: Codec, lines: Lines, write: nat)
    ensures |LinesOf(c, lines, write)| == |EventsOf(c, lines, write)|
  {
    if lines != [] {
      EventPerLine(c, Init(lines), write);
    }
  }
}
