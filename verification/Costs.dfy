/** The relayer's estimate of what a transaction costs, and the quote made from it. */
module Costs {
  import opened Common

  const SAMPLES: nat := 50
  const SAMPLE_MULTIPLE: int := 2
  const INT64: int := 0x1_0000_0000_0000_0000
  const INT64_MAX: int := 0x7FFF_FFFF_FFFF_FFFF
  const MAX_MARGIN_BPS: int := 1000

  /** The signed 64-bit value a product wraps to. */
  function Wrap(x: int): (w: int)
    ensures -INT64_MAX - 1 <= w <= INT64_MAX
    ensures -INT64_MAX - 1 <= x <= INT64_MAX ==> w == x
  {
    var r := x % INT64;
    if r > INT64_MAX then r - INT64 else r
  }

  // ---------------------------------------------------------------------------------------------
  // Order statistics

  predicate Ordered(s: seq<int>) {
    forall i, j :: 0 <= i < j < |s| ==> s[i] <= s[j]
  }

  function Insert(s: seq<int>, x: int): seq<int> {
    if s == [] || x <= s[0] then [x] + s else [s[0]] + Insert(s[1..], x)
  }

  function Sorted(s: seq<int>): seq<int> {
    if s == [] then [] else Insert(Sorted(s[1..]), s[0])
  }

  lemma {:induction false} InsertKeeps(s: seq<int>, x: int)
    requires Ordered(s)
    ensures Ordered(Insert(s, x)) && |Insert(s, x)| == |s| + 1
    ensures Insert(s, x)[0] == if s == [] || x <= s[0] then x else s[0]
  {
    if s != [] && x > s[0] {
      InsertKeeps(s[1..], x);
      PutFirst(s[0], Insert(s[1..], x));
    } else {
      PutFirst(x, s);
    }
  }

  lemma PutFirst(x: int, s: seq<int>)
    requires Ordered(s) && (s == [] || x <= s[0])
    ensures Ordered([x] + s)
  {
  }

  lemma {:induction false} InsertAdds(s: seq<int>, x: int)
    ensures multiset(Insert(s, x)) == multiset(s) + multiset{x}
  {
    if s != [] && x > s[0] {
      InsertAdds(s[1..], x);
      assert s == [s[0]] + s[1..];
    }
  }

  /** Sorting gives the ordered list of the same elements. */
  lemma {:induction false} SortedIs(s: seq<int>)
    ensures Ordered(Sorted(s)) && |Sorted(s)| == |s| && multiset(Sorted(s)) == multiset(s)
  {
    if s != [] {
      SortedIs(s[1..]);
      InsertKeeps(Sorted(s[1..]), s[0]);
      InsertAdds(Sorted(s[1..]), s[0]);
      assert s == [s[0]] + s[1..];
    }
  }

  /** How many elements lie above a bound. */
  function CountAbove(s: seq<int>, x: int): nat {
    if s == [] then 0 else CountAbove(s[1..], x) + if s[0] > x then 1 else 0
  }

  lemma {:induction false} CountInsert(s: seq<int>, x: int, b: int)
    ensures CountAbove(Insert(s, x), b) == CountAbove(s, b) + if x > b then 1 else 0
  {
    var r := Insert(s, x);
    if s == [] || x <= s[0] {
      assert r[1..] == s;
    } else {
      CountInsert(s[1..], x, b);
      assert r[1..] == Insert(s[1..], x);
    }
  }

  lemma {:induction false} CountSorted(s: seq<int>, b: int)
    ensures CountAbove(Sorted(s), b) == CountAbove(s, b)
  {
    if s != [] {
      CountSorted(s[1..], b);
      CountInsert(Sorted(s[1..]), s[0], b);
    }
  }

  /** An element of an ordered list lies above a bound exactly when enough elements do. */
  lemma {:induction false} RankOrdered(s: seq<int>, k: nat, b: int)
    requires Ordered(s) && k < |s|
    ensures s[k] > b <==> CountAbove(s, b) >= |s| - k
  {
    CountAtMost(s[1..], b);
    if k == 0 {
      if s[0] > b {
        AllAbove(s, b);
      }
    } else {
      RankOrdered(s[1..], k - 1, b);
      if s[0] > b {
        AllAbove(s, b);
      }
    }
  }

  lemma {:induction false} AllAbove(s: seq<int>, b: int)
    requires forall i :: 0 <= i < |s| ==> s[i] > b
    ensures CountAbove(s, b) == |s|
  {
    if s != [] {
      AllAbove(s[1..], b);
    }
  }

  lemma {:induction false} CountAtMost(s: seq<int>, b: int)
    ensures CountAbove(s, b) <= |s|
  {
    if s != [] {
      CountAtMost(s[1..], b);
    }
  }

  /** The element of a rank lies above a bound exactly when enough elements do. */
  lemma Rank(s: seq<int>, k: nat, b: int)
    requires k < |s|
    ensures |Sorted(s)| == |s|
    ensures Sorted(s)[k] > b <==> CountAbove(s, b) >= |s| - k
  {
    SortedIs(s);
    CountSorted(s, b);
    RankOrdered(Sorted(s), k, b);
  }

  /** When all but the last few elements are within a bound, only those few can be above it. */
  lemma {:induction false} CountTail(s: seq<int>, few: nat, b: int)
    requires few <= |s| && forall i :: 0 <= i < |s| - few ==> s[i] <= b
    ensures CountAbove(s, b) <= few
  {
    if few < |s| {
      CountTail(s[1..], few, b);
    } else {
      CountAtMost(s, b);
    }
  }

  function CountBelow(s: seq<int>, x: int): nat {
    if s == [] then 0 else CountBelow(s[1..], x) + if s[0] < x then 1 else 0
  }

  lemma {:induction false} BelowOrAbove(s: seq<int>, x: int)
    ensures CountBelow(s, x) + CountAbove(s, x - 1) == |s|
  {
    if s != [] {
      BelowOrAbove(s[1..], x);
    }
  }

  /** An element with at most `k` others below it, and no more above it than that leaves. */
  predicate HasRank(s: seq<int>, k: nat, x: int) {
    x in s && CountBelow(s, x) <= k < |s| - CountAbove(s, x)
  }

  /** Only one number has a rank. */
  lemma RankIsUnique(s: seq<int>, k: nat, x: int, y: int)
    requires HasRank(s, k, x) && HasRank(s, k, y)
    ensures x == y
  {
    if x < y {
      AboveOrBelow(s, x, y);
    }
    if y < x {
      AboveOrBelow(s, y, x);
    }
  }

  lemma {:induction false} AboveOrBelow(s: seq<int>, x: int, y: int)
    requires x < y
    ensures CountAbove(s, x) + CountBelow(s, y) >= |s|
  {
    if s != [] {
      AboveOrBelow(s[1..], x, y);
    }
  }

  // ---------------------------------------------------------------------------------------------
  // The estimate

  function At(s: seq<int>, k: nat): int
    requires k < |s|
  {
    SortedIs(s);
    Sorted(s)[k]
  }

  function Median(s: seq<int>): int
    requires s != []
  {
    At(s, |s| / 2)
  }

  /** It has the rank, by counting. */
  lemma AtHasRank(s: seq<int>, k: nat)
    requires k < |s|
    ensures HasRank(s, k, At(s, k))
  {
    var x := At(s, k);
    Rank(s, k, x);
    Rank(s, k, x - 1);
    BelowOrAbove(s, x);
    SortedIs(s);
    assert x in multiset(Sorted(s));
  }

  /** The median of a full window: a sample with at most 24 above it and at most 25 below. */
  predicate IsMedian(window: seq<int>, x: int) {
    |window| == 50 && x in window && CountAbove(window, x) <= 24 && CountBelow(window, x) <= 25
  }

  /** The estimate of a full window: a sample with at most 5 above it and at most 44 below. */
  predicate IsEstimate(window: seq<int>, x: int) {
    |window| == 50 && x in window && CountAbove(window, x) <= 5 && CountBelow(window, x) <= 44
  }

  /** A full window has one median and one estimate, and they are these. */
  lemma WindowRanks(bootstrap: int, window: seq<int>, x: int)
    requires |window| == SAMPLES
    ensures IsMedian(window, x) <==> x == Median(window)
    ensures IsEstimate(window, x) <==> x == Fee(bootstrap, window)
  {
    AtHasRank(window, 25);
    AtHasRank(window, 44);
    if IsMedian(window, x) {
      RankIsUnique(window, 25, x, Median(window));
    }
    if IsEstimate(window, x) {
      RankIsUnique(window, 44, x, Fee(bootstrap, window));
    }
  }

  /** There are never more than 50 samples: before they are 50, a confirmed fee is added, held against the
      bootstrap value; then the oldest makes room for it, held against the median. */
  lemma SampleIsTaken(bootstrap: int, samples: seq<int>, fee: int, reference: int)
    requires |samples| <= 50 && 0 < fee <= INT64_MAX && -INT64_MAX - 1 <= 2 * reference <= INT64_MAX
    requires if |samples| < 50 then reference == bootstrap else IsMedian(samples, reference)
    ensures var sample := if fee <= 2 * reference then fee else 2 * reference;
            Added(bootstrap, samples, fee) == (if |samples| < 50 then samples else samples[1..]) + [sample]
  {
    if |samples| == 50 {
      WindowRanks(bootstrap, samples, reference);
    }
  }

  lemma {:induction false} AtMostAWindow(bootstrap: int, samples: seq<int>, fees: seq<int>)
    requires |samples| <= SAMPLES
    ensures |AddedAll(bootstrap, samples, fees)| <= SAMPLES
  {
    if fees != [] {
      AtMostAWindow(bootstrap, samples, fees[..|fees| - 1]);
    }
  }

  /** What a sample is held against. */
  function Reference(bootstrap: int, samples: seq<int>): int {
    if |samples| >= SAMPLES then Median(samples) else bootstrap
  }

  /** The samples after one more transaction; one that reports no fee is not taken. */
  function Added(bootstrap: int, samples: seq<int>, fee: int): seq<int> {
    if fee <= 0 then samples
    else
      var grown := samples + [Min(fee, Wrap(SAMPLE_MULTIPLE * Reference(bootstrap, samples)))];
      if |grown| > SAMPLES then grown[|grown| - SAMPLES..] else grown
  }

  /** The estimate: the bootstrap value, or the 45th of 50 samples. */
  function Fee(bootstrap: int, samples: seq<int>): int {
    if |samples| < SAMPLES then bootstrap
    else At(samples, (|samples| * 9 + 9) / 10 - 1)
  }

  function AddedAll(bootstrap: int, samples: seq<int>, fees: seq<int>): seq<int> {
    if fees == [] then samples
    else Added(bootstrap, AddedAll(bootstrap, samples, fees[..|fees| - 1]), fees[|fees| - 1])
  }

  /** How many fees are recorded. */
  function Recorded(fees: seq<int>): nat {
    if fees == [] then 0 else Recorded(fees[..|fees| - 1]) + if fees[|fees| - 1] > 0 then 1 else 0
  }

  /** The samples a relayer starts from: a full window is held against its own median. */
  function Started(bootstrap: int, stored: seq<int>): seq<int> {
    if |stored| < SAMPLES then AddedAll(bootstrap, [], stored)
    else
      var window := stored[|stored| - SAMPLES..];
      Held(window, Median(window))
  }

  /** The positive samples, each within the multiple of a median. */
  function Held(s: seq<int>, median: int): seq<int> {
    if s == [] then []
    else Held(s[..|s| - 1], median)
         + if s[|s| - 1] > 0 then [Min(s[|s| - 1], Wrap(SAMPLE_MULTIPLE * median))] else []
  }

  class Estimate {
    const bootstrap: int
    var samples: seq<int>

    /** Starts from the stored samples, newest last. */
    constructor (bootstrap: int, stored: seq<int>)
      ensures this.bootstrap == bootstrap && samples == Started(bootstrap, stored)
    {
      this.bootstrap := bootstrap;
      samples := [];
      new;
      if |stored| < SAMPLES {
        for i := 0 to |stored|
          invariant samples == AddedAll(bootstrap, [], stored[..i])
        {
          assert stored[..i + 1][..i] == stored[..i];
          Add(stored[i]);
        }
        assert stored[..|stored|] == stored;
      } else {
        var window := stored[|stored| - SAMPLES..];
        var median := Median(window);
        for i := 0 to |window|
          invariant samples == Held(window[..i], median)
        {
          assert window[..i + 1][..i] == window[..i];
          if window[i] > 0 {
            samples := samples + [Min(window[i], Wrap(SAMPLE_MULTIPLE * median))];
          }
        }
        assert window[..|window|] == window;
      }
    }

    /** Records the resource fee of a confirmed transaction, within the multiple of the median. */
    method Add(resourceFee: int)
      modifies this`samples
      ensures samples == Added(bootstrap, old(samples), resourceFee)
    {
      if resourceFee <= 0 {
        return;
      }
      var reference := bootstrap;
      if |samples| >= SAMPLES {
        SortedIs(samples);
        reference := Sorted(samples)[|samples| / 2];
      }
      samples := samples + [Min(resourceFee, Wrap(SAMPLE_MULTIPLE * reference))];
      if |samples| > SAMPLES {
        samples := samples[|samples| - SAMPLES..];
      }
    }

    /** The estimate: the bootstrap value until 50 samples are known, then the sample that at most 5 exceed and
        at most 44 fall below. */
    method ResourceFee() returns (fee: int)
      ensures fee == Fee(bootstrap, samples)
      ensures |samples| < 50 ==> fee == bootstrap
      ensures |samples| == 50 ==> IsEstimate(samples, fee)
    {
      if |samples| == SAMPLES {
        WindowRanks(bootstrap, samples, Fee(bootstrap, samples));
      }
      if |samples| < SAMPLES {
        return bootstrap;
      }
      SortedIs(samples);
      return Sorted(samples)[(|samples| * 9 + 9) / 10 - 1];
    }
  }

  // ---------------------------------------------------------------------------------------------
  // Bounded influence

  /** What the sample recorded after `i` others can be: the samples before the first recorded one, with
      `i` negative, are at most `m`. */
  function Cap(m: nat, i: int): int {
    if i < 0 then m else 2 * m * Pow2(i / 25)
  }

  /** The samples after `n` recorded ones. A negative sample, left by a product that wrapped, means the
      bound has outgrown the word. */
  ghost predicate Capped(samples: seq<int>, n: nat, m: nat) {
    && |samples| == SAMPLES
    && (forall p :: 0 <= p < SAMPLES ==> samples[p] <= Cap(m, n - SAMPLES + p))
    && (forall p :: 0 <= p < SAMPLES && samples[p] < 0 ==> m * Pow2(n / 25) >= INT64 / 4)
  }

  lemma {:induction false} Pow2Grows(a: nat, b: nat)
    requires a <= b
    ensures 0 < Pow2(a) <= Pow2(b)
  {
    if a < b {
      Pow2Grows(a, b - 1);
    }
  }

  lemma BoundGrows(m: nat, a: nat, b: nat)
    requires a <= b
    ensures m * Pow2(a) <= m * Pow2(b) && m <= m * Pow2(a)
  {
    Pow2Grows(a, b);
    Pow2Grows(0, a);
    MulLe(Pow2(a), Pow2(b), m);
    MulLe(1, Pow2(a), m);
  }

  /** Samples recorded before the bound last doubled are within the bound. */
  lemma OldSamplesAreLow(m: nat, n: nat, i: int)
    requires i < n - n % 25
    ensures Cap(m, i) <= m * Pow2(n / 25)
  {
    BoundGrows(m, 0, n / 25);
    if i >= 0 {
      var k := i / 25;
      assert k + 1 <= n / 25;
      BoundGrows(m, k + 1, n / 25);
      assert Pow2(k + 1) == 2 * Pow2(k);
      Doubled(m, Pow2(k));
    }
  }

  lemma Doubled(m: int, p: int)
    ensures 2 * m * p == m * (2 * p)
  {
  }

  lemma CapGrows(m: nat, i: int, n: nat)
    requires i < n
    ensures Cap(m, i) <= 2 * m * Pow2(n / 25)
  {
    BoundGrows(2 * m, 0, n / 25);
    if i >= 0 {
      BoundGrows(2 * m, i / 25, n / 25);
    }
  }

  /** The median is within the bound: too few samples are new enough to be above it. */
  lemma MedianIsBounded(samples: seq<int>, n: nat, m: nat)
    requires Capped(samples, n, m)
    ensures Median(samples) <= m * Pow2(n / 25)
  {
    var b := m * Pow2(n / 25);
    forall p | 0 <= p < SAMPLES - n % 25
      ensures samples[p] <= b
    {
      OldSamplesAreLow(m, n, n - SAMPLES + p);
    }
    CountTail(samples, n % 25, b);
    Rank(samples, SAMPLES / 2, b);
  }

  lemma FeeIsBounded(bootstrap: int, samples: seq<int>, n: nat, m: nat)
    requires Capped(samples, n, m)
    ensures Fee(bootstrap, samples) <= m * Pow2(1 + n / 25)
  {
    var b := m * Pow2(1 + n / 25);
    Doubled(m, Pow2(n / 25));
    forall p | 0 <= p < SAMPLES
      ensures samples[p] <= b
    {
      CapGrows(m, n - SAMPLES + p, n);
    }
    CountTail(samples, 0, b);
    Rank(samples, 44, b);
  }

  /** A negative median is a negative sample. */
  lemma MedianIsASample(samples: seq<int>)
    requires samples != []
    ensures exists p :: 0 <= p < |samples| && samples[p] == Median(samples)
  {
    SortedIs(samples);
    var s := Sorted(samples);
    assert s[|s| / 2] in multiset(s);
    assert Median(samples) in multiset(samples);
  }

  lemma NewSampleIsCapped(samples: seq<int>, n: nat, m: nat, fee: int)
    requires Capped(samples, n, m) && 0 < fee <= INT64_MAX
    ensures var x := Min(fee, Wrap(SAMPLE_MULTIPLE * Median(samples)));
            && x <= Cap(m, n)
            && (x < 0 ==> m * Pow2(n / 25) >= INT64 / 4)
  {
    MedianIsBounded(samples, n, m);
    MedianIsASample(samples);
    var b := m * Pow2(n / 25);
    BoundGrows(m, 0, n / 25);
    assert Cap(m, n) == 2 * b by { MulAssoc(2, m, Pow2(n / 25)); }
    hide Median, Cap, Pow2;
    TwiceTheReference(Median(samples), b, fee);
  }

  /** A wrapped product stays below twice the bound on its factor all the same. */
  lemma TwiceTheReference(reference: int, b: int, fee: int)
    requires reference <= b && 0 <= b && 0 < fee <= INT64_MAX && (reference < 0 ==> b >= INT64 / 4)
    ensures var x := Min(fee, Wrap(SAMPLE_MULTIPLE * reference));
            x <= 2 * b && (x < 0 ==> b >= INT64 / 4)
  {
  }

  lemma AddKeepsCap(bootstrap: int, samples: seq<int>, n: nat, m: nat, fee: int)
    requires Capped(samples, n, m) && 0 < fee <= INT64_MAX
    ensures Capped(Added(bootstrap, samples, fee), n + 1, m)
  {
    NewSampleIsCapped(samples, n, m, fee);
    var after := Added(bootstrap, samples, fee);
    var x := Min(fee, Wrap(SAMPLE_MULTIPLE * Median(samples)));
    assert after == samples[1..] + [x];
    BoundGrows(m, n / 25, (n + 1) / 25);
  }

  lemma {:induction false} RunIsCapped(bootstrap: int, start: seq<int>, fees: seq<int>, m: nat)
    requires |start| == SAMPLES && forall p :: 0 <= p < |start| ==> 0 <= start[p] <= m
    requires forall i :: 0 <= i < |fees| ==> fees[i] <= INT64_MAX
    ensures Capped(AddedAll(bootstrap, start, fees), Recorded(fees), m)
  {
    if fees == [] {
      StartIsCapped(start, m);
    } else {
      hide Capped, Added;
      var rest, last := fees[..|fees| - 1], fees[|fees| - 1];
      RunIsCapped(bootstrap, start, rest, m);
      if last > 0 {
        AddKeepsCap(bootstrap, AddedAll(bootstrap, start, rest), Recorded(rest), m, last);
      } else {
        NotRecorded(bootstrap, AddedAll(bootstrap, start, rest), last);
      }
    }
  }

  lemma StartIsCapped(start: seq<int>, m: nat)
    requires |start| == SAMPLES && forall p :: 0 <= p < |start| ==> 0 <= start[p] <= m
    ensures Capped(start, 0, m)
  {
  }

  lemma NotRecorded(bootstrap: int, samples: seq<int>, fee: int)
    requires fee <= 0
    ensures Added(bootstrap, samples, fee) == samples
  {
  }

  /** Bounded influence: from a full window of samples of at most `m`, whatever fees the next
      transactions report, each doubling of the median takes 25 recorded ones, and the estimate stays
      within twice that. */
  lemma InfluenceIsBounded(bootstrap: int, start: seq<int>, fees: seq<int>, m: nat)
    requires |start| == SAMPLES && forall p :: 0 <= p < |start| ==> 0 <= start[p] <= m
    requires forall i :: 0 <= i < |fees| ==> fees[i] <= INT64_MAX
    ensures var after, n := AddedAll(bootstrap, start, fees), Recorded(fees);
            && |after| == SAMPLES
            && Median(after) <= m * Pow2(n / 25)
            && Fee(bootstrap, after) <= m * Pow2(1 + n / 25)
  {
    RunIsCapped(bootstrap, start, fees, m);
    MedianIsBounded(AddedAll(bootstrap, start, fees), Recorded(fees), m);
    FeeIsBounded(bootstrap, AddedAll(bootstrap, start, fees), Recorded(fees), m);
  }

  // ---------------------------------------------------------------------------------------------
  // Restarts

  lemma {:induction false} HeldIs(s: seq<int>, median: int)
    requires forall i :: 0 <= i < |s| ==> s[i] > 0
    ensures |Held(s, median)| == |s|
    ensures forall i :: 0 <= i < |s| ==> Held(s, median)[i] == Min(s[i], Wrap(SAMPLE_MULTIPLE * median))
  {
    if s != [] {
      HeldIs(s[..|s| - 1], median);
    }
  }

  lemma {:induction false} SameCount(s: seq<int>, t: seq<int>, b: int)
    requires |s| == |t| && forall i :: 0 <= i < |s| ==> (s[i] > b <==> t[i] > b)
    ensures CountAbove(s, b) == CountAbove(t, b)
  {
    if s != [] {
      SameCount(s[1..], t[1..], b);
    }
  }

  lemma {:induction false} HeldIsShorter(s: seq<int>, median: int)
    ensures |Held(s, median)| <= |s|
    ensures (exists i :: 0 <= i < |s| && s[i] <= 0) ==> |Held(s, median)| < |s|
  {
    if s != [] {
      HeldIsShorter(s[..|s| - 1], median);
    }
  }

  predicate AllPositive(s: seq<int>) {
    forall i :: 0 <= i < |s| ==> s[i] > 0
  }

  /** A restart from a full window, the last of the stored samples, keeps its median, and only cuts the
      estimate at twice of it, exactly when that does not wrap; when it wraps both become the negative number
      it wraps to. A window that holds a sample of nothing leaves too few, and the bootstrap value. */
  lemma RestartKeepsMedian(bootstrap: int, stored: seq<int>)
    requires |stored| >= SAMPLES && forall i :: 0 <= i < |stored| ==> stored[i] <= INT64_MAX
    ensures var window, after := stored[|stored| - SAMPLES..], Started(bootstrap, stored);
            var median, twice := Median(window), SAMPLE_MULTIPLE * Median(window);
            && (!AllPositive(window) ==> |after| < SAMPLES && Fee(bootstrap, after) == bootstrap)
            && (AllPositive(window) ==>
                  && |after| == SAMPLES
                  && (twice <= INT64_MAX ==> Median(after) == median && Fee(bootstrap, after) == Min(Fee(bootstrap, window), twice))
                  && (twice > INT64_MAX ==> Median(after) == Fee(bootstrap, after) == twice - INT64 < 0)
                  && (Median(after) == median <==> twice <= INT64_MAX))
  {
    var window := stored[|stored| - SAMPLES..];
    if AllPositive(window) {
      RanksOfWindow(window);
      TwiceWraps(Median(window));
      RestartCuts(bootstrap, stored, window);
      hide Wrap, Median, At, Started;
    } else {
      HeldIsShorter(window, Median(window));
    }
  }

  /** What a full window keeps of its ranks when a restart holds it against its own median. */
  lemma RestartCuts(bootstrap: int, stored: seq<int>, window: seq<int>)
    requires |stored| >= SAMPLES && window == stored[|stored| - SAMPLES..] && AllPositive(window)
    ensures |Started(bootstrap, stored)| == SAMPLES
    ensures RanksCut(bootstrap, window, Started(bootstrap, stored), Wrap(SAMPLE_MULTIPLE * Median(window)))
  {
    HeldIs(window, Median(window));
    HeldRanks(bootstrap, window, Held(window, Median(window)), Wrap(SAMPLE_MULTIPLE * Median(window)));
    hide RanksCut, Wrap, Median;
  }

  ghost predicate RanksCut(bootstrap: int, window: seq<int>, after: seq<int>, bound: int)
    requires |window| == |after| == SAMPLES
  {
    && Median(after) == Min(Median(window), bound)
    && Fee(bootstrap, after) == Min(Fee(bootstrap, window), bound)
    && Fee(bootstrap, window) == At(window, 44)
  }

  lemma HeldRanks(bootstrap: int, window: seq<int>, after: seq<int>, bound: int)
    requires |window| == |after| == SAMPLES && forall i :: 0 <= i < |window| ==> after[i] == Min(window[i], bound)
    ensures RanksCut(bootstrap, window, after, bound)
  {
    SameRank(window, after, SAMPLES / 2, bound);
    SameRank(window, after, 44, bound);
  }

  lemma TwiceWraps(x: int)
    requires 0 < x <= INT64_MAX
    ensures Wrap(SAMPLE_MULTIPLE * x) == if SAMPLE_MULTIPLE * x <= INT64_MAX then SAMPLE_MULTIPLE * x else SAMPLE_MULTIPLE * x - INT64
    ensures SAMPLE_MULTIPLE * x > INT64_MAX ==> SAMPLE_MULTIPLE * x - INT64 < 0
  {
  }

  lemma RanksOfWindow(window: seq<int>)
    requires |window| == SAMPLES && AllPositive(window) && forall i :: 0 <= i < |window| ==> window[i] <= INT64_MAX
    ensures 0 < Median(window) <= INT64_MAX && 0 < At(window, 44)
  {
    MedianIsASample(window);
    SortedIs(window);
    assert Sorted(window)[44] in multiset(Sorted(window));
  }

  /** Cutting a list off at a bound cuts each of its ranks off there. */
  lemma SameRank(s: seq<int>, t: seq<int>, k: nat, bound: int)
    requires |s| == |t| && k < |s| && forall i :: 0 <= i < |s| ==> t[i] == Min(s[i], bound)
    ensures At(t, k) == Min(At(s, k), bound)
  {
    var x := Min(At(s, k), bound);
    Rank(s, k, x - 1);
    Rank(t, k, x - 1);
    SameCount(s, t, x - 1);
    Rank(t, k, bound);
    CountTail(t, 0, bound);
    if At(s, k) < bound {
      Rank(s, k, x);
      Rank(t, k, x);
      SameCount(s, t, x);
    }
  }

  // ---------------------------------------------------------------------------------------------
  // The quote

  datatype Pricing = Pricing(native: bool, perStroopNum: int, perStroopDen: int, tier: int)
  {
    predicate Valid() {
      tier > 0 && (native || (perStroopNum > 0 && perStroopDen > 0))
    }

    /** A cost in stroops in the asset's smallest units, rounded up. */
    function ToAsset(cost: int): int
      requires Valid()
    {
      if native then cost else CeilDiv(cost * perStroopNum, perStroopDen)
    }

    function QuoteAt(cost: int, marginBps: int): int
      requires Valid()
    {
      var margin := Min(marginBps, MAX_MARGIN_BPS);
      CeilDiv(CeilDiv(ToAsset(cost) * (10_000 + margin), 10_000), tier) * tier
    }
  }

  /** The quotient rounded toward zero, and its remainder with the sign of the dividend. */
  function QuoRem(a: int, b: int): (int, int)
    requires b > 0
  {
    if a >= 0 then (a / b, a % b) else (-((-a) / b), -((-a) % b))
  }

  /** The least number that, times `b`, is not below `a`. */
  function CeilDiv(a: int, b: int): (q: int)
    requires b > 0
    ensures (q - 1) * b < a <= q * b
  {
    var d := QuoRem(a, b);
    CeilBounds(a, b);
    if d.1 > 0 then d.0 + 1 else d.0
  }

  lemma CeilBounds(a: int, b: int)
    requires b > 0
    ensures var d := QuoRem(a, b);
            var q := if d.1 > 0 then d.0 + 1 else d.0;
            (q - 1) * b < a <= q * b
  {
    if a >= 0 {
      var k, r := a / b, a % b;
      assert a == k * b + r;
      assert (k + 1) * b == k * b + b && (k - 1) * b == k * b - b;
    } else {
      var k, r := (-a) / b, (-a) % b;
      assert -a == k * b + r;
      assert (-k) * b == -(k * b) && (-k - 1) * b == -(k * b) - b;
    }
  }

  /** The quote is the least multiple of the tier that covers the cost in the asset and the margin, and
      that cost the least amount worth the stroops. */
  lemma QuoteIsLeast(p: Pricing, cost: int, marginBps: int, other: int)
    requires p.Valid()
    ensures var quote, asset := p.QuoteAt(cost, marginBps), p.ToAsset(cost);
            var due := asset * (10_000 + Min(marginBps, MAX_MARGIN_BPS));
            && (exists k :: quote == k * p.tier)
            && quote * 10_000 >= due
            && (other * p.tier * 10_000 >= due ==> other * p.tier >= quote)
            && (!p.native ==> (asset - 1) * p.perStroopDen < cost * p.perStroopNum <= asset * p.perStroopDen)
  {
    var due := p.ToAsset(cost) * (10_000 + Min(marginBps, MAX_MARGIN_BPS));
    var units := CeilDiv(due, 10_000);
    var k := CeilDiv(units, p.tier);
    assert p.QuoteAt(cost, marginBps) == k * p.tier;
    if other * p.tier * 10_000 >= due {
      assert other * p.tier >= units;
      if other < k {
        MulLe(other, k - 1, p.tier);
      }
      MulLe(k, if other < k then k else other, p.tier);
    }
  }
}
