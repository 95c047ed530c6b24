// The time line of ns-3's grid viewer: which events and ranges a window query returns, and where
// the scale puts its ticks.
module Timeline {
  // Python's slice with bounds that are not negative.
  function Slice<T>(s: seq<T>, from: nat, to: nat): seq<T> {
    var end := if to < |s| then to else |s|;
    if from < end then s[from..end] else []
  }

  // ----- events

  // The search loop from the bounds `l` and `u`.
  function SearchEvents(at: seq<real>, key: real, l: nat, u: int): (i: nat)
    requires -1 <= u < |at| && l <= u + 1
    ensures l <= i <= u + 1
    decreases u - l + 1
  {
    if l > u then l
    else
      var i := (l + u) / 2;
      if key == at[i] then i
      else if key < at[i] then SearchEvents(at, key, l, i - 1)
      else SearchEvents(at, key, i + 1, u)
  }

  function FindEvent(at: seq<real>, key: real): (i: nat)
    ensures i <= |at|
  {
    SearchEvents(at, key, 0, |at| - 1)
  }

  function EventsIn(at: seq<real>, start: real, end: real): seq<real> {
    Slice(at, FindEvent(at, start), FindEvent(at, end) + 1)
  }

  class TimelineEvent {
    var events: seq<real>

    constructor (events: seq<real>)
      ensures this.events == events
    {
      this.events := events;
    }

    method Search(key: real) returns (i: nat)
      ensures i == FindEvent(events, key)
    {
      var l, u := 0, |events| - 1;
      while l <= u
        invariant 0 <= l <= u + 1 <= |events|
        invariant SearchEvents(events, key, l, u) == FindEvent(events, key)
      {
        var i := (l + u) / 2;
        if key == events[i] {
          return i;
        } else if key < events[i] {
          u := i - 1;
        } else {
          l := i + 1;
        }
      }
      return l;
    }

    method GetEvents(start: real, end: real) returns (r: seq<real>)
      ensures r == EventsIn(events, start, end)
      ensures Increasing(events) ==> Increasing(r) && forall k :: 0 <= k < |events| ==>
                (events[k] in r
                 <==> start <= events[k] && (events[k] <= end || forall j :: 0 <= j < k ==> events[j] < end))
    {
      hide FindEvent, Increasing;
      var s := Search(start);
      var e := Search(end);
      r := Slice(events, s, e + 1);
      if Increasing(events) {
        WindowOfEvents(events, start, end);
      }
    }
  }

  predicate Sorted(at: seq<real>) {
    forall i, j :: 0 <= i < j < |at| ==> at[i] <= at[j]
  }

  predicate Increasing(at: seq<real>) {
    forall i, j :: 0 <= i < j < |at| ==> at[i] < at[j]
  }

  predicate AllBelow(at: seq<real>, key: real, l: nat) {
    forall k :: 0 <= k < l && k < |at| ==> at[k] < key
  }

  predicate AllAbove(at: seq<real>, key: real, u: int) {
    forall k :: 0 <= k < |at| && u < k ==> key < at[k]
  }

  // Nothing before the index is above the key and nothing after it is below; unless the key is at
  // the index, nothing before it is equal to the key either.
  predicate Splits(at: seq<real>, key: real, i: nat) {
    && (forall k :: 0 <= k < |at| ==> if k < i then at[k] <= key else key <= at[k])
    && ((i < |at| && at[i] == key) || AllBelow(at, key, i))
  }

  lemma SearchStep(at: seq<real>, key: real, i: nat)
    requires Sorted(at) && i < |at|
    ensures at[i] < key ==> AllBelow(at, key, i + 1)
    ensures key < at[i] ==> AllAbove(at, key, i - 1)
    ensures at[i] == key ==> Splits(at, key, i)
  {
  }

  lemma {:induction false} SearchSplits(at: seq<real>, key: real, l: nat, u: int)
    requires -1 <= u < |at| && l <= u + 1 && Sorted(at) && AllBelow(at, key, l) && AllAbove(at, key, u)
    ensures Splits(at, key, SearchEvents(at, key, l, u))
    decreases u - l + 1
  {
    hide Sorted, AllAbove, Splits;
    if l <= u {
      var i := (l + u) / 2;
      SearchStep(at, key, i);
      if key < at[i] {
        SearchSplits(at, key, l, i - 1);
      } else if key > at[i] {
        SearchSplits(at, key, i + 1, u);
      }
    } else {
      SearchEnds(at, key, l);
    }
  }

  lemma SearchEnds(at: seq<real>, key: real, l: nat)
    requires AllBelow(at, key, l) && AllAbove(at, key, l - 1)
    ensures Splits(at, key, l)
  {
  }

  lemma FindSplits(at: seq<real>, key: real)
    requires Increasing(at)
    ensures forall k :: 0 <= k < |at| ==> (k < FindEvent(at, key) <==> at[k] < key)
  {
    SearchSplits(at, key, 0, |at| - 1);
  }

  // With increasing events, and for any window even an empty one: what is returned is one stretch
  // of the events that has every event inside the window and no other, except that the first event
  // at or past the end of the window comes along.
  lemma WindowOfEvents(at: seq<real>, start: real, end: real)
    requires Increasing(at)
    ensures forall k :: 0 <= k < |at| ==>
              (at[k] in EventsIn(at, start, end)
               <==> start <= at[k] && (at[k] <= end || forall j :: 0 <= j < k ==> at[j] < end))
    ensures Increasing(EventsIn(at, start, end))
  {
    hide FindEvent;
    FindSplits(at, start);
    FindSplits(at, end);
    var s, e := FindEvent(at, start), FindEvent(at, end);
    forall k | 0 <= k < |at|
      ensures at[k] in EventsIn(at, start, end) <==> s <= k <= e
      ensures k <= e <==> at[k] <= end || forall j :: 0 <= j < k ==> at[j] < end
    {
      InSlice(at, s, e + 1, k);
      if e < k {
        assert at[e] < at[k] && !(at[e] < end);
      }
    }
  }

  lemma InSlice(at: seq<real>, s: nat, to: nat, k: nat)
    requires Increasing(at) && k < |at|
    ensures at[k] in Slice(at, s, to) <==> s <= k < to
  {
    var r := Slice(at, s, to);
    if s <= k < to {
      assert r[k - s] == at[k];
    }
  }

  predicate Inside(x: real, start: real, end: real) {
    start <= x <= end
  }

  function CountInside(at: seq<real>, start: real, end: real): nat {
    if at == [] then 0 else (if Inside(at[0], start, end) then 1 else 0) + CountInside(at[1..], start, end)
  }

  // Every window query returns as many events of the window as there are.
  ghost predicate NothingMissed(at: seq<real>) {
    forall start, end :: CountInside(EventsIn(at, start, end), start, end) == CountInside(at, start, end)
  }

  lemma {:induction false} CountSplits(a: seq<real>, b: seq<real>, start: real, end: real)
    ensures CountInside(a + b, start, end) == CountInside(a, start, end) + CountInside(b, start, end)
    decreases |a|
  {
    if a == [] {
      assert a + b == b;
    } else {
      assert (a + b)[1..] == a[1..] + b;
      CountSplits(a[1..], b, start, end);
    }
  }

  lemma {:induction false} NoneInside(at: seq<real>, start: real, end: real)
    requires forall k :: 0 <= k < |at| ==> !Inside(at[k], start, end)
    ensures CountInside(at, start, end) == 0
    decreases |at|
  {
    if at != [] {
      NoneInside(at[1..], start, end);
    }
  }

  // Sorted events are never missed exactly when no two of them are at the same time.
  lemma MissedExactly(at: seq<real>)
    requires Sorted(at)
    ensures NothingMissed(at) <==> Increasing(at)
  {
    if Increasing(at) {
      forall start, end
        ensures CountInside(EventsIn(at, start, end), start, end) == CountInside(at, start, end)
      {
        IncreasingMissesNothing(at, start, end);
      }
    } else {
      var i, j :| 0 <= i < j < |at| && at[i] >= at[j];
      TwinIsMissed(at, i, j);
    }
  }

  lemma IncreasingMissesNothing(at: seq<real>, start: real, end: real)
    requires Increasing(at)
    ensures CountInside(EventsIn(at, start, end), start, end) == CountInside(at, start, end)
  {
    hide FindEvent, CountInside;
    FindSplits(at, start);
    FindSplits(at, end);
    var s, e := FindEvent(at, start), FindEvent(at, end);
    var to := if e + 1 < |at| then e + 1 else |at|;
    if s < to {
      assert at == at[..s] + (at[s..to] + at[to..]);
      CountSplits(at[..s], at[s..to] + at[to..], start, end);
      CountSplits(at[s..to], at[to..], start, end);
      NoneInside(at[..s], start, end);
      forall k | to <= k < |at|
        ensures !Inside(at[k], start, end)
      {
        assert at[e] < at[k];
      }
      NoneInside(at[to..], start, end);
    } else {
      forall k | 0 <= k < |at|
        ensures !Inside(at[k], start, end)
      {
        assert e < k ==> at[e] < at[k];
      }
      NoneInside(at, start, end);
      NoneInside([], start, end);
    }
  }

  // A window of one point returns at most one event.
  lemma OneForOnePoint(at: seq<real>, v: real)
    ensures |EventsIn(at, v, v)| <= 1
  {
    hide FindEvent;
  }

  lemma CountFirst(at: seq<real>, v: real)
    requires at != [] && at[0] == v
    ensures CountInside(at, v, v) >= 1
  {
  }

  lemma TwinIsMissed(at: seq<real>, i: nat, j: nat)
    requires Sorted(at) && i < j < |at| && at[i] == at[j]
    ensures CountInside(EventsIn(at, at[i], at[i]), at[i], at[i]) < CountInside(at, at[i], at[i])
  {
    hide FindEvent, EventsIn, CountInside;
    var v := at[i];
    OneForOnePoint(at, v);
    AtMostLength(EventsIn(at, v, v), v, v);
    assert at == at[..i] + at[i..j] + at[j..];
    CountSplits(at[..i] + at[i..j], at[j..], v, v);
    CountSplits(at[..i], at[i..j], v, v);
    CountFirst(at[i..j], v);
    CountFirst(at[j..], v);
  }

  lemma {:induction false} AtMostLength(at: seq<real>, start: real, end: real)
    ensures CountInside(at, start, end) <= |at|
    decreases |at|
  {
    if at != [] {
      AtMostLength(at[1..], start, end);
    }
  }

  // ----- ranges

  datatype Range = Range(start: real, end: real)

  function SearchRanges(ranges: seq<Range>, key: real, l: nat, u: int): (i: int)
    requires -1 <= u < |ranges| && l <= u + 1
    ensures i == -1 || (l <= i <= u && ranges[i].start <= key <= ranges[i].end)
    decreases u - l + 1
  {
    if l > u then -1
    else
      var i := (l + u) / 2;
      if ranges[i].start <= key <= ranges[i].end then i
      else if key < ranges[i].start then SearchRanges(ranges, key, l, i - 1)
      else SearchRanges(ranges, key, i + 1, u)
  }

  function FindRange(ranges: seq<Range>, key: real): (i: int)
    ensures i == -1 || (0 <= i < |ranges| && ranges[i].start <= key <= ranges[i].end)
  {
    SearchRanges(ranges, key, 0, |ranges| - 1)
  }

  // The first index returned and the one behind the last.
  function Bounds(ranges: seq<Range>, start: real, end: real): (b: (nat, nat))
    ensures b.0 <= |ranges| && b.1 <= |ranges|
  {
    var s, e := FindRange(ranges, start), FindRange(ranges, end);
    if s == -1 && e == -1 then (0, 0)
    else if s == -1 then (0, e + 1)
    else if e == -1 then (s, |ranges|)
    else (s, e + 1)
  }

  function RangesIn(ranges: seq<Range>, start: real, end: real): seq<Range> {
    var (lo, hi) := Bounds(ranges, start, end);
    Slice(ranges, lo, hi)
  }

  class TimelineDataRange {
    var ranges: seq<Range>

    constructor (ranges: seq<Range>)
      ensures this.ranges == ranges
    {
      this.ranges := ranges;
    }

    method Search(key: real) returns (i: int)
      ensures i == FindRange(ranges, key)
    {
      var l, u := 0, |ranges| - 1;
      while l <= u
        invariant 0 <= l <= u + 1 <= |ranges|
        invariant SearchRanges(ranges, key, l, u) == FindRange(ranges, key)
      {
        var i := (l + u) / 2;
        if key >= ranges[i].start && key <= ranges[i].end {
          return i;
        } else if key < ranges[i].start {
          u := i - 1;
        } else {
          l := i + 1;
        }
      }
      return -1;
    }

    method GetRanges(start: real, end: real) returns (r: seq<Range>)
      ensures r == RangesIn(ranges, start, end)
      ensures Ordered(ranges) && start <= end && !Hit(ranges, start) && !Hit(ranges, end) ==> r == []
      ensures Ordered(ranges) && start <= end && (Hit(ranges, start) || Hit(ranges, end)) ==>
                var (lo, hi) := Bounds(ranges, start, end);
                && lo <= hi && r == ranges[lo..hi]
                && forall k :: 0 <= k < |ranges| ==> (lo <= k < hi <==> Returned(ranges, start, end, k))
    {
      hide SearchRanges, FindRange, Ordered, Hit, Returned;
      var s := Search(start);
      var e := Search(end);
      if s == -1 && e == -1 {
        r := [];
      } else if s == -1 {
        r := Slice(ranges, 0, e + 1);
      } else if e == -1 {
        r := Slice(ranges, s, |ranges|);
      } else {
        r := Slice(ranges, s, e + 1);
      }
      if Ordered(ranges) && start <= end {
        RangesReturned(ranges, start, end);
      }
    }
  }

  // The ranges follow each other; the end of one may be the start of the next.
  predicate Ordered(ranges: seq<Range>) {
    && (forall i :: 0 <= i < |ranges| ==> ranges[i].start <= ranges[i].end)
    && (forall i, j :: 0 <= i < j < |ranges| ==> ranges[i].end <= ranges[j].start)
  }

  predicate Meets(r: Range, start: real, end: real) {
    r.start <= end && start <= r.end
  }

  predicate Hit(ranges: seq<Range>, key: real) {
    exists k :: 0 <= k < |ranges| && Meets(ranges[k], key, key)
  }

  predicate SharedPoint(ranges: seq<Range>, key: real) {
    exists i, j :: 0 <= i < j < |ranges| && Meets(ranges[i], key, key) && Meets(ranges[j], key, key)
  }

  // The range found at `key` is the first, or the last, of those that hold it.
  predicate FirstFound(ranges: seq<Range>, key: real) {
    forall k :: 0 <= k < FindRange(ranges, key) ==> !Meets(ranges[k], key, key)
  }

  predicate LastFound(ranges: seq<Range>, key: real) {
    FindRange(ranges, key) == -1
    || forall k :: FindRange(ranges, key) < k < |ranges| ==> !Meets(ranges[k], key, key)
  }

  // What a window gets when one of its ends lies in a range: the ranges that meet it and, where the
  // other end lies in a gap, also every range beyond that end; but of the ranges that share an end
  // of the window, none that is farther out than the one found there.
  predicate Returned(ranges: seq<Range>, start: real, end: real, k: nat)
    requires k < |ranges|
  {
    && (|| Meets(ranges[k], start, end)
        || (!Hit(ranges, start) && ranges[k].end < start)
        || (!Hit(ranges, end) && end < ranges[k].start))
    && !(k < FindRange(ranges, start) && Meets(ranges[k], start, start))
    && !(-1 < FindRange(ranges, end) < k && Meets(ranges[k], end, end))
  }

  lemma {:induction false} SearchFinds(ranges: seq<Range>, key: real, l: nat, u: int)
    requires -1 <= u < |ranges| && l <= u + 1 && Ordered(ranges)
    requires forall k :: 0 <= k < |ranges| && !(l <= k <= u) ==> !Meets(ranges[k], key, key)
    ensures SearchRanges(ranges, key, l, u) == -1 <==> !Hit(ranges, key)
    decreases u - l + 1
  {
    if l <= u {
      var i := (l + u) / 2;
      if Meets(ranges[i], key, key) {
      } else if key < ranges[i].start {
        SearchFinds(ranges, key, l, i - 1);
      } else {
        SearchFinds(ranges, key, i + 1, u);
      }
    }
  }

  lemma FindsWhenHit(ranges: seq<Range>, key: real)
    requires Ordered(ranges)
    ensures FindRange(ranges, key) == -1 <==> !Hit(ranges, key)
    ensures FindRange(ranges, key) != -1 ==> Meets(ranges[FindRange(ranges, key)], key, key)
  {
    SearchFinds(ranges, key, 0, |ranges| - 1);
  }

  // On which side of `key` a range lies, from where it stands to the one found.
  lemma SidesOfFound(ranges: seq<Range>, key: real, k: nat)
    requires Ordered(ranges) && k < |ranges| && FindRange(ranges, key) != -1
    ensures ranges[k].start <= ranges[k].end
    ensures k < FindRange(ranges, key) ==> ranges[k].end <= key
    ensures k > FindRange(ranges, key) ==> key <= ranges[k].start
    ensures k == FindRange(ranges, key) ==> Meets(ranges[k], key, key)
  {
    hide FindRange, Hit;
    FindsWhenHit(ranges, key);
  }

  lemma BoundsInOrder(ranges: seq<Range>, start: real, end: real)
    requires Ordered(ranges) && start <= end
    ensures var (lo, hi) := Bounds(ranges, start, end); lo <= hi && RangesIn(ranges, start, end) == ranges[lo..hi]
  {
    hide FindRange;
    var s, e := FindRange(ranges, start), FindRange(ranges, end);
    if s != -1 && e != -1 && start != end {
      SidesOfFound(ranges, start, s);
      SidesOfFound(ranges, end, e);
      SidesOfFound(ranges, start, e);
    }
  }

  lemma ReturnedExactly(ranges: seq<Range>, start: real, end: real, k: nat)
    requires Ordered(ranges) && start <= end && k < |ranges|
    requires Hit(ranges, start) || Hit(ranges, end)
    ensures var (lo, hi) := Bounds(ranges, start, end); lo <= k < hi <==> Returned(ranges, start, end, k)
  {
    hide FindRange, Hit;
    FindsWhenHit(ranges, start);
    FindsWhenHit(ranges, end);
    if FindRange(ranges, start) != -1 {
      SidesOfFound(ranges, start, k);
    }
    if FindRange(ranges, end) != -1 {
      SidesOfFound(ranges, end, k);
    }
    BoundsInOrder(ranges, start, end);
  }

  // Nothing for a window with both ends in gaps, and one stretch of the ranges for any other.
  lemma RangesReturned(ranges: seq<Range>, start: real, end: real)
    requires Ordered(ranges) && start <= end
    ensures !Hit(ranges, start) && !Hit(ranges, end) ==> RangesIn(ranges, start, end) == []
    ensures var (lo, hi) := Bounds(ranges, start, end);
            && lo <= hi && RangesIn(ranges, start, end) == ranges[lo..hi]
            && (Hit(ranges, start) || Hit(ranges, end) ==>
                  forall k :: 0 <= k < |ranges| ==> (lo <= k < hi <==> Returned(ranges, start, end, k)))
  {
    hide FindRange, Hit, Returned;
    FindsWhenHit(ranges, start);
    FindsWhenHit(ranges, end);
    BoundsInOrder(ranges, start, end);
    if Hit(ranges, start) || Hit(ranges, end) {
      forall k | 0 <= k < |ranges|
        ensures var (lo, hi) := Bounds(ranges, start, end); lo <= k < hi <==> Returned(ranges, start, end, k)
      {
        ReturnedExactly(ranges, start, end, k);
      }
    }
  }

  // Every range that meets the window lies between the bounds.
  predicate NoneMissed(ranges: seq<Range>, start: real, end: real) {
    var (lo, hi) := Bounds(ranges, start, end);
    forall k :: 0 <= k < |ranges| && Meets(ranges[k], start, end) ==> lo <= k < hi
  }

  // No range that meets the window is left out exactly when there is none, or an end of the window
  // lies in a range and the searches land on the outermost ranges that hold the two ends. They do
  // so whenever no two ranges share an end of the window.
  lemma NoRangeMissedExactly(ranges: seq<Range>, start: real, end: real)
    requires Ordered(ranges) && start <= end
    ensures NoneMissed(ranges, start, end)
       <==> || (forall k :: 0 <= k < |ranges| ==> !Meets(ranges[k], start, end))
            || ((Hit(ranges, start) || Hit(ranges, end)) && FirstFound(ranges, start) && LastFound(ranges, end))
    ensures !SharedPoint(ranges, start) ==> FirstFound(ranges, start)
    ensures !SharedPoint(ranges, end) ==> LastFound(ranges, end)
  {
    hide FindRange, Hit;
    FindsWhenHit(ranges, start);
    FindsWhenHit(ranges, end);
    if Hit(ranges, start) || Hit(ranges, end) {
      RangesReturned(ranges, start, end);
      if k :| 0 <= k < FindRange(ranges, start) && Meets(ranges[k], start, start) {
        assert Meets(ranges[k], start, end) && !Returned(ranges, start, end, k);
      }
      if k :| -1 < FindRange(ranges, end) < k < |ranges| && Meets(ranges[k], end, end) {
        assert Meets(ranges[k], start, end) && !Returned(ranges, start, end, k);
      }
    }
  }

  // So a list of ranges that follow each other answers every window with an end in a range in full
  // exactly when no two of them share a point.
  lemma SharedPointsExactly(ranges: seq<Range>)
    requires Ordered(ranges)
    ensures (forall start, end :: start <= end && (Hit(ranges, start) || Hit(ranges, end)) ==>
               NoneMissed(ranges, start, end))
       <==> forall key :: !SharedPoint(ranges, key)
  {
    hide NoneMissed, Hit, FirstFound, LastFound;
    if key :| SharedPoint(ranges, key) {
      SharedPointIsMissed(ranges, key);
    } else {
      forall start, end | start <= end && (Hit(ranges, start) || Hit(ranges, end))
        ensures NoneMissed(ranges, start, end)
      {
        NoRangeMissedExactly(ranges, start, end);
      }
    }
  }

  lemma SharedPointIsMissed(ranges: seq<Range>, key: real)
    requires SharedPoint(ranges, key)
    ensures Hit(ranges, key) && !NoneMissed(ranges, key, key)
  {
    hide FindRange;
    var i, j :| 0 <= i < j < |ranges| && Meets(ranges[i], key, key) && Meets(ranges[j], key, key);
  }

  // ----- ticks

  // The two kinds of numbers a scale can be given as bounds.
  datatype Number = Int(i: int) | Float(x: real)
  {
    function Value(): real {
      if Int? then i as real else x
    }

    function Minus(b: Number): Number {
      if Int? && b.Int? then Int(i - b.i) else Float(Value() - b.Value())
    }

    // Python 2 divides integers by rounding down.
    function Over(k: int): real
      requires k > 0
    {
      if Int? then (i / k) as real else x / k as real
    }
  }

  // The loop that multiplies by ten.
  function Closest(c: int, n: real): (r: int)
    requires c >= 1
    ensures r >= 1
    decreases n.Floor - c
  {
    if (c * 10) as real < n then Closest(c * 10, n) else c
  }

  function Delta(n: Number): int {
    var closest := Closest(1, n.Value());
    if n.Over(closest) == 0.0 then closest
    else if n.Over(closest) == 1.0 then closest / 10
    else closest
  }

  function Floored(x: real, d: int): int
    requires d > 0
  {
    (x / d as real).Floor
  }

  // Python's remainder has the sign of the divisor, for integers and floats.
  function Remainder(x: real, d: int): real
    requires d > 0
  {
    x - (Floored(x, d) * d) as real
  }

  // Python's int().
  function Truncated(x: real): int {
    if x >= 0.0 then x.Floor else -(-x).Floor
  }

  // Python's range with a positive step.
  function Steps(x: int, end: int, step: int): seq<int>
    requires step > 0
    decreases end - x
  {
    if x < end then [x] + Steps(x + step, end, step) else []
  }

  function Ticks(lo: real, hi: real, delta: int): seq<int>
    requires delta > 0
  {
    var start := lo - Remainder(lo, delta) + delta as real;
    var end := hi - Remainder(hi, delta);
    Steps(Truncated(start), Truncated(end + delta as real), delta)
  }

  class ScaleRenderer {
    var lo: Number
    var hi: Number
    var delta: int

    constructor (lo: Number, hi: Number)
      ensures this.lo == lo && this.hi == hi
    {
      this.lo, this.hi, this.delta := lo, hi, 0;
    }

    // On a division by zero the scale keeps the delta it had.
    method Layout() returns (done: bool)
      modifies this`delta
      ensures done <==> hi.Value() - lo.Value() != 1.0
      ensures delta == if done then Delta(hi.Minus(lo)) else old(delta)
      ensures done ==> delta > 0
    {
      var n := hi.Minus(lo);
      var closest := 1;
      while (closest * 10) as real < n.Value()
        invariant closest >= 1 && Closest(closest, n.Value()) == Closest(1, n.Value())
        decreases n.Value().Floor - closest
      {
        closest := closest * 10;
      }
      var d;
      if n.Over(closest) == 0.0 {
        d := closest;
      } else if n.Over(closest) == 1.0 {
        d := closest / 10;
      } else {
        d := closest;
      }
      DeltaIsPositive(n);
      if d == 0 {
        return false;
      }
      delta := d;
      return true;
    }

    method DrawPoints(delta: int) returns (points: seq<int>)
      requires delta > 0
      ensures points == Ticks(lo.Value(), hi.Value(), delta)
    {
      var start := lo.Value() - Remainder(lo.Value(), delta) + delta as real;
      var end := hi.Value() - Remainder(hi.Value(), delta);
      var x, past := Truncated(start), Truncated(end + delta as real);
      points := [];
      while x < past
        invariant Ticks(lo.Value(), hi.Value(), delta) == points + Steps(x, past, delta)
        decreases past - x
      {
        assert points + Steps(x, past, delta) == (points + [x]) + Steps(x + delta, past, delta);
        points := points + [x];
        x := x + delta;
      }
    }

    // The scale points, and the finer ones between them if there are any.
    method Draw() returns (ticks: seq<int>, subticks: seq<int>)
      requires delta > 0
      ensures ticks == Ticks(lo.Value(), hi.Value(), delta)
      ensures subticks == if delta < 10 then [] else Ticks(lo.Value(), hi.Value(), delta / 10)
    {
      hide Ticks;
      ticks := DrawPoints(delta);
      subticks := [];
      if delta / 10 > 0 {
        subticks := DrawPoints(delta / 10);
      }
    }
  }

  predicate PowerOfTen(c: int)
    decreases c
  {
    c == 1 || (c > 1 && c % 10 == 0 && PowerOfTen(c / 10))
  }

  lemma {:induction false} ClosestBounds(c: int, n: real)
    requires PowerOfTen(c) && (c == 1 || c as real < n)
    ensures var k := Closest(c, n);
            PowerOfTen(k) && n <= (10 * k) as real && k >= 1 && (k == 1 || k as real < n)
    decreases n.Floor - c
  {
    if (c * 10) as real < n {
      assert (c * 10) / 10 == c;
      ClosestBounds(c * 10, n);
    }
  }

  // The step is found unless the length is one, which makes it zero. From there on, a length in
  // integers has between two and twenty steps, and one in floats between one and ten.
  lemma DeltaIsPositive(n: Number)
    ensures Delta(n) >= 0 && (Delta(n) == 0 <==> n.Value() == 1.0)
    ensures n.Value() != 1.0 ==> PowerOfTen(Delta(n))
    ensures n.Int? && n.i >= 2 ==> 2 * Delta(n) <= n.i < 20 * Delta(n)
    ensures n.Float? && n.x > 1.0 ==> Delta(n) as real < n.x <= (10 * Delta(n)) as real
    ensures n.Value() < 1.0 ==> Delta(n) == 1
  {
    ClosestBounds(1, n.Value());
    var k := Closest(1, n.Value());
    if n.Int? {
      QuotientBounds(n.i, k);
    } else {
      RealQuotient(n.x, k);
    }
  }

  lemma QuotientBounds(n: int, k: int)
    requires k > 0
    ensures n / k * k <= n < (n / k + 1) * k
    ensures n / k == 0 <==> 0 <= n < k
    ensures n / k == 1 <==> k <= n < 2 * k
  {
    assert n == n / k * k + n % k;
    assert (n / k + 1) * k == n / k * k + k;
    if n / k >= 2 {
      Grows(2, n / k, k);
    } else if n / k <= -1 {
      Grows(n / k, -1, k);
    }
  }

  lemma RealQuotient(x: real, k: int)
    requires k > 0
    ensures x / k as real == 0.0 <==> x == 0.0
    ensures x / k as real == 1.0 <==> x == k as real
  {
    var q := x / k as real;
    assert q * k as real == x;
  }

  lemma Grows(a: int, b: int, k: int)
    requires a <= b && k > 0
    ensures a * k <= b * k
  {
    assert (b - a) * k >= 0;
  }

  lemma FlooredBounds(x: real, d: int)
    requires d > 0
    ensures var q := Floored(x, d); (q * d) as real <= x < ((q + 1) * d) as real
  {
    var r, q, e := x / d as real, Floored(x, d), d as real;
    assert r * e == x;
    Product(r - q as real, e);
    Product((q + 1) as real - r, e);
    assert (q * d) as real == q as real * e;
    assert (q * d + d) as real == q as real * e + e;
    assert (q + 1) * d == q * d + d;
  }

  lemma Product(a: real, b: real)
    requires a >= 0.0 && b > 0.0
    ensures a * b >= 0.0 && (a > 0.0 ==> a * b > 0.0)
  {
  }

  function Multiple(m: int, d: int): int {
    m * d
  }

  lemma {:induction false} StepsAreMultiples(p: int, q: int, d: int)
    requires d > 0
    ensures var s := Steps(p * d, q * d, d);
            |s| == (if p < q then q - p else 0) && forall i :: 0 <= i < |s| ==> s[i] == Multiple(p + i, d)
    decreases q - p
  {
    if p < q {
      Grows(p + 1, q, d);
      assert (p + 1) * d == p * d + d;
      StepsAreMultiples(p + 1, q, d);
    } else {
      Grows(q, p, d);
    }
  }

  lemma WholeTruncated(x: real, m: int)
    requires x == m as real
    ensures Truncated(x) == m
  {
    assert x < 0.0 ==> -x == (-m) as real;
  }

  // The first point of a loop over points is a whole number, and so is its bound.
  lemma TicksFromQuotients(lo: real, hi: real, d: int)
    requires d > 0
    ensures Ticks(lo, hi, d) == Steps((Floored(lo, d) + 1) * d, (Floored(hi, d) + 1) * d, d)
  {
    hide Floored, Truncated, Steps;
    assert (Floored(lo, d) + 1) * d == Floored(lo, d) * d + d && (Floored(hi, d) + 1) * d == Floored(hi, d) * d + d;
    WholeTruncated(lo - Remainder(lo, d) + d as real, (Floored(lo, d) + 1) * d);
    WholeTruncated(hi - Remainder(hi, d) + d as real, (Floored(hi, d) + 1) * d);
  }

  // The ticks counted out: one for every multiple of the step above `lo` up to `hi`.
  lemma TickAt(lo: real, hi: real, d: int)
    requires d > 0
    ensures |Ticks(lo, hi, d)| == if Floored(lo, d) < Floored(hi, d) then Floored(hi, d) - Floored(lo, d) else 0
    ensures forall i :: 0 <= i < |Ticks(lo, hi, d)| ==> Ticks(lo, hi, d)[i] == Multiple(Floored(lo, d) + 1 + i, d)
  {
    hide Ticks, Steps, Floored;
    TicksFromQuotients(lo, hi, d);
    StepsAreMultiples(Floored(lo, d) + 1, Floored(hi, d) + 1, d);
  }

  lemma TicksAre(lo: real, hi: real, d: int, x: int)
    requires d > 0
    ensures x in Ticks(lo, hi, d) <==> lo < x as real <= hi && x % d == 0
  {
    hide Ticks, Multiple, Floored;
    TickAt(lo, hi, d);
    var ticks, p := Ticks(lo, hi, d), Floored(lo, d) + 1;
    if lo < x as real <= hi && x % d == 0 {
      MultipleOf(x, d);
      TickBetween(lo, hi, x, d);
      var i := x / d - p;
      assert ticks[i] == Multiple(p + i, d);
    }
    if x in ticks {
      var i :| 0 <= i < |ticks| && ticks[i] == x;
      MultipleDivides(p + i, d);
      TickBetween(lo, hi, x, d);
    }
  }

  lemma MultipleOf(x: int, d: int)
    requires d > 0 && x % d == 0
    ensures x == Multiple(x / d, d)
  {
  }

  lemma TicksIncrease(lo: real, hi: real, d: int, i: nat, j: nat)
    requires d > 0 && i < j < |Ticks(lo, hi, d)|
    ensures Ticks(lo, hi, d)[i] < Ticks(lo, hi, d)[j]
  {
    hide Ticks, Floored;
    TickAt(lo, hi, d);
    var p := Floored(lo, d) + 1;
    Grows(p + i + 1, p + j, d);
    assert (p + i + 1) * d == (p + i) * d + d;
  }

  // For every two bounds but those at distance one, the ticks are the multiples of the step -- a
  // power of ten -- that are above the low end and not above the high end, in order. From length
  // two on, integers as bounds give between two and twenty of them; if one of the bounds is a
  // float, any length above one gives between one and ten.
  lemma TicksExactly(lo: Number, hi: Number)
    requires hi.Value() - lo.Value() != 1.0
    ensures var n := hi.Minus(lo);
            var d := Delta(n);
            && d > 0 && PowerOfTen(d)
            && var ticks := Ticks(lo.Value(), hi.Value(), d);
            && (forall x :: x in ticks <==> lo.Value() < x as real <= hi.Value() && x % d == 0)
            && (forall i, j :: 0 <= i < j < |ticks| ==> ticks[i] < ticks[j])
            && (n.Int? && n.i >= 2 ==> 2 <= |ticks| <= 20)
            && (n.Float? && n.x > 1.0 ==> 1 <= |ticks| <= 10)
  {
    hide Ticks, Delta, PowerOfTen;
    var l, h, n := lo.Value(), hi.Value(), hi.Minus(lo);
    var d := Delta(n);
    DeltaIsPositive(n);
    forall x
      ensures x in Ticks(l, h, d) <==> l < x as real <= h && x % d == 0
    {
      TicksAre(l, h, d, x);
    }
    forall i, j | 0 <= i < j < |Ticks(l, h, d)|
      ensures Ticks(l, h, d)[i] < Ticks(l, h, d)[j]
    {
      TicksIncrease(l, h, d, i, j);
    }
    TickCount(lo, hi);
  }

  lemma TickCount(lo: Number, hi: Number)
    requires hi.Value() - lo.Value() != 1.0 && Delta(hi.Minus(lo)) > 0
    ensures var n := hi.Minus(lo);
            var count := |Ticks(lo.Value(), hi.Value(), Delta(n))|;
            && (n.Int? && n.i >= 2 ==> 2 <= count <= 20)
            && (n.Float? && n.x > 1.0 ==> 1 <= count <= 10)
  {
    hide Ticks, Delta, Floored;
    var l, h, n := lo.Value(), hi.Value(), hi.Minus(lo);
    var d := Delta(n);
    DeltaIsPositive(n);
    TickAt(l, h, d);
    if n.Int? && n.i >= 2 {
      CountBetween(l, h, d, 2, 20);
    } else if n.Float? && n.x > 1.0 {
      CountBetween(l, h, d, 1, 10);
    }
  }

  lemma MultipleDivides(m: int, d: int)
    requires d > 0
    ensures Multiple(m, d) % d == 0 && Multiple(m, d) / d == m
  {
    var x := m * d;
    assert x == x / d * d + x % d;
    if x / d < m {
      Grows(x / d + 1, m, d);
    } else if x / d > m {
      Grows(m + 1, x / d, d);
    }
  }

  lemma TickBetween(lo: real, hi: real, x: int, d: int)
    requires d > 0 && x % d == 0
    ensures lo < x as real <= hi <==> Floored(lo, d) + 1 <= x / d < Floored(hi, d) + 1
  {
    assert x == x / d * d;
    Compared(lo, x / d, d);
    Compared(hi, x / d, d);
  }

  lemma Compared(y: real, m: int, d: int)
    requires d > 0
    ensures (m * d) as real <= y <==> m <= Floored(y, d)
  {
    hide Floored;
    FlooredBounds(y, d);
    if m <= Floored(y, d) {
      Grows(m, Floored(y, d), d);
    } else {
      Grows(Floored(y, d) + 1, m, d);
    }
  }

  lemma Distributes(a: int, k: int, d: int)
    ensures (a + k) * d == a * d + k * d
  {
  }

  lemma Cancels(a: int, b: int, d: int)
    requires d > 0 && a * d < b * d
    ensures a < b
  {
    if a >= b {
      Grows(b, a, d);
    }
  }

  lemma CountBetween(lo: real, hi: real, d: int, least: int, most: int)
    requires d > 0 && (least * d) as real <= hi - lo <= (most * d) as real
    ensures least <= Floored(hi, d) - Floored(lo, d) <= most
  {
    hide Floored;
    var a, b := Floored(lo, d), Floored(hi, d);
    FlooredBounds(lo, d);
    FlooredBounds(hi, d);
    Distributes(a, 1, d);
    Distributes(a, least, d);
    Distributes(a, most + 1, d);
    Distributes(b, 1, d);
    Cancels(a + least, b + 1, d);
    Cancels(b, a + most + 1, d);
  }
}
