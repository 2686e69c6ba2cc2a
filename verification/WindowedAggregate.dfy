/** Readings summed or averaged over consecutive windows of a fixed length. */
module WindowedAggregate {
  import opened Wrappers
  import opened Arithmetic
  import opened Sequences
  import opened StableSort
  import opened Durations

  datatype Reading = Reading(time: int, value: int)

  datatype AggregateMethod = Avg | Sum

  datatype Command = Command(
    data: seq<Reading>,
    start: Option<int>,
    end: Option<int>,
    how: AggregateMethod,
    window: Duration,
    timezoneOffset: int)

  datatype Frame = Frame(start: int, end: int)

  datatype Window = Window(start: int, end: int, value: int)

  predicate Positive(c: Command) {
    0 < c.window.value
  }

  function Length(c: Command): (w: nat)
    requires Positive(c)
    ensures 0 < w
  {
    Milliseconds(c.window)
  }

  // ----- frames

  /** Steps of one window from the start until the end, the last one cut off at the end. */
  function SplitBy(start: int, w: nat, end: int): (frames: seq<Frame>)
    requires 0 < w
    decreases end - start
  {
    if start >= end then []
    else
      var next := if start + w > end then end else start + w;
      [Frame(start, next)] + SplitBy(start + w, w, end)
  }

  predicate HasRange(c: Command) {
    c.data != [] || (c.start.Some? && c.end.Some?)
  }

  function IntervalStart(c: Command): int
    requires HasRange(c)
  {
    if c.start.Some? then c.start.value else c.data[0].time
  }

  function IntervalEnd(c: Command): int
    requires HasRange(c)
  {
    if c.end.Some? then c.end.value else c.data[|c.data| - 1].time
  }

  /** The first frame starts where the interval does, not at the boundary before it. */
  function BuildFrames(c: Command): seq<Frame>
    requires Positive(c)
  {
    if !HasRange(c) then []
    else
      var frames := SplitBy(RoundDate(Length(c), IntervalStart(c)), Length(c), IntervalEnd(c));
      if frames == [] then [] else [Frame(IntervalStart(c), frames[0].end)] + frames[1..]
  }

  // ----- aggregation

  function TimeOf(r: Reading): int {
    r.time
  }

  function Offset(c: Command): int {
    c.timezoneOffset * 60 * 1000
  }

  function ShiftedTime(t: Option<int>, offset: int): Option<int> {
    if t.Some? then Some(t.value - offset) else None
  }

  function ShiftedData(data: seq<Reading>, offset: int): (r: seq<Reading>)
    ensures |r| == |data|
  {
    seq(|data|, i requires 0 <= i < |data| => Reading(data[i].time - offset, data[i].value))
  }

  function OffsetByTimezone(c: Command): Command {
    if c.timezoneOffset == 0 then c
    else c.(start := ShiftedTime(c.start, Offset(c)), end := ShiftedTime(c.end, Offset(c)),
            data := ShiftedData(c.data, Offset(c)))
  }

  function After(data: seq<Reading>, start: Option<int>): seq<Reading> {
    if data == [] then []
    else
      var n := |data| - 1;
      After(data[..n], start) + if start.None? || data[n].time > start.value then [data[n]] else []
  }

  /** The values of the readings whose times round up to the given boundary. */
  function ValuesAt(w: nat, data: seq<Reading>, key: int): seq<int>
    requires 0 < w
  {
    if data == [] then []
    else
      var n := |data| - 1;
      ValuesAt(w, data[..n], key) + if RoundDateUp(w, data[n].time) == key then [data[n].value] else []
  }

  function Identity(v: int): int {
    v
  }

  function Total(values: seq<int>): int {
    SumOf(Identity, values)
  }

  function Combined(how: AggregateMethod, values: seq<int>): int {
    if values == [] then 0
    else match how
      case Sum => Total(values)
      case Avg => Quotient(Total(values), |values|)
  }

  function WindowOf(w: nat, how: AggregateMethod, dataset: seq<Reading>, f: Frame): Window
    requires 0 < w
  {
    Window(f.start, f.end, Combined(how, ValuesAt(w, dataset, RoundDateUp(w, f.end))))
  }

  function WindowsOf(w: nat, how: AggregateMethod, dataset: seq<Reading>, frames: seq<Frame>): (r: seq<Window>)
    requires 0 < w
    ensures |r| == |frames|
  {
    seq(|frames|, i requires 0 <= i < |frames| => WindowOf(w, how, dataset, frames[i]))
  }

  /** The command as the computation sees it: readings in the order of their times, everything shifted by the offset. */
  function Prepared(c: Command): Command {
    OffsetByTimezone(c.(data := Sort(TimeOf, c.data)))
  }

  function Aggregate(c: Command): seq<Window>
    requires Positive(c)
  {
    var p := Prepared(c);
    WindowsOf(Length(c), c.how, After(p.data, p.start), BuildFrames(p))
  }

  lemma ValuesAtStep(w: nat, data: seq<Reading>, r: Reading, key: int)
    requires 0 < w
    ensures ValuesAt(w, data + [r], key) ==
            if RoundDateUp(w, r.time) == key then ValuesAt(w, data, key) + [r.value] else ValuesAt(w, data, key)
  {
    assert (data + [r])[..|data|] == data;
  }

  /** Groups the values of the readings by their rounded times. */
  method GroupByInterval(w: nat, dataset: seq<Reading>) returns (groupedByInterval: map<int, seq<int>>)
    requires 0 < w
    ensures forall key :: key in groupedByInterval <==> ValuesAt(w, dataset, key) != []
    ensures forall key :: key in groupedByInterval ==> groupedByInterval[key] == ValuesAt(w, dataset, key)
  {
    groupedByInterval := map[];
    for i := 0 to |dataset|
      invariant forall key :: key in groupedByInterval <==> ValuesAt(w, dataset[..i], key) != []
      invariant forall key :: key in groupedByInterval ==> groupedByInterval[key] == ValuesAt(w, dataset[..i], key)
    {
      hide RoundDateUp, ValuesAt;
      assert dataset[..i + 1] == dataset[..i] + [dataset[i]];
      forall key
        ensures ValuesAt(w, dataset[..i + 1], key) ==
                if RoundDateUp(w, dataset[i].time) == key then ValuesAt(w, dataset[..i], key) + [dataset[i].value]
                else ValuesAt(w, dataset[..i], key)
      {
        ValuesAtStep(w, dataset[..i], dataset[i], key);
      }
      var key := RoundDateUp(w, dataset[i].time);
      var values := if key in groupedByInterval then groupedByInterval[key] else [];
      groupedByInterval := groupedByInterval[key := values + [dataset[i].value]];
    }
    assert dataset[..|dataset|] == dataset;
  }

  /** The computation itself: the values are grouped once, and every frame looks up its group. */
  method AggregateReadings(c: Command) returns (windows: seq<Window>)
    requires Positive(c)
    ensures windows == Aggregate(c)
  {
    var w := Length(c);
    var p := Prepared(c);
    var dataset := After(p.data, p.start);
    var groupedByInterval := GroupByInterval(w, dataset);
    var frames := BuildFrames(p);
    hide RoundDateUp, ValuesAt, Combined, BuildFrames, After;
    NothingCombined(c.how);
    windows := [];
    for i := 0 to |frames|
      invariant windows == WindowsOf(w, c.how, dataset, frames[..i])
    {
      var key := RoundDateUp(w, frames[i].end);
      var value := if key in groupedByInterval then Combined(c.how, groupedByInterval[key]) else 0;
      windows := windows + [Window(frames[i].start, frames[i].end, value)];
    }
    assert frames[..|frames|] == frames;
  }

  lemma NothingCombined(how: AggregateMethod)
    ensures Combined(how, []) == 0
  {
  }

  // ----- frames tile the interval

  lemma {:induction false} SplitTiles(start: int, w: nat, end: int)
    requires 0 < w
    ensures SplitBy(start, w, end) == [] <==> end <= start
    ensures SplitBy(start, w, end) != [] ==> LastEnd(SplitBy(start, w, end)) == end
    ensures forall i :: 0 <= i < |SplitBy(start, w, end)| ==> IsFrame(start, w, end, i, SplitBy(start, w, end)[i])
    decreases end - start
  {
    if start < end {
      SplitTiles(start + w, w, end);
      var rest := SplitBy(start + w, w, end);
      var frames := SplitBy(start, w, end);
      forall i | 0 <= i < |frames| ensures IsFrame(start, w, end, i, frames[i]) {
        if i > 0 {
          assert frames[i] == rest[i - 1];
          assert start + w + (i - 1) * w == start + i * w;
        }
      }
    }
  }

  function LastEnd(frames: seq<Frame>): int
    requires frames != []
  {
    frames[|frames| - 1].end
  }

  /** The i-th window from the start, cut off at the end. */
  ghost predicate IsFrame(start: int, w: nat, end: int, i: nat, f: Frame) {
    f.start == start + i * w < end && f.end == if start + i * w + w > end then end else start + i * w + w
  }

  /**
   * The frames follow one another without gap or overlap, from the start of the interval to its end,
   * and all their inner boundaries are window boundaries.
   */
  lemma FramesTile(c: Command)
    requires Positive(c) && HasRange(c)
    ensures var frames := BuildFrames(c);
            && (frames == [] <==> IntervalEnd(c) <= RoundDate(Length(c), IntervalStart(c)))
            && (frames != [] ==> frames[0].start == IntervalStart(c) && frames[|frames| - 1].end == IntervalEnd(c))
            && (forall i :: 0 < i < |frames| ==>
                  frames[i - 1].end == frames[i].start && Boundary(Length(c), frames[i].start)
                    && frames[i].start < frames[i].end)
            && (frames != [] && IntervalStart(c) < IntervalEnd(c) ==> frames[0].start < frames[0].end)
  {
    var w, s := Length(c), RoundDate(Length(c), IntervalStart(c));
    SplitTiles(s, w, IntervalEnd(c));
    RoundDateFacts(w, IntervalStart(c));
    var frames, split := BuildFrames(c), SplitBy(s, w, IntervalEnd(c));
    assert split != [] ==> IsFrame(s, w, IntervalEnd(c), 0, split[0]);
    hide RoundDate, SplitBy;
    if split != [] {
      forall i | 0 < i < |frames|
        ensures frames[i - 1].end == frames[i].start && Boundary(w, frames[i].start) && frames[i].start < frames[i].end
      {
        assert frames[i] == split[i] && frames[i - 1].end == split[i - 1].end;
        BoundaryStep(w, s, i);
        assert IsFrame(s, w, IntervalEnd(c), i - 1, split[i - 1]) && IsFrame(s, w, IntervalEnd(c), i, split[i]);
        assert s + (i - 1) * w + w == s + i * w;
      }
    }
  }

  lemma BoundaryStep(w: nat, s: int, i: int)
    requires 0 < w && Boundary(w, s)
    ensures Boundary(w, s + i * w)
  {
    assert s + i * w == (s / w + i) * w;
    BoundaryIsMultiple(w, s / w + i);
  }

  // ----- every reading belongs to one frame

  /** The reading's time rounds up to where the frame's end does. */
  ghost predicate InFrame(w: nat, f: Frame, t: int)
    requires 0 < w
  {
    RoundDateUp(w, t) == RoundDateUp(w, f.end)
  }

  lemma FrameKey(start: int, w: nat, end: int, i: nat, f: Frame)
    requires 0 < w && Boundary(w, start) && IsFrame(start, w, end, i, f)
    ensures RoundDateUp(w, f.end) == start + i * w + w
    ensures Boundary(w, start + i * w) && Boundary(w, start + i * w + w)
  {
    BoundaryStep(w, start, i);
    BoundaryStep(w, start + i * w, 1);
    RoundsUpTo(w, f.end, start + i * w + w);
  }

  lemma KeysDiffer(start: int, w: nat, i: nat, j: nat)
    requires 0 < w && i < j
    ensures start + i * w + w <= start + j * w
  {
    assert (j - i - 1) * w >= 0;
    assert start + j * w == start + i * w + w + (j - i - 1) * w;
  }

  /** The place of the window that ends at a boundary. */
  lemma PlaceOf(start: int, w: nat, b: int) returns (i: nat)
    requires 0 < w && Boundary(w, start) && Boundary(w, b) && start < b
    ensures b == start + i * w + w
  {
    BoundariesApart(w, start, b);
    i := (b - start) / w - 1;
    assert b == b / w * w && start == start / w * w;
    assert b - start == (b / w - start / w) * w;
    BoundaryIsMultiple(w, b / w - start / w);
    assert b - start == (i + 1) * w;
  }

  /** A frame for every time after the first boundary and up to the last one, and never two frames for the same time. */
  lemma ReadingHasOneFrame(start: int, w: nat, end: int, t: int)
    requires 0 < w && Boundary(w, start)
    ensures var frames := SplitBy(start, w, end);
            && ((exists i :: 0 <= i < |frames| && InFrame(w, frames[i], t)) <==> start < t <= RoundDateUp(w, end))
            && (forall i, j ::
                  0 <= i < |frames| && 0 <= j < |frames| && InFrame(w, frames[i], t) && InFrame(w, frames[j], t) ==>
                    i == j)
  {
    var frames := SplitBy(start, w, end);
    SplitTiles(start, w, end);
    RoundDateUpFacts(w, t);
    RoundDateUpFacts(w, end);
    hide SplitBy, RoundDateUp, Boundary;
    forall i | 0 <= i < |frames| && InFrame(w, frames[i], t) ensures start < t <= RoundDateUp(w, end) {
      FrameKey(start, w, end, i, frames[i]);
      RoundsUpTo(w, t, start + i * w + w);
      RoundsUpMonotone(w, frames[i].end, RoundDateUp(w, end));
      assert i * w >= 0;
    }
    forall i, j | 0 <= i < j < |frames| ensures !(InFrame(w, frames[i], t) && InFrame(w, frames[j], t)) {
      FrameKey(start, w, end, i, frames[i]);
      FrameKey(start, w, end, j, frames[j]);
      KeysDiffer(start, w, i, j);
    }
    if start < t <= RoundDateUp(w, end) {
      var i := PlaceOf(start, w, RoundDateUp(w, t));
      FrameAt(start, w, end, t, i);
      assert InFrame(w, frames[i], t) by { FrameKey(start, w, end, i, frames[i]); }
    }
  }

  /** Every time from the first boundary on, up to the end rounded up, belongs to exactly one of the frames. */
  lemma EachTimeInOneFrame(c: Command, t: int)
    requires Positive(c) && HasRange(c)
    ensures var w, frames := Length(c), BuildFrames(c);
            && ((exists i :: 0 <= i < |frames| && InFrame(w, frames[i], t)) <==>
                RoundDate(w, IntervalStart(c)) < t <= RoundDateUp(w, IntervalEnd(c)))
            && (forall i, j ::
                  0 <= i < |frames| && 0 <= j < |frames| && InFrame(w, frames[i], t) && InFrame(w, frames[j], t) ==>
                    i == j)
  {
    var w, start := Length(c), RoundDate(Length(c), IntervalStart(c));
    RoundDateFacts(w, IntervalStart(c));
    ReadingHasOneFrame(start, w, IntervalEnd(c), t);
    SameEnds(c);
    hide SplitBy, BuildFrames, RoundDate, RoundDateUp, IntervalStart, IntervalEnd, Length;
    var split, frames := SplitBy(start, w, IntervalEnd(c)), BuildFrames(c);
    forall i | 0 <= i < |frames| ensures InFrame(w, frames[i], t) == InFrame(w, split[i], t) { }
    hide InFrame;
    if i :| 0 <= i < |split| && InFrame(w, split[i], t) {
      assert InFrame(w, frames[i], t);
    }
  }

  lemma SameEnds(c: Command)
    requires Positive(c) && HasRange(c)
    ensures var split := SplitBy(RoundDate(Length(c), IntervalStart(c)), Length(c), IntervalEnd(c));
            var frames := BuildFrames(c);
            |frames| == |split| && forall i :: 0 <= i < |frames| ==> frames[i].end == split[i].end
  {
  }

  lemma FrameAt(start: int, w: nat, end: int, t: int, i: nat)
    requires 0 < w && Boundary(w, start) && RoundDateUp(w, t) == start + i * w + w && t <= RoundDateUp(w, end)
    ensures i < |SplitBy(start, w, end)|
  {
    RoundDateUpFacts(w, end);
    RoundDateUpFacts(w, t);
    BoundaryStep(w, start, i);
    RoundsUpMonotone(w, t, RoundDateUp(w, end));
    if end <= start + i * w {
      RoundsUpMonotone(w, end, start + i * w);
    }
    EnoughFrames(start, w, end, i);
  }

  lemma {:induction false} EnoughFrames(start: int, w: nat, end: int, i: nat)
    requires 0 < w && start + i * w < end
    ensures i < |SplitBy(start, w, end)|
    decreases i
  {
    if i > 0 {
      assert start + w + (i - 1) * w == start + i * w;
      assert i * w >= w by { KeysDiffer(0, w, 0, i); }
      EnoughFrames(start + w, w, end, i - 1);
    }
  }

  // ----- sums are conserved

  /** The value of a reading that lies behind one time and not behind another. */
  function ValueIn(lo: int, hi: int): Reading -> int {
    (r: Reading) => if lo < r.time <= hi then r.value else 0
  }

  function ValueUpTo(hi: int): Reading -> int {
    (r: Reading) => if r.time <= hi then r.value else 0
  }

  function ValueAt(time: int): Reading -> int {
    (r: Reading) => if r.time == time then r.value else 0
  }

  function WindowValue(window: Window): int {
    window.value
  }

  function TotalOf(windows: seq<Window>): int {
    SumOf(WindowValue, windows)
  }

  lemma {:induction false} ValuesOfOneWindow(w: nat, data: seq<Reading>, b: int)
    requires 0 < w && Boundary(w, b)
    ensures Total(ValuesAt(w, data, b)) == SumOf(ValueIn(b - w, b), data)
  {
    hide RoundDateUp, Boundary;
    if data != [] {
      var n := |data| - 1;
      ValuesOfOneWindow(w, data[..n], b);
      RoundsUpTo(w, data[n].time, b);
      assert data == data[..n] + [data[n]];
      ValuesAtStep(w, data[..n], data[n], b);
      SumOfAppend(Identity, ValuesAt(w, data[..n], b), data[n].value);
    }
  }

  lemma {:induction false} RangesJoin(data: seq<Reading>, lo: int, mid: int, hi: int)
    requires lo <= mid <= hi
    ensures SumOf(ValueIn(lo, hi), data) == SumOf(ValueIn(lo, mid), data) + SumOf(ValueIn(mid, hi), data)
  {
    if data != [] {
      RangesJoin(data[..|data| - 1], lo, mid, hi);
    }
  }

  lemma {:induction false} SameSums<T>(v: T -> int, v': T -> int, data: seq<T>)
    requires forall i :: 0 <= i < |data| ==> v(data[i]) == v'(data[i])
    ensures SumOf(v, data) == SumOf(v', data)
  {
    if data != [] {
      SameSums(v, v', data[..|data| - 1]);
    }
  }

  lemma {:induction false} EmptyRange(data: seq<Reading>, lo: int, hi: int)
    requires hi <= lo
    ensures SumOf(ValueIn(lo, hi), data) == 0
  {
    if data != [] {
      EmptyRange(data[..|data| - 1], lo, hi);
    }
  }

  lemma WindowsCons(w: nat, how: AggregateMethod, data: seq<Reading>, f: Frame, rest: seq<Frame>)
    requires 0 < w
    ensures TotalOf(WindowsOf(w, how, data, [f] + rest)) ==
            WindowOf(w, how, data, f).value + TotalOf(WindowsOf(w, how, data, rest))
  {
    hide WindowOf;
    assert WindowsOf(w, how, data, [f] + rest) == [WindowOf(w, how, data, f)] + WindowsOf(w, how, data, rest);
    SumOfConcat(WindowValue, [WindowOf(w, how, data, f)], WindowsOf(w, how, data, rest));
    SumOfAppend(WindowValue, [], WindowOf(w, how, data, f));
    assert [] + [WindowOf(w, how, data, f)] == [WindowOf(w, how, data, f)];
  }

  lemma SumOfFrame(w: nat, data: seq<Reading>, f: Frame, b: int)
    requires 0 < w && Boundary(w, b) && RoundDateUp(w, f.end) == b
    ensures WindowOf(w, Sum, data, f).value == SumOf(ValueIn(b - w, b), data)
  {
    ValuesOfOneWindow(w, data, b);
  }

  lemma {:induction false} SplitConserves(start: int, w: nat, end: int, data: seq<Reading>)
    requires 0 < w && Boundary(w, start)
    ensures TotalOf(WindowsOf(w, Sum, data, SplitBy(start, w, end))) == SumOf(ValueIn(start, RoundDateUp(w, end)), data)
    decreases end - start
  {
    var last := RoundDateUp(w, end);
    RoundDateUpFacts(w, end);
    RoundsUpMonotone(w, end, start);
    hide RoundDateUp, WindowOf, Boundary;
    if end <= start {
      EmptyRange(data, start, last);
    } else {
      var f := SplitBy(start, w, end)[0];
      var rest := SplitBy(start + w, w, end);
      assert start + 0 * w + w == start + w;
      FrameKey(start, w, end, 0, f);
      BoundariesApart(w, start, last);
      SplitConserves(start + w, w, end, data);
      SumOfFrame(w, data, f, start + w);
      RangesJoin(data, start, start + w, last);
      WindowsCons(w, Sum, data, f, rest);
    }
  }

  /** The sums of the windows depend on the ends of the frames only. */
  lemma FramesConserve(c: Command, data: seq<Reading>)
    requires Positive(c) && HasRange(c)
    ensures var w := Length(c);
            TotalOf(WindowsOf(w, Sum, data, BuildFrames(c))) ==
            SumOf(ValueIn(RoundDate(w, IntervalStart(c)), RoundDateUp(w, IntervalEnd(c))), data)
  {
    var w, start, end := Length(c), RoundDate(Length(c), IntervalStart(c)), IntervalEnd(c);
    RoundDateFacts(w, IntervalStart(c));
    SplitConserves(start, w, end, data);
    var split := SplitBy(start, w, end);
    if split != [] {
      hide SplitBy, RoundDate, RoundDateUp;
      assert split == [split[0]] + split[1..];
      WindowsCons(w, Sum, data, split[0], split[1..]);
      WindowsCons(w, Sum, data, Frame(IntervalStart(c), split[0].end), split[1..]);
    }
  }

  /** The later of a start, if there is one, and a boundary. */
  function Behind(start: Option<int>, lo: int): int {
    if start.Some? && lo < start.value then start.value else lo
  }

  lemma KeptValue(start: Option<int>, lo: int, hi: int, r: Reading)
    ensures ValueIn(Behind(start, lo), hi)(r) == if start.None? || r.time > start.value then ValueIn(lo, hi)(r) else 0
  {
  }

  lemma {:induction false} AfterKeepsRange(data: seq<Reading>, start: Option<int>, lo: int, hi: int)
    ensures SumOf(ValueIn(lo, hi), After(data, start)) == SumOf(ValueIn(Behind(start, lo), hi), data)
  {
    hide ValueIn, Behind;
    if data != [] {
      var n := |data| - 1;
      AfterKeepsRange(data[..n], start, lo, hi);
      KeptValue(start, lo, hi, data[n]);
      SumOfAppend(ValueIn(lo, hi), After(data[..n], start), data[n]);
      assert After(data[..n], start) + [] == After(data[..n], start);
    }
  }

  lemma {:induction false} ShiftKeepsRange(data: seq<Reading>, offset: int, lo: int, hi: int)
    ensures SumOf(ValueIn(lo, hi), ShiftedData(data, offset)) == SumOf(ValueIn(lo + offset, hi + offset), data)
  {
    if data != [] {
      var n := |data| - 1;
      ShiftKeepsRange(data[..n], offset, lo, hi);
      assert ShiftedData(data, offset)[..n] == ShiftedData(data[..n], offset);
    }
  }

  /** Sums over the prepared readings are sums over the given ones, in the given times. */
  lemma PreparedSums(c: Command, lo: int, hi: int)
    ensures SumOf(ValueIn(lo, hi), Prepared(c).data) == SumOf(ValueIn(lo + Offset(c), hi + Offset(c)), c.data)
  {
    hide Sort;
    SumOfSort(TimeOf, ValueIn(lo + Offset(c), hi + Offset(c)), c.data);
    if c.timezoneOffset != 0 {
      ShiftKeepsRange(Sort(TimeOf, c.data), Offset(c), lo, hi);
    }
  }

  /** The boundary that closes the last window, in the given times. */
  function LastBoundary(c: Command): int
    requires Positive(c) && HasRange(c)
  {
    RoundDateUp(Length(c), IntervalEnd(Prepared(c))) + Offset(c)
  }

  lemma PreparedRange(c: Command)
    ensures HasRange(Prepared(c)) == HasRange(c)
    ensures Prepared(c).start == ShiftedTime(c.start, Offset(c)) && Prepared(c).window == c.window
    ensures |Prepared(c).data| == |c.data|
  {
    hide Sort;
  }

  /** The first boundary of the windows, in the shifted times. */
  function FirstBoundary(c: Command): int
    requires Positive(c) && HasRange(c)
  {
    RoundDate(Length(c), IntervalStart(Prepared(c)))
  }

  lemma AggregateOfDataset(c: Command)
    requires Positive(c) && c.how == Sum && HasRange(c)
    ensures var p := Prepared(c);
            TotalOf(Aggregate(c)) ==
            SumOf(ValueIn(FirstBoundary(c), LastBoundary(c) - Offset(c)), After(p.data, p.start))
  {
    var p := Prepared(c);
    PreparedRange(c);
    assert Length(p) == Length(c);
    FramesConserve(p, After(p.data, p.start));
    hide Prepared, RoundDateUp, BuildFrames, After, WindowsOf, RoundDate, SumOf, IntervalEnd, IntervalStart, Length,
         Offset, ValueIn, TotalOf;
  }

  lemma AggregateSums(c: Command)
    requires Positive(c) && c.how == Sum && HasRange(c)
    ensures TotalOf(Aggregate(c)) ==
            SumOf(ValueIn(Behind(ShiftedTime(c.start, Offset(c)), FirstBoundary(c)) + Offset(c), LastBoundary(c)),
                  c.data)
  {
    hide Prepared, After, SumOf, Offset, ValueIn, TotalOf, Aggregate, FirstBoundary, LastBoundary, Behind, ShiftedTime,
         HasRange;
    PreparedRange(c);
    AggregateOfDataset(c);
    var p, lo, hi := Prepared(c), FirstBoundary(c), LastBoundary(c) - Offset(c);
    AfterKeepsRange(p.data, p.start, lo, hi);
    PreparedSums(c, Behind(p.start, lo), hi);
  }

  /**
   * Window conservation: with a start, the values of all windows add up to the values of exactly those
   * readings that lie behind the start and not behind the end rounded up to a window boundary.
   */
  lemma {:induction false} WindowsConserve(c: Command)
    requires Positive(c) && c.how == Sum && c.start.Some? && HasRange(c)
    ensures TotalOf(Aggregate(c)) == SumOf(ValueIn(c.start.value, LastBoundary(c)), c.data)
  {
    AggregateSums(c);
    PreparedRange(c);
    hide Prepared, Aggregate, LastBoundary, RoundDate, Offset;
    StartBehindBoundary(Length(c), c.start.value - Offset(c));
  }

  lemma StartBehindBoundary(w: nat, t: int)
    requires 0 < w
    ensures RoundDate(w, t) <= t
  {
    RoundDateFacts(w, t);
  }

  lemma EarliestFirst(c: Command)
    requires c.data != []
    ensures forall i :: 0 <= i < |c.data| ==> Prepared(c).data[0].time + Offset(c) <= c.data[i].time
    ensures exists i :: 0 <= i < |c.data| && Prepared(c).data[0].time + Offset(c) == c.data[i].time
  {
    var sorted := Sort(TimeOf, c.data);
    SortIsOrdered(TimeOf, c.data);
    hide Sort;
    assert sorted[0] in multiset(sorted);
    var k := MemberAt(c.data, sorted[0]);
    forall i | 0 <= i < |c.data| ensures sorted[0].time <= c.data[i].time {
      assert c.data[i] in multiset(c.data);
      var j := MemberAt(sorted, c.data[i]);
      assert j > 0 ==> TimeOf(sorted[0]) <= TimeOf(sorted[j]);
    }
  }

  /**
   * Without a start, the windows begin at the boundary before the earliest reading; a reading that is
   * on that boundary itself belongs to no window.
   */
  lemma WindowsWithoutStart(c: Command)
    requires Positive(c) && c.how == Sum && c.start.None? && c.data != []
    ensures var first := Prepared(c).data[0].time;
            TotalOf(Aggregate(c)) ==
            SumOf(if Boundary(Length(c), first) then ValueIn(first + Offset(c), LastBoundary(c))
                  else ValueUpTo(LastBoundary(c)), c.data)
  {
    AggregateSums(c);
    PreparedRange(c);
    EarliestFirst(c);
    hide Prepared, Aggregate, LastBoundary, RoundDate, Offset;
    var w, first := Length(c), Prepared(c).data[0].time;
    RoundDateFacts(w, first);
    if Boundary(w, first) {
      OnBoundary(w, first);
    } else {
      SameSums(ValueIn(FirstBoundary(c) + Offset(c), LastBoundary(c)), ValueUpTo(LastBoundary(c)), c.data);
    }
  }

  lemma OnBoundary(w: nat, t: int)
    requires 0 < w && Boundary(w, t)
    ensures RoundDate(w, t) == t
  {
  }

  lemma {:induction false} SumsDiffer(data: seq<Reading>, lo: int, hi: int)
    requires forall i :: 0 <= i < |data| ==> lo <= data[i].time
    ensures SumOf(ValueUpTo(hi), data) ==
            SumOf(ValueIn(lo, hi), data) + if lo <= hi then SumOf(ValueAt(lo), data) else 0
  {
    if data != [] {
      var n := |data| - 1;
      SumsDiffer(data[..n], lo, hi);
      assert forall i :: 0 <= i < n ==> data[..n][i] == data[i];
    }
  }

  /**
   * Without a start, readings are conserved exactly when the earliest of them is not on a window boundary,
   * is itself behind the last window, or the readings at its time add up to nothing.
   */
  lemma ConservedWithoutStart(c: Command)
    requires Positive(c) && c.how == Sum && c.start.None? && c.data != []
    ensures var first := Prepared(c).data[0].time;
            TotalOf(Aggregate(c)) == SumOf(ValueUpTo(LastBoundary(c)), c.data) <==>
            || !Boundary(Length(c), first)
            || LastBoundary(c) < first + Offset(c)
            || SumOf(ValueAt(first + Offset(c)), c.data) == 0
  {
    WindowsWithoutStart(c);
    EarliestFirst(c);
    hide Prepared, Aggregate, LastBoundary, Boundary;
    SumsDiffer(c.data, Prepared(c).data[0].time + Offset(c), LastBoundary(c));
  }

  lemma {:induction false} PositiveAt(data: seq<Reading>, time: int)
    requires forall i :: 0 <= i < |data| ==> data[i].value > 0
    ensures 0 <= SumOf(ValueAt(time), data)
    ensures SumOf(ValueAt(time), data) == 0 <==> forall i :: 0 <= i < |data| ==> data[i].time != time
  {
    if data != [] {
      var n := |data| - 1;
      PositiveAt(data[..n], time);
      assert forall i :: 0 <= i < n ==> data[..n][i] == data[i];
    }
  }

  /** For positive readings the last of the three cannot be. */
  lemma PositiveConservedWithoutStart(c: Command)
    requires Positive(c) && c.how == Sum && c.start.None? && c.data != []
    requires forall i :: 0 <= i < |c.data| ==> c.data[i].value > 0
    ensures var first := Prepared(c).data[0].time;
            TotalOf(Aggregate(c)) == SumOf(ValueUpTo(LastBoundary(c)), c.data) <==>
            !Boundary(Length(c), first) || LastBoundary(c) < first + Offset(c)
  {
    ConservedWithoutStart(c);
    EarliestFirst(c);
    hide Prepared, Aggregate, LastBoundary, Boundary;
    PositiveAt(c.data, Prepared(c).data[0].time + Offset(c));
  }

  /** Of two readings one second apart, the first on the full minute, only the second is counted. */
  lemma AlignedReadingIsLost()
    ensures var c := Command([Reading(0, 5), Reading(1_000, 7)], None, None, Sum, Duration(1, Minutes), 0);
            TotalOf(Aggregate(c)) == 7 && SumOf(ValueUpTo(LastBoundary(c)), c.data) == 12
  {
    var data := [Reading(0, 5), Reading(1_000, 7)];
    var c := Command(data, None, None, Sum, Duration(1, Minutes), 0);
    SortOfOrdered(TimeOf, data);
    assert Prepared(c) == c;
    assert LastBoundary(c) == 60_000;
    WindowsWithoutStart(c);
    hide Aggregate, LastBoundary;
    assert data == [] + [data[0]] + [data[1]];
    SumOfAppend(ValueIn(0, 60_000), [] + [data[0]], data[1]);
    SumOfAppend(ValueIn(0, 60_000), [], data[0]);
    SumOfAppend(ValueUpTo(60_000), [] + [data[0]], data[1]);
    SumOfAppend(ValueUpTo(60_000), [], data[0]);
  }

  // ----- averages

  /** An average times the number of its readings misses their sum by less than that number. */
  lemma AverageOfWindow(values: seq<int>)
    requires values != []
    ensures var difference := Total(values) - Combined(Avg, values) * |values|;
            && -|values| < difference < |values|
            && (0 <= Total(values) ==> 0 <= difference)
            && (Total(values) <= 0 ==> difference <= 0)
  {
  }

  // ----- what a window is taken over

  /** The readings behind the start, if there is one, that lie behind one boundary and not behind another. */
  function Those(data: seq<Reading>, start: Option<int>, lo: int, hi: int): seq<Reading> {
    if data == [] then []
    else
      var n := |data| - 1;
      Those(data[..n], start, lo, hi) +
      if (start.Some? ==> start.value < data[n].time) && lo < data[n].time <= hi then [data[n]] else []
  }

  function ValueOf(r: Reading): int {
    r.value
  }

  lemma {:induction false} ThoseAreValues(w: nat, data: seq<Reading>, start: Option<int>, b: int)
    requires 0 < w && Boundary(w, b)
    ensures var values, those := ValuesAt(w, After(data, start), b), Those(data, start, b - w, b);
            |values| == |those| && Total(values) == SumOf(ValueOf, those)
  {
    hide RoundDateUp, Boundary;
    if data != [] {
      var n := |data| - 1;
      ThoseAreValues(w, data[..n], start, b);
      RoundsUpTo(w, data[n].time, b);
      var before, those := After(data[..n], start), Those(data[..n], start, b - w, b);
      assert before + [] == before && those + [] == those;
      ValuesAtStep(w, before, data[n], b);
      SumOfAppend(Identity, ValuesAt(w, before, b), data[n].value);
      SumOfAppend(ValueOf, those, data[n]);
    }
  }

  /** Frames are windows of one length, from the boundary at or before their start to the one at or after their end. */
  lemma FrameSpansWindow(c: Command, i: nat)
    requires Positive(c) && i < |BuildFrames(c)|
    ensures var w, f := Length(c), BuildFrames(c)[i];
            RoundDateUp(w, f.end) == RoundDate(w, f.start) + w && Boundary(w, RoundDateUp(w, f.end))
  {
    var w, s := Length(c), RoundDate(Length(c), IntervalStart(c));
    RoundDateFacts(w, IntervalStart(c));
    SplitTiles(s, w, IntervalEnd(c));
    var split := SplitBy(s, w, IntervalEnd(c));
    FrameKey(s, w, IntervalEnd(c), i, split[i]);
    assert i == 0 ==> s + i * w == s;
    OnBoundary(w, s + i * w);
  }

  /**
   * A window has the start and the end of its frame, and its value is the sum, or the truncated average,
   * of exactly those readings behind the start that lie in the frame's window; it is 0 if there are none.
   */
  lemma WindowIsOfItsReadings(c: Command, i: nat)
    requires Positive(c) && i < |Aggregate(c)|
    ensures var p, w := Prepared(c), Length(c);
            && |Aggregate(c)| == |BuildFrames(p)|
            && var f, window := BuildFrames(p)[i], Aggregate(c)[i];
               var those := Those(p.data, p.start, RoundDate(w, f.start), RoundDateUp(w, f.end));
               && window.start == f.start && window.end == f.end
               && window.value == if those == [] then 0
                                  else if c.how == Sum then SumOf(ValueOf, those)
                                  else Quotient(SumOf(ValueOf, those), |those|)
  {
    var p, w := Prepared(c), Length(c);
    PreparedRange(c);
    assert Length(p) == w;
    var f := BuildFrames(p)[i];
    FrameSpansWindow(p, i);
    ThoseAreValues(w, p.data, p.start, RoundDateUp(w, f.end));
    hide Prepared, BuildFrames, RoundDate, RoundDateUp, Boundary, ValuesAt, After, Those, Total, SumOf, Length;
  }

  /** A time of which one reading is, and all others are not before it. */
  ghost predicate Earliest(data: seq<Reading>, t: int) {
    && (exists i :: 0 <= i < |data| && data[i].time == t)
    && (forall i :: 0 <= i < |data| ==> t <= data[i].time)
  }

  ghost predicate Latest(data: seq<Reading>, t: int) {
    && (exists i :: 0 <= i < |data| && data[i].time == t)
    && (forall i :: 0 <= i < |data| ==> data[i].time <= t)
  }

  lemma FirstIsEarliest(c: Command)
    requires c.data != []
    ensures Earliest(c.data, Prepared(c).data[0].time + Offset(c))
  {
    EarliestFirst(c);
    hide Sort;
  }

  lemma LatestLast(c: Command)
    requires c.data != []
    ensures Latest(c.data, Prepared(c).data[|c.data| - 1].time + Offset(c))
  {
    var sorted, n := Sort(TimeOf, c.data), |c.data| - 1;
    SortIsOrdered(TimeOf, c.data);
    hide Sort;
    assert sorted[n] in multiset(sorted);
    var k := MemberAt(c.data, sorted[n]);
    forall i | 0 <= i < |c.data| ensures c.data[i].time <= sorted[n].time {
      assert c.data[i] in multiset(c.data);
      var j := MemberAt(sorted, c.data[i]);
      assert j < n ==> TimeOf(sorted[j]) <= TimeOf(sorted[n]);
    }
  }

  /**
   * The windows reach from the start that was asked for, or else the earliest reading, to the end that
   * was asked for, or else the latest reading; without any of these there are none.
   */
  lemma WindowsSpan(c: Command)
    requires Positive(c)
    ensures c.data == [] && (c.start.None? || c.end.None?) ==> Aggregate(c) == []
    ensures Aggregate(c) != [] ==>
              var first, last := Aggregate(c)[0].start + Offset(c), Aggregate(c)[|Aggregate(c)| - 1].end + Offset(c);
              && (if c.start.Some? then first == c.start.value else Earliest(c.data, first))
              && (if c.end.Some? then last == c.end.value else Latest(c.data, last))
  {
    PreparedRange(c);
    if HasRange(c) {
      FramesTile(Prepared(c));
      if c.data != [] {
        FirstIsEarliest(c);
        LatestLast(c);
      }
      hide Sort, BuildFrames, After, ValuesAt, RoundDate, RoundDateUp, Earliest, Latest;
    }
  }
}
