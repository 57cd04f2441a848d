/**
  Member activity: verified playback intervals are clipped to the window, merged
  and split at Beijing midnight in one pass.  A timestamp is a whole number of
  ticks (seconds), an interval is half open, and the specification is the set of
  ticks that some interval covers.
*/
module ActivityDays {
  import opened Finite

  const DAY := 86400
  const BEIJING_OFFSET := 8 * 3600

  datatype Interval = Interval(start: int, end: int)

  /** The Beijing calendar day of a tick; division floors. */
  function DayOf(t: int): int { (t + BEIJING_OFFSET) / DAY }

  function Midnight(day: int): int { day * DAY - BEIJING_OFFSET }

  // ---------------------------------------------------------------- sets of ticks

  /** The union of the intervals. */
  ghost function Covered(intervals: seq<Interval>): set<int> {
    if intervals == [] then {}
    else Span(intervals[0].start, intervals[0].end) + Covered(intervals[1..])
  }

  /** A tick is covered exactly if some interval contains it. */
  lemma {:induction false} CoveredMeans(intervals: seq<Interval>, t: int)
    ensures t in Covered(intervals) <==> exists x :: x in intervals && Within(x.start, t, x.end)
  {
    if intervals != [] {
      CoveredMeans(intervals[1..], t);
      assert intervals == [intervals[0]] + intervals[1..];
    }
  }

  ghost function OnDay(ticks: set<int>, day: int): set<int> { set t | t in ticks && DayOf(t) == day }

  /** The result the projection promises: every day some tick falls on, with how many do. */
  ghost predicate IsDaySplit(days: map<int, int>, ticks: set<int>) {
    && (forall d :: d in days <==> OnDay(ticks, d) != {})
    && (forall d :: d in days ==> days[d] == |OnDay(ticks, d)|)
  }

  ghost predicate StartOrdered(intervals: seq<Interval>) {
    forall i, j :: 0 <= i < j < |intervals| ==> intervals[i].start <= intervals[j].start
  }

  lemma DayBounds(t: int, day: int)
    ensures DayOf(t) == day <==> Midnight(day) <= t < Midnight(day + 1)
  {
  }

  // ---------------------------------------------------------------- adding one merged piece

  function Seconds(days: map<int, int>, day: int): int { if day in days then days[day] else 0 }

  lemma PieceOnDay(ticks: set<int>, start: int, stop: int, day: int, d: int)
    requires start < stop && Midnight(day) <= start && stop <= Midnight(day + 1)
    requires forall t :: t in ticks ==> t < start
    ensures d != day ==> OnDay(ticks + Span(start, stop), d) == OnDay(ticks, d)
    ensures d == day ==> OnDay(ticks + Span(start, stop), d) != {}
    ensures d == day ==> |OnDay(ticks + Span(start, stop), d)| == |OnDay(ticks, d)| + stop - start
  {
    var more := ticks + Span(start, stop);
    forall t | start <= t < stop ensures DayOf(t) == day { DayBounds(t, day); }
    if d == day {
      assert OnDay(more, d) == OnDay(ticks, d) + Span(start, stop);
      assert OnDay(ticks, d) * Span(start, stop) == {};
      SpanSize(start, stop);
      assert start in OnDay(more, d);
    } else {
      assert OnDay(more, d) == OnDay(ticks, d);
    }
  }

  /** Adding the part of a new piece that lies within one day. */
  lemma AddStep(days: map<int, int>, ticks: set<int>, start: int, stop: int, day: int)
    requires IsDaySplit(days, ticks)
    requires start < stop && Midnight(day) <= start && stop <= Midnight(day + 1)
    requires forall t :: t in ticks ==> t < start
    ensures IsDaySplit(days[day := Seconds(days, day) + (stop - start)], ticks + Span(start, stop))
  {
    var days' := days[day := Seconds(days, day) + (stop - start)];
    var ticks' := ticks + Span(start, stop);
    forall d ensures d in days' <==> OnDay(ticks', d) != {}
             ensures d in days' ==> days'[d] == |OnDay(ticks', d)|
    {
      assert (d in days <==> OnDay(ticks, d) != {}) && (d in days ==> days[d] == |OnDay(ticks, d)|);
      PieceOnDay(ticks, start, stop, day, d);
    }
  }

  method Add(days0: map<int, int>, start0: int, end: int, ghost ticks: set<int>) returns (days: map<int, int>)
    requires IsDaySplit(days0, ticks)
    requires forall t :: t in ticks ==> t < start0
    ensures IsDaySplit(days, ticks + Span(start0, end))
  {
    days := days0;
    var start := start0;
    ghost var done := ticks;
    assert start0 >= end ==> ticks + Span(start0, end) == ticks;
    while start < end
      invariant start0 < end ==> start0 <= start <= end
      invariant start0 >= end ==> start == start0
      invariant done == ticks + Span(start0, start)
      invariant IsDaySplit(days, done)
      decreases end - start
    {
      var day := (start + BEIJING_OFFSET) / DAY;
      DayBounds(start, day);
      var stop := if (day + 1) * DAY - BEIJING_OFFSET < end then (day + 1) * DAY - BEIJING_OFFSET else end;
      AddStep(days, done, start, stop, day);
      assert done + Span(start, stop) == ticks + Span(start0, stop);
      days := days[day := (if day in days then days[day] else 0) + (stop - start)];
      done := done + Span(start, stop);
      start := stop;
    }
  }

  // ---------------------------------------------------------------- the one-pass merge

  lemma {:induction false} CoveredPrefix(intervals: seq<Interval>, n: nat)
    requires n < |intervals|
    ensures Covered(intervals[..n + 1]) == Covered(intervals[..n]) + Span(intervals[n].start, intervals[n].end)
  {
    var more := intervals[..n + 1];
    if n == 0 {
      assert more[1..] == [];
    } else {
      CoveredPrefix(intervals[1..], n - 1);
      assert more[1..] == intervals[1..][..n];
      assert intervals[..n][1..] == intervals[1..][..n - 1];
    }
  }

  /**
    Each Beijing day gets exactly the number of ticks of that day which some interval
    covers; parallel intervals count once.
  */
  method DaySeconds(intervals: seq<Interval>) returns (days: map<int, int>)
    requires StartOrdered(intervals)
    ensures IsDaySplit(days, Covered(intervals))
  {
    days := map[];
    var open := false;
    var mergedStart, mergedEnd := 0, 0;
    ghost var ticks: set<int> := {};   // what has been added so far
    for n := 0 to |intervals|
      invariant !open ==> n == 0
      invariant IsDaySplit(days, ticks)
      invariant open ==> forall t :: t in ticks ==> t < mergedStart
      invariant open ==> n > 0 && mergedStart <= intervals[n - 1].start
      invariant Covered(intervals[..n]) == ticks + (if open then Span(mergedStart, mergedEnd) else {})
      invariant !open ==> ticks == {}
    {
      var start, end := intervals[n].start, intervals[n].end;
      CoveredPrefix(intervals, n);
      if open && start <= mergedEnd {
        var further := if mergedEnd < end then end else mergedEnd;
        assert Span(mergedStart, mergedEnd) + Span(start, end) == Span(mergedStart, further);
        mergedEnd := further;
      } else {
        if open {
          days := Add(days, mergedStart, mergedEnd, ticks);
          ticks := ticks + Span(mergedStart, mergedEnd);
        }
        mergedStart, mergedEnd := start, end;
        open := true;
      }
    }
    assert intervals[..|intervals|] == intervals;
    if open {
      days := Add(days, mergedStart, mergedEnd, ticks);
    }
  }

  // ---------------------------------------------------------------- what the result means

  lemma SplitIsUnique(a: map<int, int>, b: map<int, int>, ticks: set<int>)
    requires IsDaySplit(a, ticks) && IsDaySplit(b, ticks)
    ensures a == b
  {
    assert a.Keys <= b.Keys by {
      forall d | d in a ensures d in b { assert OnDay(ticks, d) != {}; }
    }
    assert b.Keys <= a.Keys by {
      forall d | d in b ensures d in a { assert OnDay(ticks, d) != {}; }
    }
    forall d | d in a ensures a[d] == b[d] {
      assert a[d] == |OnDay(ticks, d)|;
    }
  }

  /** The split depends on the covered ticks only, not on how sessions cut them up. */
  lemma SameUnionSameDays(a: map<int, int>, b: map<int, int>, xs: seq<Interval>, ys: seq<Interval>)
    requires IsDaySplit(a, Covered(xs)) && IsDaySplit(b, Covered(ys))
    requires forall t :: t in Covered(xs) <==> t in Covered(ys)
    ensures a == b
  {
    assert Covered(xs) == Covered(ys);
    SplitIsUnique(a, b, Covered(xs));
  }

  lemma DayAtMostFull(days: map<int, int>, ticks: set<int>, d: int)
    requires IsDaySplit(days, ticks) && d in days
    ensures 1 <= days[d] <= DAY
  {
    var on, full := OnDay(ticks, d), Span(Midnight(d), Midnight(d + 1));
    forall t | t in on ensures t in full { DayBounds(t, d); }
    SubsetSize(on, full);
    SpanSize(Midnight(d), Midnight(d + 1));
    assert on != {};
  }

  ghost function Total(days: map<int, int>): int { Sum(days.Keys, d => Seconds(days, d)) }

  ghost function OnDays(ticks: set<int>, keys: set<int>): set<int> { set t | t in ticks && DayOf(t) in keys }

  lemma {:induction false} SumIsMeasure(days: map<int, int>, ticks: set<int>, keys: set<int>)
    requires IsDaySplit(days, ticks) && keys <= days.Keys
    ensures Sum(keys, d => Seconds(days, d)) == |OnDays(ticks, keys)|
    decreases |keys|
  {
    if keys == {} {
      assert OnDays(ticks, keys) == {};
    } else {
      var d := Pick(keys);
      SumIsMeasure(days, ticks, keys - {d});
      assert OnDays(ticks, keys) == OnDays(ticks, keys - {d}) + OnDay(ticks, d);
      assert OnDays(ticks, keys - {d}) * OnDay(ticks, d) == {};
    }
  }

  lemma TotalIsMeasure(days: map<int, int>, ticks: set<int>)
    requires IsDaySplit(days, ticks)
    ensures Total(days) == |ticks|
  {
    SumIsMeasure(days, ticks, days.Keys);
    forall t | t in ticks ensures DayOf(t) in days {
      assert t in OnDay(ticks, DayOf(t));
    }
    assert OnDays(ticks, days.Keys) == ticks;
  }

  // ---------------------------------------------------------------- clipping to the window

  function Clipped(x: Interval, since: int, now: int): Interval {
    Interval(if x.start < since then since else x.start, if now < x.end then now else x.end)
  }

  /** The rows kept for the window, cut to it. */
  function Clip(intervals: seq<Interval>, since: int, now: int): (r: seq<Interval>)
    ensures forall x :: x in r ==> since <= x.start < x.end <= now
  {
    if intervals == [] then []
    else
      var x := Clipped(intervals[0], since, now);
      (if x.start < x.end then [x] else []) + Clip(intervals[1..], since, now)
  }

  lemma {:induction false} ClipCovers(intervals: seq<Interval>, since: int, now: int)
    ensures Covered(Clip(intervals, since, now)) == Covered(intervals) * Span(since, now)
  {
    if intervals == [] {
    } else {
      var head, rest := intervals[0], intervals[1..];
      var x := Clipped(head, since, now);
      ClipCovers(rest, since, now);
      assert Span(x.start, x.end) == Span(head.start, head.end) * Span(since, now);
      if x.start < x.end {
        assert ([x] + Clip(rest, since, now))[1..] == Clip(rest, since, now);
      } else {
        assert Span(x.start, x.end) == {} && [] + Clip(rest, since, now) == Clip(rest, since, now);
      }
    }
  }

  lemma {:induction false} ClipKeepsOrder(intervals: seq<Interval>, since: int, now: int)
    requires StartOrdered(intervals)
    ensures StartOrdered(Clip(intervals, since, now))
    ensures forall x :: x in Clip(intervals, since, now) && intervals != [] ==> Clipped(intervals[0], since, now).start <= x.start
  {
    if intervals != [] {
      var rest := intervals[1..];
      ClipKeepsOrder(rest, since, now);
      if rest != [] { assert intervals[0].start <= intervals[1].start && rest[0] == intervals[1]; }
    }
  }

  /**
    The measured part of the projection: whatever sessions were sampled, the days hold
    exactly the covered ticks of the window, in all at most its length.
  */
  method WatchedDays(intervals: seq<Interval>, since: int, now: int) returns (days: map<int, int>)
    requires StartOrdered(intervals)
    ensures IsDaySplit(days, Covered(intervals) * Span(since, now))
    ensures Total(days) <= if since < now then now - since else 0
  {
    ClipKeepsOrder(intervals, since, now);
    ClipCovers(intervals, since, now);
    days := DaySeconds(Clip(intervals, since, now));
    TotalIsMeasure(days, Covered(intervals) * Span(since, now));
    SubsetSize(Covered(intervals) * Span(since, now), Span(since, now));
    SpanSize(since, now);
  }

  ghost predicate IsWatched(intervals: seq<Interval>, since: int, now: int, t: int) {
    since <= t < now && exists x :: x in intervals && x.start <= t < x.end
  }

  /** The moments of a day, from Beijing midnight to midnight, that lie in the window and in some interval. */
  ghost function WatchedOn(intervals: seq<Interval>, since: int, now: int, day: int): set<int> {
    set t | day * 86400 - 28800 <= t < (day + 1) * 86400 - 28800 && IsWatched(intervals, since, now, t)
  }

  /** What the projection promises of a day, without union, clipping or split. */
  lemma DayIsWatchedTime(intervals: seq<Interval>, since: int, now: int, days: map<int, int>, day: int)
    requires IsDaySplit(days, Covered(intervals) * Span(since, now))
    ensures day in days <==> WatchedOn(intervals, since, now, day) != {}
    ensures day in days ==> days[day] == |WatchedOn(intervals, since, now, day)|
  {
    forall t ensures t in OnDay(Covered(intervals) * Span(since, now), day) <==> t in WatchedOn(intervals, since, now, day) {
      DayBounds(t, day);
      CoveredMeans(intervals, t);
      if x :| x in intervals && x.start <= t < x.end { assert Within(x.start, t, x.end); }
    }
    assert OnDay(Covered(intervals) * Span(since, now), day) == WatchedOn(intervals, since, now, day);
  }
}
