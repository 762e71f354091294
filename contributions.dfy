/** `getContributionData`: a 12-week grid of daily push commits keyed by UTC date. */
module Contributions {
  import opened Wrappers
  import opened Seqs
  import opened Time
  import opened Events

  /** The number of weeks (rows) of the grid. */
  const Weeks: nat := 12

  /** The date key of an event: its UTC day, standing for the `YYYY-MM-DD` string. */
  function UtcDayOf(e: Event): int
  {
    UtcDay(e.createdAt)
  }

  /** The commits pushed on UTC day `d` (what `contributionMap` holds for that key). */
  function CommitsOnDay(events: seq<Event>, d: int): nat
  {
    KeySum(events, UtcDayOf, PushCommits, d)
  }

  /** How many days before today cell (`week`, `day`) lies (formatData.jsx line 275). */
  function DaysBack(week: int, day: int): int
  {
    (Weeks - 1 - week) * 7 + (6 - day)
  }

  /** `contributionMap.get(key) || 0`. */
  function Get(m: map<int, nat>, k: int): nat
  {
    if k in m then m[k] else 0
  }

  /** The sum of every cell of a grid, row by row. */
  function GridTotal(grid: seq<seq<nat>>): nat
  {
    if |grid| == 0 then 0 else GridTotal(grid[..|grid| - 1]) + RowTotal(grid[|grid| - 1])
  }

  function RowTotal(row: seq<nat>): nat
  {
    if |row| == 0 then 0 else RowTotal(row[..|row| - 1]) + row[|row| - 1]
  }

  /** The loop of formatData.jsx lines 256-264: per-date commit totals of the push events. */
  method BuildContributionMap(events: seq<Event>) returns (contributionMap: map<int, nat>)
    ensures forall k :: Get(contributionMap, k) == CommitsOnDay(events, k)
  {
    contributionMap := map[];
    for i := 0 to |events|
      invariant forall k :: Get(contributionMap, k) == CommitsOnDay(events[..i], k)
    {
      var event := events[i];
      assert events[..i + 1] == events[..i] + [event];
      forall k
        ensures CommitsOnDay(events[..i + 1], k)
             == CommitsOnDay(events[..i], k) + (if UtcDayOf(event) == k then PushCommits(event) else 0)
      {
        KeySumSnoc(events[..i], event, UtcDayOf, PushCommits, k);
      }
      if event.kind == "PushEvent" {
        var dateKey := UtcDay(event.createdAt);
        var commits := Commits(event);
        ghost var before := contributionMap;
        contributionMap := contributionMap[dateKey := Get(contributionMap, dateKey) + commits];
        assert forall k :: Get(contributionMap, k) == Get(before, k) + (if dateKey == k then commits else 0);
      }
    }
    assert events[..|events|] == events;
  }

  /**
   * Twelve rows of seven cells; cell (w, d) holds the push commits of the UTC day
   * `DaysBack(w, d)` days before today, and the grid adds up to every push commit of those 84 days.
   */
  method GetContributionData(events: Option<seq<Event>>, c: Clock) returns (grid: seq<seq<nat>>)
    ensures events.None? ==> grid == []
    ensures events.Some? ==> |grid| == Weeks && forall w :: 0 <= w < Weeks ==> |grid[w]| == 7
    ensures events.Some? ==>
      forall w, d :: 0 <= w < Weeks && 0 <= d < 7 ==> grid[w][d] == CommitsOnDay(events.value, UtcDay(c.now) - DaysBack(w, d))
    ensures events.Some? ==>
      GridTotal(grid) == SumInRange(events.value, UtcDayOf, PushCommits, UtcDay(c.now) - 83, UtcDay(c.now) + 1)
  {
    if events.None? {
      return [];
    }
    var contributionMap := BuildContributionMap(events.value);
    var contributions: seq<seq<nat>> := [];
    for week := 0 to Weeks
      invariant |contributions| == week
      invariant forall w :: 0 <= w < week ==> |contributions[w]| == 7
      invariant forall w, d :: 0 <= w < week && 0 <= d < 7
                  ==> contributions[w][d] == CommitsOnDay(events.value, UtcDay(c.now) - DaysBack(w, d))
    {
      var weekData: seq<nat> := [];
      for day := 0 to 7
        invariant |weekData| == day
        invariant forall d :: 0 <= d < day ==> weekData[d] == CommitsOnDay(events.value, UtcDay(c.now) - DaysBack(week, d))
      {
        var date := c.now - DaysBack(week, day) * DayMs;
        var dateKey := UtcDay(date);
        ShiftDays(c, c.now, DaysBack(week, day));
        weekData := weekData + [Get(contributionMap, dateKey)];
      }
      contributions := contributions + [weekData];
    }
    grid := contributions;
    GridCoversRange(grid, events.value, UtcDay(c.now) - 83, Weeks);
    assert grid[..Weeks] == grid;
    BucketsPartition(events.value, UtcDayOf, PushCommits, UtcDay(c.now) - 83, 7 * Weeks);
  }

  /** Row `w` of the grid holds the days `lo + 7w .. lo + 7w + 6`, oldest first; the last cell is today. */
  lemma CellDay(w: int, d: int)
    ensures DaysBack(w, d) == 7 * Weeks - 1 - (7 * w + d)
    ensures DaysBack(0, 0) == 83 && DaysBack(Weeks - 1, 6) == 0
  {
  }

  lemma {:induction false} RowCoversRange(row: seq<nat>, events: seq<Event>, lo: int, n: nat)
    requires n <= |row|
    requires forall d :: 0 <= d < |row| ==> row[d] == CommitsOnDay(events, lo + d)
    ensures RowTotal(row[..n]) == RangeKeySum(events, UtcDayOf, PushCommits, lo, n)
  {
    if n > 0 {
      RowCoversRange(row, events, lo, n - 1);
      assert row[..n][..n - 1] == row[..n - 1];
    }
  }

  /** The first `n` rows add up to the commits of the `7 n` days from `lo` on. */
  lemma {:induction false} GridCoversRange(grid: seq<seq<nat>>, events: seq<Event>, lo: int, n: nat)
    requires n <= |grid| == Weeks
    requires forall w :: 0 <= w < Weeks ==> |grid[w]| == 7
    requires forall w, d :: 0 <= w < Weeks && 0 <= d < 7 ==> grid[w][d] == CommitsOnDay(events, lo + 83 - DaysBack(w, d))
    ensures GridTotal(grid[..n]) == RangeKeySum(events, UtcDayOf, PushCommits, lo, 7 * n)
  {
    if n > 0 {
      GridCoversRange(grid, events, lo, n - 1);
      assert grid[..n][..n - 1] == grid[..n - 1];
      var row := grid[n - 1];
      forall d | 0 <= d < 7
        ensures row[d] == CommitsOnDay(events, lo + 7 * (n - 1) + d)
      {
        CellDay(n - 1, d);
      }
      RowCoversRange(row, events, lo + 7 * (n - 1), 7);
      assert row[..7] == row;
      RangeKeySumSplit(events, UtcDayOf, PushCommits, lo, 7 * (n - 1), 7);
    }
  }
}
