/** `formatWeeklyCommits`: commits of recent pushes, bucketed by local weekday. */
module WeeklyCommits {
  import opened Wrappers
  import opened Seqs
  import opened Time
  import opened Events

  const DayNames: seq<string> := ["Sun", "Mon", "Tue", "Wed", "Thu", "Fri", "Sat"]

  /** One entry of the histogram: `{ name, commits }`. */
  datatype DayCommits = DayCommits(name: string, commits: nat)

  /** Local midnight seven days before today: the window has no upper bound. */
  function WeekStart(c: Clock): int
  {
    LocalMidnight(c, Today(c) - 7)
  }

  /** The filter of formatData.jsx lines 19-35: push events created at or after `WeekStart`. */
  function InWeeklyWindow(c: Clock): Event -> bool
  {
    (e: Event) => IsPush(e) && e.createdAt >= WeekStart(c)
  }

  /** The bucket of an event: its local weekday (`getDay()`). */
  function WeekdayOf(c: Clock): Event -> int
  {
    (e: Event) => Weekday(LocalDay(c, e.createdAt))
  }

  /** The pushes the histogram counts. */
  function WeeklyPushes(events: seq<Event>, c: Clock): seq<Event>
  {
    Filter(events, InWeeklyWindow(c))
  }

  /** An event is counted exactly when it is a push whose local day is today - 7 or later. */
  lemma InWeeklyWindowIff(c: Clock, e: Event)
    ensures InWeeklyWindow(c)(e) <==> IsPush(e) && LocalDay(c, e.createdAt) >= Today(c) - 7
  {
    AtOrAfterMidnightIff(c, e.createdAt, Today(c) - 7);
  }

  method FormatWeeklyCommits(events: Option<seq<Event>>, c: Clock) returns (r: seq<DayCommits>)
    ensures |r| == 7
    ensures forall i :: 0 <= i < 7 ==> r[i].name == DayNames[i]
    ensures events.None? ==> forall i :: 0 <= i < 7 ==> r[i].commits == 0
    ensures events.Some? ==>
      forall i :: 0 <= i < 7 ==> r[i].commits == KeySum(WeeklyPushes(events.value, c), WeekdayOf(c), Commits, i)
    ensures events.Some? ==> BucketTotal(r) == SumOf(WeeklyPushes(events.value, c), Commits)
  {
    var week := DayNames;
    var commitCount := new nat[7](_ => 0);
    if events.Some? {
      var weeklyEvents := WeeklyPushes(events.value, c);
      var j := 0;
      while j < |weeklyEvents|
        invariant 0 <= j <= |weeklyEvents|
        invariant forall i :: 0 <= i < 7 ==> commitCount[i] == KeySum(weeklyEvents[..j], WeekdayOf(c), Commits, i)
      {
        var event := weeklyEvents[j];
        var day := Weekday(LocalDay(c, event.createdAt));
        commitCount[day] := commitCount[day] + Commits(event);
        forall i | 0 <= i < 7
          ensures commitCount[i] == KeySum(weeklyEvents[..j + 1], WeekdayOf(c), Commits, i)
        {
          assert weeklyEvents[..j + 1] == weeklyEvents[..j] + [event];
          KeySumSnoc(weeklyEvents[..j], event, WeekdayOf(c), Commits, i);
        }
        j := j + 1;
      }
      assert weeklyEvents[..j] == weeklyEvents;
    }
    r := seq(7, i requires 0 <= i < 7 reads commitCount => DayCommits(week[i], commitCount[i]));
    if events.Some? {
      BucketTotalIsRangeSum(r, WeeklyPushes(events.value, c), c, 7);
      WeeklyBucketsTotal(events.value, c);
      assert r[..7] == r;
    }
  }

  /** The buckets' total commits. */
  function BucketTotal(r: seq<DayCommits>): nat
  {
    if |r| == 0 then 0 else BucketTotal(r[..|r| - 1]) + r[|r| - 1].commits
  }

  /**
   * The seven buckets together hold every counted commit: their sum is the commits of the
   * pushes at or after local midnight seven days ago, each push's size defaulting to 1.
   */
  lemma {:induction false} WeeklyBucketsTotal(events: seq<Event>, c: Clock)
    ensures RangeKeySum(WeeklyPushes(events, c), WeekdayOf(c), Commits, 0, 7)
         == SumOf(WeeklyPushes(events, c), Commits)
  {
    var s := WeeklyPushes(events, c);
    BucketsPartition(s, WeekdayOf(c), Commits, 0, 7);
    SumInFullRange(s, WeekdayOf(c), Commits, 0, 7);
  }

  /** Buckets holding the per-weekday sums add up to the sum over those weekdays. */
  lemma {:induction false} BucketTotalIsRangeSum(r: seq<DayCommits>, s: seq<Event>, c: Clock, n: nat)
    requires n <= |r|
    requires forall i :: 0 <= i < |r| ==> r[i].commits == KeySum(s, WeekdayOf(c), Commits, i)
    ensures BucketTotal(r[..n]) == RangeKeySum(s, WeekdayOf(c), Commits, 0, n)
  {
    if n > 0 {
      BucketTotalIsRangeSum(r, s, c, n - 1);
      assert r[..n][..n - 1] == r[..n - 1];
    }
  }

  /**
   * The window reaches back to local midnight seven days ago, so it spans eight local days:
   * a push made exactly a week before today is counted, in the same bucket as today's pushes.
   */
  lemma WeekAgoSharesTodaysBucket(c: Clock, e: Event)
    requires IsPush(e) && LocalDay(c, e.createdAt) == Today(c) - 7
    ensures InWeeklyWindow(c)(e)
    ensures WeekdayOf(c)(e) == Weekday(Today(c))
  {
    InWeeklyWindowIff(c, e);
    assert (Today(c) - 7 + 4) % 7 == (Today(c) + 4) % 7 by {
      assert Today(c) + 4 == (Today(c) - 7 + 4) + 7;
    }
  }
}
