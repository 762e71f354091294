/** `getCurrentStreak`: consecutive local days with a push, counted back from today. */
module Streak {
  import opened Wrappers
  import opened Seqs
  import opened Time
  import opened Events

  /** The loop looks at no more than this many days. */
  const MaxDays: nat := 100

  /** Some push event falls on local day `d`. */
  predicate PushedOn(events: seq<Event>, c: Clock, d: int)
  {
    exists i :: 0 <= i < |events| && IsPush(events[i]) && LocalDay(c, events[i].createdAt) == d
  }

  /** The filter of formatData.jsx lines 77-81: push events with `dayStart <= created_at <= dayEnd`. */
  function PushBetween(dayStart: int, dayEnd: int): Event -> bool
  {
    (e: Event) => IsPush(e) && dayStart <= e.createdAt <= dayEnd
  }

  /** The pushes between a day's midnight and its last millisecond are the pushes on that day. */
  lemma DayEventsIff(events: seq<Event>, c: Clock, d: int)
    ensures |Filter(events, PushBetween(LocalMidnight(c, d), LocalMidnight(c, d) + DayMs - 1))| > 0
        <==> PushedOn(events, c, d)
  {
    var p := PushBetween(LocalMidnight(c, d), LocalMidnight(c, d) + DayMs - 1);
    var f := Filter(events, p);
    if |f| > 0 {
      FilterMembers(events, p, f[0]);
      var i :| 0 <= i < |events| && events[i] == f[0];
      WithinDayIff(c, events[i].createdAt, d);
    }
    if PushedOn(events, c, d) {
      var i :| 0 <= i < |events| && IsPush(events[i]) && LocalDay(c, events[i].createdAt) == d;
      WithinDayIff(c, events[i].createdAt, d);
      FilterMembers(events, p, events[i]);
    }
  }

  /**
   * The streak is `n` when today, today - 1, ..., today - (n - 1) each have a push and
   * today - n has none (unless the bound of 100 days was reached). There is no grace day:
   * no push today gives 0.
   */
  method GetCurrentStreak(events: Option<seq<Event>>, c: Clock) returns (streak: nat)
    ensures events.None? ==> streak == 0
    ensures streak <= MaxDays
    ensures events.Some? ==> forall d :: Today(c) - streak < d <= Today(c) ==> PushedOn(events.value, c, d)
    ensures events.Some? && streak < MaxDays ==> !PushedOn(events.value, c, Today(c) - streak)
  {
    streak := 0;
    if events.None? {
      return;
    }
    var s := events.value;
    var currentDay := Today(c);
    var i := 0;
    while i < MaxDays
      invariant 0 <= i <= MaxDays
      invariant streak == i && currentDay == Today(c) - i
      invariant forall d :: Today(c) - streak < d <= Today(c) ==> PushedOn(s, c, d)
    {
      var dayStart := LocalMidnight(c, currentDay);
      var dayEnd := LocalMidnight(c, currentDay) + DayMs - 1;
      var dayEvents := Filter(s, PushBetween(dayStart, dayEnd));
      DayEventsIff(s, c, currentDay);
      if |dayEvents| > 0 {
        streak := streak + 1;
      } else {
        return;
      }
      currentDay := currentDay - 1;
      i := i + 1;
    }
  }

  /** The two conditions of `GetCurrentStreak` leave only one possible count. */
  lemma StreakIsDetermined(events: seq<Event>, c: Clock, n: nat, m: nat)
    requires n <= MaxDays && m <= MaxDays
    requires forall d :: Today(c) - n < d <= Today(c) ==> PushedOn(events, c, d)
    requires n < MaxDays ==> !PushedOn(events, c, Today(c) - n)
    requires forall d :: Today(c) - m < d <= Today(c) ==> PushedOn(events, c, d)
    requires m < MaxDays ==> !PushedOn(events, c, Today(c) - m)
    ensures n == m
  {
  }
}
