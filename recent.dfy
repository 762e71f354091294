/** `getRecentActivity` and `getTimeAgo`: the digest of the latest events of interest. */
module RecentActivity {
  import opened Wrappers
  import opened Seqs
  import opened Time
  import opened Strings
  import opened Events

  /** The `limit` used when the caller passes none. */
  const DefaultLimit: int := 5

  /** The event types the digest keeps (formatData.jsx line 104). */
  const RecentKinds: seq<string> := ["PushEvent", "IssuesEvent", "PullRequestEvent", "CreateEvent"]

  /**
   * The relative-time label: "Nm ago", "Nh ago", "Nd ago", or, from seven days on, the
   * locale date string of the instant, which is left abstract.
   */
  datatype TimeAgo = MinutesAgo(n: int) | HoursAgo(n: int) | DaysAgo(n: int) | OnDate(at: int)

  /** One digest item; `createdAt` keeps the event instant in place of its locale date string, and `fullDate` is not modelled. */
  datatype ActivityItem = ActivityItem(kind: string, repo: string, createdAt: int, timeAgo: TimeAgo)

  predicate IsRecentKind(e: Event)
  {
    e.kind in RecentKinds
  }

  /** `getTimeAgo(date)` with the current instant `now`; every division rounds down (`Math.floor`). */
  function GetTimeAgo(now: int, t: int): (a: TimeAgo)
    ensures a.MinutesAgo? <==> now - t < HourMs
    ensures a.MinutesAgo? ==> a.n < 60 && a.n * MinuteMs <= now - t < (a.n + 1) * MinuteMs
    ensures a.HoursAgo? <==> HourMs <= now - t < DayMs
    ensures a.HoursAgo? ==> 1 <= a.n < 24 && a.n * HourMs <= now - t < (a.n + 1) * HourMs
    ensures a.DaysAgo? <==> DayMs <= now - t < 7 * DayMs
    ensures a.DaysAgo? ==> 1 <= a.n < 7 && a.n * DayMs <= now - t < (a.n + 1) * DayMs
    ensures a.OnDate? <==> 7 * DayMs <= now - t
    ensures a.OnDate? ==> a.at == t
  {
    var diffMs := now - t;
    var diffMins := diffMs / MinuteMs;
    var diffHours := diffMs / HourMs;
    var diffDays := diffMs / DayMs;
    if diffMins < 60 then MinutesAgo(diffMins)
    else if diffHours < 24 then HoursAgo(diffHours)
    else if diffDays < 7 then DaysAgo(diffDays)
    else OnDate(t)
  }

  /** The unit letter of a relative label. */
  function UnitSuffix(a: TimeAgo): string
    requires !a.OnDate?
  {
    match a
    case MinutesAgo(_) => "m ago"
    case HoursAgo(_) => "h ago"
    case DaysAgo(_) => "d ago"
  }

  /** The text of a label (`${diffMins}m ago`, ...); `None` for the locale date string. */
  function TimeAgoText(a: TimeAgo): (r: Option<string>)
    ensures r.None? <==> a.OnDate?
    ensures r.Some? ==> |r.value| > 5 && r.value[|r.value| - 5..] == UnitSuffix(a)
    ensures r.Some? ==> ParseInt(r.value[..|r.value| - 5]) == Some(a.n)
  {
    if a.OnDate? then None
    else
      IntToDecimalRoundTrip(a.n);
      var text := IntToDecimal(a.n) + UnitSuffix(a);
      assert text[..|text| - 5] == IntToDecimal(a.n);
      Some(text)
  }

  /** `event.repo?.name?.split('/')[1] || event.repo?.name || 'Unknown'`. */
  function RepoLabel(name: Option<string>): (r: string)
    ensures r != ""
    ensures name.None? || name.value == "" ==> r == "Unknown"
    ensures name.Some? && '/' !in name.value && name.value != "" ==> r == name.value
    ensures name.Some? && SecondSegment(name.value).Some? && SecondSegment(name.value).value != ""
            ==> r == SecondSegment(name.value).value
    ensures name.Some? && name.value != "" && (SecondSegment(name.value).None? || SecondSegment(name.value).value == "")
            ==> r == name.value
  {
    match name
    case Some(n) => if n != "" then ShortName(n) else "Unknown"
    case None => "Unknown"
  }

  /** The map of formatData.jsx lines 107-122 applied to one event. */
  function Digest(e: Event, now: int): ActivityItem
  {
    ActivityItem(RemoveFirst(e.kind, "Event"), RepoLabel(e.repoName), e.createdAt, GetTimeAgo(now, e.createdAt))
  }

  /** `slice(0, end)` on a list of length `len`: a negative end counts from the back. */
  function SliceEnd(len: nat, end: int): (k: nat)
    ensures k <= len
    ensures 0 <= end ==> k <= end && (k < end ==> k == len)
    ensures end < 0 ==> len + end <= k && (k == 0 || k == len + end)
  {
    if end < 0 then (if len + end < 0 then 0 else len + end)
    else if end < len then end
    else len
  }

  /**
   * The first `limit` push, issue, pull-request and create events, in input order, each
   * mapped by `Digest`; `[]` for a non-array input.
   */
  function GetRecentActivity(events: Option<seq<Event>>, limit: int, now: int): (r: seq<ActivityItem>)
    ensures events.None? ==> r == []
    ensures events.Some? ==>
      var kept := Filter(events.value, IsRecentKind);
      |r| == SliceEnd(|kept|, limit) && forall i :: 0 <= i < |r| ==> r[i] == Digest(kept[i], now)
    ensures 0 <= limit ==> |r| <= limit
  {
    match events
    case None => []
    case Some(s) =>
      var kept := Filter(s, IsRecentKind);
      seq(SliceEnd(|kept|, limit), i requires 0 <= i < SliceEnd(|kept|, limit) => Digest(kept[i], now))
  }

  /** `getRecentActivity(events)` with the default limit: at most five items, the first five kept events. */
  function GetDefaultRecentActivity(events: Option<seq<Event>>, now: int): (r: seq<ActivityItem>)
    ensures |r| <= DefaultLimit
    ensures events.None? ==> r == []
    ensures events.Some? ==>
      var kept := Filter(events.value, IsRecentKind);
      |r| == (if |kept| < DefaultLimit then |kept| else DefaultLimit)
      && forall i :: 0 <= i < |r| ==> r[i] == Digest(kept[i], now)
  {
    GetRecentActivity(events, DefaultLimit, now)
  }

  /** Every digest item's type is one of "Push", "Issues", "PullRequest", "Create". */
  lemma {:induction false} RecentKindsLabelled(events: Option<seq<Event>>, limit: int, now: int)
    ensures forall item :: item in GetRecentActivity(events, limit, now)
              ==> item.kind in ["Push", "Issues", "PullRequest", "Create"]
  {
    if events.Some? {
      var kept := Filter(events.value, IsRecentKind);
      var r := GetRecentActivity(events, limit, now);
      forall i | 0 <= i < |r|
        ensures r[i].kind in ["Push", "Issues", "PullRequest", "Create"]
      {
        assert kept[i] in kept;
        FilterMembers(events.value, IsRecentKind, kept[i]);
        KindLabel(kept[i].kind);
      }
    }
  }

  /** The "Event" suffix of each kept type is its first occurrence, so the label is the stem. */
  lemma KindLabel(kind: string)
    requires kind in RecentKinds
    ensures RemoveFirst(kind, "Event") in ["Push", "Issues", "PullRequest", "Create"]
    ensures RemoveFirst(kind, "Event") + "Event" == kind
  {
    if kind == "PushEvent" {
      assert kind == "Push" + "Event";
      NoEarlyEvent("Push");
    } else if kind == "IssuesEvent" {
      assert kind == "Issues" + "Event";
      NoEarlyEvent("Issues");
    } else if kind == "PullRequestEvent" {
      assert kind == "PullRequest" + "Event";
      NoEarlyEvent("PullRequest");
    } else {
      assert kind == "Create" + "Event";
      NoEarlyEvent("Create");
    }
  }

  lemma NoEarlyEvent(stem: string)
    requires 'E' !in stem
    ensures RemoveFirst(stem + "Event", "Event") == stem
  {
    forall j | 0 <= j < |stem|
      ensures !OccursAt(stem + "Event", "Event", j)
    {
      assert stem[j] in stem;
      assert (stem + "Event")[j] == stem[j];
    }
    RemoveFirstOfSuffix(stem, "Event");
  }
}
