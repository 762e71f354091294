/** `calculateActivityStats`: 7-day and 30-day window statistics and the most active repository. */
module ActivityStats {
  import opened Wrappers
  import opened Seqs
  import opened Time
  import opened Events

  /** A `[name, commits]` entry of `Object.entries(repoActivity)`. */
  datatype RepoTally = RepoTally(name: string, commits: nat)

  /** `avgCommitsPerDay`: the number 0, or `(total / 7).toFixed(1)` kept as a count of tenths. */
  datatype Average = NoCommits | Tenths(tenths: nat)

  datatype Stats = Stats(
    totalCommitsThisWeek: nat,
    totalCommitsThisMonth: nat,
    uniqueReposThisWeek: nat,
    totalEventsThisWeek: nat,
    avgCommitsPerDay: Average,
    mostActiveRepo: Option<RepoTally>)

  /** The record returned for a non-array input. */
  const EmptyStats := Stats(0, 0, 0, 0, NoCommits, None)

  /** Events created in `[since, until]` (formatData.jsx lines 161 and 166). */
  function InWindow(since: int, until: int): Event -> bool
  {
    (e: Event) => since <= e.createdAt <= until
  }

  /** Events (of any type) in the last 7 * 24 hours, now included. */
  function WeeklyEvents(events: seq<Event>, now: int): seq<Event>
  {
    Filter(events, InWindow(now - 7 * DayMs, now))
  }

  /** Events (of any type) in the last 30 * 24 hours, now included. */
  function MonthlyEvents(events: seq<Event>, now: int): seq<Event>
  {
    Filter(events, InWindow(now - 30 * DayMs, now))
  }

  /** The weekly pushes that name a repository: the ones `repoActivity` tallies. */
  function NamedWeeklyPushes(events: seq<Event>, now: int): seq<Event>
  {
    Filter(Filter(WeeklyEvents(events, now), IsPush), HasName)
  }

  /** The nearest tenth of `total / 7`; no total lies half-way between two tenths. */
  function AverageOf(total: nat): (a: Average)
    ensures a.NoCommits? <==> total == 0
    ensures a.Tenths? ==> 20 * total - 7 < 14 * a.tenths <= 20 * total + 7
  {
    if total > 0 then Tenths((20 * total + 7) / 14) else NoCommits
  }

  /**
   * `entries.reduce((a, b) => a[1] > b[1] ? a : b)`: an entry with the largest count; on a tie
   * the later entry wins, so no entry after the chosen one has as many commits.
   */
  function MostActive(entries: seq<RepoTally>): (r: RepoTally)
    requires |entries| > 0
    ensures forall j :: 0 <= j < |entries| ==> entries[j].commits <= r.commits
    ensures exists i :: 0 <= i < |entries| && entries[i] == r
                        && forall j :: i < j < |entries| ==> entries[j].commits < r.commits
  {
    if |entries| == 1 then entries[0]
    else
      var a := MostActive(entries[..|entries| - 1]);
      var b := entries[|entries| - 1];
      if a.commits > b.commits then a else b
  }

  /** `repoActivity` with key list `keys` is the tally of the named pushes `named`. */
  ghost predicate Tallied(named: seq<Event>, repoActivity: map<string, nat>, keys: seq<string>)
  {
    && keys == Keys(named, RepoKey)
    && (forall k :: k in repoActivity <==> k in keys)
    && forall k :: k in repoActivity ==> repoActivity[k] == KeySum(named, RepoKey, Commits, k)
  }

  /** Adding one push to the tally (formatData.jsx line 195) keeps it the tally of the longer list `done'`. */
  lemma TallyStep(done: seq<Event>, event: Event, done': seq<Event>, repoActivity: map<string, nat>, keys: seq<string>,
                  repoActivity': map<string, nat>, keys': seq<string>)
    requires Tallied(done, repoActivity, keys)
    requires done' == done + [event]
    requires repoActivity' == repoActivity[RepoKey(event) := Commits(event)
               + if RepoKey(event) in repoActivity then repoActivity[RepoKey(event)] else 0]
    requires keys' == if RepoKey(event) in keys then keys else keys + [RepoKey(event)]
    ensures Tallied(done', repoActivity', keys')
  {
    var repoName := RepoKey(event);
    KeysSnoc(done, event, RepoKey);
    forall k
      ensures KeySum(done', RepoKey, Commits, k)
           == KeySum(done, RepoKey, Commits, k) + (if k == repoName then Commits(event) else 0)
    {
      KeySumSnoc(done, event, RepoKey, Commits, k);
    }
    if repoName !in repoActivity {
      KeysMembers(done, RepoKey, repoName);
      KeySumAbsent(done, RepoKey, Commits, repoName);
    }
  }

  /** One turn of the loop of formatData.jsx lines 191-197 extends the tally from `i` events to `i + 1`. */
  lemma TallyAdvance(events: seq<Event>, i: nat, repoActivity: map<string, nat>, keys: seq<string>,
                     repoActivity': map<string, nat>, keys': seq<string>)
    requires i < |events|
    requires Tallied(Filter(events[..i], HasName), repoActivity, keys)
    requires !HasName(events[i]) ==> repoActivity' == repoActivity && keys' == keys
    requires HasName(events[i]) ==>
      && repoActivity' == repoActivity[RepoKey(events[i]) := Commits(events[i])
           + if RepoKey(events[i]) in repoActivity then repoActivity[RepoKey(events[i])] else 0]
      && keys' == if RepoKey(events[i]) in keys then keys else keys + [RepoKey(events[i])]
    ensures Tallied(Filter(events[..i + 1], HasName), repoActivity', keys')
  {
    FilterPrefixSnoc(events, i, HasName);
    if HasName(events[i]) {
      TallyStep(Filter(events[..i], HasName), events[i], Filter(events[..i + 1], HasName),
                repoActivity, keys, repoActivity', keys');
    }
  }

  /**
   * The loop of formatData.jsx lines 190-197: `repoActivity[short name] += commits` for each push that names a
   * repository. `keys` lists the object's properties in the order they were created.
   */
  method TallyRepoActivity(weeklyPushEvents: seq<Event>) returns (repoActivity: map<string, nat>, keys: seq<string>)
    ensures keys == Keys(Filter(weeklyPushEvents, HasName), RepoKey)
    ensures forall k :: k in repoActivity <==> k in keys
    ensures forall k :: k in repoActivity
              ==> repoActivity[k] == KeySum(Filter(weeklyPushEvents, HasName), RepoKey, Commits, k)
  {
    repoActivity, keys := map[], [];
    var i := 0;
    while i < |weeklyPushEvents|
      invariant 0 <= i <= |weeklyPushEvents|
      invariant Tallied(Filter(weeklyPushEvents[..i], HasName), repoActivity, keys)
    {
      var event := weeklyPushEvents[i];
      ghost var (before, keysBefore) := (repoActivity, keys);
      if event.repoName.Some? && event.repoName.value != "" {
        var repoName := ShortName(event.repoName.value);
        var commits := Commits(event);
        var previous := if repoName in repoActivity then repoActivity[repoName] else 0;
        repoActivity := repoActivity[repoName := previous + commits];
        if repoName !in keys {
          keys := keys + [repoName];
        }
      }
      TallyAdvance(weeklyPushEvents, i, before, keysBefore, repoActivity, keys);
      i := i + 1;
    }
    assert weeklyPushEvents[..i] == weeklyPushEvents;
  }

  /** `Object.entries(repoActivity)`, in property-creation order. */
  function Entries(repoActivity: map<string, nat>, keys: seq<string>): (entries: seq<RepoTally>)
    requires forall k :: k in keys ==> k in repoActivity
    ensures |entries| == |keys|
    ensures forall j :: 0 <= j < |keys| ==> entries[j] == RepoTally(keys[j], repoActivity[keys[j]])
  {
    seq(|keys|, j requires 0 <= j < |keys| => RepoTally(keys[j], repoActivity[keys[j]]))
  }

  /** The winner of the reduce is a key carrying its tally; no key's tally beats it and no later key ties it. */
  lemma MostActiveIsBest(repoActivity: map<string, nat>, keys: seq<string>, best: RepoTally)
    requires forall k :: k in keys ==> k in repoActivity
    requires |keys| > 0 && best == MostActive(Entries(repoActivity, keys))
    ensures best.name in keys && best.commits == repoActivity[best.name]
    ensures forall k :: k in keys ==> repoActivity[k] <= best.commits
    ensures exists i :: 0 <= i < |keys| && keys[i] == best.name
                        && forall j :: i < j < |keys| ==> repoActivity[keys[j]] < best.commits
  {
    var entries := Entries(repoActivity, keys);
    var b :| 0 <= b < |entries| && entries[b] == best
             && forall j :: b < j < |entries| ==> entries[j].commits < best.commits;
    assert keys[b] == best.name && keys[b] in keys;
    forall k | k in keys
      ensures repoActivity[k] <= best.commits
    {
      var j :| 0 <= j < |keys| && keys[j] == k;
      assert entries[j].commits <= best.commits;
    }
  }

  /** Every named push's key is tallied once, and every tallied key belongs to a named push. */
  lemma KeysCoverPushes(named: seq<Event>)
    ensures forall i :: 0 <= i < |named| ==> RepoKey(named[i]) in Keys(named, RepoKey)
    ensures forall k :: k in Keys(named, RepoKey) ==> exists i :: 0 <= i < |named| && RepoKey(named[i]) == k
    ensures forall i, j :: 0 <= i < j < |Keys(named, RepoKey)| ==> Keys(named, RepoKey)[i] != Keys(named, RepoKey)[j]
  {
    KeysDistinct(named, RepoKey);
    forall i | 0 <= i < |named|
      ensures RepoKey(named[i]) in Keys(named, RepoKey)
    {
      KeysMembers(named, RepoKey, RepoKey(named[i]));
    }
    forall k | k in Keys(named, RepoKey)
      ensures exists i :: 0 <= i < |named| && RepoKey(named[i]) == k
    {
      KeysMembers(named, RepoKey, k);
    }
  }

  /**
   * formatData.jsx lines 190-201: the repository with the most commits among the pushes that name one, or
   * `None` when there are none. Its count is its total, no repository has more, and of the
   * repositories with that total it is the one whose key was created last.
   */
  method FindMostActiveRepo(weeklyPushEvents: seq<Event>) returns (mostActiveRepo: Option<RepoTally>)
    ensures mostActiveRepo.None? <==> |Filter(weeklyPushEvents, HasName)| == 0
    ensures mostActiveRepo.Some? ==>
      var named := Filter(weeklyPushEvents, HasName);
      var best := mostActiveRepo.value;
      && best.commits == KeySum(named, RepoKey, Commits, best.name)
      && (exists i :: 0 <= i < |named| && RepoKey(named[i]) == best.name)
      && (forall i :: 0 <= i < |named| ==> KeySum(named, RepoKey, Commits, RepoKey(named[i])) <= best.commits)
    ensures mostActiveRepo.Some? ==>
      var named := Filter(weeklyPushEvents, HasName);
      var keys := Keys(named, RepoKey);
      var best := mostActiveRepo.value;
      exists i :: 0 <= i < |keys| && keys[i] == best.name
                  && forall j :: i < j < |keys| ==> KeySum(named, RepoKey, Commits, keys[j]) < best.commits
  {
    var repoActivity, keys := TallyRepoActivity(weeklyPushEvents);
    ghost var named := Filter(weeklyPushEvents, HasName);
    KeysNonEmpty(named, RepoKey);
    mostActiveRepo := None;
    if |keys| > 0 {
      var best := MostActive(Entries(repoActivity, keys));
      MostActiveIsBest(repoActivity, keys, best);
      KeysCoverPushes(named);
      mostActiveRepo := Some(best);
    }
  }

  method CalculateActivityStats(events: Option<seq<Event>>, now: int) returns (stats: Stats)
    ensures events.None? ==> stats == EmptyStats
    ensures events.Some? ==>
      var weekly := WeeklyEvents(events.value, now);
      && stats.totalCommitsThisWeek == SumOf(Filter(weekly, IsPush), Commits)
      && stats.totalCommitsThisMonth == SumOf(Filter(MonthlyEvents(events.value, now), IsPush), Commits)
      && stats.uniqueReposThisWeek == |ImageSet(weekly, TruthyName)|
      && stats.totalEventsThisWeek == |weekly|
      && stats.avgCommitsPerDay == AverageOf(stats.totalCommitsThisWeek)
    ensures stats.totalCommitsThisWeek <= stats.totalCommitsThisMonth
    ensures stats.uniqueReposThisWeek <= stats.totalEventsThisWeek
    ensures events.Some? ==> (stats.mostActiveRepo.None? <==> |NamedWeeklyPushes(events.value, now)| == 0)
    ensures events.Some? && stats.mostActiveRepo.Some? ==>
      var named := NamedWeeklyPushes(events.value, now);
      var best := stats.mostActiveRepo.value;
      && best.commits == KeySum(named, RepoKey, Commits, best.name)
      && (exists i :: 0 <= i < |named| && RepoKey(named[i]) == best.name)
      && (forall i :: 0 <= i < |named| ==> KeySum(named, RepoKey, Commits, RepoKey(named[i])) <= best.commits)
    ensures events.Some? && stats.mostActiveRepo.Some? ==>
      var named := NamedWeeklyPushes(events.value, now);
      var keys := Keys(named, RepoKey);
      var best := stats.mostActiveRepo.value;
      exists i :: 0 <= i < |keys| && keys[i] == best.name
                  && forall j :: i < j < |keys| ==> KeySum(named, RepoKey, Commits, keys[j]) < best.commits
  {
    if events.None? {
      return EmptyStats;
    }
    var s := events.value;
    var weeklyEvents := WeeklyEvents(s, now);
    var monthlyEvents := MonthlyEvents(s, now);
    var weeklyPushEvents := Filter(weeklyEvents, IsPush);
    var monthlyPushEvents := Filter(monthlyEvents, IsPush);
    var totalCommitsThisWeek := SumOf(weeklyPushEvents, Commits);
    var totalCommitsThisMonth := SumOf(monthlyPushEvents, Commits);
    var uniqueReposThisWeek := |ImageSet(weeklyEvents, TruthyName)|;
    NarrowerWindowSum(s, InWindow(now - 7 * DayMs, now), InWindow(now - 30 * DayMs, now), IsPush, Commits);
    var mostActiveRepo := FindMostActiveRepo(weeklyPushEvents);
    stats := Stats(
      totalCommitsThisWeek,
      totalCommitsThisMonth,
      uniqueReposThisWeek,
      |weeklyEvents|,
      AverageOf(totalCommitsThisWeek),
      mostActiveRepo);
  }
}
