# GitHub activity dashboard: the aggregation core

This project models the activity-aggregation core of a client-side GitHub dashboard in Dafny and
proves properties of that model. The core turns a raw list of GitHub events (or repositories)
into what the dashboard shows:

- the weekly commit histogram (`formatWeeklyCommits`);
- the current daily push streak (`getCurrentStreak`);
- the recent-activity digest with its relative time labels (`getRecentActivity`, `getTimeAgo`);
- the 7-day and 30-day activity statistics and the most active repository (`calculateActivityStats`);
- the repository totals (`calculateRepoStats`);
- the 12 × 7 contribution heatmap grid (`getContributionData`).

It also models the `user` slice of the store (`src/store/userSlice.jsx`): its initial state and
its five reducers. The slice is a class whose fields the reducers update in place.

Modules:

- `Wrappers`: the `Option` type. `None` stands for `null`, `undefined`, or a non-array input.
- `Seqs`: filter, weighted sums, per-key sums, distinct image sets and first-seen key lists over sequences, with their lemmas.
- `Time`: instants in milliseconds, local and UTC days, weekdays.
- `Strings`: `split('/')[1]`, `replace("Event", "")`, and decimal rendering of integers.
- `Events`: the event record.
- `WeeklyCommits`, `Streak`, `RecentActivity`, `ActivityStats`, `RepoStats`, `Contributions`: the one-function-per-module core.
- `UserSlice`: the store slice.

Time is modelled as follows:

- An instant is an integer number of milliseconds since the epoch.
- "Now" and the viewer's local-time offset enter as a `Clock` value.
- The offset is fixed. With a fixed offset, `setDate(getDate() - k)` is exactly `k` days of milliseconds.
- `setHours(0, 0, 0, 0)` and `getDay()` work on the local day. `toISOString().split('T')[0]` names the UTC day.
- The `YYYY-MM-DD` key is represented by the UTC day number, which identifies the same date.

The model follows the code where the code and the written design disagree:

- The weekly histogram is not a calendar week from Sunday. It counts every push at or after local midnight seven days ago. That is eight local days with no upper bound, so today's weekday bucket also holds the pushes of exactly one week ago.
- The streak has no grace day. No push today gives 0.
- The weekly histogram and the streak use local days. The grid uses UTC days.
- When two repositories tie for most active, `reduce((a, b) => a[1] > b[1] ? a : b)` keeps the LATER entry, not the first one encountered.

## Model

| member | source | states |
|---|---|---|
| `WeeklyCommits.FormatWeeklyCommits` | src/utils/formatData.jsx:3-55 | Seven buckets named Sun..Sat, all zero for a non-array input. Bucket `i` holds the commits (size, or 1 when absent or zero) of the counted pushes whose local weekday is `i`. The buckets add up to all commits of the counted pushes. |
| `WeeklyCommits.InWeeklyWindowIff` | src/utils/formatData.jsx:13-35 | An event is counted exactly when it is a push whose local day is seven days before today or later. |
| `WeeklyCommits.WeekAgoSharesTodaysBucket` | src/utils/formatData.jsx:13-43 | A push made on the local day exactly a week ago is counted, and it lands in today's weekday bucket. |
| `WeeklyCommits.WeeklyBucketsTotal` | src/utils/formatData.jsx:39-46 | The per-weekday sums over weekdays 0..6 add up to the total commits of the counted pushes. |
| `WeeklyCommits.BucketTotalIsRangeSum` | src/utils/formatData.jsx:48-51 | Buckets holding per-weekday sums add up to the sum over those weekdays. |
| `Streak.GetCurrentStreak` | src/utils/formatData.jsx:57-97 | 0 for a non-array input, never more than 100. Every local day from today back over `streak` days has a push. Below 100, the day before that run has none. |
| `Streak.DayEventsIff` | src/utils/formatData.jsx:71-83 | The day filter (push, between local midnight and 23:59:59.999) is non-empty exactly when some push falls on that local day. |
| `Streak.StreakIsDetermined` | src/utils/formatData.jsx:70-93 | The two conditions on the streak admit only one count. |
| `RecentActivity.GetRecentActivity` | src/utils/formatData.jsx:99-123 | `[]` for a non-array input. Otherwise: the push, issue, pull-request and create events in input order, cut by `slice(0, limit)` (a negative limit counts from the end), each mapped to its type label, repository label, instant and time label. A non-negative limit bounds the length. |
| `RecentActivity.RecentKindsLabelled` | src/utils/formatData.jsx:102-109 | Every item's type is one of Push, Issues, PullRequest, Create. |
| `RecentActivity.KindLabel` | src/utils/formatData.jsx:104-109 | Removing "Event" from each kept type leaves its own stem (the label followed by "Event" is the type), one of Push, Issues, PullRequest, Create. |
| `RecentActivity.NoEarlyEvent` | src/utils/formatData.jsx:109 | A type ending in "Event" with no earlier 'E' loses exactly that suffix. |
| `RecentActivity.RepoLabel` | src/utils/formatData.jsx:108 | The label is never empty. A missing or empty name gives "Unknown". A name with a non-empty piece after the first '/' gives that piece (`owner/repo` gives `repo`). Any other non-empty name — one without '/', or with an empty second piece — is kept whole. |
| `RecentActivity.GetDefaultRecentActivity` | src/utils/formatData.jsx:99-107 | With the default limit: at most five items, the first five kept events (or all of them when fewer) in input order, each digested. `[]` for a non-array input. |
| `RecentActivity.SliceEnd` | src/utils/formatData.jsx:106 | `slice(0, end)` keeps at most the list. It keeps `min(end, len)` for a non-negative end, and `len + end` (or 0) for a negative one. |
| `RecentActivity.GetTimeAgo` | src/utils/formatData.jsx:126-137 | Minutes exactly when less than an hour has passed, hours when less than a day, days when less than seven days, otherwise the date. Each count is the floor of the elapsed time in its unit. |
| `RecentActivity.TimeAgoText` | src/utils/formatData.jsx:133-135 | The text ends in "m ago", "h ago" or "d ago", and its prefix reads back as the count. There is no text for the date variant. |
| `ActivityStats.CalculateActivityStats` | src/utils/formatData.jsx:139-217 | Zeros and no repository for a non-array input. Otherwise: the weekly and monthly push-commit sums over the `[now - 7d, now]` and `[now - 30d, now]` windows; the distinct truthy repository names of all weekly events; the weekly event count; the average. The weekly total is at most the monthly total, and the distinct repositories at most the weekly events. The most active repository is absent exactly when no weekly push names a repository. When present, its count is its repository's total, no repository has more, and no later-created key ties it. |
| `ActivityStats.AverageOf` | src/utils/formatData.jsx:208 | 0 exactly when the total is 0. Otherwise the nearest tenth of `total / 7` (`toFixed(1)`), as a count of tenths. |
| `ActivityStats.MostActive` | src/utils/formatData.jsx:199-201 | The reduce picks an entry with the largest count, and no later entry has as many. |
| `ActivityStats.TallyRepoActivity` | src/utils/formatData.jsx:190-197 | The tally holds exactly the short names of the named pushes, in first-seen order. Each name maps to the sum of its pushes' commits. |
| `ActivityStats.TallyStep` | src/utils/formatData.jsx:192-196 | Adding one named push to the tally adds its commits to its short name's count (creating the key last if new), and keeps the tally exact for the longer list. |
| `ActivityStats.TallyAdvance` | src/utils/formatData.jsx:191-197 | One loop turn extends the exact tally from the first `i` pushes to the first `i + 1`. A push without a name changes nothing. |
| `ActivityStats.FindMostActiveRepo` | src/utils/formatData.jsx:190-201 | None exactly when no push names a repository. Otherwise the chosen repository's count is its total, it belongs to some named push, no named push's repository has more, and no repository whose key was created later ties it. |
| `ActivityStats.MostActiveIsBest` | src/utils/formatData.jsx:199-212 | The reduce's winner is a tallied key carrying its tally. No key's tally exceeds it, and no later key ties it. |
| `ActivityStats.KeysCoverPushes` | src/utils/formatData.jsx:190-197 | Every named push's short name is a key, every key comes from a named push, and no key is listed twice (object properties are distinct). |
| `RepoStats.CalculateRepoStats` | src/utils/formatData.jsx:219-247 | Zeros for a non-array input. Otherwise: the repository count is the list length; forked, original and private repositories are the numbers of positions whose repository has that flag (or lacks `fork`), so forks plus originals is the count; the languages are the distinct truthy ones, no more than the count. |
| `RepoStats.LanguagesAreDistinctTruthy` | src/utils/formatData.jsx:233 | The language set is exactly the set of truthy languages. |
| `RepoStats.TotalsGrowByRepo` | src/utils/formatData.jsx:237-238 | The star and fork totals of an empty list are 0, and each further repository adds its stars and forks, a missing count adding 0. |
| `Contributions.BuildContributionMap` | src/utils/formatData.jsx:256-264 | Each UTC date maps to the commits of the pushes on that date. A date without pushes reads as 0. |
| `Contributions.GetContributionData` | src/utils/formatData.jsx:249-284 | `[]` for a non-array input. Otherwise 12 rows of 7, and cell `(w, d)` holds the push commits of the UTC day `(11 - w) * 7 + (6 - d)` days before today. The grid adds up to every push commit of the 84 UTC days ending today. |
| `Contributions.CellDay` | src/utils/formatData.jsx:270-275 | Cells run oldest first, row by row, over 84 consecutive days. The first cell is 83 days back and the last is today. |
| `Contributions.RowCoversRange` | src/utils/formatData.jsx:272-277 | A row of consecutive days adds up to those days' commits. |
| `Contributions.GridCoversRange` | src/utils/formatData.jsx:270-280 | The first `n` rows add up to the commits of the first `7 n` days. |
| `Events.ShortNameOfFullName` | src/utils/formatData.jsx:193 | `owner/repo` shortens to `repo`. |
| `Events.ShortNameKeepsWhole` | src/utils/formatData.jsx:193 | A name without '/', or with an empty second piece, is kept whole. |
| `Strings.IndexOfFrom` | src/utils/formatData.jsx:109 | The first occurrence of the pattern at or after the start, or none. |
| `Strings.RemoveFirst` | src/utils/formatData.jsx:109 | `replace` with a string pattern removes only the first occurrence, and nothing when there is none. |
| `Strings.RemoveFirstOfSuffix` | src/utils/formatData.jsx:109 | A suffix whose first occurrence is the suffix itself comes off, leaving the stem. |
| `Strings.TakeUntil` | src/utils/formatData.jsx:193 | The prefix before the first separator, containing no separator. |
| `Strings.SecondSegment` | src/utils/formatData.jsx:193 | `split('/')[1]` is undefined exactly when there is no '/'. Otherwise it contains no '/'. |
| `Strings.TakeUntilOf` | src/utils/formatData.jsx:193 | The prefix of a separator-free head followed by a separator is that head. |
| `Strings.SecondSegmentOf` | src/utils/formatData.jsx:193 | The second piece of `owner/seg...` is `seg`. |
| `Strings.NatToDecimal` | src/utils/formatData.jsx:133-135 | One or more digits, with no leading zero. |
| `Strings.NatToDecimalRoundTrip` | src/utils/formatData.jsx:133-135 | A non-negative numeral reads back as its number. |
| `Strings.IntToDecimalRoundTrip` | src/utils/formatData.jsx:133-135 | A signed numeral (a negative count for a future event) reads back as its number. |
| `Time.Weekday` | src/utils/formatData.jsx:41 | `getDay()` is in 0..6. |
| `Time.NextWeekday` | src/utils/formatData.jsx:41 | Consecutive days have consecutive weekdays, wrapping after Saturday. |
| `Time.LocalDayBounds` | src/utils/formatData.jsx:71-75 | An instant lies between its local day's midnight and the next midnight. |
| `Time.WithinDayIff` | src/utils/formatData.jsx:71-80 | An instant is between a day's midnight and its last millisecond exactly when it falls on that day. |
| `Time.AtOrAfterMidnightIff` | src/utils/formatData.jsx:13-22 | An instant is at or after a day's midnight exactly when it falls on that day or later. |
| `Time.ShiftDays` | src/utils/formatData.jsx:275 | Going back `k` days moves both the local and the UTC day back by `k`. |
| `Seqs.NarrowerWindowSum` | src/utils/formatData.jsx:154-182 | Summing over a narrower time window gives no more commits. |
| `Seqs.FilterIsSubsequence` | src/utils/formatData.jsx:102-105 | A filter keeps its elements in input order: the result is a subsequence of the list (so the digest lists events in input order). |
| `Seqs.FilterComplement` | src/utils/formatData.jsx:240-241 | A filter and its negation split the list. |
| `Seqs.FilterCountsIndices` | src/utils/formatData.jsx:240-242 | A filter keeps as many elements as there are positions whose element satisfies the predicate. |
| `UserSlice.UserStore.constructor` | src/store/userSlice.jsx:5-10 | The initial state: no data, not loading, no error, goal 5. |
| `UserSlice.UserStore.SetLoading` | src/store/userSlice.jsx:13-17 | The flag becomes the payload, or true without one. The error is cleared. Data and goal are unchanged. |
| `UserSlice.UserStore.SetData` | src/store/userSlice.jsx:18-27 | The data becomes the payload, loading ends and the error is cleared. The goal is unchanged. |
| `UserSlice.UserStore.SetError` | src/store/userSlice.jsx:28-32 | The error becomes the payload and loading ends. Data and goal are unchanged. |
| `UserSlice.UserStore.SetWeeklyGoal` | src/store/userSlice.jsx:34-36 | Only the goal changes. |
| `UserSlice.UserStore.ClearData` | src/store/userSlice.jsx:37-41 | No data, not loading, no error. The goal is kept. |
| `UserSlice.ReducePreservesNoErrorWhileLoading` | src/store/userSlice.jsx:13-41 | No reducer puts the slice in a state that is loading and has an error. |
| `UserSlice.ReachableNoErrorWhileLoading` | src/store/userSlice.jsx:5-41 | From the initial state, no action sequence reaches a state that is loading and has an error. |
| `UserSlice.GoalOnlyChangedBySetWeeklyGoal` | src/store/userSlice.jsx:13-41 | Only `setWeeklyGoal` changes the goal, and it changes nothing else. |
| `UserSlice.GoalDefaultUntilSet` | src/store/userSlice.jsx:9-41 | While no action sets a goal, the goal is the default 5. |
| `UserSlice.GoalIsLastSet` | src/store/userSlice.jsx:11-41 | After any action sequence, the goal is the one given by the last `setWeeklyGoal`, whatever other actions follow it. |
| `UserSlice.ClearDataResets` | src/store/userSlice.jsx:37-41 | Clearing leaves the initial state except the goal. Clearing after any action other than a goal change gives the same state as clearing before it. |
| `UserSlice.SettlingActions` | src/store/userSlice.jsx:13-41 | `setData`, `setError` and `clearData` end loading. `setData`, `clearData` and `setLoading` clear the error. `setError` and `setLoading` keep the data. |

## Left out

- Console logging (`console.log`, `console.warn`) has no effect on the results and is not modelled.
- Locale rendering (`toLocaleString`, `toLocaleDateString`) is not modelled. An `ActivityItem` keeps the event instant as `createdAt` in place of its locale date string, and has no `fullDate` field. `TimeAgo.OnDate` carries the instant instead of its locale text.
- Time zones are a fixed offset from UTC, with no daylight-saving changes. Around a DST change, `setDate` and `setHours` would move by 23 or 25 hours; the model does not capture that.
- `created_at` is assumed to parse to an instant. An invalid date (NaN comparisons, `toISOString` throwing) is not modelled.
- `avgCommitsPerDay`: the floating-point division and `toFixed(1)` are modelled as exact rounding to the nearest tenth, and the result is a count of tenths rather than a string. Totals beyond 2^53 are not modelled.
- `GetTimeAgo`: `Math.floor` on doubles is modelled as exact integer floor division.
- `payload.size` is a non-negative integer. Negative, fractional or non-numeric sizes are not modelled.
- `ActivityStats.TallyRepoActivity`: `repoActivity` is a plain object, and the model treats it as a map of own keys in creation order. JavaScript puts integer-like keys (a repository named `123`) first. `__proto__` is special. Names of inherited `Object.prototype` members (`constructor`, `toString`, `valueOf`, `hasOwnProperty`, ...) make `repoActivity[repoName] || 0` read the inherited function, so the source stores a concatenated string, not a count. The model counts such names like any other. None of these cases is modelled.
- `UserSlice.UserStore.SetWeeklyGoal`: the goal payload is an integer. Other JavaScript values are not modelled. The `setLoading` payload is a boolean or absent.
- Payload types are narrowed. Data and error payloads are generic values, and `null` and `undefined` are both `None`.
- The `limit` default of 5 is `RecentActivity.DefaultLimit`. `GetDefaultRecentActivity` is the call that omits the argument.
- The `YYYY-MM-DD` string is not rendered. The grid keys on the UTC day number, which names the same date.
- The UI components, pages, API client, OAuth callback, theme context and server are not part of this model.
