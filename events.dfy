/**
 * A GitHub event as the aggregation functions read it: `type`, `created_at` (already parsed
 * to an instant), `repo.name` and `payload.size`, with JavaScript's defaulting rules.
 */
module Events {
  import opened Wrappers
  import opened Strings

  /** `repoName` is `None` when `repo` or `repo.name` is missing; `size` is `None` when absent. */
  datatype Event = Event(kind: string, createdAt: int, repoName: Option<string>, size: Option<nat>)

  predicate IsPush(e: Event)
  {
    e.kind == "PushEvent"
  }

  /** `event.payload?.size || 1`: an absent or zero size counts as one commit. */
  function Commits(e: Event): nat
  {
    if e.size.Some? && e.size.value != 0 then e.size.value else 1
  }

  /** A push's commits, and nothing for any other kind of event. */
  function PushCommits(e: Event): nat
  {
    if IsPush(e) then Commits(e) else 0
  }

  /** `event.repo?.name` is truthy: present and not the empty string. */
  predicate HasName(e: Event)
  {
    e.repoName.Some? && e.repoName.value != ""
  }

  /** The truthy repository name, if any (used by `new Set(... .filter(Boolean))`). */
  function TruthyName(e: Event): Option<string>
  {
    if HasName(e) then e.repoName else None
  }

  /** `name.split('/')[1] || name`: the part after the owner, or the whole name. */
  function ShortName(name: string): string
  {
    match SecondSegment(name)
    case Some(seg) => if seg != "" then seg else name
    case None => name
  }

  /** The short name of a named event's repository. */
  function RepoKey(e: Event): string
  {
    match e.repoName
    case Some(name) => ShortName(name)
    case None => ""
  }

  /** An `owner/repo` name shortens to `repo`. */
  lemma ShortNameOfFullName(owner: string, repo: string)
    requires '/' !in owner && '/' !in repo && repo != ""
    ensures ShortName(owner + "/" + repo) == repo
  {
    SecondSegmentOf(owner, repo, "");
    assert owner + "/" + repo + "" == owner + "/" + repo;
  }

  /** A name without '/', or whose second piece is empty (`"owner/"`), is kept whole. */
  lemma ShortNameKeepsWhole(name: string)
    requires '/' !in name || SecondSegment(name) == Some("")
    ensures ShortName(name) == name
  {
  }
}
