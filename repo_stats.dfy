/** `calculateRepoStats`: totals over the user's repositories. */
module RepoStats {
  import opened Wrappers
  import opened Seqs

  /** A repository record; a missing count is `None`, a missing flag is `false`. */
  datatype Repo = Repo(
    name: string,
    stars: Option<nat>,
    forks: Option<nat>,
    language: Option<string>,
    fork: bool,
    isPrivate: bool)

  datatype RepoStats = RepoStats(
    totalRepos: nat,
    totalStars: nat,
    totalForks: nat,
    languagesUsed: nat,
    forkedRepos: nat,
    originalRepos: nat,
    privateRepos: nat)

  /** `repo.stargazers_count || 0`. */
  function Stars(r: Repo): nat
  {
    match r.stars
    case Some(n) => n
    case None => 0
  }

  /** `repo.forks_count || 0`. */
  function Forks(r: Repo): nat
  {
    match r.forks
    case Some(n) => n
    case None => 0
  }

  /** The language when it is truthy (present and not empty). */
  function TruthyLanguage(r: Repo): Option<string>
  {
    if r.language.Some? && r.language.value != "" then r.language else None
  }

  predicate IsFork(r: Repo)
  {
    r.fork
  }

  predicate IsOriginal(r: Repo)
  {
    !r.fork
  }

  predicate IsPrivate(r: Repo)
  {
    r.isPrivate
  }

  /**
   * Every repository is either a fork or an original, private repositories are among them,
   * and there are no more distinct languages than repositories. A non-array input gives zeros.
   */
  function CalculateRepoStats(repos: Option<seq<Repo>>): (r: RepoStats)
    ensures repos.None? ==> r == RepoStats(0, 0, 0, 0, 0, 0, 0)
    ensures repos.Some? ==> r.totalRepos == |repos.value|
    ensures r.totalRepos == r.forkedRepos + r.originalRepos
    ensures r.privateRepos <= r.totalRepos
    ensures r.languagesUsed <= r.totalRepos
    ensures repos.Some? ==> r.forkedRepos == |IndicesWhere(repos.value, IsFork)|
    ensures repos.Some? ==> r.originalRepos == |IndicesWhere(repos.value, IsOriginal)|
    ensures repos.Some? ==> r.privateRepos == |IndicesWhere(repos.value, IsPrivate)|
    ensures repos.Some? ==>
      r.languagesUsed == |set i | 0 <= i < |repos.value| && TruthyLanguage(repos.value[i]).Some?
                                :: TruthyLanguage(repos.value[i]).value|
  {
    match repos
    case None => RepoStats(0, 0, 0, 0, 0, 0, 0)
    case Some(s) =>
      var languages := ImageSet(s, TruthyLanguage);
      FilterComplement(s, IsFork, IsOriginal);
      LanguagesAreDistinctTruthy(s);
      FilterCountsIndices(s, IsFork);
      FilterCountsIndices(s, IsOriginal);
      FilterCountsIndices(s, IsPrivate);
      RepoStats(
        |s|,
        SumOf(s, Stars),
        SumOf(s, Forks),
        |languages|,
        |Filter(s, IsFork)|,
        |Filter(s, IsOriginal)|,
        |Filter(s, IsPrivate)|)
  }

  /** The language set holds exactly the truthy languages of the repositories. */
  lemma LanguagesAreDistinctTruthy(s: seq<Repo>)
    ensures ImageSet(s, TruthyLanguage)
         == set i | 0 <= i < |s| && TruthyLanguage(s[i]).Some? :: TruthyLanguage(s[i]).value
  {
    var lang := set i | 0 <= i < |s| && TruthyLanguage(s[i]).Some? :: TruthyLanguage(s[i]).value;
    forall u
      ensures u in ImageSet(s, TruthyLanguage) <==> u in lang
    {
      ImageSetMembers(s, TruthyLanguage, u);
    }
  }

  /** The totals start at 0, and each repository adds its stars and forks, a missing count adding 0. */
  lemma TotalsGrowByRepo(s: seq<Repo>, x: Repo)
    ensures CalculateRepoStats(Some(s + [x])).totalStars == CalculateRepoStats(Some(s)).totalStars + Stars(x)
    ensures CalculateRepoStats(Some(s + [x])).totalForks == CalculateRepoStats(Some(s)).totalForks + Forks(x)
    ensures CalculateRepoStats(Some([])).totalStars == 0 && CalculateRepoStats(Some([])).totalForks == 0
  {
    SumOfSnoc(s, x, Stars);
    SumOfSnoc(s, x, Forks);
  }
}
