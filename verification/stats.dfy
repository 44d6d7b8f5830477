/** The account statistics aggregator (`get_user_stats`): totals and
    averages of stars and forks, the language distribution, the cumulative
    repository-creation timeline, the ten most frequent topics and the five
    most-starred repositories, all computed over the simplified listing. */
module Stats {
  import opened Wrappers
  import opened Sorting
  import opened Counting
  import opened Listing

  /** One timeline point: a creation day and how many repositories had been
      created by then. */
  datatype TimelinePoint = TimelinePoint(date: string, repos: nat)

  /** One entry of the stars ranking. */
  datatype StarEntry = StarEntry(name: string, stars: nat)

  /** The account statistics record. */
  datatype AccountStats = AccountStats(
    username: string,
    repoCount: nat,
    totalStars: nat,
    totalForks: nat,
    avgStars: real,
    avgForks: real,
    languageDistribution: seq<Entry<string>>,
    timeline: seq<TimelinePoint>,
    topTopics: seq<Entry<string>>,
    reposByStars: seq<StarEntry>)

  // ---------------------------------------------------------------- totals

  /** `sum(repo["stars"] for repo in repos)`. */
  function TotalStars(repos: seq<Repo>): nat {
    if |repos| == 0 then 0 else repos[0].stars + TotalStars(repos[1..])
  }

  /** `sum(repo["forks"] for repo in repos)`. */
  function TotalForks(repos: seq<Repo>): nat {
    if |repos| == 0 then 0 else repos[0].forks + TotalForks(repos[1..])
  }

  /** The totals of a concatenation are the sums of the totals. */
  lemma {:induction false} TotalsAppend(a: seq<Repo>, b: seq<Repo>)
    ensures TotalStars(a + b) == TotalStars(a) + TotalStars(b)
    ensures TotalForks(a + b) == TotalForks(a) + TotalForks(b)
  {
    if |a| > 0 {
      assert (a + b)[1..] == a[1..] + b;
      TotalsAppend(a[1..], b);
    } else {
      assert a + b == b;
    }
  }

  /** `avg` is the mean of `count` values adding up to `total`, or 0 when
      there are none. */
  ghost predicate IsMean(avg: real, total: nat, count: nat) {
    && (count == 0 ==> avg == 0.0)
    && (count > 0 ==> avg * count as real == total as real)
  }

  /** `total / count if count else 0`: the mean, and 0 rather than a division
      fault when there is nothing to average. */
  function Average(total: nat, count: nat): (r: real)
    ensures IsMean(r, total, count)
    ensures r >= 0.0
  {
    if count == 0 then 0.0 else total as real / count as real
  }

  // ------------------------------------------------------------- languages

  /** A repository counts towards the language distribution when its primary
      language is present and non-empty (`if repo["language"]`). */
  predicate HasLanguage(r: Repo) {
    r.language.Some? && r.language.value != ""
  }

  /** The primary language of each repository, null included, in listing order. */
  function LanguageColumn(repos: seq<Repo>): (r: seq<Option<string>>)
    ensures |r| == |repos|
    ensures forall i :: 0 <= i < |r| ==> r[i] == repos[i].language
  {
    if |repos| == 0 then [] else [repos[0].language] + LanguageColumn(repos[1..])
  }

  /** The non-empty primary languages, in listing order. */
  function KnownLanguages(repos: seq<Repo>): (r: seq<string>)
    ensures |r| <= |repos|
  {
    if |repos| == 0 then []
    else (if HasLanguage(repos[0]) then [repos[0].language.value] else []) + KnownLanguages(repos[1..])
  }

  /** `dict(Counter(languages))`. */
  function LanguageDistribution(repos: seq<Repo>): (r: seq<Entry<string>>)
    ensures Distinct(Keys(r))
  {
    Tally(KnownLanguages(repos))
  }

  /** Each non-empty language occurs in `KnownLanguages` once per repository
      that has it; the empty string never does. */
  lemma {:induction false} KnownLanguagesCount(repos: seq<Repo>, l: string)
    ensures multiset(KnownLanguages(repos))[l] == if l == "" then 0 else multiset(LanguageColumn(repos))[Some(l)]
  {
    if |repos| > 0 {
      KnownLanguagesCount(repos[1..], l);
      assert LanguageColumn(repos) == [repos[0].language] + LanguageColumn(repos[1..]);
    }
  }

  /** `KnownLanguages` skips exactly the repositories with a null or empty language. */
  lemma {:induction false} KnownLanguagesLength(repos: seq<Repo>)
    ensures |KnownLanguages(repos)|
         == |repos| - multiset(LanguageColumn(repos))[None] - multiset(LanguageColumn(repos))[Some("")]
  {
    if |repos| > 0 {
      KnownLanguagesLength(repos[1..]);
      assert LanguageColumn(repos) == [repos[0].language] + LanguageColumn(repos[1..]);
    }
  }

  /** The language distribution counts, for every non-empty language, the
      repositories whose primary language it is; every listed count is at
      least one; and the counts add up to the number of repositories with a
      non-empty language. */
  lemma LanguageDistributionSpec(repos: seq<Repo>)
    ensures forall l :: Lookup(LanguageDistribution(repos), l) == (if l == "" then 0 else multiset(LanguageColumn(repos))[Some(l)])
    ensures forall i :: 0 <= i < |LanguageDistribution(repos)| ==> LanguageDistribution(repos)[i].count >= 1
    ensures SumCounts(LanguageDistribution(repos))
         == |repos| - multiset(LanguageColumn(repos))[None] - multiset(LanguageColumn(repos))[Some("")]
  {
    var langs := KnownLanguages(repos);
    forall l ensures Lookup(Tally(langs), l) == if l == "" then 0 else multiset(LanguageColumn(repos))[Some(l)] {
      TallyLookup(langs, l);
      KnownLanguagesCount(repos, l);
    }
    TallyCounts(langs);
    TallySum(langs);
    KnownLanguagesLength(repos);
  }

  // -------------------------------------------------------------- timeline

  /** The creation instant of each repository, in listing order. */
  function CreationInstants(repos: seq<Repo>): (r: seq<Instant>)
    ensures |r| == |repos|
    ensures forall i :: 0 <= i < |r| ==> r[i] == repos[i].createdAt
  {
    if |repos| == 0 then [] else [repos[0].createdAt] + CreationInstants(repos[1..])
  }

  /** Instants sort by themselves. */
  function InstantKey(t: Instant): int {
    t
  }

  /** `creation_dates.sort()`: the creation instants in ascending order. */
  function CreationOrder(repos: seq<Repo>): (r: seq<Instant>)
    ensures |r| == |repos|
    ensures multiset(r) == multiset(CreationInstants(repos))
    ensures forall i, j :: 0 <= i < j < |r| ==> r[i] <= r[j]
  {
    var r := SortBy(CreationInstants(repos), InstantKey);
    assert forall i, j :: 0 <= i < j < |r| ==> InstantKey(r[i]) <= InstantKey(r[j]);
    r
  }

  /** `len([d for d in dates if d <= t])`. */
  function CountAtMost(dates: seq<Instant>, t: Instant): (r: nat)
    ensures r <= |dates|
  {
    if |dates| == 0 then 0
    else (if dates[0] <= t then 1 else 0) + CountAtMost(dates[1..], t)
  }

  /** The timeline: one point per repository in ascending creation order,
      labelled with its creation day (`date.strftime("%Y-%m-%d")`, given here
      as `dayLabel`), counting the repositories created at or before it. */
  function Timeline(repos: seq<Repo>, dayLabel: Instant -> string): (r: seq<TimelinePoint>)
    ensures |r| == |repos|
  {
    var dates := CreationOrder(repos);
    seq(|dates|, i requires 0 <= i < |dates| => TimelinePoint(dayLabel(dates[i]), CountAtMost(dates, dates[i])))
  }

  lemma {:induction false} CountAtMostAppend(a: seq<Instant>, b: seq<Instant>, t: Instant)
    ensures CountAtMost(a + b, t) == CountAtMost(a, t) + CountAtMost(b, t)
  {
    if |a| > 0 {
      assert (a + b)[1..] == a[1..] + b;
      CountAtMostAppend(a[1..], b, t);
    } else {
      assert a + b == b;
    }
  }

  /** Taking out the instant at position `k` takes it out of the count. */
  lemma CountAtMostRemove(b: seq<Instant>, k: nat, t: Instant)
    requires k < |b|
    ensures CountAtMost(b, t) == CountAtMost(b[..k] + b[k + 1..], t) + if b[k] <= t then 1 else 0
  {
    var before, after := b[..k], b[k + 1..];
    assert b == before + ([b[k]] + after);
    CountAtMostAppend(before, [b[k]] + after, t);
    CountAtMostAppend(before, after, t);
    assert ([b[k]] + after)[1..] == after;
  }

  /** The count depends only on which instants there are, not on their order. */
  lemma {:induction false} CountAtMostPermutation(a: seq<Instant>, b: seq<Instant>, t: Instant)
    requires multiset(a) == multiset(b)
    ensures CountAtMost(a, t) == CountAtMost(b, t)
    decreases |a|
  {
    if |a| == 0 {
      assert |b| == |multiset(b)| == 0;
    } else {
      var x := a[0];
      assert x in multiset(b);
      var k :| 0 <= k < |b| && b[k] == x;
      var rest := b[..k] + b[k + 1..];
      MultisetRemove(b, k);
      assert a == [x] + a[1..];
      assert multiset(a[1..]) == multiset(a) - multiset{x};
      CountAtMostPermutation(a[1..], rest, t);
      CountAtMostRemove(b, k, t);
    }
  }

  /** Removing position `k` removes one copy of `b[k]` from the multiset. */
  lemma MultisetRemove<T>(b: seq<T>, k: nat)
    requires k < |b|
    ensures multiset(b[..k] + b[k + 1..]) == multiset(b) - multiset{b[k]}
  {
    assert b == b[..k] + [b[k]] + b[k + 1..];
  }

  /** When every instant is at most `t`, all of them are counted. */
  lemma {:induction false} CountAtMostAll(dates: seq<Instant>, t: Instant)
    requires forall i :: 0 <= i < |dates| ==> dates[i] <= t
    ensures CountAtMost(dates, t) == |dates|
  {
    if |dates| > 0 {
      CountAtMostAll(dates[1..], t);
    }
  }

  /** A later cut-off counts at least as many instants. */
  lemma {:induction false} CountAtMostMonotone(dates: seq<Instant>, t: Instant, u: Instant)
    requires t <= u
    ensures CountAtMost(dates, t) <= CountAtMost(dates, u)
  {
    if |dates| > 0 {
      CountAtMostMonotone(dates[1..], t, u);
    }
  }

  /** In ascending order, the count at the `i`-th instant includes the first `i + 1`. */
  lemma CountAtMostSorted(dates: seq<Instant>, i: nat)
    requires forall a, b :: 0 <= a < b < |dates| ==> dates[a] <= dates[b]
    requires i < |dates|
    ensures CountAtMost(dates, dates[i]) >= i + 1
  {
    assert dates == dates[..i + 1] + dates[i + 1..];
    CountAtMostAppend(dates[..i + 1], dates[i + 1..], dates[i]);
    CountAtMostAll(dates[..i + 1], dates[i]);
  }

  /** Each timeline point carries the creation day of the `i`-th repository in
      creation order, and counts the repositories of the listing created at or
      before that instant. */
  lemma TimelineSpec(repos: seq<Repo>, dayLabel: Instant -> string)
    ensures forall i :: 0 <= i < |repos| ==>
      && Timeline(repos, dayLabel)[i].date == dayLabel(CreationOrder(repos)[i])
      && Timeline(repos, dayLabel)[i].repos == CountAtMost(CreationInstants(repos), CreationOrder(repos)[i])
  {
    forall t ensures CountAtMost(CreationOrder(repos), t) == CountAtMost(CreationInstants(repos), t) {
      CountAtMostPermutation(CreationOrder(repos), CreationInstants(repos), t);
    }
  }

  /** The counts are cumulative: never decreasing, the `i`-th (from 0) at
      least `i + 1`, never above the repository count, equal for equal
      instants, and the last one is the repository count. */
  lemma TimelineCumulative(repos: seq<Repo>, dayLabel: Instant -> string)
    ensures var tl := Timeline(repos, dayLabel);
      && (forall i, j :: 0 <= i < j < |tl| ==> tl[i].repos <= tl[j].repos)
      && (forall i :: 0 <= i < |tl| ==> i + 1 <= tl[i].repos <= |repos|)
      && (forall i :: 0 <= i < |tl| - 1 && CreationOrder(repos)[i] == CreationOrder(repos)[i + 1] ==>
            tl[i].repos == tl[i + 1].repos)
      && (|tl| > 0 ==> tl[|tl| - 1].repos == |repos|)
  {
    var tl := Timeline(repos, dayLabel);
    var dates := CreationOrder(repos);
    forall i, j | 0 <= i < j < |tl| ensures tl[i].repos <= tl[j].repos {
      CountAtMostMonotone(dates, dates[i], dates[j]);
    }
    forall i | 0 <= i < |tl| ensures i + 1 <= tl[i].repos {
      CountAtMostSorted(dates, i);
    }
    if |tl| > 0 {
      CountAtMostAll(dates, dates[|dates| - 1]);
    }
  }

  // ---------------------------------------------------------------- topics

  /** Every topic of every repository, in listing order (`all_topics`). */
  function AllTopics(repos: seq<Repo>): seq<string> {
    if |repos| == 0 then [] else repos[0].topics + AllTopics(repos[1..])
  }

  /** Ranks counter entries by descending count. */
  function ByCountDescending(e: Entry<string>): int {
    -(e.count as int)
  }

  /** `dict(Counter(all_topics).most_common(10))`. */
  function TopTopics(repos: seq<Repo>): seq<Entry<string>> {
    TopK(Tally(AllTopics(repos)), ByCountDescending, 10)
  }

  /** The ten most frequent topics, or all of them when there are fewer. */
  lemma TopTopicsLength(repos: seq<Repo>)
    ensures |TopTopics(repos)| == if 10 < |set t | t in AllTopics(repos)| then 10 else |set t | t in AllTopics(repos)|
  {
    TallySize(AllTopics(repos));
  }

  /** The top topics come in non-increasing frequency. */
  lemma TopTopicsOrdered(repos: seq<Repo>)
    ensures forall i, j :: 0 <= i < j < |TopTopics(repos)| ==> TopTopics(repos)[i].count >= TopTopics(repos)[j].count
  {
    var r := TopTopics(repos);
    forall i, j | 0 <= i < j < |r| ensures r[i].count >= r[j].count {
      assert ByCountDescending(r[i]) <= ByCountDescending(r[j]);
    }
  }

  /** Each top topic carries its number of occurrences across all repositories. */
  lemma TopTopicsCounts(repos: seq<Repo>)
    ensures forall i :: 0 <= i < |TopTopics(repos)| ==>
      TopTopics(repos)[i].count == multiset(AllTopics(repos))[TopTopics(repos)[i].key] >= 1
  {
    var all := AllTopics(repos);
    var counter := Tally(all);
    var r := TopTopics(repos);
    TallyCounts(all);
    forall i | 0 <= i < |r| ensures r[i].count == multiset(all)[r[i].key] >= 1 {
      assert r[i] in multiset(counter);
    }
  }

  /** No topic appears twice among the top topics. */
  lemma TopTopicsDistinct(repos: seq<Repo>)
    ensures Distinct(Keys(TopTopics(repos)))
  {
    var counter := Tally(AllTopics(repos));
    var r := TopTopics(repos);
    forall i, j | 0 <= i < j < |r| ensures Keys(r)[i] != Keys(r)[j] {
      assert r[i] in multiset(counter) && r[j] in multiset(counter);
      var a :| 0 <= a < |counter| && counter[a] == r[i];
      var b :| 0 <= b < |counter| && counter[b] == r[j];
      if a == b {
        MultiplicityTwo(r, i, j);
        assert Distinct(counter) by {
          forall c, d | 0 <= c < d < |counter| ensures counter[c] != counter[d] {
            assert Keys(counter)[c] != Keys(counter)[d];
          }
        }
        MultiplicityAtMostOne(counter, r[i]);
        assert false;
      } else if a < b {
        assert Keys(counter)[a] != Keys(counter)[b];
      } else {
        assert Keys(counter)[b] != Keys(counter)[a];
      }
    }
  }

  /** No topic left out of the top topics occurs more often than one kept. */
  lemma TopTopicsMaximal(repos: seq<Repo>)
    ensures forall e, i :: e in Tally(AllTopics(repos)) && e !in TopTopics(repos) && 0 <= i < |TopTopics(repos)| ==>
      TopTopics(repos)[i].count >= e.count
  {
    var counter := Tally(AllTopics(repos));
    var r := TopTopics(repos);
    forall e, i | e in counter && e !in r && 0 <= i < |r| ensures r[i].count >= e.count {
      assert e in multiset(counter) - multiset(r);
      TopKBound(counter, ByCountDescending, 10, e, i);
    }
  }

  // ----------------------------------------------------------------- stars

  /** `{"name": repo["name"], "stars": repo["stars"]}` for each repository. */
  function StarEntries(repos: seq<Repo>): (r: seq<StarEntry>)
    ensures |r| == |repos|
    ensures forall i :: 0 <= i < |r| ==> r[i] == StarEntry(repos[i].name, repos[i].stars)
  {
    if |repos| == 0 then [] else [StarEntry(repos[0].name, repos[0].stars)] + StarEntries(repos[1..])
  }

  /** Ranks star entries by descending stars. */
  function ByStarsDescending(e: StarEntry): int {
    -(e.stars as int)
  }

  /** `sorted(..., key=stars, reverse=True)[:5]`. */
  function ReposByStars(repos: seq<Repo>): seq<StarEntry> {
    TopK(StarEntries(repos), ByStarsDescending, 5)
  }

  /** The ranking has min(5, repository count) entries drawn from the
      listing, in non-increasing stars. */
  lemma ReposByStarsOrdered(repos: seq<Repo>)
    ensures |ReposByStars(repos)| == if 5 < |repos| then 5 else |repos|
    ensures forall i, j :: 0 <= i < j < |ReposByStars(repos)| ==> ReposByStars(repos)[i].stars >= ReposByStars(repos)[j].stars
    ensures multiset(ReposByStars(repos)) <= multiset(StarEntries(repos))
  {
    var r := ReposByStars(repos);
    forall i, j | 0 <= i < j < |r| ensures r[i].stars >= r[j].stars {
      assert ByStarsDescending(r[i]) <= ByStarsDescending(r[j]);
    }
  }

  /** No repository left out of the ranking has more stars than one kept. */
  lemma ReposByStarsMaximal(repos: seq<Repo>)
    ensures forall e, i :: e in multiset(StarEntries(repos)) - multiset(ReposByStars(repos)) && 0 <= i < |ReposByStars(repos)| ==>
      ReposByStars(repos)[i].stars >= e.stars
  {
    var all := StarEntries(repos);
    var r := ReposByStars(repos);
    forall e, i | e in multiset(all) - multiset(r) && 0 <= i < |r| ensures r[i].stars >= e.stars {
      TopKBound(all, ByStarsDescending, 5, e, i);
    }
  }

  /** The ranking is stable: repositories with equal stars keep their listing
      order (for each star count `n`, the ranked entries with `n` stars are a
      prefix of the listing's entries with `n` stars). */
  lemma ReposByStarsStable(repos: seq<Repo>, n: nat)
    ensures KeyFilter(ReposByStars(repos), ByStarsDescending, -(n as int)) <= KeyFilter(StarEntries(repos), ByStarsDescending, -(n as int))
  {
    TopKStable(StarEntries(repos), ByStarsDescending, 5, -(n as int));
  }

  // ------------------------------------------------------------ aggregation

  /** The statistics over a simplified listing. */
  function ComputeStats(username: string, repos: seq<Repo>, dayLabel: Instant -> string): (r: AccountStats)
    ensures r.username == username && r.repoCount == |repos|
    ensures r.totalStars == TotalStars(repos) && r.totalForks == TotalForks(repos)
    ensures IsMean(r.avgStars, r.totalStars, r.repoCount)
    ensures IsMean(r.avgForks, r.totalForks, r.repoCount)
    ensures r.languageDistribution == LanguageDistribution(repos)
    ensures r.timeline == Timeline(repos, dayLabel) && |r.timeline| == |repos|
    ensures r.topTopics == TopTopics(repos) && |r.topTopics| <= 10
    ensures r.reposByStars == ReposByStars(repos)
    ensures |r.reposByStars| == if 5 < |repos| then 5 else |repos|
  {
    var stars, forks := TotalStars(repos), TotalForks(repos);
    AccountStats(
      username := username,
      repoCount := |repos|,
      totalStars := stars,
      totalForks := forks,
      avgStars := Average(stars, |repos|),
      avgForks := Average(forks, |repos|),
      languageDistribution := LanguageDistribution(repos),
      timeline := Timeline(repos, dayLabel),
      topTopics := TopTopics(repos),
      reposByStars := ReposByStars(repos))
  }

  /** `get_user_stats` after the listing fetch: the statistics of the
      fork-free listing. */
  function GetUserStats(username: string, raws: seq<RawRepo>, dayLabel: Instant -> string): (r: AccountStats)
    ensures r.repoCount == |NonForkPositions(raws)|
  {
    GetUserReposSpec(raws);
    ComputeStats(username, GetUserRepos(raws), dayLabel)
  }

  /** Forks never reach the statistics: a fork inserted anywhere upstream
      leaves every figure unchanged. */
  lemma StatsIgnoreForks(username: string, a: seq<RawRepo>, f: RawRepo, b: seq<RawRepo>, dayLabel: Instant -> string)
    requires IsFork(f)
    ensures GetUserStats(username, a + [f] + b, dayLabel) == GetUserStats(username, a + b, dayLabel)
  {
    ForksIgnored(a, f, b);
  }

  /** The stargazer counts of the upstream entries that are not forks, added up. */
  function NonForkStars(raws: seq<RawRepo>): nat {
    if |raws| == 0 then 0
    else (if IsFork(raws[0]) then 0 else raws[0].stargazersCount) + NonForkStars(raws[1..])
  }

  /** The star total of the listing is the star total of the non-fork upstream entries. */
  lemma {:induction false} ListingStars(raws: seq<RawRepo>)
    ensures TotalStars(GetUserRepos(raws)) == NonForkStars(raws)
  {
    if |raws| > 0 {
      ListingStars(raws[1..]);
      if !IsFork(raws[0]) {
        assert GetUserRepos(raws) == [Simplify(raws[0])] + GetUserRepos(raws[1..]);
        assert GetUserRepos(raws)[1..] == GetUserRepos(raws[1..]);
      }
    }
  }

  /** The fork counts of the upstream entries that are not forks, added up. */
  function NonForkForks(raws: seq<RawRepo>): nat {
    if |raws| == 0 then 0
    else (if IsFork(raws[0]) then 0 else raws[0].forksCount) + NonForkForks(raws[1..])
  }

  /** The fork total of the listing is the fork total of the non-fork upstream entries. */
  lemma {:induction false} ListingForks(raws: seq<RawRepo>)
    ensures TotalForks(GetUserRepos(raws)) == NonForkForks(raws)
  {
    if |raws| > 0 {
      ListingForks(raws[1..]);
      if !IsFork(raws[0]) {
        assert GetUserRepos(raws) == [Simplify(raws[0])] + GetUserRepos(raws[1..]);
        assert GetUserRepos(raws)[1..] == GetUserRepos(raws[1..]);
      }
    }
  }

  /** The star and fork totals of the statistics count the non-fork upstream
      entries only. */
  lemma StatsStarsFromUpstream(username: string, raws: seq<RawRepo>, dayLabel: Instant -> string)
    ensures GetUserStats(username, raws, dayLabel).totalStars == NonForkStars(raws)
    ensures GetUserStats(username, raws, dayLabel).totalForks == NonForkForks(raws)
  {
    ListingStars(raws);
    ListingForks(raws);
  }
}
