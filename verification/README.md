# CrispHub aggregation core in Dafny

CrispHub is a small read-only service. It queries a source-control hosting API for an account and reshapes the responses for a dashboard. This project models the deterministic part of `backend/github_api.py`: everything that happens after the upstream responses have arrived. The fetched JSON is an input to each operation.

- **Listing** (`get_user_repos`). Forks are dropped from the repository page. Each remaining entry is projected onto the simplified repository record. A missing `topics` becomes the empty sequence.
- **Details** (`get_repo_details`). The repository metadata is merged with commit summaries, contributor summaries, the language byte map and the weekly activity series. The commit-frequency histogram counts commits per calendar day. A commit's day is the part of its author date before the first `T`.
- **Stats** (`get_user_stats`). Computed over the listing:
  - star and fork totals and averages,
  - the language distribution,
  - the cumulative creation timeline,
  - the ten most frequent topics,
  - the five most-starred repositories.

Modules:

| file | module | models |
|---|---|---|
| `wrappers.dfy` | `Wrappers` | optional JSON fields and raising operations (`Option`, `Result`) |
| `sorting.dfy` | `Sorting` | Python's stable `sorted` (insertion sort by an integer key) and `[:k]` |
| `counting.dfy` | `Counting` | `collections.Counter`: first-seen key order, tallies, lookup |
| `listing.dfy` | `Listing` | `get_user_repos` |
| `details.dfy` | `Details` | `get_repo_details` |
| `stats.dfy` | `Stats` | `get_user_stats` |
| `scenarios.dfy` | `Scenarios` | worked examples: one-repository account, same-day commits, same-instant creations |

Modelling choices:

- Python's `sorted(..., key=k, reverse=True)` keeps equal elements in their original order. It is modelled as a stable ascending sort by the negated key (`ByStarsDescending`, `ByCountDescending`).
- `Counter.most_common(10)` is modelled as that descending sort of the counter entries, cut to 10.
- Creation and update timestamps of listed repositories are abstract instants (`Instant = int`). Only their order matters.
- The `%Y-%m-%d` day label of a timeline point is a function parameter `dayLabel`.
- Commit author dates stay strings, because the histogram works on their text.
- Averages are exact reals, characterised by `IsMean`: `avg * count == total` when `count > 0`, and 0 otherwise.
- Contributor avatars have no default. The source indexes `contributor["avatar_url"]` directly, so the field is required in `RawContributor`. Only the commit avatar gets a `""` default.

## Model

| member | source | states |
|---|---|---|
| `Listing.Simplify` | backend/github_api.py:35-50 | every simplified field is the corresponding upstream field; topics are the upstream topics, or empty when the key is missing |
| `Listing.IsFork` | backend/github_api.py:32-33 | an entry is skipped exactly when its `fork` flag is present and true; a missing or null flag keeps it (stated through `ForksIgnored` and `NonForkPositionsSpec`) |
| `Listing.GetUserRepos` | backend/github_api.py:29-52 | the listing is never longer than the upstream page |
| `Listing.GetUserReposSpec` | backend/github_api.py:29-52 | the listing has one record per non-fork entry; record k is the simplification of the k-th non-fork entry, in upstream order; so no record comes from a fork |
| `Listing.GetUserReposAppend` | backend/github_api.py:30-50 | the listing of a concatenation is the concatenation of the listings, so filtering never reorders |
| `Listing.ForksIgnored` | backend/github_api.py:30-33 | a fork inserted anywhere in the upstream page leaves the listing unchanged |
| `Details.DayPrefix` | backend/github_api.py:77 | the day is a prefix of the date that contains no 'T' and stops at the first 'T' or at the end |
| `Details.DayPrefixUnique` | backend/github_api.py:77 | any prefix with those properties is the day prefix, so they characterise `split("T")[0]` |
| `Details.DayPrefixOfDateTime` | backend/github_api.py:77 | the day of `d + "T" + time` is `d` when `d` has no 'T' |
| `Details.CommitDays` | backend/github_api.py:77 | one day per commit, in commit order, each the day prefix of that commit's author date |
| `Details.CommitFrequency` | backend/github_api.py:78 | no day appears twice among the histogram keys |
| `Details.CommitFrequencyKeys` | backend/github_api.py:77-78 | the histogram keys are exactly the days on which some commit was authored |
| `Details.CommitFrequencyCounts` | backend/github_api.py:77-78 | each day's count is the number of commits on it, at least one; the counts sum to the number of commits |
| `Details.SingleDayFrequency` | backend/github_api.py:77-78 | commits all on one day give the single entry (day, number of commits); no commits give an empty histogram |
| `Details.AuthorAvatar` | backend/github_api.py:106 | the avatar is the account's avatar URL when present, otherwise "" |
| `Details.AuthorAvatarAsWritten` | backend/github_api.py:106 | the source's expression fails exactly when the account field is null; otherwise it agrees with `AuthorAvatar` |
| `Details.RecentCommits` | backend/github_api.py:100-109 | one summary per commit, in commit order, carrying sha, message, author date and name, and the avatar or "" |
| `Details.RecentCommitsAsWritten` | backend/github_api.py:100-109 | the comprehension as written, which raises at a null account; its behaviour is stated by `RecentCommitsAsWrittenSpec` and `NullAccountCounterexample` |
| `Details.RecentCommitsAsWrittenSpec` | backend/github_api.py:100-109 | the source's comprehension fails iff some commit has a null account; otherwise it equals `RecentCommits` |
| `Details.NullAccountCounterexample` | backend/github_api.py:106 | a single commit with a null account makes the source's comprehension fail, while the intended summary has avatar "" |
| `Details.Contributors` | backend/github_api.py:92-99 | one summary per contributor, in order, with login, avatar URL and contributions copied and no default |
| `Details.GetRepoDetails` | backend/github_api.py:80-112 | name, full name, description, creation and update times, counts and language come from the repository; topics default to empty; languages and weekly series pass through unchanged; the recent commits, contributors and histogram are `RecentCommits`, `Contributors` and `CommitFrequency` of the fetched lists, so their contracts and lemmas describe the record; no commits give an empty histogram and empty recent commits |
| `Details.GetRepoDetailsAsWritten` | backend/github_api.py:80-112 | the aggregation as written, with recent commits taken from the as-written comprehension; its behaviour is stated by `GetRepoDetailsAsWrittenSpec` |
| `Details.GetRepoDetailsAsWrittenSpec` | backend/github_api.py:76-112 | the as-written aggregation fails exactly when a commit has a null account; otherwise the record it builds from the comprehension's own value equals the corrected record |
| `Counting.Tally` | backend/github_api.py:78 | a counter never repeats a key |
| `Counting.TallyLookup` | backend/github_api.py:78 | reading the counter at any value gives that value's multiplicity in the input (0 if absent) |
| `Counting.TallyKeys` | backend/github_api.py:78 | the counter's keys are exactly the values occurring in the input |
| `Counting.TallySum` | backend/github_api.py:78 | the tallies add up to the input length |
| `Counting.TallyCounts` | backend/github_api.py:78 | each entry's tally is its key's multiplicity, hence at least one |
| `Counting.TallySize` | backend/github_api.py:140 | the counter has one entry per distinct input value |
| `Sorting.SortBy` | backend/github_api.py:156-159 | the sorted sequence is a permutation of the input in ascending key order |
| `Sorting.SortByStable` | backend/github_api.py:156-159 | for every key value, the elements with that key keep their input order |
| `Sorting.TopK` | backend/github_api.py:156-160 | the cut-off sort has min(k, n) elements, sorted, drawn from the input |
| `Sorting.TopKBound` | backend/github_api.py:156-160 | no element left out has a smaller key than any element kept |
| `Sorting.TopKStable` | backend/github_api.py:156-160 | each key class of the selection is a prefix of that class in the input |
| `Stats.TotalsAppend` | backend/github_api.py:119-120 | the star and fork totals of a concatenation are the sums of the totals |
| `Stats.TotalStars` | backend/github_api.py:119 | the sum of the listing's stars; `TotalsAppend` states its additivity and `ListingStars` ties it to the upstream stargazer counts |
| `Stats.TotalForks` | backend/github_api.py:120 | the sum of the listing's forks; `TotalsAppend` states its additivity and `ListingForks` ties it to the upstream fork counts |
| `Stats.Average` | backend/github_api.py:143-144 | the average times the count is the total when there are repositories, and it is 0 when there are none |
| `Stats.LanguageDistribution` | backend/github_api.py:121-122 | no language appears twice in the distribution |
| `Stats.KnownLanguages` | backend/github_api.py:121 | the non-empty languages in listing order, never longer than the listing; `KnownLanguagesCount` and `KnownLanguagesLength` state which are kept |
| `Stats.KnownLanguagesCount` | backend/github_api.py:121 | each non-empty language is kept once per repository that has it; the empty language never is |
| `Stats.KnownLanguagesLength` | backend/github_api.py:121 | exactly the repositories with a null or empty language are skipped |
| `Stats.LanguageDistributionSpec` | backend/github_api.py:121-122 | the count of each non-empty language is its number of repositories; every count is at least one; the counts add up to the number of repositories with a non-empty language |
| `Stats.CreationOrder` | backend/github_api.py:125-126 | the creation instants, sorted ascending, as a permutation of the listing's |
| `Stats.CountAtMost` | backend/github_api.py:133 | the count never exceeds the number of dates |
| `Stats.Timeline` | backend/github_api.py:129-134 | one timeline point per repository |
| `Stats.CountAtMostPermutation` | backend/github_api.py:133 | counting dates at or before an instant does not depend on their order |
| `Stats.CountAtMostSorted` | backend/github_api.py:126-133 | in ascending order, the count at the i-th date (from 0) is at least i + 1 |
| `Stats.TimelineSpec` | backend/github_api.py:125-134 | point i is labelled with the day of the i-th creation instant in ascending order, and counts the listing's repositories created at or before it |
| `Stats.TimelineCumulative` | backend/github_api.py:129-134 | the counts never decrease; the i-th (from 0) lies between i + 1 and the repository count; equal instants give equal consecutive counts; the last equals the repository count |
| `Stats.AllTopics` | backend/github_api.py:137-139 | every repository's topics, concatenated in listing order; the counts over it are stated by `TopTopicsCounts` |
| `Stats.TopTopics` | backend/github_api.py:155 | `most_common(10)` over the topic counter; its contract is stated by `TopTopicsLength`, `TopTopicsOrdered`, `TopTopicsCounts`, `TopTopicsDistinct` and `TopTopicsMaximal` |
| `Stats.TopTopicsLength` | backend/github_api.py:137-140 | min(10, number of distinct topics) entries |
| `Stats.TopTopicsOrdered` | backend/github_api.py:155 | the top topics come in non-increasing frequency |
| `Stats.TopTopicsCounts` | backend/github_api.py:137-140 | each top topic's count is its number of occurrences over all repositories, at least one |
| `Stats.TopTopicsDistinct` | backend/github_api.py:155 | no topic appears twice among the top topics |
| `Stats.TopTopicsMaximal` | backend/github_api.py:155 | no topic left out is more frequent than a topic kept |
| `Stats.StarEntries` | backend/github_api.py:157 | one (name, stars) entry per repository, in listing order |
| `Stats.ReposByStars` | backend/github_api.py:156-160 | `sorted(..., reverse=True)[:5]` over the star entries; its contract is stated by `ReposByStarsOrdered`, `ReposByStarsMaximal` and `ReposByStarsStable` |
| `Stats.ReposByStarsOrdered` | backend/github_api.py:156-160 | min(5, repository count) entries, drawn from the listing, in non-increasing stars |
| `Stats.ReposByStarsMaximal` | backend/github_api.py:156-160 | no repository left out has more stars than a repository kept |
| `Stats.ReposByStarsStable` | backend/github_api.py:156-160 | repositories with equal stars keep their listing order |
| `Stats.ComputeStats` | backend/github_api.py:118-161 | the repository count is the listing length; the star and fork totals are the sums over the listing; both averages are means of those totals (0 for an empty listing); the distribution, timeline, top topics and ranking are the ones `LanguageDistribution`, `Timeline`, `TopTopics` and `ReposByStars` describe, so their lemmas apply to the record; one timeline point per repository; at most 10 topics; min(5, count) ranked repositories |
| `Stats.GetUserStats` | backend/github_api.py:114-116 | the repository count is the number of non-fork upstream entries |
| `Stats.StatsIgnoreForks` | backend/github_api.py:114-161 | a fork inserted anywhere upstream leaves every statistic unchanged |
| `Stats.ListingStars` | backend/github_api.py:119 | the listing's star total is the sum of the stargazer counts of the non-fork upstream entries |
| `Stats.ListingForks` | backend/github_api.py:120 | the listing's fork total is the sum of the fork counts of the non-fork upstream entries |
| `Stats.StatsStarsFromUpstream` | backend/github_api.py:116-120 | the statistics' star and fork totals count the non-fork upstream entries only |
| `Scenarios.SingleRepositoryAccount` | backend/github_api.py:114-161 | one non-fork repository with 10 stars, 5 forks and language C lists as exactly that record; stats give count 1, 10 stars in total, average 10 |
| `Scenarios.SameDayTimeline` | backend/github_api.py:129-134 | two repositories created at the same instant give two equal points, each counting 2 |
| `Scenarios.SameDayCommits` | backend/github_api.py:77-78 | two commits on one day at any times give a single histogram entry with count 2 |

## Left out

- `fetch_data`, the HTTP client, URL construction, and the token read from the environment (backend/github_api.py:9-20). The fetched JSON is a parameter of each operation. The status check on the response is not modelled, so upstream errors are not either.
- The five sequential fetches of `get_repo_details` and the one of `get_user_repos` are left out. They are asynchronous I/O, and a failed fetch simply propagates.
- `backend/main.py` (routing, CORS, turning any exception into a 404), the frontend and the live-server test script are not part of this model.
- `datetime.fromisoformat` and `strftime`. Listing timestamps are abstract instants, and the day label is the parameter `dayLabel`. A malformed timestamp, which makes the source raise, cannot be expressed.
- A missing required key (for example `repo["name"]`) makes the source raise `KeyError`. The record types carry every key the source indexes directly, so that case cannot be expressed.
- A JSON-null `avatar_url` inside a commit's account object is not modelled. The source would return null there. The model distinguishes only a present URL and a missing one.
- A JSON-null `topics` is not modelled; it is treated as a missing key. `repo.get("topics", [])` returns `None` for a key present with a null value (backend/github_api.py:46 and 91), so the detail record would carry null topics and `get_user_stats` would raise on `all_topics.extend(None)` (backend/github_api.py:139). The upstream API sends a (possibly empty) array here, so the model's topic field distinguishes only present and missing.
- The key order of the `languages` byte map is not modelled, because it is a Dafny `map`. The weekly series passes through unchanged, as an ordered sequence of `{days, total, week}` records.
- Floating-point division. The averages are exact reals.
- Counting.Tally: the model builds keys in first-seen order, as `Counter` does, but no contract states that order.
- Stats.TopTopicsOrdered: among topics with equal frequency, the order (first-seen, because `most_common` sorts stably) is built into the model but not stated.
- Stats.LanguageDistributionSpec: the key order of the distribution (first-seen) is not stated.

## Findings

| source | as written | input that shows it | evidently intended | confidence | as-written member | corrected member |
|---|---|---|---|---|---|---|
| backend/github_api.py:106 | `commit.get("author", {})` returns `None` when the key is present with a JSON null value, and `.get("avatar_url", "")` on `None` raises, so the whole detail request fails | a commit whose `author` field is `null`: the hosting API sends this for commits whose e-mail is not linked to an account | an empty avatar for that commit, as for a missing account | not executed; high | `Details.NullAccountCounterexample` | `Details.RecentCommits` |

The as-written behaviour is `Details.RecentCommitsAsWritten`, with `Details.GetRepoDetailsAsWritten` on top of it. It fails exactly on a null account (`Details.RecentCommitsAsWrittenSpec`). The corrected `Details.RecentCommits` maps a null account to `""`, and `Details.GetRepoDetails` uses it.
