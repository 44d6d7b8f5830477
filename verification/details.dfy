/** The repository detail aggregator (`get_repo_details`): merge a
    repository's metadata with summaries of its recent commits and
    contributors, and count the recent commits per calendar day. The five
    upstream responses are inputs here. */
module Details {
  import opened Wrappers
  import opened Sorting
  import opened Counting

  /** The part of a timestamp before the first 'T' (`date.split("T")[0]`),
      i.e. the calendar day of an ISO 8601 date-time; the whole string when
      it has no 'T'. */
  function DayPrefix(s: string): (r: string)
    ensures r <= s
    ensures 'T' !in r
    ensures |r| < |s| ==> s[|r|] == 'T'
  {
    if |s| == 0 || s[0] == 'T' then []
    else [s[0]] + DayPrefix(s[1..])
  }

  /** The day prefix is the only prefix that stops at the first 'T' (or at the end). */
  lemma {:induction false} DayPrefixUnique(s: string, p: string)
    requires p <= s && 'T' !in p
    requires |p| < |s| ==> s[|p|] == 'T'
    ensures p == DayPrefix(s)
  {
  }

  /** The day of a date-time `d + "T" + time` is `d`, whatever the time part holds. */
  lemma DayPrefixOfDateTime(d: string, time: string)
    requires 'T' !in d
    ensures DayPrefix(d + "T" + time) == d
  {
    DayPrefixUnique(d + "T" + time, d);
  }

  /** The git author of a commit (`commit["commit"]["author"]`). */
  datatype GitAuthor = GitAuthor(name: string, date: string)

  /** The hosting account linked to a commit (`commit["author"]`): the key may
      be missing, may be JSON null, or may hold an object whose `avatar_url`
      may be missing. */
  datatype AccountField = AccountMissing | AccountNull | Account(avatarUrl: Option<string>)

  /** One entry of the upstream commit list. */
  datatype RawCommit = RawCommit(sha: string, message: string, gitAuthor: GitAuthor, account: AccountField)

  /** One entry of the upstream contributor list. */
  datatype RawContributor = RawContributor(login: string, avatarUrl: string, contributions: nat)

  /** One week of the upstream weekly commit-activity series, passed through unread. */
  datatype WeekActivity = WeekActivity(days: seq<nat>, total: nat, week: int)

  /** The upstream repository metadata, restricted to the fields the aggregator reads. */
  datatype RawRepoDetail = RawRepoDetail(
    name: string,
    fullName: string,
    description: Option<string>,
    createdAt: string,
    updatedAt: string,
    stargazersCount: nat,
    forksCount: nat,
    openIssuesCount: nat,
    language: Option<string>,
    topics: Option<seq<string>>)

  /** A recent-commit summary of the detail record. */
  datatype CommitSummary = CommitSummary(sha: string, message: string, date: string, author: string, authorAvatar: string)

  /** A contributor summary of the detail record. */
  datatype Contributor = Contributor(login: string, avatarUrl: string, contributions: nat)

  /** The repository detail record. */
  datatype RepoDetails = RepoDetails(
    name: string,
    fullName: string,
    description: Option<string>,
    createdAt: string,
    updatedAt: string,
    stars: nat,
    forks: nat,
    openIssues: nat,
    language: Option<string>,
    languages: map<string, nat>,
    topics: seq<string>,
    contributors: seq<Contributor>,
    recentCommits: seq<CommitSummary>,
    commitFrequency: seq<Entry<string>>,
    weeklyCommits: seq<WeekActivity>)

  /** The calendar day of each commit's author date, in commit order. */
  function CommitDays(commits: seq<RawCommit>): (r: seq<string>)
    ensures |r| == |commits|
    ensures forall i :: 0 <= i < |r| ==> r[i] == DayPrefix(commits[i].gitAuthor.date)
  {
    if |commits| == 0 then []
    else [DayPrefix(commits[0].gitAuthor.date)] + CommitDays(commits[1..])
  }

  /** The commit-frequency histogram: commits counted per calendar day, days
      in first-seen order (`dict(Counter(commit_days))`). */
  function CommitFrequency(commits: seq<RawCommit>): (r: seq<Entry<string>>)
    ensures Distinct(Keys(r))
  {
    Tally(CommitDays(commits))
  }

  /** The histogram's keys are exactly the days on which some commit was authored. */
  lemma CommitFrequencyKeys(commits: seq<RawCommit>)
    ensures forall i :: 0 <= i < |CommitFrequency(commits)| ==>
      exists j :: 0 <= j < |commits| && DayPrefix(commits[j].gitAuthor.date) == CommitFrequency(commits)[i].key
    ensures forall j :: 0 <= j < |commits| ==> DayPrefix(commits[j].gitAuthor.date) in Keys(CommitFrequency(commits))
  {
    var days := CommitDays(commits);
    var r := Tally(days);
    assert r == CommitFrequency(commits);
    TallyKeys(days);
    forall i | 0 <= i < |r| ensures exists j :: 0 <= j < |commits| && DayPrefix(commits[j].gitAuthor.date) == r[i].key {
      var j :| 0 <= j < |days| && days[j] == r[i].key;
      assert DayPrefix(commits[j].gitAuthor.date) == r[i].key;
    }
    forall j | 0 <= j < |commits| ensures DayPrefix(commits[j].gitAuthor.date) in Keys(r) {
      assert days[j] == DayPrefix(commits[j].gitAuthor.date);
    }
  }

  /** Each day is counted as often as commits fall on it (0 for days without
      commits), every listed count is at least one, and the counts add up to
      the number of commits. */
  lemma CommitFrequencyCounts(commits: seq<RawCommit>)
    ensures forall i :: 0 <= i < |CommitFrequency(commits)| ==>
      CommitFrequency(commits)[i].count == multiset(CommitDays(commits))[CommitFrequency(commits)[i].key] >= 1
    ensures forall d :: Lookup(CommitFrequency(commits), d) == multiset(CommitDays(commits))[d]
    ensures SumCounts(CommitFrequency(commits)) == |commits|
  {
    var days := CommitDays(commits);
    TallyCounts(days);
    TallySum(days);
    forall d ensures Lookup(Tally(days), d) == multiset(days)[d] {
      TallyLookup(days, d);
    }
  }

  /** When every commit falls on the same day `d`, the histogram is the single
      entry `d` with the number of commits; no commits give an empty histogram. */
  lemma SingleDayFrequency(commits: seq<RawCommit>, d: string)
    requires forall j :: 0 <= j < |commits| ==> DayPrefix(commits[j].gitAuthor.date) == d
    ensures |commits| == 0 ==> CommitFrequency(commits) == []
    ensures |commits| > 0 ==> CommitFrequency(commits) == [Entry(d, |commits|)]
  {
    var days := CommitDays(commits);
    var r := CommitFrequency(commits);
    if |commits| == 0 {
      assert days == [];
    } else {
      CommitFrequencyKeys(commits);
      CommitFrequencyCounts(commits);
      TallySize(days);
      assert (set x | x in days) == {d} by {
        assert days[0] == d;
      }
      assert |r| == 1;
      assert SumCounts(r) == r[0].count + SumCounts(r[1..]);
      var j :| 0 <= j < |commits| && DayPrefix(commits[j].gitAuthor.date) == r[0].key;
    }
  }

  /** `commit.get("author", {}).get("avatar_url", "")`, with a null account
      read as an absent one: the avatar URL, or "" when there is none. */
  function AuthorAvatar(c: RawCommit): (r: string)
    ensures c.account.Account? && c.account.avatarUrl.Some? ==> r == c.account.avatarUrl.value
    ensures !(c.account.Account? && c.account.avatarUrl.Some?) ==> r == ""
  {
    match c.account
    case Account(Some(url)) => url
    case _ => ""
  }

  /** The same expression as the source evaluates it: `.get("author", {})`
      yields None when the key holds JSON null, and calling `.get` on None
      raises. */
  function AuthorAvatarAsWritten(c: RawCommit): (r: Result<string, string>)
    ensures r.Failure? <==> c.account.AccountNull?
    ensures r.Success? ==> r.value == AuthorAvatar(c)
  {
    match c.account
    case AccountMissing => Success("")
    case AccountNull => Failure("'NoneType' object has no attribute 'get'")
    case Account(url) => Success(url.GetOr(""))
  }

  /** The summary of one commit. */
  function Summarize(c: RawCommit): CommitSummary {
    CommitSummary(c.sha, c.message, c.gitAuthor.date, c.gitAuthor.name, AuthorAvatar(c))
  }

  /** `recent_commits`: one summary per commit, in commit order. */
  function RecentCommits(commits: seq<RawCommit>): (r: seq<CommitSummary>)
    ensures |r| == |commits|
    ensures forall i :: 0 <= i < |r| ==>
      && r[i].sha == commits[i].sha && r[i].message == commits[i].message
      && r[i].date == commits[i].gitAuthor.date && r[i].author == commits[i].gitAuthor.name
      && r[i].authorAvatar == AuthorAvatar(commits[i])
  {
    if |commits| == 0 then []
    else [Summarize(commits[0])] + RecentCommits(commits[1..])
  }

  /** `recent_commits` as the source evaluates it: the comprehension raises at
      the first commit whose account is null. */
  function RecentCommitsAsWritten(commits: seq<RawCommit>): Result<seq<CommitSummary>, string> {
    if |commits| == 0 then Success([])
    else
      match AuthorAvatarAsWritten(commits[0])
      case Failure(e) => Failure(e)
      case Success(avatar) =>
        match RecentCommitsAsWritten(commits[1..])
        case Failure(e) => Failure(e)
        case Success(rest) =>
          Success([CommitSummary(commits[0].sha, commits[0].message, commits[0].gitAuthor.date,
                                 commits[0].gitAuthor.name, avatar)] + rest)
  }

  /** The source's comprehension fails exactly when some commit has a null
      account, and otherwise agrees with `RecentCommits`. */
  lemma {:induction false} RecentCommitsAsWrittenSpec(commits: seq<RawCommit>)
    ensures RecentCommitsAsWritten(commits).Failure? <==> exists i :: 0 <= i < |commits| && commits[i].account.AccountNull?
    ensures RecentCommitsAsWritten(commits).Success? ==> RecentCommitsAsWritten(commits).value == RecentCommits(commits)
  {
    if |commits| > 0 {
      RecentCommitsAsWrittenSpec(commits[1..]);
      if !commits[0].account.AccountNull? {
        forall i | 1 <= i < |commits| ensures commits[i] == commits[1..][i - 1] { }
      }
    }
  }

  /** A commit the upstream reports with `"author": null` (its e-mail is not
      linked to an account) makes the source's detail aggregation raise,
      although the intended avatar for it is "". */
  lemma NullAccountCounterexample()
    ensures var c := RawCommit("abc123", "init", GitAuthor("Mona", "2024-03-01T09:00:00Z"), AccountNull);
      && RecentCommitsAsWritten([c]).Failure?
      && RecentCommits([c]) == [CommitSummary("abc123", "init", "2024-03-01T09:00:00Z", "Mona", "")]
  {
  }

  /** `contributors`: one summary per contributor, in upstream order; the
      avatar URL is read as given, with no default. */
  function Contributors(cs: seq<RawContributor>): (r: seq<Contributor>)
    ensures |r| == |cs|
    ensures forall i :: 0 <= i < |r| ==>
      r[i].login == cs[i].login && r[i].avatarUrl == cs[i].avatarUrl && r[i].contributions == cs[i].contributions
  {
    if |cs| == 0 then []
    else [Contributor(cs[0].login, cs[0].avatarUrl, cs[0].contributions)] + Contributors(cs[1..])
  }

  /** `get_repo_details` after the five fetches, with a null commit account
      giving an empty avatar. */
  function GetRepoDetails(repo: RawRepoDetail, commits: seq<RawCommit>, contributors: seq<RawContributor>,
                          languages: map<string, nat>, weekly: seq<WeekActivity>): (r: RepoDetails)
    ensures r.name == repo.name && r.fullName == repo.fullName && r.description == repo.description
    ensures r.createdAt == repo.createdAt && r.updatedAt == repo.updatedAt && r.language == repo.language
    ensures r.stars == repo.stargazersCount && r.forks == repo.forksCount && r.openIssues == repo.openIssuesCount
    ensures r.topics == repo.topics.GetOr([])
    ensures r.languages == languages && r.weeklyCommits == weekly
    ensures r.recentCommits == RecentCommits(commits) && r.contributors == Contributors(contributors)
    ensures r.commitFrequency == CommitFrequency(commits)
    ensures |r.recentCommits| == |commits| && |r.contributors| == |contributors|
    ensures |commits| == 0 ==> r.commitFrequency == [] && r.recentCommits == []
  {
    RepoDetails(
      name := repo.name,
      fullName := repo.fullName,
      description := repo.description,
      createdAt := repo.createdAt,
      updatedAt := repo.updatedAt,
      stars := repo.stargazersCount,
      forks := repo.forksCount,
      openIssues := repo.openIssuesCount,
      language := repo.language,
      languages := languages,
      topics := repo.topics.GetOr([]),
      contributors := Contributors(contributors),
      recentCommits := RecentCommits(commits),
      commitFrequency := CommitFrequency(commits),
      weeklyCommits := weekly)
  }

  /** `get_repo_details` as written: it raises when any commit has a null
      account; otherwise its recent commits are the comprehension's own value. */
  function GetRepoDetailsAsWritten(repo: RawRepoDetail, commits: seq<RawCommit>, contributors: seq<RawContributor>,
                                   languages: map<string, nat>, weekly: seq<WeekActivity>): Result<RepoDetails, string>
  {
    match RecentCommitsAsWritten(commits)
    case Failure(e) => Failure(e)
    case Success(recent) => Success(GetRepoDetails(repo, commits, contributors, languages, weekly).(recentCommits := recent))
  }

  /** The as-written aggregation fails exactly on a null commit account and
      otherwise returns the corrected record. */
  lemma GetRepoDetailsAsWrittenSpec(repo: RawRepoDetail, commits: seq<RawCommit>, contributors: seq<RawContributor>,
                                    languages: map<string, nat>, weekly: seq<WeekActivity>)
    ensures GetRepoDetailsAsWritten(repo, commits, contributors, languages, weekly).Failure?
        <==> exists i :: 0 <= i < |commits| && commits[i].account.AccountNull?
    ensures GetRepoDetailsAsWritten(repo, commits, contributors, languages, weekly).Success? ==>
      GetRepoDetailsAsWritten(repo, commits, contributors, languages, weekly).value
        == GetRepoDetails(repo, commits, contributors, languages, weekly)
  {
    RecentCommitsAsWrittenSpec(commits);
  }
}
