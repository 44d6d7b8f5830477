/** The repository lister (`get_user_repos`): drop the forks from an account's
    upstream repository listing and project each remaining entry onto the
    simplified repository record. The upstream page is an input here. */
module Listing {
  import opened Wrappers

  /** A point in time: an ISO 8601 timestamp once parsed. Only its order matters. */
  type Instant = int

  /** One entry of the upstream repository listing, restricted to the fields
      the lister reads. `fork` and `topics` may be missing upstream; the
      description and language may be null. */
  datatype RawRepo = RawRepo(
    name: string,
    description: Option<string>,
    stargazersCount: nat,
    forksCount: nat,
    language: Option<string>,
    createdAt: Instant,
    updatedAt: Instant,
    htmlUrl: string,
    size: nat,
    openIssuesCount: nat,
    topics: Option<seq<string>>,
    hasWiki: bool,
    hasPages: bool,
    watchersCount: nat,
    fork: Option<bool>)

  /** The simplified repository record the service returns. */
  datatype Repo = Repo(
    name: string,
    description: Option<string>,
    stars: nat,
    forks: nat,
    language: Option<string>,
    createdAt: Instant,
    updatedAt: Instant,
    url: string,
    size: nat,
    openIssues: nat,
    topics: seq<string>,
    hasWiki: bool,
    hasPages: bool,
    watchers: nat)

  /** `repo.get("fork", False)`: a missing flag means "not a fork". */
  predicate IsFork(raw: RawRepo) {
    raw.fork.GetOr(false)
  }

  /** The fixed field mapping from an upstream entry to a simplified record. */
  function Simplify(raw: RawRepo): (r: Repo)
    ensures r.name == raw.name && r.description == raw.description && r.url == raw.htmlUrl
    ensures r.stars == raw.stargazersCount && r.forks == raw.forksCount
    ensures r.watchers == raw.watchersCount && r.openIssues == raw.openIssuesCount
    ensures r.language == raw.language && r.size == raw.size
    ensures r.createdAt == raw.createdAt && r.updatedAt == raw.updatedAt
    ensures r.hasWiki == raw.hasWiki && r.hasPages == raw.hasPages
    ensures raw.topics.None? ==> r.topics == []
    ensures raw.topics.Some? ==> r.topics == raw.topics.value
  {
    Repo(
      name := raw.name,
      description := raw.description,
      stars := raw.stargazersCount,
      forks := raw.forksCount,
      language := raw.language,
      createdAt := raw.createdAt,
      updatedAt := raw.updatedAt,
      url := raw.htmlUrl,
      size := raw.size,
      openIssues := raw.openIssuesCount,
      topics := raw.topics.GetOr([]),
      hasWiki := raw.hasWiki,
      hasPages := raw.hasPages,
      watchers := raw.watchersCount)
  }

  /** `get_user_repos` after the fetch: skip forks, simplify the rest, keep the order. */
  function GetUserRepos(raws: seq<RawRepo>): (r: seq<Repo>)
    ensures |r| <= |raws|
  {
    if |raws| == 0 then []
    else if IsFork(raws[0]) then GetUserRepos(raws[1..])
    else [Simplify(raws[0])] + GetUserRepos(raws[1..])
  }

  /** The positions of the non-fork entries of `raws`, in ascending order. */
  function NonForkPositions(raws: seq<RawRepo>): seq<nat> {
    if |raws| == 0 then []
    else
      NonForkPositions(raws[..|raws| - 1])
      + (if IsFork(raws[|raws| - 1]) then [] else [|raws| - 1])
  }

  /** The listing of a concatenation is the concatenation of the listings:
      filtering never reorders, and entries never influence one another. */
  lemma {:induction false} GetUserReposAppend(a: seq<RawRepo>, b: seq<RawRepo>)
    ensures GetUserRepos(a + b) == GetUserRepos(a) + GetUserRepos(b)
  {
    if |a| > 0 {
      assert (a + b)[1..] == a[1..] + b;
      GetUserReposAppend(a[1..], b);
    } else {
      assert a + b == b;
    }
  }

  /** A fork inserted anywhere in the upstream listing changes nothing. */
  lemma ForksIgnored(a: seq<RawRepo>, f: RawRepo, b: seq<RawRepo>)
    requires IsFork(f)
    ensures GetUserRepos(a + [f] + b) == GetUserRepos(a + b)
  {
    GetUserReposAppend(a + [f], b);
    GetUserReposAppend(a, [f]);
    GetUserReposAppend(a, b);
    assert GetUserRepos([f]) == [];
  }

  /** `NonForkPositions` lists exactly the non-fork positions, ascending. */
  lemma {:induction false} NonForkPositionsSpec(raws: seq<RawRepo>)
    ensures forall k :: 0 <= k < |NonForkPositions(raws)| ==> NonForkPositions(raws)[k] < |raws|
    ensures forall k, l :: 0 <= k < l < |NonForkPositions(raws)| ==> NonForkPositions(raws)[k] < NonForkPositions(raws)[l]
    ensures forall i :: 0 <= i < |raws| ==> (i in NonForkPositions(raws) <==> !IsFork(raws[i]))
  {
    if |raws| > 0 {
      var init := raws[..|raws| - 1];
      NonForkPositionsSpec(init);
      forall i | 0 <= i < |raws| - 1 ensures raws[i] == init[i] { }
    }
  }

  /** The listing holds exactly one record per non-fork upstream entry, in
      upstream order, each the simplification of that entry; no record comes
      from a fork. */
  lemma {:induction false} GetUserReposSpec(raws: seq<RawRepo>)
    ensures |GetUserRepos(raws)| == |NonForkPositions(raws)|
    ensures forall k :: 0 <= k < |GetUserRepos(raws)| ==>
      NonForkPositions(raws)[k] < |raws| && GetUserRepos(raws)[k] == Simplify(raws[NonForkPositions(raws)[k]])
  {
    NonForkPositionsSpec(raws);
    if |raws| > 0 {
      var init, last := raws[..|raws| - 1], raws[|raws| - 1];
      assert raws == init + [last];
      GetUserReposSpec(init);
      GetUserReposAppend(init, [last]);
      assert GetUserRepos([last]) == if IsFork(last) then [] else [Simplify(last)];
      forall i | 0 <= i < |init| ensures raws[i] == init[i] { }
    }
  }
}
