/** Concrete cases the service's behaviour is described by, stated over the model. */
module Scenarios {
  import opened Wrappers
  import opened Counting
  import opened Listing
  import opened Details
  import opened Stats

  /** An account with one non-fork repository "hello-world" (10 stars, 5 forks,
      language C): the listing has that one record, and the statistics count
      one repository with 10 stars, averaging 10. */
  lemma SingleRepositoryAccount(dayLabel: Instant -> string)
    ensures var raw := RawRepo("hello-world", None, 10, 5, Some("C"), 1000, 2000,
                               "https://github.com/octocat/hello-world", 1, 0, None, true, false, 10, Some(false));
      && GetUserRepos([raw]) == [Repo("hello-world", None, 10, 5, Some("C"), 1000, 2000,
                                      "https://github.com/octocat/hello-world", 1, 0, [], true, false, 10)]
      && GetUserStats("octocat", [raw], dayLabel).repoCount == 1
      && GetUserStats("octocat", [raw], dayLabel).totalStars == 10
      && GetUserStats("octocat", [raw], dayLabel).avgStars == 10.0
  {
    var raw := RawRepo("hello-world", None, 10, 5, Some("C"), 1000, 2000,
                       "https://github.com/octocat/hello-world", 1, 0, None, true, false, 10, Some(false));
    var listing := GetUserRepos([raw]);
    assert listing == [Simplify(raw)];
    assert TotalStars(listing) == 10 by {
      assert listing[1..] == [];
    }
    var stats := ComputeStats("octocat", listing, dayLabel);
    assert stats == GetUserStats("octocat", [raw], dayLabel);
    assert stats.avgStars * 1.0 == 10.0;
  }

  /** Two repositories created at the same instant give two consecutive
      timeline points for that day, each counting both. */
  lemma SameDayTimeline(dayLabel: Instant -> string, t: Instant)
    ensures var a := Repo("a", None, 0, 0, None, t, t, "", 0, 0, [], false, false, 0);
            var b := Repo("b", None, 3, 0, None, t, t, "", 0, 0, [], false, false, 0);
      Timeline([a, b], dayLabel) == [TimelinePoint(dayLabel(t), 2), TimelinePoint(dayLabel(t), 2)]
  {
    var a := Repo("a", None, 0, 0, None, t, t, "", 0, 0, [], false, false, 0);
    var b := Repo("b", None, 3, 0, None, t, t, "", 0, 0, [], false, false, 0);
    assert CreationInstants([a, b]) == [t, t];
    var order := CreationOrder([a, b]);
    assert order[0] in multiset([t, t]) && order[1] in multiset([t, t]);
    assert order == [t, t];
    assert CountAtMost([t, t], t) == 2;
  }

  /** Two commits authored on the same day, at any two times: one histogram
      entry for that day, counting both. */
  lemma SameDayCommits(day: string, time1: string, time2: string)
    requires 'T' !in day
    ensures var c1 := RawCommit("a1", "first", GitAuthor("Mona", day + "T" + time1), AccountMissing);
            var c2 := RawCommit("b2", "second", GitAuthor("Mona", day + "T" + time2), Account(None));
      CommitFrequency([c1, c2]) == [Entry(day, 2)]
  {
    var c1 := RawCommit("a1", "first", GitAuthor("Mona", day + "T" + time1), AccountMissing);
    var c2 := RawCommit("b2", "second", GitAuthor("Mona", day + "T" + time2), Account(None));
    DayPrefixOfDateTime(day, time1);
    DayPrefixOfDateTime(day, time2);
    SingleDayFrequency([c1, c2], day);
  }
}
