/**
 * `pr_all_repos_daily_snapshot.py`: the same snapshot over every repository of the user,
 * except that each repository's oldest open pull request is the one with the smallest raw
 * `created_at` text, parsed afterwards, and the snapshot is printed rather than posted.
 */
module AllReposSnapshot {
  import opened Wrappers
  import opened Timestamps
  import opened Records
  import opened Window
  import opened Classify
  import opened Members
  import opened Aggregate
  import SendReport

  /** One iteration of the repository loop: a repository whose fetch raised is skipped. */
  function Step(now: int, s: Snapshot, repo: RepoFetch): Snapshot {
    match repo
    case Failed => s
    case Fetched(name, open, closed, lookup) =>
      Absorb(s, Contribute(now, name, open, closed, lookup), RawOldestStep(s.oldest, open))
  }

  /** The state after the repository loop has run over `repos`. */
  function Reduce(now: int, repos: seq<RepoFetch>): Snapshot {
    if repos == [] then Initial()
    else Step(now, Reduce(now, repos[..|repos| - 1]), repos[|repos| - 1])
  }

  /** The snapshot `main()` prints: none when `get_all_repos()` found no repository. */
  function Outcome(now: int, repos: seq<RepoFetch>, staleFetch: seq<Option<seq<Pr>>>): Option<Report> {
    if repos == [] then None else Some(Summarise(now, Reduce(now, repos), staleFetch))
  }

  /** Every creation stamp of an open pull request of a fetched repository is what `iso_to_dt` reads from its text. */
  predicate OpenStampsConsistent(repos: seq<RepoFetch>) {
    forall k :: 0 <= k < |repos| && repos[k].Fetched? ==> StampsConsistent(repos[k].open)
  }

  // ---- properties of the loop ----

  /** The member rows of all repositories add up to the four member-related totals. */
  lemma {:induction false} RowsMatchTotals(now: int, repos: seq<RepoFetch>)
    ensures RowsAddUp(Reduce(now, repos))
  {
    if repos != [] {
      var n := |repos| - 1;
      RowsMatchTotals(now, repos[..n]);
      match repos[n]
      case Failed =>
      case Fetched(name, open, closed, lookup) =>
        var s := Reduce(now, repos[..n]);
        ContributionSums(now, name, open, closed, lookup);
        AbsorbAddsUp(s, Contribute(now, name, open, closed, lookup), RawOldestStep(s.oldest, open));
    }
  }

  /** A repository whose fetch raised changes nothing, and the repositories after it are still processed. */
  lemma {:induction false} FailedRepoIgnored(now: int, a: seq<RepoFetch>, b: seq<RepoFetch>)
    ensures Reduce(now, a + [Failed] + b) == Reduce(now, a + b)
  {
    if b == [] {
      assert a + [Failed] + b == a + [Failed];
      assert (a + [Failed])[..|a|] == a;
      assert a + b == a;
    } else {
      var n := |b| - 1;
      FailedRepoIgnored(now, a, b[..n]);
      assert (a + [Failed] + b)[..|a + [Failed] + b| - 1] == a + [Failed] + b[..n];
      assert (a + b)[..|a + b| - 1] == a + b[..n];
    }
  }

  /** The totals are what each fetched repository contributes, added up over `repos`. */
  lemma {:induction false} TotalsAddUp(now: int, repos: seq<RepoFetch>)
    ensures Reduce(now, repos).totals == SumTotals(TotalsOf(now), repos)
  {
    if repos != [] {
      var n := |repos| - 1;
      TotalsAddUp(now, repos[..n]);
      if repos[n].Failed? {
        PlusNone(Reduce(now, repos[..n]).totals);
      }
    }
  }

  /** The totals do not depend on the order in which `get_all_repos()` lists the repositories. */
  lemma TotalsOrderFree(now: int, a: seq<RepoFetch>, b: seq<RepoFetch>)
    requires multiset(a) == multiset(b)
    ensures Reduce(now, a).totals == Reduce(now, b).totals
  {
    TotalsAddUp(now, a);
    TotalsAddUp(now, b);
    SumTotalsPermutation(TotalsOf(now), a, b);
  }

  /**
   * With well-formed timestamps, `oldest_open_date` ends as the earliest creation instant of any
   * open pull request of a fetched repository (the per-repository minimum by text is the minimum
   * by instant), or `None` when there is none.
   */
  lemma {:induction false} OldestIsEarliest(now: int, repos: seq<RepoFetch>)
    requires OpenStampsConsistent(repos)
    ensures IsEarliest(Reduce(now, repos).oldest, None, AllOpen(repos))
  {
    if repos != [] {
      var n := |repos| - 1;
      assert OpenStampsConsistent(repos[..n]) by {
        assert forall k :: 0 <= k < n ==> repos[..n][k] == repos[k];
      }
      OldestIsEarliest(now, repos[..n]);
      if repos[n].Fetched? {
        var before := Reduce(now, repos[..n]).oldest;
        RawOldestStepIsEarliest(before, repos[n].open);
        EarliestCompose(before, RawOldestStep(before, repos[n].open), AllOpen(repos[..n]), repos[n].open);
      }
    }
  }

  /**
   * With well-formed timestamps this script and `send_pr_report.py` reach the same state after
   * the repository loop: the raw-text minimum per repository and the running minimum per open
   * pull request find the same oldest instant.
   */
  lemma {:induction false} AgreesWithSend(now: int, repos: seq<RepoFetch>)
    requires OpenStampsConsistent(repos)
    ensures Reduce(now, repos) == SendReport.Reduce(now, repos)
  {
    if repos != [] {
      var n := |repos| - 1;
      assert OpenStampsConsistent(repos[..n]) by {
        assert forall k :: 0 <= k < n ==> repos[..n][k] == repos[k];
      }
      AgreesWithSend(now, repos[..n]);
      if repos[n].Fetched? {
        var before := Reduce(now, repos[..n]).oldest;
        RawOldestStepIsEarliest(before, repos[n].open);
        EarliestUnique(RawOldestStep(before, repos[n].open), SendReport.Earliest(before, repos[n].open),
                       before, repos[n].open);
      }
    }
  }

  // ---- the loops of main() ----

  /** `if open_prs: repo_oldest = min(open_prs, key=...); ...` for one repository. */
  method TrackOldest(oldest: Option<int>, open: seq<Pr>) returns (r: Option<int>)
    ensures r == RawOldestStep(oldest, open)
  {
    r := oldest;
    if open != [] {
      var repoOldest := open[RawOldest(open)];
      var repoOldestDate := repoOldest.created.instant;
      if r.None? || repoOldestDate < r.value {
        r := Some(repoOldestDate);
      }
    }
  }

  /** The body of the repository loop for a repository whose two `get_prs` calls succeeded. */
  method ProcessRepo(now: int, s: Snapshot, name: string, open: seq<Pr>, closed: seq<Pr>, lookup: ReviewLookup)
    returns (r: Snapshot)
    ensures r == Step(now, s, Fetched(name, open, closed, lookup))
  {
    var todayStart := TodayStart(now);
    var raised := RaisedToday(todayStart, open, closed);
    var merged := MergedToday(todayStart, closed);
    var changesRequested, notApproved, hotfix, pendingReview, stuck, pendingRelease := ClassifyOpen(open, TestsOf(now, lookup));
    ClassificationIsFilters(now, lookup, open);
    var totals := Plus(s.totals, Totals(|raised|, |merged|, |changesRequested|, |notApproved|, |hotfix|,
                                        |pendingReview|, stuck, pendingRelease));
    var oldest := TrackOldest(s.oldest, open);
    var cycleTimes := AppendCycleTimes(s.cycleTimes, merged);
    var members := TallyMembers(raised, merged, changesRequested, notApproved, lookup, Numbers(raised + merged));
    var rows := AppendRows(s.rows, members, name);
    r := Snapshot(totals, rows, oldest, cycleTimes);
    ContributeParts(now, name, open, closed, lookup, changesRequested, notApproved, members);
  }

  /** `main()` from `get_all_repos()` to the insights, with every fetch given as input. */
  method Run(now: int, repos: seq<RepoFetch>, staleFetch: seq<Option<seq<Pr>>>) returns (report: Option<Report>)
    ensures report == Outcome(now, repos, staleFetch)
  {
    if repos == [] {
      return None;
    }
    var s := Initial();
    for i := 0 to |repos|
      invariant s == Reduce(now, repos[..i])
    {
      assert repos[..i + 1][..i] == repos[..i];
      match repos[i]
      case Failed =>
      case Fetched(name, open, closed, lookup) =>
        s := ProcessRepo(now, s, name, open, closed, lookup);
    }
    assert repos[..|repos|] == repos;
    var r := Finish(now, s, staleFetch);
    report := Some(r);
  }
}
