/**
 * `send_pr_report.py`: the snapshot over every repository of the user, with the oldest open
 * pull request tracked as a running minimum while the open pull requests are classified, and
 * the report text cut to the webhook's limit before it is posted.
 */
module SendReport {
  import opened Wrappers
  import opened Timestamps
  import opened Records
  import opened Window
  import opened Classify
  import opened Members
  import opened Aggregate

  /** The Google Chat text limit applied by `report_text[:4000]`. */
  const TextLimit := 4000

  /** `if oldest_open_date is None or created_at < oldest_open_date: oldest_open_date = created_at`, over `prs`. */
  function Earliest(cur: Option<int>, prs: seq<Pr>): (o: Option<int>)
    ensures IsEarliest(o, cur, prs)
  {
    if prs == [] then cur
    else
      var n := |prs| - 1;
      EarliestSnoc(Earliest(cur, prs[..n]), cur, prs[..n], prs[n]);
      assert prs == prs[..n] + [prs[n]];
      MinWith(Earliest(cur, prs[..n]), prs[n].created.instant)
  }

  /** One iteration of the repository loop: a repository whose fetch raised is skipped. */
  function Step(now: int, s: Snapshot, repo: RepoFetch): Snapshot {
    match repo
    case Failed => s
    case Fetched(name, open, closed, lookup) =>
      Absorb(s, Contribute(now, name, open, closed, lookup), Earliest(s.oldest, open))
  }

  /** The state after the repository loop has run over `repos`. */
  function Reduce(now: int, repos: seq<RepoFetch>): Snapshot {
    if repos == [] then Initial()
    else Step(now, Reduce(now, repos[..|repos| - 1]), repos[|repos| - 1])
  }

  /** The snapshot `main()` renders: none when `get_all_repos()` found no repository. */
  function Outcome(now: int, repos: seq<RepoFetch>, staleFetch: seq<Option<seq<Pr>>>): Option<Report> {
    if repos == [] then None else Some(Summarise(now, Reduce(now, repos), staleFetch))
  }

  /** `payload = {"text": report_text[:4000]}`: a prefix of the report, no longer than the limit. */
  function Truncate(text: string): (sent: string)
    ensures sent <= text
    ensures |sent| <= TextLimit
    ensures |text| <= TextLimit ==> sent == text
    ensures |text| > TextLimit ==> |sent| == TextLimit
  {
    if |text| <= TextLimit then text else text[..TextLimit]
  }

  // ---- properties of the loop ----

  /** The member rows of all repositories add up to the four member-related totals. */
  lemma {:induction false} RowsMatchTotals(now: int, repos: seq<RepoFetch>)
    ensures RowsAddUp(Reduce(now, repos))
  {
    if repos != [] {
      var n := |repos| - 1;
      RowsMatchTotals(now, repos[..n]);
      match repos[n]
      case Failed =>
      case Fetched(name, open, closed, lookup) =>
        var s := Reduce(now, repos[..n]);
        var c := Contribute(now, name, open, closed, lookup);
        ContributionSums(now, name, open, closed, lookup);
        AbsorbAddsUp(s, c, Earliest(s.oldest, open));
    }
  }

  /** A repository whose fetch raised changes nothing, and the repositories after it are still processed. */
  lemma {:induction false} FailedRepoIgnored(now: int, a: seq<RepoFetch>, b: seq<RepoFetch>)
    ensures Reduce(now, a + [Failed] + b) == Reduce(now, a + b)
  {
    if b == [] {
      assert a + [Failed] + b == a + [Failed];
      assert (a + [Failed])[..|a|] == a;
      assert a + b == a;
    } else {
      var n := |b| - 1;
      FailedRepoIgnored(now, a, b[..n]);
      assert (a + [Failed] + b)[..|a + [Failed] + b| - 1] == a + [Failed] + b[..n];
      assert (a + b)[..|a + b| - 1] == a + b[..n];
    }
  }

  /** The totals are what each fetched repository contributes, added up over `repos`. */
  lemma {:induction false} TotalsAddUp(now: int, repos: seq<RepoFetch>)
    ensures Reduce(now, repos).totals == SumTotals(TotalsOf(now), repos)
  {
    if repos != [] {
      var n := |repos| - 1;
      TotalsAddUp(now, repos[..n]);
      if repos[n].Failed? {
        PlusNone(Reduce(now, repos[..n]).totals);
      }
    }
  }

  /** The totals do not depend on the order in which `get_all_repos()` lists the repositories. */
  lemma TotalsOrderFree(now: int, a: seq<RepoFetch>, b: seq<RepoFetch>)
    requires multiset(a) == multiset(b)
    ensures Reduce(now, a).totals == Reduce(now, b).totals
  {
    TotalsAddUp(now, a);
    TotalsAddUp(now, b);
    SumTotalsPermutation(TotalsOf(now), a, b);
  }

  /** `oldest_open_date` ends as the earliest creation instant of any open pull request of a fetched repository, or `None` when there is none. */
  lemma {:induction false} OldestIsEarliest(now: int, repos: seq<RepoFetch>)
    ensures IsEarliest(Reduce(now, repos).oldest, None, AllOpen(repos))
  {
    if repos != [] {
      var n := |repos| - 1;
      OldestIsEarliest(now, repos[..n]);
      if repos[n].Fetched? {
        EarliestCompose(Reduce(now, repos[..n]).oldest, Earliest(Reduce(now, repos[..n]).oldest, repos[n].open),
                        AllOpen(repos[..n]), repos[n].open);
      }
    }
  }

  /** `review_cycle_times` pools the cycle times of the merged-today pull requests of every fetched repository. */
  lemma {:induction false} CyclesPooled(now: int, repos: seq<RepoFetch>)
    ensures Reduce(now, repos).cycleTimes == CycleTimes(AllMergedToday(now, repos))
    ensures |Reduce(now, repos).cycleTimes| == Reduce(now, repos).totals.merged
  {
    if repos != [] {
      var n := |repos| - 1;
      CyclesPooled(now, repos[..n]);
      if repos[n].Fetched? {
        var merged := MergedToday(TodayStart(now), repos[n].closed);
        assert CycleTimes(AllMergedToday(now, repos[..n]) + merged)
            == CycleTimes(AllMergedToday(now, repos[..n])) + CycleTimes(merged);
      }
    }
  }

  /**
   * The figures of the snapshot: the oldest open pull request in whole days (0 when there is
   * no open pull request), the number of pooled cycle times (the merged total; the average is 0
   * when it is 0), and the constant `reopened_failed` and `blocker_owners`.
   */
  lemma SnapshotFigures(now: int, repos: seq<RepoFetch>, staleFetch: seq<Option<seq<Pr>>>)
    requires repos != []
    ensures var r := Outcome(now, repos, staleFetch).value;
      && (AllOpen(repos) == [] ==> r.oldestOpenDays == 0)
      && (AllOpen(repos) != [] ==>
            exists pr :: pr in AllOpen(repos) && r.oldestOpenDays == WholeDaysSince(now, pr.created.instant)
                         && forall q :: q in AllOpen(repos) ==> pr.created.instant <= q.created.instant)
      && r.cycleCount == r.totals.merged
      && (r.cycleCount == 0 ==> r.cycleSeconds == 0)
      && r.reopenedFailed == 0
      && r.blockerOwners == "-"
  {
    OldestIsEarliest(now, repos);
    CyclesPooled(now, repos);
    var s := Reduce(now, repos);
    if s.oldest.Some? {
      var pr :| pr in AllOpen(repos) && s.oldest.value == pr.created.instant;
    }
  }

  // ---- the loops of main() ----

  /** The running minimum of `oldest_open_date` over one repository's open pull requests. */
  method TrackOldest(oldest: Option<int>, open: seq<Pr>) returns (r: Option<int>)
    ensures r == Earliest(oldest, open)
  {
    r := oldest;
    for i := 0 to |open|
      invariant r == Earliest(oldest, open[..i])
    {
      assert open[..i + 1][..i] == open[..i];
      var createdAt := open[i].created.instant;
      if r.None? || createdAt < r.value {
        r := Some(createdAt);
      }
      assert r == MinWith(Earliest(oldest, open[..i]), createdAt);
    }
    assert open[..|open|] == open;
  }

  /** The body of the repository loop for a repository whose two `get_prs` calls succeeded. */
  method ProcessRepo(now: int, s: Snapshot, name: string, open: seq<Pr>, closed: seq<Pr>, lookup: ReviewLookup)
    returns (r: Snapshot)
    ensures r == Step(now, s, Fetched(name, open, closed, lookup))
  {
    var todayStart := TodayStart(now);
    var raised := RaisedToday(todayStart, open, closed);
    var merged := MergedToday(todayStart, closed);
    var changesRequested, notApproved, hotfix, pendingReview, stuck, pendingRelease := ClassifyOpen(open, TestsOf(now, lookup));
    ClassificationIsFilters(now, lookup, open);
    var oldest := TrackOldest(s.oldest, open);
    var totals := Plus(s.totals, Totals(|raised|, |merged|, |changesRequested|, |notApproved|, |hotfix|,
                                        |pendingReview|, stuck, pendingRelease));
    var cycleTimes := AppendCycleTimes(s.cycleTimes, merged);
    var members := TallyMembers(raised, merged, changesRequested, notApproved, lookup, Numbers(raised + merged));
    var rows := AppendRows(s.rows, members, name);
    r := Snapshot(totals, rows, oldest, cycleTimes);
    ContributeParts(now, name, open, closed, lookup, changesRequested, notApproved, members);
  }

  /** `main()` from `get_all_repos()` to the insights, with every fetch given as input. */
  method Run(now: int, repos: seq<RepoFetch>, staleFetch: seq<Option<seq<Pr>>>) returns (report: Option<Report>)
    ensures report == Outcome(now, repos, staleFetch)
  {
    if repos == [] {
      return None;
    }
    var s := Initial();
    for i := 0 to |repos|
      invariant s == Reduce(now, repos[..i])
    {
      assert repos[..i + 1][..i] == repos[..i];
      match repos[i]
      case Failed =>
      case Fetched(name, open, closed, lookup) =>
        s := ProcessRepo(now, s, name, open, closed, lookup);
    }
    assert repos[..|repos|] == repos;
    var r := Finish(now, s, staleFetch);
    report := Some(r);
  }
}
