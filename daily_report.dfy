/**
 * `pr_daily_report.py`: the snapshot of one configured repository. It classifies the open
 * pull requests in separate loops, counts reviews done over the recent pull requests, orders
 * the member table by pull requests raised, and does compute the blocker owners.
 */
module DailyReport {
  import opened Wrappers
  import opened Text
  import opened Timestamps
  import opened Records
  import opened Window
  import opened Classify
  import opened Members
  import opened Aggregate

  /** What `main()` prints, before rendering. */
  datatype Daily = Daily(raised: nat, merged: nat, changesRequested: nat, notApproved: nat, hotfix: nat,
                         pendingReview: nat, oldestDays: int, cycleSeconds: int, cycleCount: nat,
                         table: seq<Stat>, stuck: nat, pendingRelease: nat, reopenedFailed: nat,
                         mostActive: string, reviewHeavy: string, staleOwners: string, blockerOwners: string)

  function HasMergeTest(): Pr -> bool {
    (pr: Pr) => HasMerge(pr)
  }

  /** `(now - iso_to_dt(min(open_prs, key=lambda pr: pr["created_at"])["created_at"])).days if open_prs else 0`. */
  function OldestDays(now: int, open: seq<Pr>): int {
    if open == [] then 0 else WholeDaysSince(now, open[RawOldest(open)].created.instant)
  }

  /** With well-formed timestamps the oldest age is taken from the earliest creation instant. */
  lemma OldestDaysIsEarliest(now: int, open: seq<Pr>)
    requires open != [] && StampsConsistent(open)
    ensures exists pr :: pr in open && OldestDays(now, open) == WholeDaysSince(now, pr.created.instant)
                         && forall q :: q in open ==> pr.created.instant <= q.created.instant
  {
    RawOldestIsEarliest(open);
    assert open[RawOldest(open)] in open;
  }

  /** `max(members.items(), key=..., default=(None,))[0] or "-"`: an empty login also reads as `"-"`. */
  function TopMember(table: seq<Stat>, f: Field): (login: string)
    ensures table == [] ==> login == "-"
  {
    if table == [] then "-"
    else
      var top := table[FirstMax(table, f)].login;
      if top == "" then "-" else top
  }

  /** `", ".join(set(xs)) or "-"`. The order of the set is not fixed; the model lists first occurrences in order. */
  function OwnerList(xs: seq<string>): (text: string)
    ensures xs == [] ==> text == "-"
  {
    var joined := Join(Distinct(xs), ", ");
    if joined == "" then "-" else joined
  }

  // ---- the member table order ----

  predicate NonIncreasing(table: seq<Stat>) {
    forall i, j :: 0 <= i < j < |table| ==> table[i].raised >= table[j].raised
  }

  /** Places `x` after every entry raising at least as many, before the first raising fewer. */
  function InsertByRaised(x: Stat, sorted: seq<Stat>): seq<Stat> {
    if sorted == [] then [x]
    else if x.raised > sorted[0].raised then [x] + sorted
    else [sorted[0]] + InsertByRaised(x, sorted[1..])
  }

  /** Insertion adds exactly `x`, and the new first entry is `x` or the old first entry. */
  lemma {:induction false} InsertByRaisedFacts(x: Stat, sorted: seq<Stat>)
    ensures multiset(InsertByRaised(x, sorted)) == multiset(sorted) + multiset{x}
    ensures |InsertByRaised(x, sorted)| == |sorted| + 1
    ensures InsertByRaised(x, sorted)[0] == x || (sorted != [] && InsertByRaised(x, sorted)[0] == sorted[0])
  {
    if sorted != [] && x.raised <= sorted[0].raised {
      InsertByRaisedFacts(x, sorted[1..]);
      assert sorted == [sorted[0]] + sorted[1..];
    }
  }

  /** Inserting into a table ordered by raised, largest first, keeps it ordered. */
  lemma {:induction false} InsertKeepsSorted(x: Stat, sorted: seq<Stat>)
    requires NonIncreasing(sorted)
    ensures NonIncreasing(InsertByRaised(x, sorted))
  {
    if sorted != [] && x.raised <= sorted[0].raised {
      var rest := InsertByRaised(x, sorted[1..]);
      InsertByRaisedFacts(x, sorted[1..]);
      InsertKeepsSorted(x, sorted[1..]);
      assert rest[0].raised <= sorted[0].raised;
      assert InsertByRaised(x, sorted) == [sorted[0]] + rest;
    }
  }

  /** `sorted(members.items(), key=lambda x: x[1]["raised"], reverse=True)`: a stable sort, largest first. */
  function SortByRaised(table: seq<Stat>): seq<Stat> {
    if table == [] then []
    else InsertByRaised(table[|table| - 1], SortByRaised(table[..|table| - 1]))
  }

  /** The sorted table holds the same members, each as often. */
  lemma {:induction false} SortIsPermutation(table: seq<Stat>)
    ensures multiset(SortByRaised(table)) == multiset(table)
  {
    if table != [] {
      var n := |table| - 1;
      var init, last := table[..n], table[n];
      var sortedInit := SortByRaised(init);
      assert SortByRaised(table) == InsertByRaised(last, sortedInit);
      SortIsPermutation(init);
      InsertByRaisedFacts(last, sortedInit);
      assert table == init + [last];
      assert multiset(table) == multiset(init) + multiset{last};
    }
  }

  /** The sorted table lists the members by raised, largest first. */
  lemma {:induction false} SortIsOrdered(table: seq<Stat>)
    ensures NonIncreasing(SortByRaised(table))
  {
    if table != [] {
      var n := |table| - 1;
      SortIsOrdered(table[..n]);
      InsertKeepsSorted(table[n], SortByRaised(table[..n]));
    }
  }

  /** The entries raising exactly `k`, in order. */
  function WithRaised(table: seq<Stat>, k: nat): seq<Stat> {
    if table == [] then []
    else (if table[0].raised == k then [table[0]] else []) + WithRaised(table[1..], k)
  }

  lemma {:induction false} WithRaisedAppend(a: seq<Stat>, b: seq<Stat>, k: nat)
    ensures WithRaised(a + b, k) == WithRaised(a, k) + WithRaised(b, k)
  {
    if a == [] {
      assert a + b == b;
    } else {
      var h := if a[0].raised == k then [a[0]] else [];
      assert (a + b)[0] == a[0];
      assert (a + b)[1..] == a[1..] + b;
      WithRaisedAppend(a[1..], b, k);
      calc {
        WithRaised(a + b, k);
        h + WithRaised(a[1..] + b, k);
        h + (WithRaised(a[1..], k) + WithRaised(b, k));
        { assert h + (WithRaised(a[1..], k) + WithRaised(b, k)) == (h + WithRaised(a[1..], k)) + WithRaised(b, k); }
        WithRaised(a, k) + WithRaised(b, k);
      }
    }
  }

  /** Inserting `x` into a sorted table puts it after every entry with the same count. */
  lemma {:induction false} InsertKeepsOrder(x: Stat, sorted: seq<Stat>, k: nat)
    requires NonIncreasing(sorted)
    ensures WithRaised(InsertByRaised(x, sorted), k)
         == WithRaised(sorted, k) + (if x.raised == k then [x] else [])
  {
    if sorted == [] {
      assert WithRaised([x], k) == (if x.raised == k then [x] else []) + WithRaised([], k);
    } else if x.raised > sorted[0].raised {
      assert ([x] + sorted)[1..] == sorted;
      if x.raised == k {
        NoneRaised(sorted, k);
      }
    } else {
      var rest := InsertByRaised(x, sorted[1..]);
      assert ([sorted[0]] + rest)[1..] == rest;
      forall i, j | 0 <= i < j < |sorted[1..]| ensures sorted[1..][i].raised >= sorted[1..][j].raised {
        assert sorted[1..][i] == sorted[i + 1] && sorted[1..][j] == sorted[j + 1];
      }
      InsertKeepsOrder(x, sorted[1..], k);
    }
  }

  /** A sorted table whose first entry raises fewer than `k` has no entry raising `k`. */
  lemma {:induction false} NoneRaised(sorted: seq<Stat>, k: nat)
    requires NonIncreasing(sorted)
    requires sorted != [] ==> sorted[0].raised < k
    ensures WithRaised(sorted, k) == []
  {
    if |sorted| > 1 {
      assert sorted[1..][0] == sorted[1];
      forall i, j | 0 <= i < j < |sorted[1..]| ensures sorted[1..][i].raised >= sorted[1..][j].raised {
        assert sorted[1..][i] == sorted[i + 1] && sorted[1..][j] == sorted[j + 1];
      }
      NoneRaised(sorted[1..], k);
    }
  }

  lemma {:induction false} WithRaisedSnoc(init: seq<Stat>, last: Stat, k: nat)
    ensures WithRaised(init + [last], k) == WithRaised(init, k) + (if last.raised == k then [last] else [])
  {
    WithRaisedAppend(init, [last], k);
    assert [last][1..] == [];
  }

  /** The sort is stable: the members raising the same number keep their first-insertion order. */
  lemma {:induction false} SortIsStable(table: seq<Stat>, k: nat)
    ensures WithRaised(SortByRaised(table), k) == WithRaised(table, k)
  {
    if table != [] {
      var n := |table| - 1;
      var init, last := table[..n], table[n];
      assert init + [last] == table;
      var sortedInit := SortByRaised(init);
      assert SortByRaised(table) == InsertByRaised(last, sortedInit);
      SortIsOrdered(init);
      SortIsStable(init, k);
      InsertKeepsOrder(last, sortedInit, k);
      WithRaisedSnoc(init, last, k);
    }
  }

  /** Sorting does not change any counter's sum. */
  lemma {:induction false} SortKeepsSums(table: seq<Stat>, f: Field)
    ensures Sum(SortByRaised(table), f) == Sum(table, f)
  {
    if table != [] {
      var n := |table| - 1;
      var init, last := table[..n], table[n];
      assert init + [last] == table;
      var sortedInit := SortByRaised(init);
      assert SortByRaised(table) == InsertByRaised(last, sortedInit);
      SortKeepsSums(init, f);
      InsertSum(last, sortedInit, f);
      SumAppend(init, [last], f);
      assert [last][1..] == [];
    }
  }

  lemma {:induction false} InsertSum(x: Stat, sorted: seq<Stat>, f: Field)
    ensures Sum(InsertByRaised(x, sorted), f) == Get(x, f) + Sum(sorted, f)
  {
    if sorted == [] {
    } else if x.raised > sorted[0].raised {
      assert ([x] + sorted)[1..] == sorted;
    } else {
      InsertSum(x, sorted[1..], f);
      assert ([sorted[0]] + InsertByRaised(x, sorted[1..]))[1..] == InsertByRaised(x, sorted[1..]);
    }
  }

  // ---- the snapshot ----

  /** The snapshot of the repository, given its open and closed pull requests, the reviews and the recent pull-request numbers. */
  function Snapshot(now: int, open: seq<Pr>, closed: seq<Pr>, lookup: ReviewLookup, recent: seq<int>): Daily {
    var todayStart := TodayStart(now);
    var raised := RaisedToday(todayStart, open, closed);
    var merged := MergedToday(todayStart, closed);
    var changesRequested := Filter(open, ChangesRequestedTest(lookup));
    var notApproved := Filter(open, NotApprovedTest(lookup));
    var hotfix := Filter(open, HotfixTest());
    var members := MemberTable(raised, merged, changesRequested, notApproved, lookup, recent);
    var withMerge := Filter(merged, HasMergeTest());
    Daily(|raised|, |merged|, |changesRequested|, |notApproved|, |hotfix|,
          |Filter(open, PendingReviewTest(now, lookup))|, OldestDays(now, open),
          Total(CycleTimes(withMerge)), |withMerge|,
          SortByRaised(members), |Filter(open, StuckTest(now))|, |Filter(open, PendingReleaseTest())|, 0,
          TopMember(members, Raised), TopMember(members, ReviewsDone),
          OwnerList(Authors(Filter(open, StaleTest(now)))), OwnerList(Authors(hotfix)))
  }

  /**
   * The member table sums to the four counts of the summary, and lists the members by pull
   * requests raised, largest first; the members with any one raised count `k` keep their
   * dictionary order (`Members.MembersOrder`).
   */
  lemma TableMatchesCounts(now: int, open: seq<Pr>, closed: seq<Pr>, lookup: ReviewLookup, recent: seq<int>, k: nat)
    ensures var d := Snapshot(now, open, closed, lookup, recent);
      && Sum(d.table, Raised) == d.raised
      && Sum(d.table, Merged) == d.merged
      && Sum(d.table, ChangesRequestedCount) == d.changesRequested
      && Sum(d.table, NotApprovedCount) == d.notApproved
      && NonIncreasing(d.table)
      && var todayStart := TodayStart(now);
         var raised := RaisedToday(todayStart, open, closed);
         var members := MemberTable(raised, MergedToday(todayStart, closed), Filter(open, ChangesRequestedTest(lookup)),
                                    Filter(open, NotApprovedTest(lookup)), lookup, recent);
         WithRaised(d.table, k) == WithRaised(members, k)
  {
    var todayStart := TodayStart(now);
    var raised := RaisedToday(todayStart, open, closed);
    var merged := MergedToday(todayStart, closed);
    var changesRequested := Filter(open, ChangesRequestedTest(lookup));
    var notApproved := Filter(open, NotApprovedTest(lookup));
    var members := MemberTable(raised, merged, changesRequested, notApproved, lookup, recent);
    MembersSums(raised, merged, changesRequested, notApproved, lookup, recent);
    SortKeepsSums(members, Raised);
    SortKeepsSums(members, Merged);
    SortKeepsSums(members, ChangesRequestedCount);
    SortKeepsSums(members, NotApprovedCount);
    SortIsOrdered(members);
    SortIsStable(members, k);
  }

  /** Every pull request merged today has a merge time, so the cycle-time average is over all of them. */
  lemma CyclesOverMergedToday(now: int, open: seq<Pr>, closed: seq<Pr>, lookup: ReviewLookup, recent: seq<int>)
    ensures var d := Snapshot(now, open, closed, lookup, recent);
      d.cycleCount == d.merged && (d.cycleCount == 0 ==> d.cycleSeconds == 0)
  {
    var merged := MergedToday(TodayStart(now), closed);
    forall i | 0 <= i < |merged| ensures HasMergeTest()(merged[i]) {
      FilterMembers(closed, MergedSince(TodayStart(now)), merged[i]);
    }
    FilterAll(merged, HasMergeTest());
  }

  /** The owner lists name exactly the authors of stale and of hotfix/critical open pull requests, and are `"-"` when there are none. */
  lemma OwnerListsIff(now: int, open: seq<Pr>, login: string)
    ensures login in Distinct(Authors(Filter(open, StaleTest(now))))
        <==> exists pr :: pr in open && Stale(now, pr) && pr.author == login
    ensures login in Distinct(Authors(Filter(open, HotfixTest())))
        <==> exists pr :: pr in open && Hotfix(pr) && pr.author == login
  {
    forall pr ensures pr in Filter(open, StaleTest(now)) <==> pr in open && Stale(now, pr) {
      FilterMembers(open, StaleTest(now), pr);
    }
    forall pr ensures pr in Filter(open, HotfixTest()) <==> pr in open && Hotfix(pr) {
      FilterMembers(open, HotfixTest(), pr);
    }
    AuthorsIn(Filter(open, StaleTest(now)), login);
    AuthorsIn(Filter(open, HotfixTest()), login);
    assert login in Distinct(Authors(Filter(open, StaleTest(now)))) <==> login in Elems(Distinct(Authors(Filter(open, StaleTest(now)))));
    assert login in Distinct(Authors(Filter(open, HotfixTest()))) <==> login in Elems(Distinct(Authors(Filter(open, HotfixTest()))));
  }

  lemma AuthorsIn(prs: seq<Pr>, login: string)
    ensures login in Authors(prs) <==> exists pr :: pr in prs && pr.author == login
  {
    if login in Authors(prs) {
      var i :| 0 <= i < |prs| && Authors(prs)[i] == login;
      assert prs[i] in prs;
    }
    if exists pr :: pr in prs && pr.author == login {
      var pr :| pr in prs && pr.author == login;
      var i :| 0 <= i < |prs| && prs[i] == pr;
      assert Authors(prs)[i] == login;
    }
  }

  // ---- the loops of main() ----

  /** `for pr in open_prs: if is_changes_requested(get_reviews(pr["number"])): ...append(pr)`. */
  method ChangesRequestedPrs(open: seq<Pr>, lookup: ReviewLookup) returns (prs: seq<Pr>)
    ensures prs == Filter(open, ChangesRequestedTest(lookup))
  {
    prs := [];
    for i := 0 to |open|
      invariant prs == Filter(open[..i], ChangesRequestedTest(lookup))
    {
      assert open[..i + 1][..i] == open[..i];
      var found := IsChangesRequested(ReviewsOf(lookup, open[i].number));
      if found {
        prs := prs + [open[i]];
      }
    }
    assert open[..|open|] == open;
  }

  /** `for pr in open_prs: if "approved" not in states: ...append(pr)`. */
  method NotApprovedPrs(open: seq<Pr>, lookup: ReviewLookup) returns (prs: seq<Pr>)
    ensures prs == Filter(open, NotApprovedTest(lookup))
  {
    prs := [];
    for i := 0 to |open|
      invariant prs == Filter(open[..i], NotApprovedTest(lookup))
    {
      assert open[..i + 1][..i] == open[..i];
      var states := States(ReviewsOf(lookup, open[i].number));
      if ApprovedState !in states {
        prs := prs + [open[i]];
      }
    }
    assert open[..|open|] == open;
  }

  /** `for pr in open_prs: if now - created_at > 24h: if not get_reviews(...): ...append(pr)`. */
  method PendingReviewPrs(now: int, open: seq<Pr>, lookup: ReviewLookup) returns (prs: seq<Pr>)
    ensures prs == Filter(open, PendingReviewTest(now, lookup))
  {
    prs := [];
    for i := 0 to |open|
      invariant prs == Filter(open[..i], PendingReviewTest(now, lookup))
    {
      assert open[..i + 1][..i] == open[..i];
      if Age(now, open[i]) > PendingReviewAge {
        var reviews := ReviewsOf(lookup, open[i].number);
        if |reviews| == 0 {
          prs := prs + [open[i]];
        }
      }
    }
    assert open[..|open|] == open;
  }

  /**
   * `average_review_time(prs)` before the division: the total of `merged_at - created_at` in
   * seconds over the pull requests that have a `merged_at`, and how many those are.
   */
  method AverageReviewTime(prs: seq<Pr>) returns (totalSeconds: int, count: nat)
    ensures totalSeconds == Total(CycleTimes(Filter(prs, HasMergeTest())))
    ensures count == |Filter(prs, HasMergeTest())|
  {
    totalSeconds, count := 0, 0;
    for i := 0 to |prs|
      invariant totalSeconds == Total(CycleTimes(Filter(prs[..i], HasMergeTest())))
      invariant count == |Filter(prs[..i], HasMergeTest())|
    {
      CycleStep(prs[..i], prs[i]);
      assert prs[..i + 1] == prs[..i] + [prs[i]];
      var createdAt := prs[i].created.instant;
      if HasMerge(prs[i]) {
        var mergedAt := prs[i].merged.value.instant;
        totalSeconds := totalSeconds + (mergedAt - createdAt);
        count := count + 1;
      }
    }
    assert prs[..|prs|] == prs;
  }

  /** One more pull request in `average_review_time`'s loop. */
  lemma CycleStep(prs: seq<Pr>, pr: Pr)
    ensures Filter(prs + [pr], HasMergeTest())
         == Filter(prs, HasMergeTest()) + (if HasMerge(pr) then [pr] else [])
    ensures Total(CycleTimes(Filter(prs + [pr], HasMergeTest())))
         == Total(CycleTimes(Filter(prs, HasMergeTest()))) + (if HasMerge(pr) then CycleTime(pr) else 0)
  {
    assert (prs + [pr])[..|prs|] == prs;
    var before := Filter(prs, HasMergeTest());
    if HasMerge(pr) {
      assert Filter(prs + [pr], HasMergeTest()) == before + [pr];
      assert CycleTimes(before + [pr]) == CycleTimes(before) + [CycleTime(pr)];
      TotalAppend(CycleTimes(before), [CycleTime(pr)]);
    } else {
      assert Filter(prs + [pr], HasMergeTest()) == before;
    }
  }

  /** `main()` from the two `get_prs` calls to the insights, with every fetch given as input. */
  method Run(now: int, open: seq<Pr>, closed: seq<Pr>, lookup: ReviewLookup, recent: seq<int>) returns (d: Daily)
    ensures d == Snapshot(now, open, closed, lookup, recent)
  {
    var todayStart := TodayStart(now);
    var raised := RaisedToday(todayStart, open, closed);
    var merged := MergedToday(todayStart, closed);
    var changesRequested := ChangesRequestedPrs(open, lookup);
    var notApproved := NotApprovedPrs(open, lookup);
    var hotfix := Filter(open, HotfixTest());
    var pendingReview := PendingReviewPrs(now, open, lookup);
    var oldestDays := OldestDays(now, open);
    var cycleSeconds, cycleCount := AverageReviewTime(merged);
    var members := TallyMembers(raised, merged, changesRequested, notApproved, lookup, recent);
    var stuck := |Filter(open, StuckTest(now))|;
    var pendingRelease := |Filter(open, PendingReleaseTest())|;
    d := Daily(|raised|, |merged|, |changesRequested|, |notApproved|, |hotfix|, |pendingReview|, oldestDays,
               cycleSeconds, cycleCount, SortByRaised(members), stuck, pendingRelease, 0,
               TopMember(members, Raised), TopMember(members, ReviewsDone),
               OwnerList(Authors(Filter(open, StaleTest(now)))), OwnerList(Authors(hotfix)));
  }
}
