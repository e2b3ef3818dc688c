/**
 * The classification of one open pull request from its reviews, labels and age:
 * changes requested, not approved, hotfix/critical, pending review for more than 24 hours,
 * stuck (older than 2 days), stale (older than 7 days) and pending release.
 * A review state counts if ANY review has it, not only each reviewer's latest review.
 */
module Classify {
  import opened Wrappers
  import opened Text
  import opened Records
  import opened Timestamps

  const ChangesRequestedState := "changes_requested"
  const ApprovedState := "approved"
  /** `timedelta(hours=24)`, `timedelta(days=2)` and `timedelta(days=7)` in microseconds. */
  const PendingReviewAge := 24 * 3600 * MicrosPerSecond
  const StuckAge := 2 * MicrosPerDay
  const StaleAge := 7 * MicrosPerDay

  /** `[r["state"].lower() for r in reviews]`. */
  function States(reviews: seq<Review>): (r: seq<string>)
    ensures |r| == |reviews|
    ensures forall i :: 0 <= i < |reviews| ==> r[i] == Lower(reviews[i].state)
  {
    seq(|reviews|, i requires 0 <= i < |reviews| => Lower(reviews[i].state))
  }

  /** `"changes_requested" in states`. */
  predicate ChangesRequested(reviews: seq<Review>) {
    ChangesRequestedState in States(reviews)
  }

  /** `"approved" not in states`. */
  predicate NotApproved(reviews: seq<Review>) {
    ApprovedState !in States(reviews)
  }

  /** `any(lbl['name'].lower() in ['hotfix', 'critical'] for lbl in pr.get('labels', []))`. */
  predicate Hotfix(pr: Pr) {
    exists i :: 0 <= i < |pr.labels| && (Lower(pr.labels[i]) == "hotfix" || Lower(pr.labels[i]) == "critical")
  }

  /** `any(lbl['name'].lower() == 'pending-release' for lbl in pr.get('labels', []))`. */
  predicate PendingRelease(pr: Pr) {
    exists i :: 0 <= i < |pr.labels| && Lower(pr.labels[i]) == "pending-release"
  }

  /** `now - iso_to_dt(pr["created_at"])`, in microseconds. */
  function Age(now: int, pr: Pr): int {
    now - pr.created.instant * MicrosPerSecond
  }

  predicate PendingReview(now: int, pr: Pr, reviews: seq<Review>) {
    Age(now, pr) > PendingReviewAge && |reviews| == 0
  }

  predicate Stuck(now: int, pr: Pr) {
    Age(now, pr) > StuckAge
  }

  predicate Stale(now: int, pr: Pr) {
    Age(now, pr) > StaleAge
  }

  // The tests as predicates over one pull request, for the comprehensions over `open_prs`.

  function ChangesRequestedTest(lookup: ReviewLookup): Pr -> bool {
    (pr: Pr) => ChangesRequested(ReviewsOf(lookup, pr.number))
  }

  function NotApprovedTest(lookup: ReviewLookup): Pr -> bool {
    (pr: Pr) => NotApproved(ReviewsOf(lookup, pr.number))
  }

  function HotfixTest(): Pr -> bool {
    (pr: Pr) => Hotfix(pr)
  }

  function PendingReviewTest(now: int, lookup: ReviewLookup): Pr -> bool {
    (pr: Pr) => PendingReview(now, pr, ReviewsOf(lookup, pr.number))
  }

  function StuckTest(now: int): Pr -> bool {
    (pr: Pr) => Stuck(now, pr)
  }

  function StaleTest(now: int): Pr -> bool {
    (pr: Pr) => Stale(now, pr)
  }

  function PendingReleaseTest(): Pr -> bool {
    (pr: Pr) => PendingRelease(pr)
  }

  /** Changes requested holds iff some review, in any position, has that state once lower-cased. */
  lemma ChangesRequestedIff(reviews: seq<Review>)
    ensures ChangesRequested(reviews)
        <==> exists i :: 0 <= i < |reviews| && Lower(reviews[i].state) == ChangesRequestedState
  {
  }

  /** Not approved holds iff no review, in any position, has the state approved once lower-cased. */
  lemma NotApprovedIff(reviews: seq<Review>)
    ensures NotApproved(reviews)
        <==> forall i :: 0 <= i < |reviews| ==> Lower(reviews[i].state) != ApprovedState
  {
  }

  /** Both flags depend only on which reviews there are, not on their order. */
  lemma {:induction false} ReviewOrderIrrelevant(reviews: seq<Review>, reordered: seq<Review>)
    requires multiset(reviews) == multiset(reordered)
    ensures ChangesRequested(reviews) == ChangesRequested(reordered)
    ensures NotApproved(reviews) == NotApproved(reordered)
  {
    forall r | r in reviews ensures r in reordered {
      assert r in multiset(reviews);
    }
    forall r | r in reordered ensures r in reviews {
      assert r in multiset(reordered);
    }
    forall s | s in States(reviews) ensures s in States(reordered) {
      var i :| 0 <= i < |reviews| && States(reviews)[i] == s;
      assert reviews[i] in reviews && reviews[i] in reordered;
      var j :| 0 <= j < |reordered| && reordered[j] == reviews[i];
      assert States(reordered)[j] == s;
    }
    forall s | s in States(reordered) ensures s in States(reviews) {
      var i :| 0 <= i < |reordered| && States(reordered)[i] == s;
      assert reordered[i] in reordered && reordered[i] in reviews;
      var j :| 0 <= j < |reviews| && reviews[j] == reordered[i];
      assert States(reviews)[j] == s;
    }
  }

  /** A pull request nobody has reviewed is not approved, has no changes requested. */
  lemma Unreviewed()
    ensures NotApproved([]) && !ChangesRequested([])
  {
  }

  /** The two flags are independent: one request for changes and no approval sets both. */
  lemma BothFlagsAtOnce(reviewer: string)
    ensures ChangesRequested([Review(reviewer, "CHANGES_REQUESTED")])
    ensures NotApproved([Review(reviewer, "CHANGES_REQUESTED")])
  {
    var states := States([Review(reviewer, "CHANGES_REQUESTED")]);
    assert states[0] == ChangesRequestedState;
    assert states == [ChangesRequestedState];
  }

  /** Every stale pull request is also stuck. */
  lemma StaleIsStuck(now: int, pr: Pr)
    ensures Stale(now, pr) ==> Stuck(now, pr)
  {
  }

  /**
   * `is_changes_requested(reviews)`: scans the reviews from the last to the first and stops at
   * the first `changes_requested`; the answer is the same as for any other order of scanning.
   */
  method IsChangesRequested(reviews: seq<Review>) returns (found: bool)
    ensures found == ChangesRequested(reviews)
  {
    var i := |reviews|;
    while i > 0
      invariant 0 <= i <= |reviews|
      invariant forall j :: i <= j < |reviews| ==> Lower(reviews[j].state) != ChangesRequestedState
    {
      i := i - 1;
      if Lower(reviews[i].state) == ChangesRequestedState {
        assert States(reviews)[i] == ChangesRequestedState;
        return true;
      }
    }
    return false;
  }

  /** The outcomes of the six tests the loop body applies to one open pull request. */
  datatype Outcomes = Outcomes(changesRequested: bool, notApproved: bool, hotfix: bool,
                               pendingReview: bool, stuck: bool, pendingRelease: bool)

  /**
   * The loop body's tests on `pr`, from its reviews (fetched once), its labels and its age:
   * a review state or label counts wherever it occurs, and the ages are strict bounds.
   */
  function Tests(now: int, lookup: ReviewLookup, pr: Pr): (o: Outcomes)
    ensures var rs := ReviewsOf(lookup, pr.number);
      && (o.changesRequested <==> exists i :: 0 <= i < |rs| && Lower(rs[i].state) == "changes_requested")
      && (o.notApproved <==> forall i :: 0 <= i < |rs| ==> Lower(rs[i].state) != "approved")
      && (o.hotfix <==> exists i :: 0 <= i < |pr.labels| && Lower(pr.labels[i]) in ["hotfix", "critical"])
      && (o.pendingReview <==> now - pr.created.instant * 1000000 > 86400000000 && rs == [])
      && (o.stuck <==> now - pr.created.instant * 1000000 > 2 * 86400000000)
      && (o.pendingRelease <==> exists i :: 0 <= i < |pr.labels| && Lower(pr.labels[i]) == "pending-release")
  {
    var reviews := ReviewsOf(lookup, pr.number);
    var states := States(reviews);
    Outcomes(ChangesRequestedState in states, ApprovedState !in states, Hotfix(pr),
             Age(now, pr) > PendingReviewAge && |reviews| == 0, Age(now, pr) > StuckAge, PendingRelease(pr))
  }

  function TestsOf(now: int, lookup: ReviewLookup): Pr -> Outcomes {
    (pr: Pr) => Tests(now, lookup, pr)
  }

  /** What the loop over the open pull requests has gathered so far. */
  datatype Classified = Classified(changesRequested: seq<Pr>, notApproved: seq<Pr>, hotfix: seq<Pr>,
                                   pendingReview: seq<Pr>, stuck: nat, pendingRelease: nat)

  /** One pass of the loop body over pull request `pr`, given the outcomes of the tests on it. */
  function ClassifyStep(c: Classified, pr: Pr, o: Outcomes): Classified {
    Classified(
      if o.changesRequested then c.changesRequested + [pr] else c.changesRequested,
      if o.notApproved then c.notApproved + [pr] else c.notApproved,
      if o.hotfix then c.hotfix + [pr] else c.hotfix,
      if o.pendingReview then c.pendingReview + [pr] else c.pendingReview,
      if o.stuck then c.stuck + 1 else c.stuck,
      if o.pendingRelease then c.pendingRelease + 1 else c.pendingRelease)
  }

  /** The loop run over `open` from empty lists and zero counts. */
  function Classification(open: seq<Pr>, tests: Pr -> Outcomes): Classified {
    if open == [] then Classified([], [], [], [], 0, 0)
    else ClassifyStep(Classification(open[..|open| - 1], tests), open[|open| - 1], tests(open[|open| - 1]))
  }

  /** Each list the loop builds is the comprehension of its test over `open`, each count that comprehension's length. */
  lemma {:induction false} ClassificationIsFilters(now: int, lookup: ReviewLookup, open: seq<Pr>)
    ensures var c := Classification(open, TestsOf(now, lookup));
      && c.changesRequested == Filter(open, ChangesRequestedTest(lookup))
      && c.notApproved == Filter(open, NotApprovedTest(lookup))
      && c.hotfix == Filter(open, HotfixTest())
      && c.pendingReview == Filter(open, PendingReviewTest(now, lookup))
      && c.stuck == |Filter(open, StuckTest(now))|
      && c.pendingRelease == |Filter(open, PendingReleaseTest())|
  {
    if open != [] {
      var n := |open| - 1;
      var init, pr := open[..n], open[n];
      assert init + [pr] == open;
      ClassificationIsFilters(now, lookup, init);
      var o := Tests(now, lookup, pr);
      FilterSnoc(init, pr, ChangesRequestedTest(lookup));
      FilterSnoc(init, pr, NotApprovedTest(lookup));
      FilterSnoc(init, pr, HotfixTest());
      FilterSnoc(init, pr, PendingReviewTest(now, lookup));
      FilterSnoc(init, pr, StuckTest(now));
      FilterSnoc(init, pr, PendingReleaseTest());
    }
  }

  /**
   * The `for pr in open_prs` loop of the multi-repository scripts: applies the tests to each open
   * pull request, appends it to the changes-requested, not-approved, hotfix and pending-review
   * lists it qualifies for and counts the stuck and pending-release ones. `tests` is
   * `TestsOf(now, lookup)` at every call.
   */
  method ClassifyOpen(open: seq<Pr>, tests: Pr -> Outcomes)
    returns (changesRequested: seq<Pr>, notApproved: seq<Pr>, hotfix: seq<Pr>,
             pendingReview: seq<Pr>, stuck: nat, pendingRelease: nat)
    ensures Classified(changesRequested, notApproved, hotfix, pendingReview, stuck, pendingRelease)
         == Classification(open, tests)
  {
    changesRequested, notApproved, hotfix, pendingReview := [], [], [], [];
    stuck, pendingRelease := 0, 0;
    for i := 0 to |open|
      invariant Classified(changesRequested, notApproved, hotfix, pendingReview, stuck, pendingRelease)
             == Classification(open[..i], tests)
    {
      var pr := open[i];
      assert open[..i + 1][..i] == open[..i];
      var o := tests(pr);
      if o.changesRequested {
        changesRequested := changesRequested + [pr];
      }
      if o.notApproved {
        notApproved := notApproved + [pr];
      }
      if o.hotfix {
        hotfix := hotfix + [pr];
      }
      if o.pendingReview {
        pendingReview := pendingReview + [pr];
      }
      if o.stuck {
        stuck := stuck + 1;
      }
      if o.pendingRelease {
        pendingRelease := pendingRelease + 1;
      }
    }
    assert open[..|open|] == open;
  }
}
