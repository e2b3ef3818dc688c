/**
 * The records the report scripts receive from the GitHub REST API, after the network
 * calls: pull requests, reviews and the per-repository fetch outcome.
 */
module Records {
  import opened Wrappers
  import Timestamps

  /** A timestamp field as sent (`"2024-01-10T09:00:00Z"`) together with the UTC instant, in epoch seconds, that `iso_to_dt` reads from it. */
  datatype Stamp = Stamp(raw: string, instant: int)

  /** The instant really is what `iso_to_dt` makes of the text. */
  predicate Consistent(st: Stamp) {
    Timestamps.Parse(st.raw) == Some(st.instant)
  }

  /** One element of `GET .../pulls/{number}/reviews`: `r["user"]["login"]` and `r["state"]`. */
  datatype Review = Review(reviewer: string, state: string)

  /**
   * One element of `GET .../pulls`: `number`, `user.login`, `created_at`, `merged_at`
   * (`None` when null or absent) and the label names (`[]` when `labels` is absent).
   */
  datatype Pr = Pr(number: int, author: string, created: Stamp, merged: Option<Stamp>, labels: seq<string>)

  /** `pr.get("merged_at")` is truthy: present, not null and not the empty string. */
  predicate HasMerge(pr: Pr) {
    pr.merged.Some? && pr.merged.value.raw != ""
  }

  /** What `get_reviews` answers for each pull-request number of one repository. */
  type ReviewLookup = map<int, seq<Review>>

  /** `get_reviews(owner, repo, number)`: a number that is not a key answered 404, read as no reviews. */
  function ReviewsOf(lookup: ReviewLookup, number: int): seq<Review> {
    if number in lookup then lookup[number] else []
  }

  /**
   * The outcome of `get_prs(owner, name, "open")` and `get_prs(owner, name, "closed")` for one
   * repository of `get_all_repos()`: `Failed` when either call raised.
   */
  datatype RepoFetch = Failed | Fetched(name: string, open: seq<Pr>, closed: seq<Pr>, reviews: ReviewLookup)

  /** `[pr["user"]["login"] for pr in prs]`. */
  function Authors(prs: seq<Pr>): (r: seq<string>)
    ensures |r| == |prs|
    ensures forall i :: 0 <= i < |prs| ==> r[i] == prs[i].author
  {
    seq(|prs|, i requires 0 <= i < |prs| => prs[i].author)
  }

  /** `[pr["number"] for pr in prs]`. */
  function Numbers(prs: seq<Pr>): (r: seq<int>)
    ensures |r| == |prs|
    ensures forall i :: 0 <= i < |prs| ==> r[i] == prs[i].number
  {
    seq(|prs|, i requires 0 <= i < |prs| => prs[i].number)
  }

  /** The list comprehension `[x for x in xs if keep(x)]`. */
  function Filter<T>(xs: seq<T>, keep: T -> bool): (r: seq<T>)
    ensures |r| <= |xs|
  {
    if xs == [] then []
    else Filter(xs[..|xs| - 1], keep) + (if keep(xs[|xs| - 1]) then [xs[|xs| - 1]] else [])
  }

  /** The comprehension keeps exactly the elements that pass the test. */
  lemma {:induction false} FilterMembers<T>(xs: seq<T>, keep: T -> bool, x: T)
    ensures x in Filter(xs, keep) <==> x in xs && keep(x)
  {
    if xs != [] {
      var n := |xs| - 1;
      FilterMembers(xs[..n], keep, x);
      assert xs == xs[..n] + [xs[n]];
    }
  }

  /** One more element at the end: the comprehension grows by it iff it passes the test. */
  lemma FilterSnoc<T>(xs: seq<T>, x: T, keep: T -> bool)
    ensures Filter(xs + [x], keep) == Filter(xs, keep) + (if keep(x) then [x] else [])
  {
    assert (xs + [x])[..|xs|] == xs;
  }

  /** A comprehension over a concatenation is the concatenation of the comprehensions. */
  lemma {:induction false} FilterAppend<T>(xs: seq<T>, ys: seq<T>, keep: T -> bool)
    ensures Filter(xs + ys, keep) == Filter(xs, keep) + Filter(ys, keep)
  {
    if ys != [] {
      var n := |ys| - 1;
      assert (xs + ys)[..|xs + ys| - 1] == xs + ys[..n];
      FilterAppend(xs, ys[..n], keep);
    } else {
      assert xs + ys == xs;
    }
  }

  /** A comprehension whose test holds for every element keeps them all. */
  lemma {:induction false} FilterAll<T>(xs: seq<T>, keep: T -> bool)
    requires forall i :: 0 <= i < |xs| ==> keep(xs[i])
    ensures Filter(xs, keep) == xs
  {
    if xs != [] {
      var n := |xs| - 1;
      var init := xs[..n];
      forall i | 0 <= i < |init| ensures keep(init[i]) {
        assert init[i] == xs[i];
      }
      FilterAll(init, keep);
      assert keep(xs[n]);
      assert Filter(xs, keep) == Filter(init, keep) + [xs[n]];
      assert init + [xs[n]] == xs;
    }
  }

  /** A comprehension whose test holds for no element keeps none. */
  lemma {:induction false} FilterNone<T>(xs: seq<T>, keep: T -> bool)
    requires forall i :: 0 <= i < |xs| ==> !keep(xs[i])
    ensures Filter(xs, keep) == []
  {
    if xs != [] {
      FilterNone(xs[..|xs| - 1], keep);
    }
  }
}
