/**
 * What one successfully fetched repository contributes to the cross-repository snapshot,
 * the snapshot itself, and the quick insights computed from it. The two all-repository
 * scripts share this; they differ only in how they track the oldest open pull request.
 */
module Aggregate {
  import opened Wrappers
  import opened Text
  import opened Timestamps
  import opened Records
  import opened Window
  import opened Classify
  import opened Members

  /** The running counters `total_raised`, ..., `pending_release`. */
  datatype Totals = Totals(raised: nat, merged: nat, changesRequested: nat, notApproved: nat,
                           hotfix: nat, pendingReview: nat, stuck: nat, pendingRelease: nat)

  function NoTotals(): Totals {
    Totals(0, 0, 0, 0, 0, 0, 0, 0)
  }

  function Plus(a: Totals, b: Totals): Totals {
    Totals(a.raised + b.raised, a.merged + b.merged, a.changesRequested + b.changesRequested,
           a.notApproved + b.notApproved, a.hotfix + b.hotfix, a.pendingReview + b.pendingReview,
           a.stuck + b.stuck, a.pendingRelease + b.pendingRelease)
  }

  /** `merged - created` of a merged pull request, in seconds (the scripts divide by 3600 as a float). */
  function CycleTime(pr: Pr): int {
    if pr.merged.Some? then pr.merged.value.instant - pr.created.instant else 0
  }

  /** The review-cycle durations of `prs`, in order. */
  function CycleTimes(prs: seq<Pr>): (r: seq<int>)
    ensures |r| == |prs|
    ensures forall i :: 0 <= i < |prs| ==> r[i] == CycleTime(prs[i])
  {
    seq(|prs|, i requires 0 <= i < |prs| => CycleTime(prs[i]))
  }

  /** `sum(xs)`. */
  function Total(xs: seq<int>): int {
    if xs == [] then 0 else Total(xs[..|xs| - 1]) + xs[|xs| - 1]
  }

  lemma {:induction false} TotalAppend(a: seq<int>, b: seq<int>)
    ensures Total(a + b) == Total(a) + Total(b)
  {
    if b != [] {
      assert (a + b)[..|a + b| - 1] == a + b[..|b| - 1];
      TotalAppend(a, b[..|b| - 1]);
    } else {
      assert a + b == a;
    }
  }

  /** What one repository adds to the totals, to `member_rows` and to `review_cycle_times`. */
  datatype Contribution = Contribution(totals: Totals, rows: seq<Row>, cycleTimes: seq<int>)

  /** The body of the repository loop for a repository whose two `get_prs` calls succeeded. */
  function Contribute(now: int, name: string, open: seq<Pr>, closed: seq<Pr>, lookup: ReviewLookup): Contribution {
    var todayStart := TodayStart(now);
    var raised := RaisedToday(todayStart, open, closed);
    var merged := MergedToday(todayStart, closed);
    var changesRequested := Filter(open, ChangesRequestedTest(lookup));
    var notApproved := Filter(open, NotApprovedTest(lookup));
    Contribution(
      Totals(|raised|, |merged|, |changesRequested|, |notApproved|, |Filter(open, HotfixTest())|,
             |Filter(open, PendingReviewTest(now, lookup))|, |Filter(open, StuckTest(now))|,
             |Filter(open, PendingReleaseTest())|),
      Tag(MemberTable(raised, merged, changesRequested, notApproved, lookup, Numbers(raised + merged)), name),
      CycleTimes(merged))
  }

  /** `Contribute` assembled from the lists the loop body builds. */
  lemma ContributeParts(now: int, name: string, open: seq<Pr>, closed: seq<Pr>, lookup: ReviewLookup,
                        changesRequested: seq<Pr>, notApproved: seq<Pr>, members: seq<Stat>)
    requires changesRequested == Filter(open, ChangesRequestedTest(lookup))
    requires notApproved == Filter(open, NotApprovedTest(lookup))
    requires var todayStart := TodayStart(now);
      var raised := RaisedToday(todayStart, open, closed);
      var merged := MergedToday(todayStart, closed);
      members == MemberTable(raised, merged, changesRequested, notApproved, lookup, Numbers(raised + merged))
    ensures var todayStart := TodayStart(now);
      var raised := RaisedToday(todayStart, open, closed);
      var merged := MergedToday(todayStart, closed);
      Contribute(now, name, open, closed, lookup)
      == Contribution(Totals(|raised|, |merged|, |changesRequested|, |notApproved|, |Filter(open, HotfixTest())|,
                             |Filter(open, PendingReviewTest(now, lookup))|, |Filter(open, StuckTest(now))|,
                             |Filter(open, PendingReleaseTest())|),
                      Tag(members, name), CycleTimes(merged))
  {
  }

  lemma UntagTag(table: seq<Stat>, name: string)
    ensures Untag(Tag(table, name)) == table
  {
  }

  lemma {:induction false} UntagAppend(a: seq<Row>, b: seq<Row>)
    ensures Untag(a + b) == Untag(a) + Untag(b)
  {
    assert forall i :: 0 <= i < |a + b| ==> Untag(a + b)[i] == (Untag(a) + Untag(b))[i];
  }

  /** A repository's member rows add up to exactly what it adds to the four member-related totals. */
  lemma ContributionSums(now: int, name: string, open: seq<Pr>, closed: seq<Pr>, lookup: ReviewLookup)
    ensures var c := Contribute(now, name, open, closed, lookup);
      && Sum(Untag(c.rows), Raised) == c.totals.raised
      && Sum(Untag(c.rows), Merged) == c.totals.merged
      && Sum(Untag(c.rows), ChangesRequestedCount) == c.totals.changesRequested
      && Sum(Untag(c.rows), NotApprovedCount) == c.totals.notApproved
  {
    var todayStart := TodayStart(now);
    var raised := RaisedToday(todayStart, open, closed);
    var merged := MergedToday(todayStart, closed);
    var changesRequested := Filter(open, ChangesRequestedTest(lookup));
    var notApproved := Filter(open, NotApprovedTest(lookup));
    var table := MemberTable(raised, merged, changesRequested, notApproved, lookup, Numbers(raised + merged));
    UntagTag(table, name);
    MembersSums(raised, merged, changesRequested, notApproved, lookup, Numbers(raised + merged));
  }

  /**
   * A repository's rows: all tagged with its name, one per distinct login, in the order the
   * logins are first met, and a login has a row
   * exactly when it authored a pull request raised or merged today or an open one with changes
   * requested or without approval, or reviewed a pull request raised or merged today.
   */
  lemma ContributionRows(now: int, name: string, open: seq<Pr>, closed: seq<Pr>, lookup: ReviewLookup, login: string)
    ensures var c := Contribute(now, name, open, closed, lookup);
      var todayStart := TodayStart(now);
      var raised := RaisedToday(todayStart, open, closed);
      var merged := MergedToday(todayStart, closed);
      && (forall i :: 0 <= i < |c.rows| ==> c.rows[i].repoName == name)
      && UniqueLogins(Untag(c.rows))
      && Logins(Untag(c.rows))
         == Distinct(Authors(raised) + Authors(merged) + Authors(Filter(open, ChangesRequestedTest(lookup)))
                     + Authors(Filter(open, NotApprovedTest(lookup))) + Reviewers(lookup, Numbers(raised + merged)))
      && (login in Keys(Untag(c.rows))
          <==> (login in Authors(raised) || login in Authors(merged)
                || login in Authors(Filter(open, ChangesRequestedTest(lookup)))
                || login in Authors(Filter(open, NotApprovedTest(lookup)))
                || login in Reviewers(lookup, Numbers(raised + merged))))
  {
    var todayStart := TodayStart(now);
    var raised := RaisedToday(todayStart, open, closed);
    var merged := MergedToday(todayStart, closed);
    var changesRequested := Filter(open, ChangesRequestedTest(lookup));
    var notApproved := Filter(open, NotApprovedTest(lookup));
    var table := MemberTable(raised, merged, changesRequested, notApproved, lookup, Numbers(raised + merged));
    UntagTag(table, name);
    MembersUnique(raised, merged, changesRequested, notApproved, lookup, Numbers(raised + merged));
    MembersOrder(raised, merged, changesRequested, notApproved, lookup, Numbers(raised + merged));
    MembersKeys(raised, merged, changesRequested, notApproved, lookup, Numbers(raised + merged), login);
  }

  /**
   * A member's `reviews_done` in a repository's row is the number of reviews it wrote on the
   * pull requests raised or merged today, one pull request counted once per list it is in.
   */
  lemma ReviewsDoneCounted(now: int, name: string, open: seq<Pr>, closed: seq<Pr>, lookup: ReviewLookup, login: string)
    ensures var c := Contribute(now, name, open, closed, lookup);
      var todayStart := TodayStart(now);
      var ids := Numbers(RaisedToday(todayStart, open, closed) + MergedToday(todayStart, closed));
      Lookup(Untag(c.rows), login).reviewsDone == multiset(Reviewers(lookup, ids))[login]
  {
    var todayStart := TodayStart(now);
    var raised := RaisedToday(todayStart, open, closed);
    var merged := MergedToday(todayStart, closed);
    var changesRequested := Filter(open, ChangesRequestedTest(lookup));
    var notApproved := Filter(open, NotApprovedTest(lookup));
    var table := MemberTable(raised, merged, changesRequested, notApproved, lookup, Numbers(raised + merged));
    UntagTag(table, name);
    MembersCounts(raised, merged, changesRequested, notApproved, lookup, Numbers(raised + merged), login);
  }

  /** `for member, stats in members.items(): member_rows.append({..., "RepoName": repo_name})`. */
  method AppendRows(rows: seq<Row>, members: seq<Stat>, name: string) returns (r: seq<Row>)
    ensures r == rows + Tag(members, name)
  {
    r := rows;
    for k := 0 to |members|
      invariant r == rows + Tag(members[..k], name)
    {
      assert Tag(members[..k + 1], name) == Tag(members[..k], name) + [Row(members[k], name)];
      r := r + [Row(members[k], name)];
    }
    assert members[..|members|] == members;
  }

  /** `for pr in prs_merged_today: review_cycle_times.append(merged - created)`. */
  method AppendCycleTimes(times: seq<int>, merged: seq<Pr>) returns (r: seq<int>)
    ensures r == times + CycleTimes(merged)
  {
    r := times;
    for k := 0 to |merged|
      invariant r == times + CycleTimes(merged[..k])
    {
      assert CycleTimes(merged[..k + 1]) == CycleTimes(merged[..k]) + [CycleTime(merged[k])];
      r := r + [CycleTime(merged[k])];
    }
    assert merged[..|merged|] == merged;
  }

  // ---- the oldest open pull request ----

  /**
   * `o` is the earliest of the instant `cur` (if any) and the creation instants of `prs`:
   * absent exactly when there is nothing to take the minimum of.
   */
  predicate IsEarliest(o: Option<int>, cur: Option<int>, prs: seq<Pr>) {
    && (o.None? <==> cur.None? && prs == [])
    && (o.Some? ==>
          && (cur.Some? ==> o.value <= cur.value)
          && (forall pr :: pr in prs ==> o.value <= pr.created.instant)
          && ((cur.Some? && o.value == cur.value) || exists pr :: pr in prs && o.value == pr.created.instant))
  }

  /** There is only one earliest instant. */
  lemma EarliestUnique(o1: Option<int>, o2: Option<int>, cur: Option<int>, prs: seq<Pr>)
    requires IsEarliest(o1, cur, prs) && IsEarliest(o2, cur, prs)
    ensures o1 == o2
  {
    if o1.Some? {
      assert o2.Some?;
      if cur.Some? && o1.value == cur.value {
      } else {
        var pr :| pr in prs && o1.value == pr.created.instant;
        assert o2.value <= o1.value;
      }
      if cur.Some? && o2.value == cur.value {
      } else {
        var pr :| pr in prs && o2.value == pr.created.instant;
        assert o1.value <= o2.value;
      }
    }
  }

  /** `if cur is None or t < cur: cur = t`. */
  function MinWith(cur: Option<int>, t: int): Option<int> {
    if cur.None? || t < cur.value then Some(t) else cur
  }

  /** Folding one more pull request into the minimum. */
  lemma EarliestSnoc(o: Option<int>, cur: Option<int>, prs: seq<Pr>, pr: Pr)
    requires IsEarliest(o, cur, prs)
    ensures IsEarliest(MinWith(o, pr.created.instant), cur, prs + [pr])
  {
    var r := MinWith(o, pr.created.instant);
    assert forall q :: q in prs + [pr] <==> q in prs || q == pr;
    if r != o {
      assert pr in prs + [pr];
    } else if o.Some? && !(cur.Some? && o.value == cur.value) {
      var q :| q in prs && o.value == q.created.instant;
      assert q in prs + [pr];
    }
  }

  /** Taking the minimum in two stages: first over `a` then over `b`, is the minimum over `a + b`. */
  lemma EarliestCompose(o1: Option<int>, o2: Option<int>, a: seq<Pr>, b: seq<Pr>)
    requires IsEarliest(o1, None, a) && IsEarliest(o2, o1, b)
    ensures IsEarliest(o2, None, a + b)
  {
    if o2.Some? {
      if o1.Some? && o2.value == o1.value {
        var pr :| pr in a && o1.value == pr.created.instant;
        assert pr in a + b;
      } else {
        var pr :| pr in b && o2.value == pr.created.instant;
        assert pr in a + b;
      }
    }
  }

  /**
   * `min(open_prs, key=lambda pr: pr["created_at"])`: the index of the first pull request whose
   * raw `created_at` text is smallest.
   */
  function RawOldest(prs: seq<Pr>): (i: nat)
    requires prs != []
    ensures i < |prs|
    ensures forall j :: 0 <= j < |prs| ==> !LexLess(prs[j].created.raw, prs[i].created.raw)
    ensures forall j :: 0 <= j < i ==> LexLess(prs[i].created.raw, prs[j].created.raw)
  {
    if |prs| == 1 then
      LexIrreflexive(prs[0].created.raw);
      0
    else
      var n := |prs| - 1;
      var k := RawOldest(prs[..n]);
      assert forall j :: 0 <= j < n ==> prs[..n][j] == prs[j];
      if LexLess(prs[n].created.raw, prs[k].created.raw) then
        assert forall j :: 0 <= j < n ==> !LexLess(prs[j].created.raw, prs[n].created.raw) by {
          forall j | 0 <= j < n
            ensures !LexLess(prs[j].created.raw, prs[n].created.raw)
          {
            if LexLess(prs[j].created.raw, prs[n].created.raw) {
              LexTransitive(prs[j].created.raw, prs[n].created.raw, prs[k].created.raw);
            }
          }
        }
        assert forall j :: 0 <= j < n ==> LexLess(prs[n].created.raw, prs[j].created.raw) by {
          forall j | 0 <= j < n
            ensures LexLess(prs[n].created.raw, prs[j].created.raw)
          {
            LexTotal(prs[j].created.raw, prs[k].created.raw);
            if prs[j].created.raw != prs[k].created.raw {
              LexTransitive(prs[n].created.raw, prs[k].created.raw, prs[j].created.raw);
            }
          }
        }
        LexIrreflexive(prs[n].created.raw);
        n
      else
        k
  }

  /** All creation stamps of `prs` are what `iso_to_dt` reads from their text. */
  predicate StampsConsistent(prs: seq<Pr>) {
    forall pr :: pr in prs ==> Consistent(pr.created)
  }

  /**
   * When every timestamp is well formed, the pull request with the smallest `created_at` text
   * also has the earliest creation instant: the fixed-width text sorts like the time.
   */
  lemma RawOldestIsEarliest(prs: seq<Pr>)
    requires prs != [] && StampsConsistent(prs)
    ensures forall pr :: pr in prs ==> prs[RawOldest(prs)].created.instant <= pr.created.instant
  {
    var i := RawOldest(prs);
    forall pr | pr in prs
      ensures prs[i].created.instant <= pr.created.instant
    {
      var j :| 0 <= j < |prs| && prs[j] == pr;
      assert Consistent(prs[i].created) && Consistent(pr.created);
      TextOrderIsInstantOrder(pr.created.raw, prs[i].created.raw);
    }
  }

  /**
   * The update of `oldest_open_date` with a repository's oldest open pull request, picked by raw text:
   * `if open_prs: ...; if oldest_open_date is None or repo_oldest_date < oldest_open_date: ...`.
   */
  function RawOldestStep(cur: Option<int>, open: seq<Pr>): Option<int> {
    if open == [] then cur
    else
      MinWith(cur, open[RawOldest(open)].created.instant)
  }

  /** With well-formed timestamps the per-repository step takes the minimum over the open pull requests. */
  lemma RawOldestStepIsEarliest(cur: Option<int>, open: seq<Pr>)
    requires StampsConsistent(open)
    ensures IsEarliest(RawOldestStep(cur, open), cur, open)
  {
    if open != [] {
      RawOldestIsEarliest(open);
      assert open[RawOldest(open)] in open;
    }
  }

  // ---- the snapshot ----

  /** The state of the repository loop: totals, `member_rows`, `oldest_open_date`, `review_cycle_times`. */
  datatype Snapshot = Snapshot(totals: Totals, rows: seq<Row>, oldest: Option<int>, cycleTimes: seq<int>)

  function Initial(): Snapshot {
    Snapshot(NoTotals(), [], None, [])
  }

  /** Adds a repository's contribution, with the oldest-open value the script computed for it. */
  function Absorb(s: Snapshot, c: Contribution, oldest: Option<int>): Snapshot {
    Snapshot(Plus(s.totals, c.totals), s.rows + c.rows, oldest, s.cycleTimes + c.cycleTimes)
  }

  /** The open pull requests of every repository that was fetched, in order. */
  function AllOpen(repos: seq<RepoFetch>): seq<Pr> {
    if repos == [] then []
    else
      var last := repos[|repos| - 1];
      AllOpen(repos[..|repos| - 1]) + (if last.Fetched? then last.open else [])
  }

  /** The merged-today pull requests of every repository that was fetched, in order. */
  function AllMergedToday(now: int, repos: seq<RepoFetch>): seq<Pr> {
    if repos == [] then []
    else
      var last := repos[|repos| - 1];
      AllMergedToday(now, repos[..|repos| - 1])
        + (if last.Fetched? then MergedToday(TodayStart(now), last.closed) else [])
  }

  /** The member rows add up to the four member-related totals. */
  predicate RowsAddUp(s: Snapshot) {
    && Sum(Untag(s.rows), Raised) == s.totals.raised
    && Sum(Untag(s.rows), Merged) == s.totals.merged
    && Sum(Untag(s.rows), ChangesRequestedCount) == s.totals.changesRequested
    && Sum(Untag(s.rows), NotApprovedCount) == s.totals.notApproved
  }

  lemma AbsorbAddsUp(s: Snapshot, c: Contribution, oldest: Option<int>)
    requires RowsAddUp(s)
    requires RowsAddUp(Snapshot(c.totals, c.rows, oldest, c.cycleTimes))
    ensures RowsAddUp(Absorb(s, c, oldest))
  {
    UntagAppend(s.rows, c.rows);
    SumAppend(Untag(s.rows), Untag(c.rows), Raised);
    SumAppend(Untag(s.rows), Untag(c.rows), Merged);
    SumAppend(Untag(s.rows), Untag(c.rows), ChangesRequestedCount);
    SumAppend(Untag(s.rows), Untag(c.rows), NotApprovedCount);
  }

  /** What one entry of `get_all_repos()` adds to the totals: nothing when its fetch raised. */
  function RepoTotals(now: int, repo: RepoFetch): Totals {
    match repo
    case Failed => NoTotals()
    case Fetched(name, open, closed, lookup) => Contribute(now, name, open, closed, lookup).totals
  }

  function TotalsOf(now: int): RepoFetch -> Totals {
    (repo: RepoFetch) => RepoTotals(now, repo)
  }

  /** The totals `per` gives each of `repos`, added up one repository after another. */
  function SumTotals(per: RepoFetch -> Totals, repos: seq<RepoFetch>): Totals {
    if repos == [] then NoTotals()
    else Plus(SumTotals(per, repos[..|repos| - 1]), per(repos[|repos| - 1]))
  }

  lemma PlusAssociates(a: Totals, b: Totals, c: Totals)
    ensures Plus(Plus(a, b), c) == Plus(a, Plus(b, c))
  {
  }

  lemma PlusNone(a: Totals)
    ensures Plus(a, NoTotals()) == a
  {
  }

  lemma {:induction false} SumTotalsAppend(per: RepoFetch -> Totals, a: seq<RepoFetch>, b: seq<RepoFetch>)
    ensures SumTotals(per, a + b) == Plus(SumTotals(per, a), SumTotals(per, b))
  {
    if b == [] {
      assert a + b == a;
      PlusNone(SumTotals(per, a));
    } else {
      var n := |b| - 1;
      var ab := a + b;
      assert ab[..|ab| - 1] == a + b[..n];
      assert ab[|ab| - 1] == b[n];
      var sa, sb, last := SumTotals(per, a), SumTotals(per, b[..n]), per(b[n]);
      assert SumTotals(per, ab) == Plus(SumTotals(per, a + b[..n]), last);
      assert SumTotals(per, b) == Plus(sb, last);
      SumTotalsAppend(per, a, b[..n]);
      PlusAssociates(sa, sb, last);
    }
  }

  /** A repository taken out of the middle adds the same totals as at the end. */
  lemma SumTotalsExtract(per: RepoFetch -> Totals, front: seq<RepoFetch>, x: RepoFetch, back: seq<RepoFetch>)
    ensures SumTotals(per, front + [x] + back) == Plus(SumTotals(per, front + back), per(x))
  {
    SumTotalsAppend(per, front + [x], back);
    SumTotalsAppend(per, front, [x]);
    SumTotalsAppend(per, front, back);
    assert [x][..0] == [];
  }

  /** Removing the last element of `a` and a matching element of `b` keeps two equal multisets equal. */
  lemma RemoveMatching<T>(a: seq<T>, b: seq<T>, j: int)
    requires multiset(a) == multiset(b)
    requires a != [] && 0 <= j < |b| && b[j] == a[|a| - 1]
    ensures multiset(a[..|a| - 1]) == multiset(b[..j] + b[j + 1..])
  {
    var x := b[j];
    assert a == a[..|a| - 1] + [x];
    assert b == b[..j] + [x] + b[j + 1..];
    assert multiset(a[..|a| - 1]) == multiset(a) - multiset{x};
    assert multiset(b[..j] + b[j + 1..]) == multiset(b) - multiset{x};
  }

  /** Added-up totals do not depend on the order of the repositories: any rearrangement gives the same. */
  lemma {:induction false} SumTotalsPermutation(per: RepoFetch -> Totals, a: seq<RepoFetch>, b: seq<RepoFetch>)
    requires multiset(a) == multiset(b)
    ensures SumTotals(per, a) == SumTotals(per, b)
    decreases |a|
  {
    if a == [] {
      assert |b| == |multiset(b)| == 0;
    } else {
      var n := |a| - 1;
      var x := a[n];
      assert x in multiset(a);
      var j :| 0 <= j < |b| && b[j] == x;
      var front, back := b[..j], b[j + 1..];
      assert b == front + [x] + back;
      RemoveMatching(a, b, j);
      SumTotalsPermutation(per, a[..n], front + back);
      SumTotalsExtract(per, front, x, back);
    }
  }

  // ---- quick insights ----

  /**
   * `max(rows, key=...)`: the index of the first entry with the largest value of the counter `f`;
   * later entries replace the current one only when strictly larger.
   */
  function FirstMax(table: seq<Stat>, f: Field): (i: nat)
    requires table != []
    ensures i < |table|
    ensures forall j :: 0 <= j < |table| ==> Get(table[j], f) <= Get(table[i], f)
    ensures forall j :: 0 <= j < i ==> Get(table[j], f) < Get(table[i], f)
  {
    if |table| == 1 then 0
    else
      var n := |table| - 1;
      var k := FirstMax(table[..n], f);
      assert forall j :: 0 <= j < n ==> table[..n][j] == table[j];
      if Get(table[n], f) > Get(table[k], f) then n else k
  }

  /** `max(member_rows, key=...)["Member"] if member_rows else "-"`. */
  function Leader(rows: seq<Row>, f: Field): (login: string)
    ensures rows == [] ==> login == "-"
  {
    if rows == [] then "-" else rows[FirstMax(Untag(rows), f)].stat.login
  }

  /** The authors of the open pull requests older than 7 days, in each successfully fetched list of the second pass. */
  function StaleAuthors(now: int, staleFetch: seq<Option<seq<Pr>>>): seq<string> {
    if staleFetch == [] then []
    else
      var last := staleFetch[|staleFetch| - 1];
      StaleAuthors(now, staleFetch[..|staleFetch| - 1])
        + (if last.Some? then Authors(Filter(last.value, StaleTest(now))) else [])
  }

  /** Within one fetched list, a login is among the stale authors exactly when it wrote a stale pull request of that list. */
  lemma StaleListAuthors(now: int, open: seq<Pr>, login: string)
    ensures login in Authors(Filter(open, StaleTest(now)))
        <==> exists pr :: pr in open && Stale(now, pr) && pr.author == login
  {
    var stale := Filter(open, StaleTest(now));
    if login in Authors(stale) {
      var i :| 0 <= i < |stale| && Authors(stale)[i] == login;
      FilterMembers(open, StaleTest(now), stale[i]);
      assert stale[i] in open && Stale(now, stale[i]);
    }
    if exists pr :: pr in open && Stale(now, pr) && pr.author == login {
      var pr :| pr in open && Stale(now, pr) && pr.author == login;
      FilterMembers(open, StaleTest(now), pr);
      var i :| 0 <= i < |stale| && stale[i] == pr;
      assert Authors(stale)[i] == login;
    }
  }

  /** A login is a stale owner exactly when some list fetched in the second pass holds a stale pull request of it. */
  lemma {:induction false} StaleAuthorsIff(now: int, staleFetch: seq<Option<seq<Pr>>>, login: string)
    ensures login in StaleAuthors(now, staleFetch)
        <==> exists k, pr :: 0 <= k < |staleFetch| && staleFetch[k].Some? && pr in staleFetch[k].value
                             && Stale(now, pr) && pr.author == login
  {
    if staleFetch != [] {
      var n := |staleFetch| - 1;
      var init, last := staleFetch[..n], staleFetch[n];
      var tail := if last.Some? then Authors(Filter(last.value, StaleTest(now))) else [];
      assert StaleAuthors(now, staleFetch) == StaleAuthors(now, init) + tail;
      StaleAuthorsIff(now, init, login);
      if last.Some? {
        StaleListAuthors(now, last.value, login);
      }
      if login in StaleAuthors(now, init) {
        var k, pr :| 0 <= k < |init| && init[k].Some? && pr in init[k].value && Stale(now, pr) && pr.author == login;
        assert staleFetch[k] == init[k];
      }
      if exists k, pr :: 0 <= k < |staleFetch| && staleFetch[k].Some? && pr in staleFetch[k].value
                         && Stale(now, pr) && pr.author == login {
        var k, pr :| 0 <= k < |staleFetch| && staleFetch[k].Some? && pr in staleFetch[k].value
                     && Stale(now, pr) && pr.author == login;
        if k < n {
          assert init[k] == staleFetch[k];
        }
      }
    }
  }

  /** `", ".join(sorted(stale_pr_owners)) if stale_pr_owners else "-"`. */
  function OwnersText(owners: seq<string>): (text: string)
    ensures owners == [] ==> text == "-"
  {
    if owners == [] then "-" else Join(SortedUnique(owners), ", ")
  }

  /** The snapshot the scripts render. `reopened_failed` is always 0 and `blocker_owners` always `"-"`. */
  datatype Report = Report(totals: Totals, oldestOpenDays: int, cycleSeconds: int, cycleCount: nat,
                           rows: seq<Row>, reopenedFailed: nat, mostActive: string, reviewHeavy: string,
                           staleOwners: string, blockerOwners: string)

  /** What follows the repository loop: the oldest age in days, the cycle-time pool, the second pass and the insights. */
  function Summarise(now: int, s: Snapshot, staleFetch: seq<Option<seq<Pr>>>): Report {
    Report(s.totals,
           if s.oldest.Some? then WholeDaysSince(now, s.oldest.value) else 0,
           Total(s.cycleTimes), |s.cycleTimes|,
           s.rows, 0,
           Leader(s.rows, Raised), Leader(s.rows, ReviewsDone),
           OwnersText(StaleAuthors(now, staleFetch)), "-")
  }

  /** One more pull request in the inner loop of the second pass: its author joins the set exactly when it is stale. */
  lemma StaleAuthorsStep(now: int, open: seq<Pr>, j: int)
    requires 0 <= j < |open|
    ensures Elems(Authors(Filter(open[..j + 1], StaleTest(now))))
         == Elems(Authors(Filter(open[..j], StaleTest(now)))) + (if Stale(now, open[j]) then {open[j].author} else {})
  {
    var before := Filter(open[..j], StaleTest(now));
    assert open[..j + 1] == open[..j] + [open[j]];
    FilterSnoc(open[..j], open[j], StaleTest(now));
    assert StaleTest(now)(open[j]) == Stale(now, open[j]);
    if Stale(now, open[j]) {
      assert Filter(open[..j + 1], StaleTest(now)) == before + [open[j]];
      assert Authors(before + [open[j]]) == Authors(before) + [open[j].author];
      ElemsSnoc(Authors(before), open[j].author);
    } else {
      assert Filter(open[..j + 1], StaleTest(now)) == before;
    }
  }

  /** The second pass over the repositories, collecting the logins of stale open pull requests into a set. */
  method CollectStaleOwners(now: int, staleFetch: seq<Option<seq<Pr>>>) returns (owners: set<string>)
    ensures owners == Elems(StaleAuthors(now, staleFetch))
  {
    owners := {};
    for k := 0 to |staleFetch|
      invariant owners == Elems(StaleAuthors(now, staleFetch[..k]))
    {
      assert staleFetch[..k + 1][..k] == staleFetch[..k];
      ghost var before := owners;
      if staleFetch[k].Some? {
        var open := staleFetch[k].value;
        for j := 0 to |open|
          invariant owners == before + Elems(Authors(Filter(open[..j], StaleTest(now))))
        {
          StaleAuthorsStep(now, open, j);
          if Stale(now, open[j]) {
            owners := owners + {open[j].author};
          }
        }
        assert open[..|open|] == open;
      }
      ElemsAppend(StaleAuthors(now, staleFetch[..k]),
                  if staleFetch[k].Some? then Authors(Filter(staleFetch[k].value, StaleTest(now))) else []);
    }
    assert staleFetch[..|staleFetch|] == staleFetch;
  }

  /** The steps after the repository loop, computed as the scripts do. */
  method Finish(now: int, s: Snapshot, staleFetch: seq<Option<seq<Pr>>>) returns (report: Report)
    ensures report == Summarise(now, s, staleFetch)
  {
    var oldestDays := 0;
    if s.oldest.Some? {
      oldestDays := (now - s.oldest.value * MicrosPerSecond) / MicrosPerDay;
    }
    var owners := CollectStaleOwners(now, staleFetch);
    var staleText := "-";
    ElemsEmpty(StaleAuthors(now, staleFetch));
    if owners != {} {
      var sorted := SortSet(owners);
      SortedIsUnique(sorted, SortedUnique(StaleAuthors(now, staleFetch)));
      staleText := Join(sorted, ", ");
    }
    var mostActive := "-";
    var reviewHeavy := "-";
    if s.rows != [] {
      mostActive := s.rows[FirstMax(Untag(s.rows), Raised)].stat.login;
      reviewHeavy := s.rows[FirstMax(Untag(s.rows), ReviewsDone)].stat.login;
    }
    report := Report(s.totals, oldestDays, Total(s.cycleTimes), |s.cycleTimes|, s.rows, 0,
                     mostActive, reviewHeavy, staleText, "-");
  }
}
