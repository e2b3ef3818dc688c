# GitHub pull-request snapshot: aggregation and classification

This project models the aggregation and classification engine of three report scripts that
summarise a day of GitHub pull-request activity:

- `send_pr_report.py` covers every repository of the user. It keeps a running minimum of the oldest open pull request and cuts the report to 4000 characters before posting it.
- `pr_all_repos_daily_snapshot.py` does the same, except that it takes each repository's oldest open pull request by its raw `created_at` text.
- `pr_daily_report.py` covers one configured repository. It classifies in separate loops, credits reviews over the recent pull requests, sorts the member table by pull requests raised and computes the blocker owners.

The network calls become inputs, so the model takes the fetched records as values:

- A `RepoFetch` per repository, either `Failed` or the open and closed lists.
- A review lookup per repository, keyed by pull-request number.
- The open lists of the second pass, for stale owners.
- `now` as epoch microseconds.

The modules:

- `Timestamps` models `iso_to_dt` over the fixed-width `YYYY-MM-DDTHH:MM:SSZ` text, the midnight of `now`, and `.days`.
- `Records` holds the records and the list comprehension.
- `Window` holds the raised-today and merged-today filters.
- `Classify` holds the per-pull-request tests and the classification loop.
- `Members` models the insertion-ordered `members` dictionary and the `reviews_done_map` counter.
- `Aggregate` holds the per-repository contribution, the running snapshot, the oldest-open tracking and the insights.
- `SendReport`, `AllReposSnapshot` and `DailyReport` hold each script's `main()`.
- `Text` holds string order, `sorted`, `join` and de-duplication.

Each loop of the scripts is a method. Each method is proved equal to a function over its inputs, and the properties are proved about those functions:

- Window bounds.
- Classification as comprehensions.
- Member counts.
- Totals that add up.
- The oldest open pull request.
- The stale owners.
- Sorting.

The scripts flag "changes requested" when ANY review of the pull request has that state, and "not approved" when NO review is `approved`. They do not look only at each reviewer's latest review. The model follows the code. `ReviewOrderIrrelevant` proves that the verdict depends only on which reviews exist, not on their order.

## Model

| member | source | states |
|---|---|---|
| Timestamps.ParseFormat | send_pr_report.py:18-19 | parsing the `%Y-%m-%dT%H:%M:%SZ` text of any valid date-time gives back its UTC instant |
| Timestamps.Parse | send_pr_report.py:18-19 | `iso_to_dt`: an instant for the canonical zero-padded `%Y-%m-%dT%H:%M:%SZ` texts, `None` for the `ValueError` otherwise. It has no contract of its own: the round trips are `Timestamps.ParseFormat` and `Timestamps.FormatParse`, and the order is `Timestamps.TextOrderIsInstantOrder` |
| Timestamps.FormatParse | send_pr_report.py:18-19 | every text the parser accepts is exactly the formatted text of the fields it read (fixed width, zero padded) |
| Timestamps.FormatOrder | pr_all_repos_daily_snapshot.py:138 | for valid date-times, the formatted texts compare as strings exactly as the date-times compare field by field |
| Timestamps.EpochOrder | send_pr_report.py:186 | field-by-field order of valid date-times is the order of their epoch instants |
| Timestamps.TextOrderIsInstantOrder | pr_all_repos_daily_snapshot.py:138-139 | for well-formed timestamps, `a < b` on the raw text iff the parsed instant of `a` is earlier |
| Timestamps.TodayStart | send_pr_report.py:131 | `today_start` is a whole number of days and the midnight at or before `now`, less than a day before it |
| Timestamps.WholeDaysSince | send_pr_report.py:232 | `(now - t).days` is the number of whole days elapsed, rounded down |
| Records.FilterMembers | send_pr_report.py:156-157 | an element is in a comprehension iff it is in the list and passes the test |
| Window.RaisedTodayIff | send_pr_report.py:156 | raised today iff in the open or closed list and created at or after `today_start` (inclusive bound) |
| Window.MergedTodayIff | send_pr_report.py:157 | merged today iff in the closed list with a non-empty `merged_at` at or after `today_start` |
| Window.RaisedTodaySplits | send_pr_report.py:156 | the raised-today list is the open list's matches followed by the closed list's, so a pull request in both lists counts twice |
| Window.RaisedToday | send_pr_report.py:156 | the `prs_raised_today` comprehension. Its contract is carried by `Window.RaisedTodayIff` (membership) and `Window.RaisedTodaySplits` (order and multiplicity) |
| Window.MergedToday | send_pr_report.py:157 | the `prs_merged_today` comprehension. Its contract is carried by `Window.MergedTodayIff` |
| Classify.ChangesRequestedIff | send_pr_report.py:169-172 | changes requested iff some review, in any position, has state `changes_requested` once lower-cased |
| Classify.NotApprovedIff | send_pr_report.py:173-174 | not approved iff no review has state `approved` once lower-cased |
| Classify.ReviewOrderIrrelevant | send_pr_report.py:169-174 | both flags are unchanged by any reordering of the reviews |
| Classify.Unreviewed | send_pr_report.py:169-174 | a pull request without reviews is not approved and has no changes requested |
| Classify.BothFlagsAtOnce | send_pr_report.py:171-174 | one `CHANGES_REQUESTED` review sets both flags; upper case counts |
| Classify.StaleIsStuck | pr_all_repos_daily_snapshot.py:123-125 | every pull request older than 7 days is older than 2 days |
| Classify.IsChangesRequested | pr_daily_report.py:52-56 | the backwards scan with early return answers the same as "some review has `changes_requested`" |
| Classify.Tests | send_pr_report.py:168-184 | changes requested iff some review has state `changes_requested` once lower-cased; not approved iff no review has state `approved`; hotfix iff some label is `hotfix` or `critical`; pending review iff older than 24 hours with no review; stuck iff older than 2 days; pending release iff some label is `pending-release` |
| Classify.ClassificationIsFilters | send_pr_report.py:162-184 | each list the loop builds is the comprehension of its test over the open list; each counter is that comprehension's length |
| Classify.ClassifyOpen | send_pr_report.py:167-184 | the loop's four lists and two counters are the classification of the open list |
| Members.Lookup | send_pr_report.py:199-200 | a login without an entry reads as fresh zero counters |
| Members.BumpLookup | send_pr_report.py:203 | `members[login][f] += 1` changes only `login`'s counter `f`, by one |
| Members.BumpKeys | send_pr_report.py:203 | the members after the increment are the old ones plus `login` |
| Members.BumpUnique | send_pr_report.py:203 | the increment never creates a second entry for a login |
| Members.BumpSum | send_pr_report.py:203 | the increment adds one to the sum of counter `f` and nothing to any other sum |
| Members.BumpOrder | send_pr_report.py:203 | a login met for the first time is inserted last in the dictionary; an existing login keeps its place and the order is unchanged |
| Members.BumpAllLookup | send_pr_report.py:202-203 | after a counting loop, each login's counter grew by the number of pull requests it authored |
| Members.BumpAllKeys | send_pr_report.py:202-203 | a counting loop adds exactly the authors to the members |
| Members.BumpAllSum | send_pr_report.py:202-203 | a counting loop adds the list's length to its counter's sum |
| Members.BumpAllOrder | send_pr_report.py:202-203 | after a counting loop the logins are in the order they were first met, the loop's authors following those already present |
| Members.TickCount | send_pr_report.py:217 | `reviews_done_map[reviewer] += 1` adds one to that reviewer's count only |
| Members.TickOrder | send_pr_report.py:217 | a reviewer counted for the first time is inserted last in `reviews_done_map`; otherwise the order is unchanged |
| Members.TickReviewsCount | send_pr_report.py:215-217 | the reviews of one pull request add each reviewer's number of reviews |
| Members.TickAllCount | send_pr_report.py:213-217 | the nested loop counts, per login, its reviews over all pull requests checked |
| Members.TickReviewsOrder | send_pr_report.py:215-217 | the reviews of one pull request add their new reviewers to `reviews_done_map` in review order |
| Members.TickAllOrder | send_pr_report.py:213-217 | `reviews_done_map` lists the reviewers of the checked pull requests in the order they are first met |
| Members.SetReviewsLookup | send_pr_report.py:219 | `members[user]["reviews_done"] = count_r` sets that one counter of that one login |
| Members.SetReviewsSum | send_pr_report.py:219 | setting reviews done leaves the other four counters' sums unchanged |
| Members.SetReviewsOrder | send_pr_report.py:219 | assigning reviews done to a login not yet a member inserts it last; otherwise the order is unchanged |
| Members.ApplyReviewsLookup | send_pr_report.py:218-219 | copying the map sets reviews done for exactly the logins in it |
| Members.ApplyReviewsSum | send_pr_report.py:218-219 | copying the map leaves the other four counters' sums unchanged |
| Members.ApplyReviewsOrder | send_pr_report.py:218-219 | copying the map appends its new logins to `members` in the map's own order |
| Members.MembersCounts | send_pr_report.py:199-219 | each member's five counters are how often its login occurs among the authors of the four lists and among the reviewers |
| Members.MembersKeys | send_pr_report.py:199-219 | a login has an entry iff it authored a counted pull request or reviewed a checked one |
| Members.MembersUnique | send_pr_report.py:199-219 | no login has two entries |
| Members.MembersSums | send_pr_report.py:199-209 | the raised, merged, changes-requested and not-approved counters sum to the lengths of their lists |
| Members.MembersOrder | send_pr_report.py:199-219 | `members` is ordered by first occurrence over the authors of the raised, merged, changes-requested and not-approved lists, then the reviewers of the checked pull requests; this fixes the row order and the first maximum among ties |
| Members.MemberTable | send_pr_report.py:199-219 | the `members` dictionary as an association list in insertion order. Its contract is carried by `Members.MembersCounts`, `Members.MembersKeys`, `Members.MembersUnique`, `Members.MembersSums` and `Members.MembersOrder` |
| Members.BumpEach | send_pr_report.py:202-203 | the counting loop computes the counting function |
| Members.TallyReviews | send_pr_report.py:211-217 | the nested loop computes the review tally |
| Members.CopyReviews | send_pr_report.py:218-219 | the copy loop computes the copy function |
| Members.TallyMembers | send_pr_report.py:199-219 | the five loops build the member table |
| Aggregate.ContributionSums | send_pr_report.py:199-230 | a repository's rows sum to what it adds to the raised, merged, changes-requested and not-approved totals |
| Aggregate.ContributionRows | send_pr_report.py:221-230 | a repository's rows carry its name, one per distinct login, in first-occurrence order of the counted authors and reviewers, and exactly for them |
| Aggregate.Contribute | send_pr_report.py:156-230 | the loop body for a fetched repository. What it adds is stated by `Aggregate.ContributionSums`, `Aggregate.ContributionRows`, `Aggregate.ReviewsDoneCounted` and `Classify.ClassificationIsFilters` |
| Aggregate.SumTotalsPermutation | send_pr_report.py:147-192 | per-repository totals added up over any rearrangement of the repositories give the same totals |
| Aggregate.Summarise | send_pr_report.py:232-251 | what follows the repository loop. Its figures are stated by `SendReport.SnapshotFigures`, the stale owners by `Aggregate.StaleAuthorsIff` and the insights by `Aggregate.FirstMax` |
| Aggregate.ReviewsDoneCounted | send_pr_report.py:211-219 | a row's reviews done is the reviewer's number of reviews on the raised-today and merged-today pull requests |
| Aggregate.AppendRows | send_pr_report.py:221-230 | the rows loop appends the repository's tagged member table |
| Aggregate.AppendCycleTimes | send_pr_report.py:194-197 | the loop appends one `merged - created` per merged-today pull request |
| Aggregate.EarliestSnoc | send_pr_report.py:186-187 | one more `if None or created < oldest` step keeps the running value the earliest instant seen |
| Aggregate.EarliestCompose | send_pr_report.py:186-187 | the minimum over one repository, started from the minimum so far, is the minimum over both |
| Aggregate.EarliestUnique | pr_all_repos_daily_snapshot.py:140-141 | the earliest instant is unique, so two ways of computing it agree |
| Aggregate.RawOldest | pr_all_repos_daily_snapshot.py:138 | `min(..., key=created_at)` picks the first pull request whose raw text no other precedes |
| Aggregate.RawOldestIsEarliest | pr_all_repos_daily_snapshot.py:138-139 | with well-formed timestamps, the raw-text minimum has the earliest creation instant |
| Aggregate.RawOldestStepIsEarliest | pr_all_repos_daily_snapshot.py:137-141 | with well-formed timestamps, the per-repository step takes the minimum over its open pull requests |
| Aggregate.AbsorbAddsUp | send_pr_report.py:221-230 | adding a repository whose rows match its totals keeps all rows matching all totals |
| Aggregate.FirstMax | send_pr_report.py:249 | `max` returns the first row with the largest counter: no row is larger, and every earlier row is smaller |
| Aggregate.Leader | send_pr_report.py:249-250 | no rows give `"-"`, otherwise the login of the `FirstMax` row |
| Aggregate.StaleListAuthors | send_pr_report.py:243-246 | in one fetched list, a login is a stale author iff it wrote a pull request older than 7 days |
| Aggregate.StaleAuthorsIff | send_pr_report.py:235-246 | a login is a stale owner iff some successfully fetched list of the second pass has a stale pull request by it |
| Aggregate.OwnersText | send_pr_report.py:247 | no stale owners give `"-"` |
| Aggregate.CollectStaleOwners | send_pr_report.py:235-246 | the second-pass loop builds the set of stale authors; failed fetches are skipped |
| Aggregate.Finish | send_pr_report.py:232-251 | the steps after the repository loop compute the summary: oldest days, cycle pool, owners text (sorted over the set), leaders |
| SendReport.Earliest | send_pr_report.py:186-187 | the running minimum over a repository's open pull requests is the earliest of the previous value and their instants |
| SendReport.Truncate | send_pr_report.py:120 | the posted text is a prefix of the report, at most 4000 characters, and the whole report when it fits |
| SendReport.RowsMatchTotals | send_pr_report.py:147-230 | after the repository loop the member rows sum to the four member-related totals |
| SendReport.FailedRepoIgnored | send_pr_report.py:150-154 | a repository whose fetch raised changes nothing, and the loop carries on after it |
| SendReport.OldestIsEarliest | send_pr_report.py:186-187 | `oldest_open_date` ends as the earliest creation instant of any open pull request of a fetched repository, or `None` |
| SendReport.CyclesPooled | send_pr_report.py:194-197 | the cycle times are pooled over all repositories, one per merged-today pull request, as many as the merged total |
| SendReport.SnapshotFigures | send_pr_report.py:232-251 | oldest days come from the earliest open pull request (0 if none); the average is over the merged total (0 if none); `reopened_failed` is 0 and `blocker_owners` is `"-"` |
| SendReport.Reduce | send_pr_report.py:147-230 | the state after the repository loop. It is stated by `SendReport.RowsMatchTotals`, `SendReport.FailedRepoIgnored`, `SendReport.OldestIsEarliest`, `SendReport.CyclesPooled` and `SendReport.TotalsOrderFree` |
| SendReport.Outcome | send_pr_report.py:134-251 | `None` when `get_all_repos()` finds no repository, otherwise the summarised reduction. It is stated by `SendReport.Run` and `SendReport.SnapshotFigures` |
| SendReport.TotalsAddUp | send_pr_report.py:159-192 | each total is the sum of every fetched repository's count, and a failed repository adds nothing |
| SendReport.TotalsOrderFree | send_pr_report.py:147-192 | the totals are the same for any order of the repository list |
| SendReport.TrackOldest | send_pr_report.py:186-187 | the in-loop running minimum computes `Earliest` |
| SendReport.ProcessRepo | send_pr_report.py:148-230 | the loop body for a fetched repository performs one step of the reduction |
| SendReport.Run | send_pr_report.py:129-251 | `main()` yields nothing when there are no repositories; otherwise it summarises the reduction over them |
| AllReposSnapshot.RowsMatchTotals | pr_all_repos_daily_snapshot.py:88-183 | after the repository loop the member rows sum to the four member-related totals |
| AllReposSnapshot.FailedRepoIgnored | pr_all_repos_daily_snapshot.py:91-96 | a repository whose fetch raised changes nothing, and the loop carries on after it |
| AllReposSnapshot.OldestIsEarliest | pr_all_repos_daily_snapshot.py:136-141 | with well-formed timestamps, `oldest_open_date` ends as the earliest open creation instant, or `None` |
| AllReposSnapshot.AgreesWithSend | pr_all_repos_daily_snapshot.py:136-141 | with well-formed timestamps, this script's repository loop reaches the same state as `send_pr_report.py`'s |
| AllReposSnapshot.Reduce | pr_all_repos_daily_snapshot.py:88-183 | the state after the repository loop. It is stated by `AllReposSnapshot.RowsMatchTotals`, `AllReposSnapshot.FailedRepoIgnored`, `AllReposSnapshot.OldestIsEarliest`, `AllReposSnapshot.AgreesWithSend` and `AllReposSnapshot.TotalsOrderFree` |
| AllReposSnapshot.TotalsAddUp | pr_all_repos_daily_snapshot.py:88-183 | each total is the sum of every fetched repository's count, and a failed repository adds nothing |
| AllReposSnapshot.TotalsOrderFree | pr_all_repos_daily_snapshot.py:88-183 | the totals are the same for any order of the repository list |
| AllReposSnapshot.TrackOldest | pr_all_repos_daily_snapshot.py:137-141 | the per-repository update of `oldest_open_date` computes `RawOldestStep` |
| AllReposSnapshot.ProcessRepo | pr_all_repos_daily_snapshot.py:89-183 | the loop body for a fetched repository performs one step of the reduction |
| AllReposSnapshot.Run | pr_all_repos_daily_snapshot.py:61-215 | `main()` yields nothing when there are no repositories; otherwise it summarises the reduction over them |
| DailyReport.OldestDaysIsEarliest | pr_daily_report.py:122-126 | with well-formed timestamps, the oldest age counts the whole days since the earliest creation instant |
| DailyReport.TopMember | pr_daily_report.py:184-185 | no members give `"-"` |
| DailyReport.OwnerList | pr_daily_report.py:186-187 | no owners give `"-"` |
| DailyReport.SortIsPermutation | pr_daily_report.py:205 | the sorted member table holds the same entries, each as often |
| DailyReport.SortIsOrdered | pr_daily_report.py:205 | the sorted table lists members by raised, largest first |
| DailyReport.SortIsStable | pr_daily_report.py:205 | members with the same raised count keep their insertion order |
| DailyReport.SortKeepsSums | pr_daily_report.py:205 | sorting changes no counter's sum |
| DailyReport.SortByRaised | pr_daily_report.py:205 | `sorted(members.items(), key=raised, reverse=True)`. Its contract is carried by `DailyReport.SortIsPermutation`, `DailyReport.SortIsOrdered` and `DailyReport.SortIsStable` |
| DailyReport.TableMatchesCounts | pr_daily_report.py:132-172 | the member table sums to the raised, merged, changes-requested and not-approved counts, is ordered by raised, and members with equal raised counts keep their dictionary order |
| DailyReport.Snapshot | pr_daily_report.py:76-187 | the single-repository snapshot. It is stated by `DailyReport.TableMatchesCounts`, `DailyReport.CyclesOverMergedToday` and `DailyReport.OwnerListsIff` |
| DailyReport.CyclesOverMergedToday | pr_daily_report.py:58-70 | every pull request merged today has a merge time, so the average runs over all of them, and is 0 when there are none |
| DailyReport.OwnerListsIff | pr_daily_report.py:186-187 | the stale and blocker lists name exactly the authors of open pull requests older than 7 days, and of hotfix/critical ones |
| DailyReport.ChangesRequestedPrs | pr_daily_report.py:95-99 | the loop keeps the open pull requests with some `changes_requested` review |
| DailyReport.NotApprovedPrs | pr_daily_report.py:102-107 | the loop keeps the open pull requests without an `approved` review |
| DailyReport.PendingReviewPrs | pr_daily_report.py:113-119 | the loop keeps the open pull requests older than 24 hours without reviews |
| DailyReport.AverageReviewTime | pr_daily_report.py:58-70 | the loop sums `merged - created` over the pull requests with a `merged_at` and counts them |
| DailyReport.CycleStep | pr_daily_report.py:61-67 | one more pull request adds its cycle time and one to the count iff it has a `merged_at` |
| DailyReport.Run | pr_daily_report.py:76-187 | `main()` computes the snapshot of the repository |
| Text.SortedUnique | send_pr_report.py:247 | `sorted(set(xs))` is strictly ascending and holds exactly the elements of `xs` |
| Text.SortedIsUnique | send_pr_report.py:247 | a strictly ascending sequence is determined by its elements, so `sorted` of a set is well defined |
| Text.SortSet | send_pr_report.py:247 | sorting the set gives a strictly ascending sequence of its elements |
| Text.Distinct | pr_daily_report.py:186 | de-duplication keeps exactly the elements and repeats none |
| Text.JoinEmpty | pr_daily_report.py:186-187 | `", ".join(parts)` is empty, so `or "-"` applies, iff there are no parts or one empty part |

## Left out

- The HTTP layer is not modelled: `get_all_repos`, `get_prs`, `get_reviews`, pagination, the token and headers, and the webhook post. Their results are inputs. A `get_prs` failure is `Failed`, and a 404 from `get_reviews` is a missing lookup key.
- In `send_pr_report.py` and `pr_all_repos_daily_snapshot.py`, a `get_reviews` failure other than a 404 raises outside the `try` that guards `get_prs` (send_pr_report.py:57, called at lines 168 and 214; pr_all_repos_daily_snapshot.py:58, called at lines 110 and 166). That aborts the whole run. `Failed` models only a `get_prs` failure, so this abort has no counterpart in the model.
- `pr_daily_report.py` raises on any failed request, including a 404 from `get_reviews`, and then the run aborts. The model has no error path for this.
- Each pull request's reviews come from one lookup. When a script calls `get_reviews` twice for the same pull request, both calls are taken to return the same reviews.
- `print`, environment variables, the markdown renderers and the report strings are not modelled. Only the values they render are. `chekgit.py` is not part of this model.
- The average review time is kept as its total in seconds and its count. The float division by 3600 and `round(..., 2)` are not modelled.
- `str.lower()` is ASCII case folding only.
- `Timestamps.Parse` accepts only the canonical `YYYY-MM-DDTHH:MM:SSZ` form: upper-case `T` and `Z`, ASCII digits and zero-padded fields. `strptime` also accepts non-padded fields, a lower-case `t` or `z` (it matches literals ignoring case) and non-ASCII decimal digits. Those texts are `None` in the model.
- On texts of that wider kind the raw-text minimum that `pr_all_repos_daily_snapshot.py` takes (lines 136-139) can differ from the earliest instant. For example, `t` sorts after `T`. `AllReposSnapshot.OldestIsEarliest` and `AllReposSnapshot.AgreesWithSend` therefore require every open stamp to be consistent with `Parse`.
- A malformed timestamp makes the scripts raise. The model takes the parsed instant as given, and requires it to match the text only in the lemmas that say so.
- `reopened_failed` is the constant 0. `blocker_owners` is `"-"` in the two multi-repository scripts.
- `DailyReport.OwnerList`: Python's `set` has no defined iteration order. The model joins the distinct owners in order of first occurrence, and states only membership and the `"-"` case.
- `DailyReport.TopMember`: its own contract states only the empty case. Which member wins is given by `Aggregate.FirstMax`'s contract (the first of the largest in dictionary order), and that order by `Members.MembersOrder`.
- `Aggregate.Leader`: its own contract states only the empty case. Which row wins is given by `Aggregate.FirstMax`'s contract (the first of the largest in row order), and the row order within a repository by `Aggregate.ContributionRows`.
- `Aggregate.OwnersText`: its own contract states only the empty case. That the text joins the distinct owners in ascending order comes from `Text.SortedUnique`.
- `Classify.ClassifyOpen`: the per-pull-request tests are a parameter. The scripts always pass `TestsOf(now, lookup)`, which `Classify.Tests` ties to the comprehension tests.
