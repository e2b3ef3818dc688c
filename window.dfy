/**
 * The window filter: which pull requests were raised today and which were merged today,
 * for a fixed `today_start` (the UTC midnight of the run's `now`).
 */
module Window {
  import opened Wrappers
  import opened Records

  function CreatedSince(todayStart: int): Pr -> bool {
    (pr: Pr) => pr.created.instant >= todayStart
  }

  function MergedSince(todayStart: int): Pr -> bool {
    (pr: Pr) => HasMerge(pr) && pr.merged.value.instant >= todayStart
  }

  /** `[pr for pr in open_prs + closed_prs if iso_to_dt(pr["created_at"]) >= today_start]`. */
  function RaisedToday(todayStart: int, open: seq<Pr>, closed: seq<Pr>): seq<Pr> {
    Filter(open + closed, CreatedSince(todayStart))
  }

  /** `[pr for pr in closed_prs if pr.get("merged_at") and iso_to_dt(pr["merged_at"]) >= today_start]`. */
  function MergedToday(todayStart: int, closed: seq<Pr>): seq<Pr> {
    Filter(closed, MergedSince(todayStart))
  }

  /** Raised today: open or closed, created at or after the start of today (the bound is inclusive). */
  lemma RaisedTodayIff(todayStart: int, open: seq<Pr>, closed: seq<Pr>, pr: Pr)
    ensures pr in RaisedToday(todayStart, open, closed)
        <==> (pr in open || pr in closed) && pr.created.instant >= todayStart
  {
    FilterMembers(open + closed, CreatedSince(todayStart), pr);
  }

  /** Merged today: closed, with a merge time at or after the start of today; open pull requests never count. */
  lemma MergedTodayIff(todayStart: int, closed: seq<Pr>, pr: Pr)
    ensures pr in MergedToday(todayStart, closed)
        <==> pr in closed && HasMerge(pr) && pr.merged.value.instant >= todayStart
  {
    FilterMembers(closed, MergedSince(todayStart), pr);
  }

  /** Open and closed lists contribute separately: a pull request is counted once per list it appears in. */
  lemma RaisedTodaySplits(todayStart: int, open: seq<Pr>, closed: seq<Pr>)
    ensures RaisedToday(todayStart, open, closed)
         == Filter(open, CreatedSince(todayStart)) + Filter(closed, CreatedSince(todayStart))
  {
    FilterAppend(open, closed, CreatedSince(todayStart));
  }
}
