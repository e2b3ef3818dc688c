/**
 * Per-repository member accumulation: the insertion-ordered `members` dictionary
 * (`defaultdict` of five counters keyed by login), the `reviews_done_map` counter and the
 * step that copies the latter into the former. Dictionaries are association lists in
 * insertion order; a login appears at most once.
 */
module Members {
  import opened Text
  import opened Records

  datatype Field = Raised | Merged | ChangesRequestedCount | NotApprovedCount | ReviewsDone

  /** One login's counters: `{"raised": 0, "merged": 0, "changes_requested": 0, "not_approved": 0, "reviews_done": 0}`. */
  datatype Stat = Stat(login: string, raised: nat, merged: nat, changesRequested: nat,
                       notApproved: nat, reviewsDone: nat)

  /** What `members[login]` creates on first access. */
  function Fresh(login: string): Stat {
    Stat(login, 0, 0, 0, 0, 0)
  }

  function Get(s: Stat, f: Field): nat {
    match f
    case Raised => s.raised
    case Merged => s.merged
    case ChangesRequestedCount => s.changesRequested
    case NotApprovedCount => s.notApproved
    case ReviewsDone => s.reviewsDone
  }

  /** `s[f] += n`. */
  function Add(s: Stat, f: Field, n: nat): (r: Stat)
    ensures r.login == s.login
  {
    match f
    case Raised => s.(raised := s.raised + n)
    case Merged => s.(merged := s.merged + n)
    case ChangesRequestedCount => s.(changesRequested := s.changesRequested + n)
    case NotApprovedCount => s.(notApproved := s.notApproved + n)
    case ReviewsDone => s.(reviewsDone := s.reviewsDone + n)
  }

  /** Adding to counter `f` changes that counter by `n` and no other. */
  lemma AddGet(s: Stat, f: Field, n: nat, g: Field)
    ensures Get(Add(s, f, n), g) == Get(s, g) + (if g == f then n else 0)
  {
  }

  /** The logins that have an entry. */
  function Keys(table: seq<Stat>): set<string> {
    if table == [] then {} else {table[0].login} + Keys(table[1..])
  }

  /** No login has two entries. */
  predicate UniqueLogins(table: seq<Stat>) {
    table == [] || (table[0].login !in Keys(table[1..]) && UniqueLogins(table[1..]))
  }

  /** The logins of the entries, in table order (the order of `members.items()`). */
  function Logins(table: seq<Stat>): seq<string> {
    if table == [] then [] else [table[0].login] + Logins(table[1..])
  }

  /** The counters of `login`: its entry, or fresh zero counters when it has none. */
  function Lookup(table: seq<Stat>, login: string): (s: Stat)
    ensures s.login == login
    ensures login !in Keys(table) ==> s == Fresh(login)
  {
    if table == [] then Fresh(login)
    else if table[0].login == login then table[0]
    else Lookup(table[1..], login)
  }

  /** In a table without repeated logins, each entry is what `Lookup` finds for its login. */
  lemma {:induction false} LookupEntry(table: seq<Stat>, i: int)
    requires UniqueLogins(table) && 0 <= i < |table|
    ensures Lookup(table, table[i].login) == table[i]
  {
    if i > 0 {
      LookupEntry(table[1..], i - 1);
      assert table[i] == table[1..][i - 1];
      KeysHasEntries(table[1..], i - 1);
    }
  }

  lemma {:induction false} KeysHasEntries(table: seq<Stat>, i: int)
    requires 0 <= i < |table|
    ensures table[i].login in Keys(table)
  {
    if i > 0 {
      KeysHasEntries(table[1..], i - 1);
    }
  }

  /** The sum of one counter over all entries. */
  function Sum(table: seq<Stat>, f: Field): nat {
    if table == [] then 0 else Get(table[0], f) + Sum(table[1..], f)
  }

  lemma {:induction false} SumAppend(a: seq<Stat>, b: seq<Stat>, f: Field)
    ensures Sum(a + b, f) == Sum(a, f) + Sum(b, f)
  {
    if a != [] {
      assert (a + b)[1..] == a[1..] + b;
      SumAppend(a[1..], b, f);
    } else {
      assert a + b == b;
    }
  }

  /** `members[login][f] += 1`: the entry of `login` gains one, a new login is appended with fresh counters. */
  function Bump(table: seq<Stat>, login: string, f: Field): seq<Stat> {
    if table == [] then [Add(Fresh(login), f, 1)]
    else if table[0].login == login then [Add(table[0], f, 1)] + table[1..]
    else [table[0]] + Bump(table[1..], login, f)
  }

  /** Only the entry of `login` changes, and it gains one on counter `f`. */
  lemma {:induction false} BumpLookup(table: seq<Stat>, login: string, f: Field, x: string)
    ensures Lookup(Bump(table, login, f), x) == if x == login then Add(Lookup(table, x), f, 1) else Lookup(table, x)
  {
    var r := Bump(table, login, f);
    if table == [] {
      assert r[1..] == [];
    } else if table[0].login == login {
      assert r[1..] == table[1..];
    } else {
      assert r[1..] == Bump(table[1..], login, f);
      BumpLookup(table[1..], login, f, x);
    }
  }

  lemma {:induction false} BumpKeys(table: seq<Stat>, login: string, f: Field)
    ensures Keys(Bump(table, login, f)) == Keys(table) + {login}
  {
    var r := Bump(table, login, f);
    if table == [] {
      assert r[1..] == [];
    } else if table[0].login == login {
      assert r[1..] == table[1..];
    } else {
      assert r[1..] == Bump(table[1..], login, f);
      BumpKeys(table[1..], login, f);
    }
  }

  lemma {:induction false} BumpUnique(table: seq<Stat>, login: string, f: Field)
    requires UniqueLogins(table)
    ensures UniqueLogins(Bump(table, login, f))
  {
    var r := Bump(table, login, f);
    if table == [] {
      assert r[1..] == [];
    } else if table[0].login == login {
      assert r[1..] == table[1..];
    } else {
      assert r[1..] == Bump(table[1..], login, f);
      BumpKeys(table[1..], login, f);
      BumpUnique(table[1..], login, f);
    }
  }

  /** The sum of counter `f` grows by one, the other sums do not change. */
  lemma {:induction false} BumpSum(table: seq<Stat>, login: string, f: Field, g: Field)
    ensures Sum(Bump(table, login, f), g) == Sum(table, g) + (if g == f then 1 else 0)
  {
    var r := Bump(table, login, f);
    assert Sum(r, g) == Get(r[0], g) + Sum(r[1..], g);
    if table == [] {
      assert r[1..] == [];
      AddGet(Fresh(login), f, 1, g);
    } else {
      assert Sum(table, g) == Get(table[0], g) + Sum(table[1..], g);
      if table[0].login == login {
        assert r[1..] == table[1..];
        AddGet(table[0], f, 1, g);
      } else {
        assert r[0] == table[0];
        assert r[1..] == Bump(table[1..], login, f);
        BumpSum(table[1..], login, f, g);
      }
    }
  }

  /** A login seen for the first time goes to the end of the table; otherwise the order is kept. */
  lemma {:induction false} BumpOrder(table: seq<Stat>, login: string, f: Field)
    ensures Logins(Bump(table, login, f)) == if login in Logins(table) then Logins(table) else Logins(table) + [login]
  {
    var r := Bump(table, login, f);
    if table == [] {
      assert r[1..] == [];
    } else if table[0].login == login {
      assert r[1..] == table[1..];
    } else {
      assert r[1..] == Bump(table[1..], login, f);
      BumpOrder(table[1..], login, f);
      assert login in Logins(table) <==> login in Logins(table[1..]);
    }
  }

  /** `for pr in prs: members[pr["user"]["login"]][f] += 1`. */
  function BumpAll(table: seq<Stat>, prs: seq<Pr>, f: Field): seq<Stat>
    decreases |prs|
  {
    if prs == [] then table else BumpAll(Bump(table, prs[0].author, f), prs[1..], f)
  }

  lemma AddAdd(s: Stat, f: Field, a: nat, b: nat)
    ensures Add(Add(s, f, a), f, b) == Add(s, f, a + b)
    ensures Add(s, f, 0) == s
  {
    match f
    case Raised =>
    case Merged =>
    case ChangesRequestedCount =>
    case NotApprovedCount =>
    case ReviewsDone =>
  }

  /** The authors of a non-empty list: the first author, then the authors of the rest. */
  lemma AuthorsCons(prs: seq<Pr>, x: string)
    requires prs != []
    ensures Authors(prs) == [prs[0].author] + Authors(prs[1..])
    ensures multiset(Authors(prs))[x] == (if prs[0].author == x then 1 else 0) + multiset(Authors(prs[1..]))[x]
  {
    assert Authors(prs) == [prs[0].author] + Authors(prs[1..]);
  }

  /** Each login's counter `f` grows by the number of pull requests it authored in `prs`. */
  lemma {:induction false} BumpAllLookup(table: seq<Stat>, prs: seq<Pr>, f: Field, x: string)
    decreases |prs|
    ensures Lookup(BumpAll(table, prs, f), x) == Add(Lookup(table, x), f, multiset(Authors(prs))[x])
  {
    var s := Lookup(table, x);
    if prs == [] {
      AddAdd(s, f, 0, 0);
    } else {
      var t := Bump(table, prs[0].author, f);
      var n := multiset(Authors(prs[1..]))[x];
      BumpAllLookup(t, prs[1..], f, x);
      BumpLookup(table, prs[0].author, f, x);
      AuthorsCons(prs, x);
      if prs[0].author == x {
        AddAdd(s, f, 1, n);
      } else {
        assert Lookup(t, x) == s;
      }
    }
  }

  lemma {:induction false} BumpAllKeys(table: seq<Stat>, prs: seq<Pr>, f: Field)
    decreases |prs|
    ensures Keys(BumpAll(table, prs, f)) == Keys(table) + Elems(Authors(prs))
  {
    if prs == [] {
      ElemsEmpty(Authors(prs));
    } else {
      var t := Bump(table, prs[0].author, f);
      BumpKeys(table, prs[0].author, f);
      BumpAllKeys(t, prs[1..], f);
      assert Authors(prs) == [prs[0].author] + Authors(prs[1..]);
      ElemsAppend([prs[0].author], Authors(prs[1..]));
      assert Elems([prs[0].author]) == {prs[0].author};
    }
  }

  lemma {:induction false} BumpAllUnique(table: seq<Stat>, prs: seq<Pr>, f: Field)
    requires UniqueLogins(table)
    decreases |prs|
    ensures UniqueLogins(BumpAll(table, prs, f))
  {
    if prs != [] {
      BumpUnique(table, prs[0].author, f);
      BumpAllUnique(Bump(table, prs[0].author, f), prs[1..], f);
    }
  }

  /** The sum of counter `f` grows by the number of pull requests, the other sums do not change. */
  lemma {:induction false} BumpAllSum(table: seq<Stat>, prs: seq<Pr>, f: Field, g: Field)
    decreases |prs|
    ensures Sum(BumpAll(table, prs, f), g) == Sum(table, g) + (if g == f then |prs| else 0)
  {
    if prs != [] {
      BumpSum(table, prs[0].author, f, g);
      BumpAllSum(Bump(table, prs[0].author, f), prs[1..], f, g);
    }
  }

  /** After a counting loop the authors of `prs` not yet members follow the existing logins, in the order they are first met. */
  lemma {:induction false} BumpAllOrder(table: seq<Stat>, prs: seq<Pr>, f: Field)
    decreases |prs|
    ensures Logins(BumpAll(table, prs, f)) == Extend(Logins(table), Authors(prs))
  {
    if prs != [] {
      var a := prs[0].author;
      BumpOrder(table, a, f);
      BumpAllOrder(Bump(table, a, f), prs[1..], f);
      var authors := Authors(prs);
      assert authors[0] == a && authors[1..] == Authors(prs[1..]);
    }
  }

  // ---- reviews_done_map ----

  /** One entry of `reviews_done_map`, a `defaultdict(int)`. */
  datatype Tally = Tally(login: string, count: nat)

  function TallyKeys(tally: seq<Tally>): set<string> {
    if tally == [] then {} else {tally[0].login} + TallyKeys(tally[1..])
  }

  /** The logins of the tally, in the order of `reviews_done_map.items()`. */
  function TallyLogins(tally: seq<Tally>): seq<string> {
    if tally == [] then [] else [tally[0].login] + TallyLogins(tally[1..])
  }

  predicate UniqueTally(tally: seq<Tally>) {
    tally == [] || (tally[0].login !in TallyKeys(tally[1..]) && UniqueTally(tally[1..]))
  }

  /** `reviews_done_map[login]`: 0 for a login with no entry. */
  function CountOf(tally: seq<Tally>, login: string): nat {
    if tally == [] then 0
    else if tally[0].login == login then tally[0].count
    else CountOf(tally[1..], login)
  }

  /** `reviews_done_map[login] += 1`. */
  function Tick(tally: seq<Tally>, login: string): seq<Tally> {
    if tally == [] then [Tally(login, 1)]
    else if tally[0].login == login then [Tally(login, tally[0].count + 1)] + tally[1..]
    else [tally[0]] + Tick(tally[1..], login)
  }

  /** Only the count of `login` changes, and it grows by one. */
  lemma {:induction false} TickCount(tally: seq<Tally>, login: string, x: string)
    ensures CountOf(Tick(tally, login), x) == CountOf(tally, x) + (if x == login then 1 else 0)
  {
    var r := Tick(tally, login);
    if tally == [] {
      assert r[1..] == [];
    } else if tally[0].login == login {
      assert r[1..] == tally[1..];
    } else {
      assert r[1..] == Tick(tally[1..], login);
      TickCount(tally[1..], login, x);
    }
  }

  lemma {:induction false} TickKeys(tally: seq<Tally>, login: string)
    ensures TallyKeys(Tick(tally, login)) == TallyKeys(tally) + {login}
  {
    var r := Tick(tally, login);
    if tally == [] {
      assert r[1..] == [];
    } else if tally[0].login == login {
      assert r[1..] == tally[1..];
    } else {
      assert r[1..] == Tick(tally[1..], login);
      TickKeys(tally[1..], login);
    }
  }

  lemma {:induction false} TickUnique(tally: seq<Tally>, login: string)
    requires UniqueTally(tally)
    ensures UniqueTally(Tick(tally, login))
  {
    var r := Tick(tally, login);
    if tally == [] {
      assert r[1..] == [];
    } else if tally[0].login == login {
      assert r[1..] == tally[1..];
    } else {
      assert r[1..] == Tick(tally[1..], login);
      TickKeys(tally[1..], login);
      TickUnique(tally[1..], login);
    }
  }

  /** A reviewer seen for the first time goes to the end of the tally; otherwise the order is kept. */
  lemma {:induction false} TickOrder(tally: seq<Tally>, login: string)
    ensures TallyLogins(Tick(tally, login)) == if login in TallyLogins(tally) then TallyLogins(tally) else TallyLogins(tally) + [login]
  {
    var r := Tick(tally, login);
    if tally == [] {
      assert r[1..] == [];
    } else if tally[0].login == login {
      assert r[1..] == tally[1..];
    } else {
      assert r[1..] == Tick(tally[1..], login);
      TickOrder(tally[1..], login);
      assert login in TallyLogins(tally) <==> login in TallyLogins(tally[1..]);
    }
  }

  /** `[r["user"]["login"] for r in reviews]`. */
  function ReviewerLogins(reviews: seq<Review>): (r: seq<string>)
    ensures |r| == |reviews|
    ensures forall i :: 0 <= i < |reviews| ==> r[i] == reviews[i].reviewer
  {
    seq(|reviews|, i requires 0 <= i < |reviews| => reviews[i].reviewer)
  }

  /** Every reviewer login on the reviews of the pull requests `ids`, in the order they are visited. */
  function Reviewers(lookup: ReviewLookup, ids: seq<int>): seq<string> {
    if ids == [] then [] else ReviewerLogins(ReviewsOf(lookup, ids[0])) + Reviewers(lookup, ids[1..])
  }

  /** `for r in reviews: reviews_done_map[r["user"]["login"]] += 1`. */
  function TickReviews(tally: seq<Tally>, reviews: seq<Review>): seq<Tally>
    decreases |reviews|
  {
    if reviews == [] then tally else TickReviews(Tick(tally, reviews[0].reviewer), reviews[1..])
  }

  /** Each login's count grows by the number of reviews it wrote. */
  lemma {:induction false} TickReviewsCount(tally: seq<Tally>, reviews: seq<Review>, x: string)
    decreases |reviews|
    ensures CountOf(TickReviews(tally, reviews), x) == CountOf(tally, x) + multiset(ReviewerLogins(reviews))[x]
  {
    if reviews != [] {
      TickCount(tally, reviews[0].reviewer, x);
      TickReviewsCount(Tick(tally, reviews[0].reviewer), reviews[1..], x);
      assert ReviewerLogins(reviews) == [reviews[0].reviewer] + ReviewerLogins(reviews[1..]);
    }
  }

  lemma {:induction false} TickReviewsKeys(tally: seq<Tally>, reviews: seq<Review>)
    decreases |reviews|
    ensures TallyKeys(TickReviews(tally, reviews)) == TallyKeys(tally) + Elems(ReviewerLogins(reviews))
  {
    if reviews == [] {
      ElemsEmpty(ReviewerLogins(reviews));
    } else {
      TickKeys(tally, reviews[0].reviewer);
      TickReviewsKeys(Tick(tally, reviews[0].reviewer), reviews[1..]);
      assert ReviewerLogins(reviews) == [reviews[0].reviewer] + ReviewerLogins(reviews[1..]);
      ElemsAppend([reviews[0].reviewer], ReviewerLogins(reviews[1..]));
      assert Elems([reviews[0].reviewer]) == {reviews[0].reviewer};
    }
  }

  lemma {:induction false} TickReviewsUnique(tally: seq<Tally>, reviews: seq<Review>)
    requires UniqueTally(tally)
    decreases |reviews|
    ensures UniqueTally(TickReviews(tally, reviews))
  {
    if reviews != [] {
      TickUnique(tally, reviews[0].reviewer);
      TickReviewsUnique(Tick(tally, reviews[0].reviewer), reviews[1..]);
    }
  }

  lemma {:induction false} TickReviewsOrder(tally: seq<Tally>, reviews: seq<Review>)
    decreases |reviews|
    ensures TallyLogins(TickReviews(tally, reviews)) == Extend(TallyLogins(tally), ReviewerLogins(reviews))
  {
    if reviews != [] {
      var x := reviews[0].reviewer;
      TickOrder(tally, x);
      TickReviewsOrder(Tick(tally, x), reviews[1..]);
      var logins := ReviewerLogins(reviews);
      assert logins[0] == x && logins[1..] == ReviewerLogins(reviews[1..]);
    }
  }

  /** `for pr_id in ids: for r in get_reviews(owner, repo_name, pr_id): reviews_done_map[...] += 1`. */
  function TickAll(tally: seq<Tally>, lookup: ReviewLookup, ids: seq<int>): seq<Tally>
    decreases |ids|
  {
    if ids == [] then tally
    else TickAll(TickReviews(tally, ReviewsOf(lookup, ids[0])), lookup, ids[1..])
  }

  /** Each login's count grows by the number of reviews it wrote on the pull requests `ids`. */
  lemma {:induction false} TickAllCount(tally: seq<Tally>, lookup: ReviewLookup, ids: seq<int>, x: string)
    decreases |ids|
    ensures CountOf(TickAll(tally, lookup, ids), x) == CountOf(tally, x) + multiset(Reviewers(lookup, ids))[x]
  {
    if ids != [] {
      var reviews := ReviewsOf(lookup, ids[0]);
      TickReviewsCount(tally, reviews, x);
      TickAllCount(TickReviews(tally, reviews), lookup, ids[1..], x);
    }
  }

  lemma {:induction false} TickAllKeys(tally: seq<Tally>, lookup: ReviewLookup, ids: seq<int>)
    decreases |ids|
    ensures TallyKeys(TickAll(tally, lookup, ids)) == TallyKeys(tally) + Elems(Reviewers(lookup, ids))
  {
    if ids == [] {
      ElemsEmpty(Reviewers(lookup, ids));
    } else {
      var reviews := ReviewsOf(lookup, ids[0]);
      TickReviewsKeys(tally, reviews);
      TickAllKeys(TickReviews(tally, reviews), lookup, ids[1..]);
      ElemsAppend(ReviewerLogins(reviews), Reviewers(lookup, ids[1..]));
    }
  }

  lemma {:induction false} TickAllUnique(tally: seq<Tally>, lookup: ReviewLookup, ids: seq<int>)
    requires UniqueTally(tally)
    decreases |ids|
    ensures UniqueTally(TickAll(tally, lookup, ids))
  {
    if ids != [] {
      var reviews := ReviewsOf(lookup, ids[0]);
      TickReviewsUnique(tally, reviews);
      TickAllUnique(TickReviews(tally, reviews), lookup, ids[1..]);
    }
  }

  /** The tally lists the reviewers of `ids` not yet counted, in the order they are first met. */
  lemma {:induction false} TickAllOrder(tally: seq<Tally>, lookup: ReviewLookup, ids: seq<int>)
    decreases |ids|
    ensures TallyLogins(TickAll(tally, lookup, ids)) == Extend(TallyLogins(tally), Reviewers(lookup, ids))
  {
    if ids != [] {
      var reviews := ReviewsOf(lookup, ids[0]);
      TickReviewsOrder(tally, reviews);
      TickAllOrder(TickReviews(tally, reviews), lookup, ids[1..]);
      ExtendAppend(TallyLogins(tally), ReviewerLogins(reviews), Reviewers(lookup, ids[1..]));
    }
  }

  // ---- copying reviews_done_map into members ----

  /** `members[user]["reviews_done"] = count`. */
  function SetReviews(table: seq<Stat>, login: string, count: nat): seq<Stat> {
    if table == [] then [Fresh(login).(reviewsDone := count)]
    else if table[0].login == login then [table[0].(reviewsDone := count)] + table[1..]
    else [table[0]] + SetReviews(table[1..], login, count)
  }

  /** Only the entry of `login` changes, and only its reviews-done counter, which becomes `count`. */
  lemma {:induction false} SetReviewsLookup(table: seq<Stat>, login: string, count: nat, x: string)
    ensures Lookup(SetReviews(table, login, count), x)
         == if x == login then Lookup(table, x).(reviewsDone := count) else Lookup(table, x)
  {
    var r := SetReviews(table, login, count);
    if table == [] {
      assert r[1..] == [];
    } else if table[0].login == login {
      assert r[1..] == table[1..];
    } else {
      assert r[1..] == SetReviews(table[1..], login, count);
      SetReviewsLookup(table[1..], login, count, x);
    }
  }

  lemma {:induction false} SetReviewsKeys(table: seq<Stat>, login: string, count: nat)
    ensures Keys(SetReviews(table, login, count)) == Keys(table) + {login}
  {
    var r := SetReviews(table, login, count);
    if table == [] {
      assert r[1..] == [];
    } else if table[0].login == login {
      assert r[1..] == table[1..];
    } else {
      assert r[1..] == SetReviews(table[1..], login, count);
      SetReviewsKeys(table[1..], login, count);
    }
  }

  lemma {:induction false} SetReviewsUnique(table: seq<Stat>, login: string, count: nat)
    requires UniqueLogins(table)
    ensures UniqueLogins(SetReviews(table, login, count))
  {
    var r := SetReviews(table, login, count);
    if table == [] {
      assert r[1..] == [];
    } else if table[0].login == login {
      assert r[1..] == table[1..];
    } else {
      assert r[1..] == SetReviews(table[1..], login, count);
      SetReviewsKeys(table[1..], login, count);
      SetReviewsUnique(table[1..], login, count);
    }
  }

  /** A login not yet in the table goes to the end; otherwise the order is kept. */
  lemma {:induction false} SetReviewsOrder(table: seq<Stat>, login: string, count: nat)
    ensures Logins(SetReviews(table, login, count))
         == if login in Logins(table) then Logins(table) else Logins(table) + [login]
  {
    var r := SetReviews(table, login, count);
    if table == [] {
      assert r[1..] == [];
    } else if table[0].login == login {
      assert r[1..] == table[1..];
    } else {
      assert r[1..] == SetReviews(table[1..], login, count);
      SetReviewsOrder(table[1..], login, count);
      assert login in Logins(table) <==> login in Logins(table[1..]);
    }
  }

  /** Setting reviews done leaves the sums of the four pull-request counters alone. */
  lemma {:induction false} SetReviewsSum(table: seq<Stat>, login: string, count: nat, g: Field)
    requires g != ReviewsDone
    ensures Sum(SetReviews(table, login, count), g) == Sum(table, g)
  {
    var r := SetReviews(table, login, count);
    if table == [] {
      assert r[1..] == [];
    } else if table[0].login == login {
      assert r[1..] == table[1..];
    } else {
      assert r[1..] == SetReviews(table[1..], login, count);
      SetReviewsSum(table[1..], login, count, g);
    }
  }

  /** `for user, count_r in reviews_done_map.items(): members[user]["reviews_done"] = count_r`. */
  function ApplyReviews(table: seq<Stat>, tally: seq<Tally>): seq<Stat>
    decreases |tally|
  {
    if tally == [] then table
    else ApplyReviews(SetReviews(table, tally[0].login, tally[0].count), tally[1..])
  }

  /** A login counted in the tally gets that count as reviews done; every other counter is kept. */
  lemma {:induction false} ApplyReviewsLookup(table: seq<Stat>, tally: seq<Tally>, x: string)
    requires UniqueTally(tally)
    decreases |tally|
    ensures Lookup(ApplyReviews(table, tally), x)
         == if x in TallyKeys(tally) then Lookup(table, x).(reviewsDone := CountOf(tally, x)) else Lookup(table, x)
  {
    if tally != [] {
      SetReviewsLookup(table, tally[0].login, tally[0].count, x);
      ApplyReviewsLookup(SetReviews(table, tally[0].login, tally[0].count), tally[1..], x);
    }
  }

  lemma {:induction false} ApplyReviewsKeys(table: seq<Stat>, tally: seq<Tally>)
    decreases |tally|
    ensures Keys(ApplyReviews(table, tally)) == Keys(table) + TallyKeys(tally)
  {
    if tally != [] {
      SetReviewsKeys(table, tally[0].login, tally[0].count);
      ApplyReviewsKeys(SetReviews(table, tally[0].login, tally[0].count), tally[1..]);
    }
  }

  lemma {:induction false} ApplyReviewsUnique(table: seq<Stat>, tally: seq<Tally>)
    requires UniqueLogins(table)
    decreases |tally|
    ensures UniqueLogins(ApplyReviews(table, tally))
  {
    if tally != [] {
      SetReviewsUnique(table, tally[0].login, tally[0].count);
      ApplyReviewsUnique(SetReviews(table, tally[0].login, tally[0].count), tally[1..]);
    }
  }

  lemma {:induction false} ApplyReviewsSum(table: seq<Stat>, tally: seq<Tally>, g: Field)
    requires g != ReviewsDone
    decreases |tally|
    ensures Sum(ApplyReviews(table, tally), g) == Sum(table, g)
  {
    if tally != [] {
      SetReviewsSum(table, tally[0].login, tally[0].count, g);
      ApplyReviewsSum(SetReviews(table, tally[0].login, tally[0].count), tally[1..], g);
    }
  }

  /** Copying the tally appends its logins not yet members to the table, in the tally's order. */
  lemma {:induction false} ApplyReviewsOrder(table: seq<Stat>, tally: seq<Tally>)
    decreases |tally|
    ensures Logins(ApplyReviews(table, tally)) == Extend(Logins(table), TallyLogins(tally))
  {
    if tally != [] {
      SetReviewsOrder(table, tally[0].login, tally[0].count);
      ApplyReviewsOrder(SetReviews(table, tally[0].login, tally[0].count), tally[1..]);
    }
  }

  /**
   * The `members` dictionary of one repository after the four counting loops (over the
   * raised-today, merged-today, changes-requested and not-approved lists) and the
   * reviews-done step over the pull requests `ids`.
   */
  function MemberTable(raised: seq<Pr>, merged: seq<Pr>, changesRequested: seq<Pr>, notApproved: seq<Pr>,
                   lookup: ReviewLookup, ids: seq<int>): seq<Stat>
  {
    ApplyReviews(Counted(raised, merged, changesRequested, notApproved), TickAll([], lookup, ids))
  }

  /** The table after the four counting loops, before reviews done is copied in. */
  function Counted(raised: seq<Pr>, merged: seq<Pr>, changesRequested: seq<Pr>, notApproved: seq<Pr>): seq<Stat> {
    BumpAll(BumpAll(BumpAll(BumpAll([], raised, Raised), merged, Merged),
                    changesRequested, ChangesRequestedCount), notApproved, NotApprovedCount)
  }

  /** The number of occurrences of `login` among the authors and reviewers. */
  function Expected(raised: seq<Pr>, merged: seq<Pr>, changesRequested: seq<Pr>, notApproved: seq<Pr>,
                    lookup: ReviewLookup, ids: seq<int>, login: string): Stat
  {
    Stat(login, multiset(Authors(raised))[login], multiset(Authors(merged))[login],
         multiset(Authors(changesRequested))[login], multiset(Authors(notApproved))[login],
         multiset(Reviewers(lookup, ids))[login])
  }

  /** After the four counting loops a login's counters are its authorship counts in the four lists. */
  lemma CountedLookup(raised: seq<Pr>, merged: seq<Pr>, changesRequested: seq<Pr>, notApproved: seq<Pr>, login: string)
    ensures Lookup(Counted(raised, merged, changesRequested, notApproved), login)
         == Stat(login, multiset(Authors(raised))[login], multiset(Authors(merged))[login],
                 multiset(Authors(changesRequested))[login], multiset(Authors(notApproved))[login], 0)
  {
    var t1 := BumpAll([], raised, Raised);
    var t2 := BumpAll(t1, merged, Merged);
    var t3 := BumpAll(t2, changesRequested, ChangesRequestedCount);
    BumpAllLookup([], raised, Raised, login);
    BumpAllLookup(t1, merged, Merged, login);
    BumpAllLookup(t2, changesRequested, ChangesRequestedCount, login);
    BumpAllLookup(t3, notApproved, NotApprovedCount, login);
  }

  /** Every member's counters: how often its login occurs among each list's authors and among the reviewers of `ids`. */
  lemma MembersCounts(raised: seq<Pr>, merged: seq<Pr>, changesRequested: seq<Pr>, notApproved: seq<Pr>,
                      lookup: ReviewLookup, ids: seq<int>, login: string)
    ensures Lookup(MemberTable(raised, merged, changesRequested, notApproved, lookup, ids), login)
            == Expected(raised, merged, changesRequested, notApproved, lookup, ids, login)
  {
    var t := Counted(raised, merged, changesRequested, notApproved);
    var tally := TickAll([], lookup, ids);
    CountedLookup(raised, merged, changesRequested, notApproved, login);
    TickAllCount([], lookup, ids, login);
    TickAllKeys([], lookup, ids);
    TickAllUnique([], lookup, ids);
    ApplyReviewsLookup(t, tally, login);
  }

  /** No login has two member entries. */
  lemma MembersUnique(raised: seq<Pr>, merged: seq<Pr>, changesRequested: seq<Pr>, notApproved: seq<Pr>,
                      lookup: ReviewLookup, ids: seq<int>)
    ensures UniqueLogins(MemberTable(raised, merged, changesRequested, notApproved, lookup, ids))
  {
    var t1 := BumpAll([], raised, Raised);
    var t2 := BumpAll(t1, merged, Merged);
    var t3 := BumpAll(t2, changesRequested, ChangesRequestedCount);
    var t4 := BumpAll(t3, notApproved, NotApprovedCount);
    BumpAllUnique([], raised, Raised);
    BumpAllUnique(t1, merged, Merged);
    BumpAllUnique(t2, changesRequested, ChangesRequestedCount);
    BumpAllUnique(t3, notApproved, NotApprovedCount);
    ApplyReviewsUnique(t4, TickAll([], lookup, ids));
  }

  /**
   * The members in dictionary order: every login in the order it is first met, going through the
   * authors of the four lists and then the reviewers of `ids`.
   */
  lemma MembersOrder(raised: seq<Pr>, merged: seq<Pr>, changesRequested: seq<Pr>, notApproved: seq<Pr>,
                     lookup: ReviewLookup, ids: seq<int>)
    ensures Logins(MemberTable(raised, merged, changesRequested, notApproved, lookup, ids))
         == Distinct(Authors(raised) + Authors(merged) + Authors(changesRequested) + Authors(notApproved)
                     + Reviewers(lookup, ids))
  {
    var a1, a2, a3, a4 := Authors(raised), Authors(merged), Authors(changesRequested), Authors(notApproved);
    var rv := Reviewers(lookup, ids);
    var t1 := BumpAll([], raised, Raised);
    var t2 := BumpAll(t1, merged, Merged);
    var t3 := BumpAll(t2, changesRequested, ChangesRequestedCount);
    var t4 := BumpAll(t3, notApproved, NotApprovedCount);
    var none: seq<string> := [];
    assert Logins([]) == none && TallyLogins([]) == none;
    BumpAllOrder([], raised, Raised);
    BumpAllOrder(t1, merged, Merged);
    BumpAllOrder(t2, changesRequested, ChangesRequestedCount);
    BumpAllOrder(t3, notApproved, NotApprovedCount);
    ExtendAppend(none, a1, a2);
    ExtendAppend(none, a1 + a2, a3);
    ExtendAppend(none, a1 + a2 + a3, a4);
    TickAllOrder([], lookup, ids);
    ApplyReviewsOrder(t4, TickAll([], lookup, ids));
    var authors := a1 + a2 + a3 + a4;
    assert Distinct(none) == none;
    assert none + authors == authors && none + rv == rv;
    ExtendDistinct(none, authors);
    ExtendDistinct(none, rv);
    ExtendDistinct(authors, Distinct(rv));
    DistinctAbsorb(authors, rv);
  }

  /** After the four counting loops the members are exactly the authors of the four lists. */
  lemma CountedKeys(raised: seq<Pr>, merged: seq<Pr>, changesRequested: seq<Pr>, notApproved: seq<Pr>)
    ensures Keys(Counted(raised, merged, changesRequested, notApproved))
         == Elems(Authors(raised)) + Elems(Authors(merged)) + Elems(Authors(changesRequested))
            + Elems(Authors(notApproved))
  {
    var t1 := BumpAll([], raised, Raised);
    var t2 := BumpAll(t1, merged, Merged);
    var t3 := BumpAll(t2, changesRequested, ChangesRequestedCount);
    BumpAllKeys([], raised, Raised);
    BumpAllKeys(t1, merged, Merged);
    BumpAllKeys(t2, changesRequested, ChangesRequestedCount);
    BumpAllKeys(t3, notApproved, NotApprovedCount);
  }

  /** The members are exactly the logins that authored a counted pull request or reviewed one of `ids`. */
  lemma MembersKeys(raised: seq<Pr>, merged: seq<Pr>, changesRequested: seq<Pr>, notApproved: seq<Pr>,
                    lookup: ReviewLookup, ids: seq<int>, login: string)
    ensures login in Keys(MemberTable(raised, merged, changesRequested, notApproved, lookup, ids))
            <==> (login in Authors(raised) || login in Authors(merged) || login in Authors(changesRequested)
                  || login in Authors(notApproved) || login in Reviewers(lookup, ids))
  {
    var t := Counted(raised, merged, changesRequested, notApproved);
    var tally := TickAll([], lookup, ids);
    CountedKeys(raised, merged, changesRequested, notApproved);
    TickAllKeys([], lookup, ids);
    assert TallyKeys([]) == {};
    ApplyReviewsKeys(t, tally);
    var a1, a2, a3, a4, rv := Authors(raised), Authors(merged), Authors(changesRequested),
                               Authors(notApproved), Reviewers(lookup, ids);
    var keys := Keys(MemberTable(raised, merged, changesRequested, notApproved, lookup, ids));
    assert keys == Elems(a1) + Elems(a2) + Elems(a3) + Elems(a4) + Elems(rv);
    assert login in keys <==> login in Elems(a1) || login in Elems(a2) || login in Elems(a3)
                              || login in Elems(a4) || login in Elems(rv);
  }

  /** After the four counting loops each counter, summed over the members, is the length of the list it counts. */
  lemma CountedSum(raised: seq<Pr>, merged: seq<Pr>, changesRequested: seq<Pr>, notApproved: seq<Pr>, g: Field)
    ensures Sum(Counted(raised, merged, changesRequested, notApproved), g)
         == match g
            case Raised => |raised|
            case Merged => |merged|
            case ChangesRequestedCount => |changesRequested|
            case NotApprovedCount => |notApproved|
            case ReviewsDone => 0
  {
    var t1 := BumpAll([], raised, Raised);
    var t2 := BumpAll(t1, merged, Merged);
    var t3 := BumpAll(t2, changesRequested, ChangesRequestedCount);
    BumpAllSum([], raised, Raised, g);
    BumpAllSum(t1, merged, Merged, g);
    BumpAllSum(t2, changesRequested, ChangesRequestedCount, g);
    BumpAllSum(t3, notApproved, NotApprovedCount, g);
  }

  /** Each of the four pull-request counters, summed over the members, is the length of the list it counts. */
  lemma MembersSums(raised: seq<Pr>, merged: seq<Pr>, changesRequested: seq<Pr>, notApproved: seq<Pr>,
                    lookup: ReviewLookup, ids: seq<int>)
    ensures var m := MemberTable(raised, merged, changesRequested, notApproved, lookup, ids);
      && Sum(m, Raised) == |raised|
      && Sum(m, Merged) == |merged|
      && Sum(m, ChangesRequestedCount) == |changesRequested|
      && Sum(m, NotApprovedCount) == |notApproved|
  {
    var t := Counted(raised, merged, changesRequested, notApproved);
    var tally := TickAll([], lookup, ids);
    CountedSum(raised, merged, changesRequested, notApproved, Raised);
    CountedSum(raised, merged, changesRequested, notApproved, Merged);
    CountedSum(raised, merged, changesRequested, notApproved, ChangesRequestedCount);
    CountedSum(raised, merged, changesRequested, notApproved, NotApprovedCount);
    ApplyReviewsSum(t, tally, Raised);
    ApplyReviewsSum(t, tally, Merged);
    ApplyReviewsSum(t, tally, ChangesRequestedCount);
    ApplyReviewsSum(t, tally, NotApprovedCount);
  }

  // ---- the loops ----

  /** `for pr in prs: members[pr["user"]["login"]][f] += 1`, one pull request at a time. */
  method BumpEach(members: seq<Stat>, prs: seq<Pr>, f: Field) returns (r: seq<Stat>)
    ensures r == BumpAll(members, prs, f)
  {
    r := members;
    for i := 0 to |prs|
      invariant BumpAll(r, prs[i..], f) == BumpAll(members, prs, f)
    {
      assert prs[i..][1..] == prs[i + 1..];
      r := Bump(r, prs[i].author, f);
    }
  }

  /** The nested loop that fills `reviews_done_map` from the reviews of the pull requests `ids`. */
  method TallyReviews(lookup: ReviewLookup, ids: seq<int>) returns (tally: seq<Tally>)
    ensures tally == TickAll([], lookup, ids)
  {
    tally := [];
    for i := 0 to |ids|
      invariant TickAll(tally, lookup, ids[i..]) == TickAll([], lookup, ids)
    {
      assert ids[i..][1..] == ids[i + 1..];
      var reviews := ReviewsOf(lookup, ids[i]);
      ghost var before := tally;
      for j := 0 to |reviews|
        invariant TickReviews(tally, reviews[j..]) == TickReviews(before, reviews)
      {
        assert reviews[j..][1..] == reviews[j + 1..];
        tally := Tick(tally, reviews[j].reviewer);
      }
    }
  }

  /** `for user, count_r in reviews_done_map.items(): members[user]["reviews_done"] = count_r`. */
  method CopyReviews(members: seq<Stat>, tally: seq<Tally>) returns (r: seq<Stat>)
    ensures r == ApplyReviews(members, tally)
  {
    r := members;
    var rest := tally;
    while rest != []
      invariant ApplyReviews(r, rest) == ApplyReviews(members, tally)
      decreases |rest|
    {
      r := SetReviews(r, rest[0].login, rest[0].count);
      rest := rest[1..];
    }
  }

  /** The member accumulation of one repository: the four counting loops, then reviews done. */
  method TallyMembers(raised: seq<Pr>, merged: seq<Pr>, changesRequested: seq<Pr>, notApproved: seq<Pr>,
                      lookup: ReviewLookup, ids: seq<int>) returns (members: seq<Stat>)
    ensures members == MemberTable(raised, merged, changesRequested, notApproved, lookup, ids)
  {
    members := [];
    members := BumpEach(members, raised, Raised);
    members := BumpEach(members, merged, Merged);
    members := BumpEach(members, changesRequested, ChangesRequestedCount);
    members := BumpEach(members, notApproved, NotApprovedCount);
    var tally := TallyReviews(lookup, ids);
    members := CopyReviews(members, tally);
  }

  // ---- member rows ----

  /** One element of `member_rows`: a member's counters and `"RepoName"`. */
  datatype Row = Row(stat: Stat, repoName: string)

  /** `for member, stats in members.items(): member_rows.append({..., "RepoName": repo_name})`. */
  function Tag(table: seq<Stat>, repoName: string): (rows: seq<Row>)
    ensures |rows| == |table|
    ensures forall i :: 0 <= i < |table| ==> rows[i] == Row(table[i], repoName)
  {
    seq(|table|, i requires 0 <= i < |table| => Row(table[i], repoName))
  }

  function Untag(rows: seq<Row>): (table: seq<Stat>)
    ensures |table| == |rows|
    ensures forall i :: 0 <= i < |rows| ==> table[i] == rows[i].stat
  {
    seq(|rows|, i requires 0 <= i < |rows| => rows[i].stat)
  }
}
