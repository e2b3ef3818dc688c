/**
 * String helpers used by the report scripts: ASCII lower-casing (`str.lower()`),
 * Python's ordering of strings (`<` on `str`), `", ".join(...)`, `sorted(...)`
 * over a set of logins and first-occurrence de-duplication.
 */
module Text {

  /** The strings of a sequence, as a set. */
  function Elems(s: seq<string>): set<string> {
    set x | x in s
  }

  lemma ElemsEmpty(s: seq<string>)
    ensures Elems(s) == {} <==> s == []
  {
    if s != [] {
      assert s[0] in Elems(s);
    }
  }

  lemma ElemsAppend(a: seq<string>, b: seq<string>)
    ensures Elems(a + b) == Elems(a) + Elems(b)
  {
    forall x | x in Elems(a) ensures x in Elems(a + b) {
      var i :| 0 <= i < |a| && a[i] == x;
      assert (a + b)[i] == x;
    }
    forall x | x in Elems(b) ensures x in Elems(a + b) {
      var i :| 0 <= i < |b| && b[i] == x;
      assert (a + b)[|a| + i] == x;
    }
  }

  lemma ElemsSnoc(a: seq<string>, x: string)
    ensures Elems(a + [x]) == Elems(a) + {x}
  {
    ElemsAppend(a, [x]);
    assert [x][0] == x;
  }

  function LowerChar(c: char): char {
    if 'A' <= c <= 'Z' then (c as int + 32) as char else c
  }

  /** `s.lower()`, restricted to ASCII case folding. */
  function Lower(s: string): (r: string)
    ensures |r| == |s|
    ensures forall i :: 0 <= i < |s| ==> r[i] == LowerChar(s[i])
  {
    seq(|s|, i requires 0 <= i < |s| => LowerChar(s[i]))
  }

  /** Python's `a < b` on `str`: lexicographic by code point, a proper prefix is smaller. */
  predicate LexLess(a: string, b: string) {
    if |a| == 0 then |b| > 0
    else if |b| == 0 then false
    else if a[0] != b[0] then a[0] < b[0]
    else LexLess(a[1..], b[1..])
  }

  lemma {:induction false} LexIrreflexive(a: string)
    ensures !LexLess(a, a)
  {
    if |a| > 0 {
      LexIrreflexive(a[1..]);
    }
  }

  lemma {:induction false} LexTransitive(a: string, b: string, c: string)
    requires LexLess(a, b) && LexLess(b, c)
    ensures LexLess(a, c)
  {
    if |a| > 0 && |b| > 0 && |c| > 0 && a[0] == b[0] && b[0] == c[0] {
      LexTransitive(a[1..], b[1..], c[1..]);
    }
  }

  lemma {:induction false} LexTotal(a: string, b: string)
    ensures a == b || LexLess(a, b) || LexLess(b, a)
  {
    if |a| > 0 && |b| > 0 && a[0] == b[0] {
      LexTotal(a[1..], b[1..]);
      if a[1..] == b[1..] {
        assert a == [a[0]] + a[1..] && b == [b[0]] + b[1..];
      }
    }
  }

  lemma {:induction false} LexAsymmetric(a: string, b: string)
    requires LexLess(a, b)
    ensures !LexLess(b, a)
  {
    if LexLess(b, a) {
      LexTransitive(a, b, a);
      LexIrreflexive(a);
    }
  }

  /** Comparing two concatenations whose first parts have the same length. */
  lemma {:induction false} LexAppend(p: string, q: string, r: string, t: string)
    requires |p| == |r|
    ensures LexLess(p + q, r + t) <==> LexLess(p, r) || (p == r && LexLess(q, t))
  {
    if |p| > 0 {
      assert (p + q)[0] == p[0] && (r + t)[0] == r[0];
      assert (p + q)[1..] == p[1..] + q && (r + t)[1..] == r[1..] + t;
      LexAppend(p[1..], q, r[1..], t);
      if p[0] == r[0] && p[1..] == r[1..] {
        assert p == [p[0]] + p[1..] && r == [r[0]] + r[1..];
      }
    } else {
      assert p + q == q && r + t == t;
    }
  }

  /** `sep.join(parts)`. */
  function Join(parts: seq<string>, sep: string): string {
    if |parts| == 0 then ""
    else if |parts| == 1 then parts[0]
    else parts[0] + sep + Join(parts[1..], sep)
  }

  /** With a non-empty separator the join is empty only for no parts or one empty part. */
  lemma {:induction false} JoinEmpty(parts: seq<string>, sep: string)
    requires sep != ""
    ensures Join(parts, sep) == "" <==> parts == [] || parts == [""]
  {
    if |parts| >= 2 {
      assert |Join(parts, sep)| >= |sep|;
    }
  }

  predicate StrictlySorted(s: seq<string>) {
    forall i, j :: 0 <= i < j < |s| ==> LexLess(s[i], s[j])
  }

  /** Inserts `x` into a strictly sorted sequence, keeping it strictly sorted and free of duplicates. */
  function Insert(x: string, s: seq<string>): (r: seq<string>)
    requires StrictlySorted(s)
    ensures StrictlySorted(r)
    ensures Elems(r) == Elems(s) + {x}
  {
    if s == [] then [x]
    else if x == s[0] then s
    else if LexLess(x, s[0]) then
      assert forall j :: 0 < j < |s| ==> LexLess(x, s[j]) by {
        forall j | 0 < j < |s| ensures LexLess(x, s[j]) {
          LexTransitive(x, s[0], s[j]);
        }
      }
      [x] + s
    else
      LexTotal(x, s[0]);
      var rest := Insert(x, s[1..]);
      assert Elems(s) == {s[0]} + Elems(s[1..]);
      assert forall y :: y in rest ==> LexLess(s[0], y) by {
        forall y | y in rest ensures LexLess(s[0], y) {
          assert y in Elems(rest);
          if y != x {
            var k :| 0 <= k < |s[1..]| && s[1..][k] == y;
            assert s[k + 1] == y;
          }
        }
      }
      assert Elems([s[0]] + rest) == {s[0]} + Elems(rest);
      [s[0]] + rest
  }

  /** `sorted(set(xs))`: the distinct elements of `xs` in ascending order. */
  function SortedUnique(xs: seq<string>): (r: seq<string>)
    ensures StrictlySorted(r)
    ensures Elems(r) == Elems(xs)
  {
    if xs == [] then []
    else
      var r := Insert(xs[|xs| - 1], SortedUnique(xs[..|xs| - 1]));
      assert Elems(xs) == Elems(xs[..|xs| - 1]) + {xs[|xs| - 1]} by {
        assert xs == xs[..|xs| - 1] + [xs[|xs| - 1]];
      }
      r
  }

  /** A strictly sorted sequence is determined by its elements: `sorted` of a set is well defined. */
  lemma {:induction false} SortedIsUnique(a: seq<string>, b: seq<string>)
    requires StrictlySorted(a) && StrictlySorted(b)
    requires Elems(a) == Elems(b)
    ensures a == b
  {
    if a != [] { assert a[0] in Elems(a); }
    if b != [] { assert b[0] in Elems(b); }
    if a != [] && b != [] {
      assert a[0] in Elems(b) && b[0] in Elems(a);
      if a[0] != b[0] {
        var i :| 0 <= i < |b| && b[i] == a[0];
        var j :| 0 <= j < |a| && a[j] == b[0];
        assert i > 0 && j > 0;
        assert LexLess(b[0], a[0]) && LexLess(a[0], b[0]);
        LexAsymmetric(a[0], b[0]);
      }
      assert Elems(a[1..]) == Elems(b[1..]) by {
        forall y | y in Elems(a[1..]) ensures y in Elems(b[1..]) {
          var k :| 0 <= k < |a[1..]| && a[1..][k] == y;
          assert LexLess(a[0], y);
          LexIrreflexive(y);
          assert a[k + 1] == y && y in Elems(a);
          var m :| 0 <= m < |b| && b[m] == y;
          assert m != 0;
          assert b[1..][m - 1] == y;
        }
        forall y | y in Elems(b[1..]) ensures y in Elems(a[1..]) {
          var k :| 0 <= k < |b[1..]| && b[1..][k] == y;
          assert LexLess(b[0], y);
          LexIrreflexive(y);
          assert b[k + 1] == y && y in Elems(b);
          var m :| 0 <= m < |a| && a[m] == y;
          assert m != 0;
          assert a[1..][m - 1] == y;
        }
      }
      SortedIsUnique(a[1..], b[1..]);
      assert a == [a[0]] + a[1..] && b == [b[0]] + b[1..];
    }
  }

  /**
   * Sorts the logins gathered in a set, picking them one at a time in whatever order the set
   * yields them; the result is the unique strictly sorted sequence of the set's elements.
   */
  method SortSet(s: set<string>) returns (r: seq<string>)
    ensures StrictlySorted(r)
    ensures Elems(r) == s
  {
    r := [];
    var rest := s;
    while rest != {}
      invariant StrictlySorted(r)
      invariant Elems(r) + rest == s
      decreases rest
    {
      var x :| x in rest;
      r := Insert(x, r);
      rest := rest - {x};
    }
  }

  /** The distinct elements of `xs`, in order of first occurrence. */
  function Distinct(xs: seq<string>): (r: seq<string>)
    ensures Elems(r) == Elems(xs)
    ensures forall i, j :: 0 <= i < j < |r| ==> r[i] != r[j]
  {
    if xs == [] then []
    else
      var d := Distinct(xs[..|xs| - 1]);
      assert Elems(xs) == Elems(xs[..|xs| - 1]) + {xs[|xs| - 1]} by {
        assert xs == xs[..|xs| - 1] + [xs[|xs| - 1]];
      }
      if xs[|xs| - 1] in d then d else d + [xs[|xs| - 1]]
  }

  /** One more element is appended to the de-duplicated sequence exactly when it is new. */
  lemma DistinctSnoc(xs: seq<string>, x: string)
    ensures Distinct(xs + [x]) == if x in Distinct(xs) then Distinct(xs) else Distinct(xs) + [x]
  {
    assert (xs + [x])[..|xs|] == xs;
  }

  /** `order` followed by each element of `xs` it does not hold yet, at its first occurrence: inserting `xs` into an insertion-ordered dictionary. */
  function Extend(order: seq<string>, xs: seq<string>): seq<string>
    decreases |xs|
  {
    if xs == [] then order else Extend(if xs[0] in order then order else order + [xs[0]], xs[1..])
  }

  lemma {:induction false} ExtendAppend(order: seq<string>, a: seq<string>, b: seq<string>)
    decreases |a|
    ensures Extend(order, a + b) == Extend(Extend(order, a), b)
  {
    if a == [] {
      assert a + b == b;
    } else {
      assert (a + b)[0] == a[0] && (a + b)[1..] == a[1..] + b;
      ExtendAppend(if a[0] in order then order else order + [a[0]], a[1..], b);
    }
  }

  /** Extending the first occurrences of `a` by `b` gives the first occurrences of `a + b`. */
  lemma {:induction false} ExtendDistinct(a: seq<string>, b: seq<string>)
    decreases |b|
    ensures Extend(Distinct(a), b) == Distinct(a + b)
  {
    if b == [] {
      assert a + b == a;
    } else {
      var x, rest := b[0], b[1..];
      var ax := a + [x];
      assert Extend(Distinct(a), b) == Extend(Distinct(ax), rest) by {
        DistinctSnoc(a, x);
      }
      assert Distinct(ax + rest) == Distinct(a + b) by {
        assert ax + rest == a + b;
      }
      ExtendDistinct(ax, rest);
    }
  }

  /** De-duplicating a suffix first does not change the first occurrences of the whole. */
  lemma {:induction false} DistinctAbsorb(a: seq<string>, b: seq<string>)
    ensures Distinct(a + Distinct(b)) == Distinct(a + b)
  {
    if b == [] {
      assert a + Distinct(b) == a + b;
    } else {
      var n := |b| - 1;
      var init, x := b[..n], b[n];
      assert b == init + [x];
      DistinctAbsorb(a, init);
      DistinctSnoc(init, x);
      assert a + b == (a + init) + [x];
      DistinctSnoc(a + init, x);
      var d := Distinct(a + init);
      assert x in Elems(d) <==> x in Elems(a + init);
      ElemsAppend(a, init);
      if x in Distinct(init) {
        assert x in Elems(Distinct(init));
        assert x in Elems(init);
      } else {
        assert x !in Elems(Distinct(init));
        assert a + Distinct(b) == (a + Distinct(init)) + [x];
        DistinctSnoc(a + Distinct(init), x);
      }
    }
  }
}
