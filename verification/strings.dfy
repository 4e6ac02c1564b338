/** Strings as the bot compares, sorts and rewrites them: Python's `<` on
    `str`, `list.sort()` on a list of strings, and `str.replace(p, '')`. */
module Strings {

  /** Python's `a < b` on `str`: lexicographic by code point, and a proper
      prefix is smaller than the longer string. */
  predicate Less(a: string, b: string)
    decreases |a|
  {
    |b| > 0 && (|a| == 0 || a[0] < b[0] || (a[0] == b[0] && Less(a[1..], b[1..])))
  }

  lemma {:induction false} LessIrreflexive(a: string)
    ensures !Less(a, a)
    decreases |a|
  {
    if |a| > 0 {
      LessIrreflexive(a[1..]);
    }
  }

  lemma {:induction false} LessTransitive(a: string, b: string, c: string)
    requires Less(a, b) && Less(b, c)
    ensures Less(a, c)
    decreases |a|
  {
    if |a| > 0 && a[0] == b[0] && b[0] == c[0] {
      LessTransitive(a[1..], b[1..], c[1..]);
    }
  }

  lemma {:induction false} LessTotal(a: string, b: string)
    ensures a == b || Less(a, b) || Less(b, a)
    decreases |a|
  {
    if |a| > 0 && |b| > 0 && a[0] == b[0] {
      LessTotal(a[1..], b[1..]);
      if a[1..] == b[1..] {
        assert a == [a[0]] + a[1..] && b == [b[0]] + b[1..];
      }
    }
  }

  lemma LessAsymmetric(a: string, b: string)
    requires Less(a, b)
    ensures !Less(b, a)
  {
    if Less(b, a) {
      LessTransitive(a, b, a);
      LessIrreflexive(a);
    }
  }

  /** "Not below" is transitive: a <= b and b <= c give a <= c. */
  lemma NotLessTransitive(a: string, b: string, c: string)
    requires !Less(b, a) && !Less(c, b)
    ensures !Less(c, a)
  {
    LessTotal(a, b);
    if Less(c, a) && Less(a, b) {
      LessTransitive(c, a, b);
    }
  }

  /** Non-decreasing, the order `list.sort()` leaves a list of strings in. */
  ghost predicate Sorted(s: seq<string>)
  {
    forall i, j :: 0 <= i < j < |s| ==> !Less(s[j], s[i])
  }

  ghost predicate StrictlySorted(s: seq<string>)
  {
    forall i, j :: 0 <= i < j < |s| ==> Less(s[i], s[j])
  }

  ghost predicate Distinct(s: seq<string>)
  {
    forall i, j :: 0 <= i < j < |s| ==> s[i] != s[j]
  }

  /** Places x before the first element it is not above. */
  function Insert(x: string, s: seq<string>): (r: seq<string>)
    ensures multiset(r) == multiset(s) + multiset{x}
    ensures forall y :: y in r <==> y == x || y in s
  {
    if s == [] || !Less(s[0], x) then [x] + s
    else
      assert s == [s[0]] + s[1..];
      [s[0]] + Insert(x, s[1..])
  }

  /** `list.sort()` on a list of strings, as an insertion sort. */
  function Sort(s: seq<string>): (r: seq<string>)
    ensures multiset(r) == multiset(s)
    ensures forall y :: y in r <==> y in s
  {
    if s == [] then []
    else
      assert s == [s[0]] + s[1..];
      Insert(s[0], Sort(s[1..]))
  }

  lemma {:induction false} InsertSorted(x: string, s: seq<string>)
    requires Sorted(s)
    ensures Sorted(Insert(x, s))
    decreases |s|
  {
    if s == [] || !Less(s[0], x) {
      forall j | 0 <= j < |s|
        ensures !Less(s[j], x)
      {
        if j == 0 {
          LessIrreflexive(s[0]);
        }
        NotLessTransitive(x, s[0], s[j]);
      }
      var r := Insert(x, s);
      assert r == [x] + s;
      forall i, j | 0 <= i < j < |r|
        ensures !Less(r[j], r[i])
      {
        if i > 0 {
          assert r[i] == s[i - 1] && r[j] == s[j - 1];
        }
      }
    } else {
      var t := Insert(x, s[1..]);
      InsertSorted(x, s[1..]);
      LessAsymmetric(s[0], x);
      var r := [s[0]] + t;
      assert r == Insert(x, s);
      forall k | 0 <= k < |t|
        ensures !Less(t[k], s[0])
      {
        assert t[k] in t;
        if t[k] != x {
          var m :| 0 <= m < |s[1..]| && s[1..][m] == t[k];
          assert s[m + 1] == t[k];
        }
      }
      forall i, j | 0 <= i < j < |r|
        ensures !Less(r[j], r[i])
      {
        if i > 0 {
          assert r[i] == t[i - 1] && r[j] == t[j - 1];
        } else {
          assert r[j] == t[j - 1];
        }
      }
    }
  }

  lemma {:induction false} InsertDistinct(x: string, s: seq<string>)
    requires Distinct(s) && x !in s
    ensures Distinct(Insert(x, s))
    decreases |s|
  {
    if s == [] || !Less(s[0], x) {
      var r := Insert(x, s);
      assert r == [x] + s;
      forall i, j | 0 <= i < j < |r|
        ensures r[i] != r[j]
      {
        if i == 0 {
          assert r[j] == s[j - 1] && r[j] in s;
        } else {
          assert r[i] == s[i - 1] && r[j] == s[j - 1];
        }
      }
    } else {
      assert Distinct(s[1..]);
      InsertDistinct(x, s[1..]);
      var t := Insert(x, s[1..]);
      var r := [s[0]] + t;
      assert r == Insert(x, s);
      assert s[0] !in s[1..];
      assert s[0] !in t;
      forall i, j | 0 <= i < j < |r|
        ensures r[i] != r[j]
      {
        if i == 0 {
          assert r[j] == t[j - 1] && r[j] in t;
        } else {
          assert r[i] == t[i - 1] && r[j] == t[j - 1];
        }
      }
    }
  }

  /** The sort leaves its list non-decreasing. */
  lemma {:induction false} SortSorted(s: seq<string>)
    ensures Sorted(Sort(s))
    decreases |s|
  {
    if s != [] {
      SortSorted(s[1..]);
      InsertSorted(s[0], Sort(s[1..]));
    }
  }

  /** Sorting a list without repetitions yields a strictly increasing list. */
  lemma {:induction false} SortStrict(s: seq<string>)
    requires Distinct(s)
    ensures StrictlySorted(Sort(s))
    decreases |s|
  {
    SortDistinct(s);
    SortSorted(s);
    var r := Sort(s);
    forall i, j | 0 <= i < j < |r|
      ensures Less(r[i], r[j])
    {
      LessTotal(r[i], r[j]);
    }
  }

  lemma {:induction false} SortDistinct(s: seq<string>)
    requires Distinct(s)
    ensures Distinct(Sort(s))
    decreases |s|
  {
    if s != [] {
      assert Distinct(s[1..]);
      SortDistinct(s[1..]);
      assert s[0] !in s[1..];
      InsertDistinct(s[0], Sort(s[1..]));
    }
  }

  predicate StartsWith(s: string, p: string)
  {
    |p| <= |s| && s[..|p|] == p
  }

  /** p occurs somewhere in s. */
  ghost predicate Contains(s: string, p: string)
  {
    exists i :: 0 <= i <= |s| && StartsWith(s[i..], p)
  }

  /** Python's `s.replace(p, '')`: every occurrence of p, found left to right
      without overlap, is removed. */
  function RemoveAll(s: string, p: string): (r: string)
    requires p != []
    ensures |r| <= |s|
    decreases |s|
  {
    if |s| < |p| then s
    else if StartsWith(s, p) then RemoveAll(s[|p|..], p)
    else [s[0]] + RemoveAll(s[1..], p)
  }

  /** A string in which p does not occur is left as it is. */
  lemma {:induction false} RemoveAllAbsent(s: string, p: string)
    requires p != [] && !Contains(s, p)
    ensures RemoveAll(s, p) == s
    decreases |s|
  {
    if |s| >= |p| {
      assert s[0..] == s;
      assert !StartsWith(s, p);
      forall i | 0 <= i <= |s[1..]|
        ensures !StartsWith(s[1..][i..], p)
      {
        assert s[1..][i..] == s[i + 1..];
      }
      RemoveAllAbsent(s[1..], p);
      assert s == [s[0]] + s[1..];
    }
  }

  /** Prefixing p and then removing every p gives back a string in which p
      does not occur. */
  lemma PrefixRemoved(p: string, s: string)
    requires p != [] && !Contains(s, p)
    ensures RemoveAll(p + s, p) == s
  {
    assert (p + s)[..|p|] == p;
    assert (p + s)[|p|..] == s;
    RemoveAllAbsent(s, p);
  }
}
