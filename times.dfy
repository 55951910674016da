/** Stop times and the first/last statistic. A stop time is a string such as
    "08:40". JavaScript's default `Array.prototype.sort()` orders strings by
    their UTF-16 code units; it is modelled as the lexicographic order
    `LexLe` on characters below, which agrees with it on every string
    without characters above U+FFFF. */
module Times {

  type Time = string

  /** The placeholder the statistics panel shows when there is no time. */
  const Dash: Time := "-"

  /** Lexicographic order on strings: a prefix comes first, otherwise the
      first differing character decides. */
  predicate LexLe(a: Time, b: Time)
    decreases |a|
  {
    a == [] || (b != [] && (a[0] < b[0] || (a[0] == b[0] && LexLe(a[1..], b[1..]))))
  }

  lemma {:induction false} LexLeReflexive(a: Time)
    ensures LexLe(a, a)
    decreases |a|
  {
    if a != [] {
      LexLeReflexive(a[1..]);
    }
  }

  lemma {:induction false} LexLeAntisymmetric(a: Time, b: Time)
    requires LexLe(a, b) && LexLe(b, a)
    ensures a == b
    decreases |a|
  {
    if a != [] {
      LexLeAntisymmetric(a[1..], b[1..]);
      assert a == [a[0]] + a[1..] && b == [b[0]] + b[1..];
    }
  }

  lemma {:induction false} LexLeTransitive(a: Time, b: Time, c: Time)
    requires LexLe(a, b) && LexLe(b, c)
    ensures LexLe(a, c)
    decreases |a|
  {
    if a != [] && a[0] == b[0] && b[0] == c[0] {
      LexLeTransitive(a[1..], b[1..], c[1..]);
    }
  }

  lemma {:induction false} LexLeTotal(a: Time, b: Time)
    ensures LexLe(a, b) || LexLe(b, a)
    decreases |a|
  {
    if a != [] && b != [] && a[0] == b[0] {
      LexLeTotal(a[1..], b[1..]);
    }
  }

  /** Every element is at most every later element. */
  ghost predicate Sorted(s: seq<Time>)
  {
    forall i, j :: 0 <= i < j < |s| ==> LexLe(s[i], s[j])
  }

  /** Inserts `t` before the first element it does not exceed. */
  function Insert(t: Time, s: seq<Time>): (r: seq<Time>)
    ensures multiset(r) == multiset(s) + multiset{t}
  {
    if s == [] then [t]
    else if LexLe(t, s[0]) then [t] + s
    else
      assert s == [s[0]] + s[1..];
      [s[0]] + Insert(t, s[1..])
  }

  lemma {:induction false} InsertSorted(t: Time, s: seq<Time>)
    requires Sorted(s)
    ensures Sorted(Insert(t, s))
    decreases |s|
  {
    if s == [] {
    } else if LexLe(t, s[0]) {
      forall k | 0 <= k < |s|
        ensures LexLe(t, s[k])
      {
        if k > 0 {
          LexLeTransitive(t, s[0], s[k]);
        }
      }
    } else {
      LexLeTotal(t, s[0]);
      var rest := Insert(t, s[1..]);
      InsertSorted(t, s[1..]);
      forall k | 0 <= k < |rest|
        ensures LexLe(s[0], rest[k])
      {
        var x := rest[k];
        assert x in multiset(rest);
        if x != t {
          assert x in multiset(s[1..]);
          var m :| 0 <= m < |s[1..]| && s[1..][m] == x;
          assert s[m + 1] == x;
        }
      }
    }
  }

  /** The times in ascending lexicographic order (the result of
      JavaScript's default sort on an array of strings). */
  function SortTimes(s: seq<Time>): (r: seq<Time>)
    ensures Sorted(r)
    ensures multiset(r) == multiset(s)
  {
    if s == [] then [] else
      assert s == [s[0]] + s[1..];
      var rest := SortTimes(s[1..]);
      InsertSorted(s[0], rest);
      Insert(s[0], rest)
  }

  /** `sorted[0] || '-'`: the first element, or the dash when there is none
      or it is the empty string. */
  function FirstOrDash(s: seq<Time>): Time
  {
    if |s| > 0 && s[0] != [] then s[0] else Dash
  }

  /** `sorted[sorted.length - 1] || '-'`. */
  function LastOrDash(s: seq<Time>): Time
  {
    if |s| > 0 && s[|s| - 1] != [] then s[|s| - 1] else Dash
  }

  /** The non-empty times of a list, in order: what `if (s.time)` lets
      through into the pooled list. */
  function NonEmpty(s: seq<Time>): (r: seq<Time>)
    ensures forall t :: t in r <==> t in s && t != []
  {
    if s == [] then []
    else (if s[0] != [] then [s[0]] else []) + NonEmpty(s[1..])
  }

  /** Filtering distributes over concatenation. */
  lemma {:induction false} NonEmptyAppend(a: seq<Time>, b: seq<Time>)
    ensures NonEmpty(a + b) == NonEmpty(a) + NonEmpty(b)
    decreases |a|
  {
    if a == [] {
      assert a + b == b;
    } else {
      assert (a + b)[0] == a[0] && (a + b)[1..] == a[1..] + b;
      NonEmptyAppend(a[1..], b);
    }
  }

  /** The ends of a sorted non-empty list are its least and greatest
      elements. */
  lemma SortedEnds(r: seq<Time>)
    requires Sorted(r) && r != []
    ensures forall t :: t in r ==> LexLe(r[0], t) && LexLe(t, r[|r| - 1])
  {
    forall t | t in r
      ensures LexLe(r[0], t) && LexLe(t, r[|r| - 1])
    {
      var k :| 0 <= k < |r| && r[k] == t;
      if k == 0 || k == |r| - 1 { LexLeReflexive(t); }
    }
  }

  /** Sorting keeps exactly the elements of the list. */
  lemma SortKeepsElements(pool: seq<Time>)
    ensures |SortTimes(pool)| == |pool|
    ensures forall t :: t in SortTimes(pool) <==> t in pool
  {
    var r := SortTimes(pool);
    assert |r| == |multiset(r)| == |multiset(pool)| == |pool|;
    forall t
      ensures t in r <==> t in pool
    {
      assert t in r <==> t in multiset(r);
      assert t in pool <==> t in multiset(pool);
    }
  }

  /** The first of the sorted pool is its least element, the last its
      greatest, and the dash stands exactly for an empty pool. */
  lemma {:induction false} FirstLastAreMinMax(pool: seq<Time>)
    requires forall t :: t in pool ==> t != []
    ensures pool == [] ==> FirstOrDash(SortTimes(pool)) == Dash == LastOrDash(SortTimes(pool))
    ensures pool != [] ==>
      && FirstOrDash(SortTimes(pool)) in pool
      && LastOrDash(SortTimes(pool)) in pool
      && (forall t :: t in pool ==> LexLe(FirstOrDash(SortTimes(pool)), t))
      && (forall t :: t in pool ==> LexLe(t, LastOrDash(SortTimes(pool))))
  {
    var r := SortTimes(pool);
    if pool != [] {
      SortKeepsElements(pool);
      SortedEnds(r);
      assert r[0] in r && r[|r| - 1] in r;
      assert FirstOrDash(r) == r[0] && LastOrDash(r) == r[|r| - 1];
    }
  }
}
