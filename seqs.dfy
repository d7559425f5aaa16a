/**
  Queries over a table held as a sequence of rows: keep the rows that match
  (`filter_by`), count them (`func.count`) and order them (`order_by`).
 */
module Seqs {

  /** The rows of `s` that satisfy `p`, in their original order. */
  function Filter<T>(s: seq<T>, p: T -> bool): (r: seq<T>)
    ensures |r| <= |s|
    ensures forall i :: 0 <= i < |r| ==> r[i] in s && p(r[i])
    ensures forall i :: 0 <= i < |s| && p(s[i]) ==> s[i] in r
  {
    if s == [] then [] else (if p(s[0]) then [s[0]] else []) + Filter(s[1..], p)
  }

  /** The number of rows of `s` that satisfy `p`. */
  function Count<T>(s: seq<T>, p: T -> bool): (n: nat)
    ensures n <= |s|
  {
    if s == [] then 0 else (if p(s[0]) then 1 else 0) + Count(s[1..], p)
  }

  /** Counting the rows is measuring the filtered table. */
  lemma {:induction false} CountIsFilterLength<T>(s: seq<T>, p: T -> bool)
    ensures Count(s, p) == |Filter(s, p)|
  {
    if s != [] {
      CountIsFilterLength(s[1..], p);
    }
  }

  lemma {:induction false} CountAppend<T>(a: seq<T>, b: seq<T>, p: T -> bool)
    ensures Count(a + b, p) == Count(a, p) + Count(b, p)
  {
    if a == [] {
      assert a + b == b;
    } else {
      assert (a + b)[1..] == a[1..] + b;
      CountAppend(a[1..], b, p);
    }
  }

  lemma {:induction false} FilterAppend<T>(a: seq<T>, b: seq<T>, p: T -> bool)
    ensures Filter(a + b, p) == Filter(a, p) + Filter(b, p)
  {
    if a == [] {
      assert a + b == b;
    } else {
      assert (a + b)[1..] == a[1..] + b;
      FilterAppend(a[1..], b, p);
    }
  }

  /** Filtering a sequence filters all but its last element, then the last. */
  lemma {:induction false} FilterSnoc<T>(s: seq<T>, p: T -> bool)
    requires s != []
    ensures Filter(s, p) == Filter(s[..|s| - 1], p) + (if p(s[|s| - 1]) then [s[|s| - 1]] else [])
  {
    var n := |s|;
    var last := if p(s[n - 1]) then [s[n - 1]] else [];
    if n == 1 {
      assert s[..0] == [] && s[1..] == [];
    } else {
      var t, init := s[1..], s[..n - 1];
      FilterSnoc(t, p);
      assert t[..n - 2] == init[1..] && t[n - 2] == s[n - 1] && init[0] == s[0];
      var h := if p(s[0]) then [s[0]] else [];
      calc {
        Filter(s, p);
        h + Filter(t, p);
        h + (Filter(init[1..], p) + last);
        (h + Filter(init[1..], p)) + last;
        Filter(init, p) + last;
      }
    }
  }

  /** The count is positive exactly when some row matches. */
  lemma {:induction false} CountPositive<T>(s: seq<T>, p: T -> bool)
    ensures Count(s, p) > 0 <==> exists i :: 0 <= i < |s| && p(s[i])
  {
    if s != [] {
      CountPositive(s[1..], p);
      if !p(s[0]) && exists i :: 0 <= i < |s| && p(s[i]) {
        var i :| 0 <= i < |s| && p(s[i]);
        assert p(s[1..][i - 1]);
      }
      if exists i :: 0 <= i < |s[1..]| && p(s[1..][i]) {
        var i :| 0 <= i < |s[1..]| && p(s[1..][i]);
        assert p(s[i + 1]);
      }
    }
  }

  /** All rows match exactly when the count is the size of the table. */
  lemma {:induction false} CountAll<T>(s: seq<T>, p: T -> bool)
    ensures Count(s, p) == |s| <==> forall i :: 0 <= i < |s| ==> p(s[i])
  {
    if s != [] {
      CountAll(s[1..], p);
      if forall i :: 0 <= i < |s| ==> p(s[i]) {
        forall i | 0 <= i < |s| - 1 ensures p(s[1..][i]) {
          assert p(s[i + 1]);
        }
      }
      if Count(s, p) == |s| {
        assert p(s[0]);
        forall i | 0 <= i < |s| ensures p(s[i]) {
          if i > 0 {
            assert p(s[1..][i - 1]);
          }
        }
      }
    }
  }

  // ---------------------------------------------------------------------------
  // Ordering

  ghost predicate Total<T(!new)>(le: (T, T) -> bool) {
    forall a, b :: le(a, b) || le(b, a)
  }

  ghost predicate Transitive<T(!new)>(le: (T, T) -> bool) {
    forall a, b, c :: le(a, b) && le(b, c) ==> le(a, c)
  }

  /** `s` is ordered by `le`: every row may precede every later row. */
  ghost predicate SortedBy<T>(s: seq<T>, le: (T, T) -> bool) {
    forall i, j :: 0 <= i < j < |s| ==> le(s[i], s[j])
  }

  /** Put `x` in front of the first row it may precede. */
  function Insert<T>(x: T, s: seq<T>, le: (T, T) -> bool): (r: seq<T>)
    ensures multiset(r) == multiset(s) + multiset{x}
    ensures |r| == |s| + 1
  {
    if s == [] then [x]
    else if le(x, s[0]) then [x] + s
    else
      assert s == [s[0]] + s[1..];
      [s[0]] + Insert(x, s[1..], le)
  }

  /** Insertion sort: the rows of `s` which `le` orders. */
  function SortBy<T>(s: seq<T>, le: (T, T) -> bool): (r: seq<T>)
    ensures multiset(r) == multiset(s)
    ensures |r| == |s|
  {
    if s == [] then []
    else
      assert s == [s[0]] + s[1..];
      Insert(s[0], SortBy(s[1..], le), le)
  }

  lemma {:induction false} InsertSorted<T(!new)>(x: T, s: seq<T>, le: (T, T) -> bool)
    requires Total(le) && Transitive(le)
    requires SortedBy(s, le)
    ensures SortedBy(Insert(x, s, le), le)
  {
    if s != [] && !le(x, s[0]) {
      var t := s[1..];
      SortedTail(s, le);
      InsertSorted(x, t, le);
      var rest := Insert(x, t, le);
      assert le(s[0], x);
      forall i | 0 <= i < |rest| ensures le(s[0], rest[i]) {
        var y := rest[i];
        assert y in multiset(rest);
        if y != x {
          assert y in multiset(t);
          var k :| 0 <= k < |t| && t[k] == y;
          assert s[k + 1] == y;
        }
      }
      PrependSorted(s[0], rest, le);
    } else if s != [] {
      forall i | 0 <= i < |s| ensures le(x, s[i]) {
        if i > 0 {
          assert le(s[0], s[i]);
        }
      }
      PrependSorted(x, s, le);
    }
  }

  /** The rows after the first of an ordered sequence are ordered. */
  lemma SortedTail<T>(s: seq<T>, le: (T, T) -> bool)
    requires s != [] && SortedBy(s, le)
    ensures SortedBy(s[1..], le)
  {
    var t := s[1..];
    forall i, j | 0 <= i < j < |t| ensures le(t[i], t[j]) {
      assert t[i] == s[i + 1] && t[j] == s[j + 1];
    }
  }

  /** A row that may precede every row of an ordered sequence can go in front of it. */
  lemma PrependSorted<T>(h: T, r: seq<T>, le: (T, T) -> bool)
    requires SortedBy(r, le)
    requires forall i :: 0 <= i < |r| ==> le(h, r[i])
    ensures SortedBy([h] + r, le)
  {
    var q := [h] + r;
    forall i, j | 0 <= i < j < |q| ensures le(q[i], q[j]) {
      if i == 0 {
        assert q[j] == r[j - 1];
      } else {
        assert q[i] == r[i - 1] && q[j] == r[j - 1];
      }
    }
  }

  /** Under a total preorder, `SortBy` returns a permutation of its input that is ordered. */
  lemma {:induction false} SortBySorted<T(!new)>(s: seq<T>, le: (T, T) -> bool)
    requires Total(le) && Transitive(le)
    ensures SortedBy(SortBy(s, le), le)
    ensures multiset(SortBy(s, le)) == multiset(s)
  {
    if s != [] {
      SortBySorted(s[1..], le);
      InsertSorted(s[0], SortBy(s[1..], le), le);
    }
  }

  /** Two orderings of the same rows hold the same rows. */
  lemma SameMembers<T>(a: seq<T>, b: seq<T>)
    requires multiset(a) == multiset(b)
    ensures forall i :: 0 <= i < |a| ==> a[i] in b
    ensures forall i :: 0 <= i < |b| ==> b[i] in a
  {
    forall i | 0 <= i < |a| ensures a[i] in b {
      assert a[i] in multiset(a);
    }
    forall i | 0 <= i < |b| ensures b[i] in a {
      assert b[i] in multiset(b);
    }
  }

  // ---------------------------------------------------------------------------
  // Mapping

  /** `[f(x) for x in s]`. */
  function Map<A, B>(f: A -> B, s: seq<A>): (r: seq<B>)
    ensures |r| == |s|
    ensures forall i :: 0 <= i < |s| ==> r[i] == f(s[i])
  {
    if s == [] then [] else [f(s[0])] + Map(f, s[1..])
  }

  /** Appending one element to the input appends its image to the output. */
  lemma MapSnoc<A, B>(f: A -> B, s: seq<A>, x: A)
    ensures Map(f, s + [x]) == Map(f, s) + [f(x)]
  {
  }

  /** Mapping one more element of a prefix appends its image. */
  lemma MapTake<A, B>(f: A -> B, s: seq<A>, i: nat)
    requires i < |s|
    ensures Map(f, s[..i + 1]) == Map(f, s[..i]) + [f(s[i])]
  {
    assert s[..i + 1] == s[..i] + [s[i]];
    MapSnoc(f, s[..i], s[i]);
  }

  // ---------------------------------------------------------------------------
  // Python slicing

  /** A Python index bound for a sequence of length `n`: negative counts from
      the end, and the result is clamped to `[0, n]`. */
  function SliceBound(i: int, n: nat): (b: nat)
    ensures b <= n
    ensures 0 <= i <= n ==> b == i
  {
    if i < 0 then (if i + n < 0 then 0 else i + n) else if i > n then n else i
  }

  /** `s[start:stop]` with Python's meaning of negative and out-of-range bounds. */
  function PySlice<T>(s: seq<T>, start: int, stop: int): (r: seq<T>)
    ensures |r| <= |s|
  {
    var a := SliceBound(start, |s|);
    var b := SliceBound(stop, |s|);
    if a < b then s[a..b] else []
  }

  /** For a non-negative offset, `s[offset:offset + limit]` is the run of at most
      `limit` rows starting at `offset`. */
  lemma PySliceWindow<T>(s: seq<T>, offset: nat, limit: nat)
    ensures offset >= |s| ==> PySlice(s, offset, offset + limit) == []
    ensures offset < |s| ==>
      (PySlice(s, offset, offset + limit) == s[offset..if offset + limit <= |s| then offset + limit else |s|])
  {
  }
}
