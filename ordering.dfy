/**
 * The collection operations behind the derived repository queries: filtering
 * a table, ordering by a key descending (`OrderBy...Desc`), taking the single
 * match of a `findBy...` query, and listing a keyed table in id order.
 */
module Ordering {
  import opened Common

  /** The rows of `s` satisfying `p`, in table order (a `WHERE` clause). */
  function Filter<T(!new)>(s: seq<T>, p: T -> bool): (r: seq<T>)
    ensures forall x {:trigger multiset(r)[x]} :: multiset(r)[x] == if p(x) then multiset(s)[x] else 0
    ensures forall i :: 0 <= i < |r| ==> p(r[i]) && r[i] in s
    ensures |r| <= |s|
  {
    if s == [] then []
    else
      assert s == [s[0]] + s[1..];
      if p(s[0]) then [s[0]] + Filter(s[1..], p) else Filter(s[1..], p)
  }

  /** A row that satisfies the clause is selected. */
  lemma FilterSelects<T(!new)>(s: seq<T>, p: T -> bool, x: T)
    requires x in s && p(x)
    ensures x in Filter(s, p)
  {
    assert multiset(s)[x] > 0;
    assert multiset(Filter(s, p))[x] > 0;
  }

  /** Strictly increasing in `key`: table order of rows with distinct ids. */
  ghost predicate IncreasingBy<T>(s: seq<T>, key: T -> int) {
    forall i, j :: 0 <= i < j < |s| ==> key(s[i]) < key(s[j])
  }

  /** A `WHERE` clause keeps the table's order. */
  lemma {:induction false} FilterKeepsIncreasing<T(!new)>(s: seq<T>, p: T -> bool, key: T -> int)
    requires IncreasingBy(s, key)
    ensures IncreasingBy(Filter(s, p), key)
  {
    if s != [] {
      var tail := s[1..];
      assert IncreasingBy(tail, key) by {
        forall i, j | 0 <= i < j < |tail| ensures key(tail[i]) < key(tail[j]) {
          assert tail[i] == s[i + 1] && tail[j] == s[j + 1];
        }
      }
      FilterKeepsIncreasing(tail, p, key);
      var rest := Filter(tail, p);
      if p(s[0]) {
        assert Filter(s, p) == [s[0]] + rest;
        forall j | 0 <= j < |rest| ensures key(s[0]) < key(rest[j]) {
          assert rest[j] in tail;
          var k :| 0 <= k < |tail| && tail[k] == rest[j];
          assert s[k + 1] == rest[j];
        }
        PrependIncreasing(s[0], rest, key);
      } else {
        assert Filter(s, p) == rest;
      }
    }
  }

  lemma PrependIncreasing<T>(a: T, s: seq<T>, key: T -> int)
    requires IncreasingBy(s, key)
    requires forall j :: 0 <= j < |s| ==> key(a) < key(s[j])
    ensures IncreasingBy([a] + s, key)
  {
    var t := [a] + s;
    forall i, j | 0 <= i < j < |t| ensures key(t[i]) < key(t[j]) {
      assert t[j] == s[j - 1];
      if i > 0 {
        assert t[i] == s[i - 1];
      }
    }
  }

  /** Ordered by `key`, greatest first. */
  ghost predicate SortedDesc<T>(s: seq<T>, key: T -> int) {
    forall i, j :: 0 <= i < j < |s| ==> key(s[i]) >= key(s[j])
  }

  lemma PrependSorted<T>(a: T, s: seq<T>, key: T -> int)
    requires SortedDesc(s, key)
    requires s != [] ==> key(a) >= key(s[0])
    ensures SortedDesc([a] + s, key)
  {
    forall i, j | 0 <= i < j < |[a] + s| ensures key(([a] + s)[i]) >= key(([a] + s)[j]) {
      if i == 0 && j > 1 {
        assert key(s[0]) >= key(s[j - 1]);
      }
    }
  }

  /** Places `x` before the first element whose key is strictly smaller. */
  function Insert<T>(x: T, s: seq<T>, key: T -> int): (r: seq<T>)
    requires SortedDesc(s, key)
    ensures SortedDesc(r, key)
    ensures multiset(r) == multiset(s) + multiset{x}
    ensures |r| == |s| + 1
    ensures r[0] == x || (s != [] && r[0] == s[0])
  {
    if s == [] then [x]
    else if key(x) >= key(s[0]) then
      PrependSorted(x, s, key);
      [x] + s
    else
      assert s == [s[0]] + s[1..];
      var rest := Insert(x, s[1..], key);
      assert |s| > 1 ==> key(s[0]) >= key(s[1]);
      PrependSorted(s[0], rest, key);
      [s[0]] + rest
  }

  /** `ORDER BY key DESC`: a permutation of `s`, greatest key first. */
  function SortDesc<T>(s: seq<T>, key: T -> int): (r: seq<T>)
    ensures SortedDesc(r, key)
    ensures multiset(r) == multiset(s)
    ensures |r| == |s|
  {
    if s == [] then []
    else
      assert s == [s[0]] + s[1..];
      Insert(s[0], SortDesc(s[1..], key), key)
  }

  /**
   * A single-result `findBy...` query: the first row satisfying `p`, or none.
   * The source assumes at most one row matches.
   */
  function FirstMatch<T>(s: seq<T>, p: T -> bool): (r: Option<T>)
    ensures r.Some? ==> r.value in s && p(r.value)
    ensures r.None? ==> forall i :: 0 <= i < |s| ==> !p(s[i])
  {
    if s == [] then None
    else if p(s[0]) then Some(s[0])
    else FirstMatch(s[1..], p)
  }

  /** The first matching row, when every earlier row fails the clause. */
  lemma {:induction false} FirstMatchAt<T>(s: seq<T>, p: T -> bool, k: int)
    requires 0 <= k < |s| && p(s[k])
    requires forall j :: 0 <= j < k ==> !p(s[j])
    ensures FirstMatch(s, p) == Some(s[k])
  {
    if k > 0 {
      FirstMatchAt(s[1..], p, k - 1);
    }
  }

  /** The keys of `m` below `n`, in ascending order. */
  function AscendingKeys<V>(m: map<int, V>, n: int): (r: seq<int>)
    ensures forall k :: k in r <==> k in m && 0 <= k < n
    ensures forall i, j :: 0 <= i < j < |r| ==> r[i] < r[j]
    decreases if n < 0 then 0 else n
  {
    if n <= 0 then []
    else
      var below := AscendingKeys(m, n - 1);
      assert forall i :: 0 <= i < |below| ==> below[i] < n - 1 by {
        forall i | 0 <= i < |below| ensures below[i] < n - 1 {
          assert below[i] in below;
        }
      }
      below + (if n - 1 in m then [n - 1] else [])
  }

  /** The rows of a keyed table with keys below `n`, in ascending key order, each once. */
  function Rows<V>(m: map<int, V>, n: int): (r: seq<V>)
    ensures |r| == |AscendingKeys(m, n)|
    ensures forall i :: 0 <= i < |r| ==> r[i] == m[AscendingKeys(m, n)[i]]
    ensures forall k :: k in m && 0 <= k < n ==> m[k] in r
  {
    var keys := AscendingKeys(m, n);
    var r := seq(|keys|, i requires 0 <= i < |keys| => m[keys[i]]);
    assert forall k :: k in m && 0 <= k < n ==> m[k] in r by {
      forall k | k in m && 0 <= k < n ensures m[k] in r {
        var i :| 0 <= i < |keys| && keys[i] == k;
        assert r[i] == m[k];
      }
    }
    r
  }
}
