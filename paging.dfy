/**
 * `PageableMaker.makePage`: turns an offset `from` and a page size into a
 * page request, and the slicing a paged query applies to its ordered result.
 */
module Paging {
  import opened Common

  /** `PageRequest.of(number, size)`: the rows `number * size` up to `(number + 1) * size`. */
  datatype Page = Page(number: nat, size: nat)

  /**
   * Fails with `IllegalArgumentException` exactly when `from < 0` or `size < 1`;
   * otherwise the page is the one whose row range contains the offset `from`.
   * Java `Integer` division truncates; both operands are non-negative here,
   * where truncation and Dafny's division agree.
   */
  function MakePage(from: int, size: int): (r: Result<Page>)
    ensures r.Err? <==> from < 0 || size < 1
    ensures r.Err? ==> r.error == IllegalArgument
    ensures r.Ok? ==> r.value.size == size
    ensures r.Ok? ==> r.value.number * size <= from < (r.value.number + 1) * size
  {
    if from < 0 || size < 1 then Err(IllegalArgument)
    else
      var number := from / size;
      assert number * size + from % size == from;
      Ok(Page(number, size))
  }

  /** The page number is determined by its bounds: no other page contains `from`. */
  lemma {:induction false} PageNumberUnique(from: int, size: int, n: nat)
    requires size >= 1
    requires n * size <= from < (n + 1) * size
    ensures MakePage(from, size) == Ok(Page(n, size))
  {
    var m := MakePage(from, size).value.number;
    EarlierPageEndsFirst(m, n, size);
    EarlierPageEndsFirst(n, m, size);
  }

  /** A page that comes earlier ends no later than a later page starts. */
  lemma EarlierPageEndsFirst(a: nat, b: nat, size: nat)
    ensures a < b ==> (a + 1) * size <= b * size
  {
    if a < b {
      MonotoneTimes(a + 1, b, size);
    }
  }

  lemma MonotoneTimes(a: nat, b: nat, size: nat)
    requires a <= b
    ensures a * size <= b * size
  {
  }

  /** An offset inside a page rounds down to that page's first row: from = 5, size = 10 gives page 0. */
  lemma RoundsDownExample()
    ensures MakePage(5, 10) == Ok(Page(0, 10))
    ensures MakePage(25, 10) == Ok(Page(2, 10))
  {
    PageNumberUnique(5, 10, 0);
    PageNumberUnique(25, 10, 2);
  }

  /** The rows of an ordered query result that fall on page `p` (offset `number * size`, limit `size`). */
  function Slice<T>(s: seq<T>, p: Page): (r: seq<T>)
    ensures |r| <= p.size
    ensures forall i :: 0 <= i < |r| ==> p.number * p.size + i < |s| && r[i] == s[p.number * p.size + i]
    ensures p.number * p.size + p.size <= |s| ==> |r| == p.size
  {
    var lo := p.number * p.size;
    if lo >= |s| then []
    else
      var hi := if lo + p.size <= |s| then lo + p.size else |s|;
      s[lo..hi]
  }

  /** The first page of a size at least the result's length is the whole result. */
  lemma {:induction false} FirstPageIsAll<T>(s: seq<T>, size: nat)
    requires |s| <= size
    ensures Slice(s, Page(0, size)) == s
  {
    if s != [] {
      assert Slice(s, Page(0, size)) == s[0..|s|];
    }
  }
}
