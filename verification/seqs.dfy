/**
 * Sequence helpers standing in for the store's query primitives: `findOne` and
 * `findIndex` (first match in natural order), `find` (filter), `countDocuments`
 * (filter length) and `skip`/`limit` paging.
 */
module Seqs {
  import opened Wrappers

  /** Index of the first element satisfying `p`. */
  function FindIndex<T>(xs: seq<T>, p: T -> bool): (r: Option<nat>)
    ensures r.Some? ==> r.value < |xs| && p(xs[r.value])
    ensures r.Some? ==> forall j :: 0 <= j < r.value ==> !p(xs[j])
    ensures r.None? <==> forall j :: 0 <= j < |xs| ==> !p(xs[j])
    decreases |xs|
  {
    if |xs| == 0 then None
    else if p(xs[0]) then Some(0)
    else
      match FindIndex(xs[1..], p)
      case None => None
      case Some(i) => Some(i + 1)
  }

  /** The elements satisfying `p`, in their original order. */
  function Filter<T>(xs: seq<T>, p: T -> bool): (r: seq<T>)
    ensures |r| <= |xs|
    ensures forall i :: 0 <= i < |r| ==> r[i] in xs && p(r[i])
    ensures forall i :: 0 <= i < |xs| && p(xs[i]) ==> xs[i] in r
    decreases |xs|
  {
    if |xs| == 0 then []
    else if p(xs[0]) then [xs[0]] + Filter(xs[1..], p)
    else Filter(xs[1..], p)
  }

  /** Number of elements satisfying `p`. */
  function Count<T>(xs: seq<T>, p: T -> bool): nat
  {
    |Filter(xs, p)|
  }

  /** True when some element satisfies `p` (MongoDB's match on an array field). */
  predicate Any<T>(xs: seq<T>, p: T -> bool)
  {
    exists i :: 0 <= i < |xs| && p(xs[i])
  }

  /**
   * True when every element satisfies `p`: MongoDB's `$ne` on an array field,
   * which matches only when no element equals the value.
   */
  predicate All<T>(xs: seq<T>, p: T -> bool)
  {
    forall i :: 0 <= i < |xs| ==> p(xs[i])
  }

  /** Apply `f` to every element. */
  function MapAll<T, U>(xs: seq<T>, f: T -> U): (r: seq<U>)
    ensures |r| == |xs|
    ensures forall i :: 0 <= i < |xs| ==> r[i] == f(xs[i])
  {
    seq(|xs|, i requires 0 <= i < |xs| => f(xs[i]))
  }

  /** Apply `f` to every element satisfying `p`, leaving the others alone. */
  function MapWhere<T>(xs: seq<T>, p: T -> bool, f: T -> T): (r: seq<T>)
    ensures |r| == |xs|
    ensures forall i :: 0 <= i < |xs| ==> r[i] == (if p(xs[i]) then f(xs[i]) else xs[i])
  {
    seq(|xs|, i requires 0 <= i < |xs| => if p(xs[i]) then f(xs[i]) else xs[i])
  }

  /** Remove the first element satisfying `p` (`findOneAndDelete`). */
  function DeleteFirst<T>(xs: seq<T>, p: T -> bool): (r: seq<T>)
    ensures FindIndex(xs, p).None? ==> r == xs
    ensures FindIndex(xs, p).Some? ==>
              var i := FindIndex(xs, p).value;
              r == xs[..i] + xs[i + 1..]
  {
    match FindIndex(xs, p)
    case None => xs
    case Some(i) => xs[..i] + xs[i + 1..]
  }

  /** `skip(skip).limit(size)`: the elements from position `skip` on, at most `size` of them. */
  function Slice<T>(xs: seq<T>, skip: nat, size: nat): (r: seq<T>)
    ensures |r| <= size
    ensures skip >= |xs| ==> r == []
    ensures skip < |xs| ==> |r| == if |xs| - skip < size then |xs| - skip else size
    ensures forall i :: 0 <= i < |r| ==> skip + i < |xs| && r[i] == xs[skip + i]
  {
    if skip >= |xs| then []
    else if skip + size >= |xs| then xs[skip..]
    else xs[skip..skip + size]
  }

  /** Where a listing starts and how many elements it returns. */
  datatype Window = Window(skip: nat, size: nat)

  /**
   * The `page`/`limit` query parameters after `parseInt(x) || default`: an absent,
   * unparsable or zero value falls back to page 1 and 10 items.  A negative skip
   * is refused by the store; a negative limit returns that many elements in
   * absolute value.
   */
  function Paging(page: Option<int>, limit: Option<int>): (r: Result<Window>)
    ensures r.Ok? ==> r.value.size >= 1
    ensures r.Err? ==> r.error == Thrown
    ensures page.Some? && page.value >= 1 && limit.Some? && limit.value >= 1 ==>
              r == Ok(Window((page.value - 1) * limit.value, limit.value))
    ensures page.Some? && page.value < 0 && limit.Some? && limit.value > 0 ==> r == Err(Thrown)
    ensures page.None? && limit.None? ==> r == Ok(Window(0, 10))
  {
    var p := if page.None? || page.value == 0 then 1 else page.value;
    var l := if limit.None? || limit.value == 0 then 10 else limit.value;
    var skip := (p - 1) * l;
    if skip < 0 then Err(Thrown) else Ok(Window(skip, if l < 0 then -l else l))
  }

  /** A counted page of query results: `countDocuments(query)` and `find(query).skip().limit()`. */
  datatype Listing<T> = Listing(total: nat, items: seq<T>)

  /** How many of `total` matches a window reaches: none past the end, at most `size`. */
  function PageSize(total: nat, w: Window): nat
  {
    if total <= w.skip then 0 else if total - w.skip < w.size then total - w.skip else w.size
  }

  /** The rank of position `i` among the matches of `p`: how many elements before it match. */
  function Rank<T>(xs: seq<T>, p: T -> bool, i: nat): nat
    requires i <= |xs|
  {
    if i == 0 then 0 else Rank(xs, p, i - 1) + (if p(xs[i - 1]) then 1 else 0)
  }

  /** Dropping the head lowers every later rank by one exactly when the head matches. */
  lemma {:induction false} RankTail<T>(xs: seq<T>, p: T -> bool, i: nat)
    requires 1 <= i <= |xs|
    ensures Rank(xs, p, i) == (if p(xs[0]) then 1 else 0) + Rank(xs[1..], p, i - 1)
  {
    if i > 1 {
      RankTail(xs, p, i - 1);
      assert xs[1..][i - 2] == xs[i - 1];
    }
  }

  /**
   * `items` is the window `w` of the matches of `p` in `xs`, in their order: it
   * holds as many elements as the window reaches, and its `j`-th element is the
   * match whose rank is `w.skip + j`.
   */
  ghost predicate IsPage<T>(xs: seq<T>, p: T -> bool, w: Window, items: seq<T>)
  {
    |items| == PageSize(Count(xs, p), w) &&
    forall j :: 0 <= j < |items| ==>
      exists i :: 0 <= i < |xs| && p(xs[i]) && Rank(xs, p, i) == w.skip + j && items[j] == xs[i]
  }

  /** Ranks grow past every match, so no two matches share a rank. */
  lemma {:induction false} RankGrows<T>(xs: seq<T>, p: T -> bool, i: nat, k: nat)
    requires i < k <= |xs| && p(xs[i])
    ensures Rank(xs, p, i) < Rank(xs, p, k)
    decreases k
  {
    if k > i + 1 {
      RankGrows(xs, p, i, k - 1);
    }
  }

  /** A match sits in the filtered list at its rank. */
  lemma {:induction false} FilterRank<T>(xs: seq<T>, p: T -> bool, i: nat)
    requires i < |xs| && p(xs[i])
    ensures Rank(xs, p, i) < |Filter(xs, p)| && Filter(xs, p)[Rank(xs, p, i)] == xs[i]
    decreases |xs|
  {
    if i > 0 {
      RankTail(xs, p, i);
      FilterRank(xs[1..], p, i - 1);
    }
  }

  /** Every element of the filtered list is a match whose rank is its place. */
  lemma {:induction false} FilterHasRank<T>(xs: seq<T>, p: T -> bool, j: nat)
    requires j < |Filter(xs, p)|
    ensures exists i :: 0 <= i < |xs| && p(xs[i]) && Rank(xs, p, i) == j && Filter(xs, p)[j] == xs[i]
    decreases |xs|
  {
    var rest := xs[1..];
    if p(xs[0]) && j == 0 {
      assert Rank(xs, p, 0) == 0;
    } else {
      var j' := if p(xs[0]) then j - 1 else j;
      assert Filter(xs, p)[j] == Filter(rest, p)[j'];
      FilterHasRank(rest, p, j');
      var i' :| 0 <= i' < |rest| && p(rest[i']) && Rank(rest, p, i') == j' && Filter(rest, p)[j'] == rest[i'];
      RankTail(xs, p, i' + 1);
    }
  }

  /** The window of the filtered list is a page of the matches. */
  lemma SliceIsPage<T>(xs: seq<T>, p: T -> bool, w: Window)
    ensures IsPage(xs, p, w, Slice(Filter(xs, p), w.skip, w.size))
  {
    var items := Slice(Filter(xs, p), w.skip, w.size);
    forall j | 0 <= j < |items|
      ensures exists i :: 0 <= i < |xs| && p(xs[i]) && Rank(xs, p, i) == w.skip + j && items[j] == xs[i]
    {
      SliceEntry(xs, p, w, j);
    }
    SliceSize(Filter(xs, p), w);
    assert |items| == PageSize(Count(xs, p), w);
    assert forall j :: 0 <= j < |items| ==>
      exists i :: 0 <= i < |xs| && p(xs[i]) && Rank(xs, p, i) == w.skip + j && items[j] == xs[i];
  }

  /** The `j`-th element of a window of the filtered list is the match of rank `w.skip + j`. */
  lemma SliceEntry<T>(xs: seq<T>, p: T -> bool, w: Window, j: nat)
    requires j < |Slice(Filter(xs, p), w.skip, w.size)|
    ensures exists i :: 0 <= i < |xs| && p(xs[i]) && Rank(xs, p, i) == w.skip + j && Slice(Filter(xs, p), w.skip, w.size)[j] == xs[i]
  {
    var all := Filter(xs, p);
    assert Slice(all, w.skip, w.size)[j] == all[w.skip + j];
    FilterHasRank(xs, p, w.skip + j);
    var i :| 0 <= i < |xs| && p(xs[i]) && Rank(xs, p, i) == w.skip + j && all[w.skip + j] == xs[i];
  }

  /** A window of a list holds as many elements as it reaches. */
  lemma SliceSize<T>(xs: seq<T>, w: Window)
    ensures |Slice(xs, w.skip, w.size)| == PageSize(|xs|, w)
  {
  }

  /** A page is determined by the list, the condition and the window. */
  lemma PageUnique<T>(xs: seq<T>, p: T -> bool, w: Window, a: seq<T>, b: seq<T>)
    requires IsPage(xs, p, w, a) && IsPage(xs, p, w, b)
    ensures a == b
  {
    forall j | 0 <= j < |a|
      ensures a[j] == b[j]
    {
      var x, y := a[j], b[j];
      var i :| 0 <= i < |xs| && p(xs[i]) && Rank(xs, p, i) == w.skip + j && x == xs[i];
      var k :| 0 <= k < |xs| && p(xs[k]) && Rank(xs, p, k) == w.skip + j && y == xs[k];
      if i < k {
        RankGrows(xs, p, i, k);
      } else if k < i {
        RankGrows(xs, p, k, i);
      }
    }
  }

  /** Every match whose rank falls inside the window appears on the page, at that rank's place. */
  lemma PageHoldsMatch<T>(xs: seq<T>, p: T -> bool, w: Window, items: seq<T>, i: nat)
    requires IsPage(xs, p, w, items)
    requires i < |xs| && p(xs[i]) && w.skip <= Rank(xs, p, i) < w.skip + w.size
    ensures Rank(xs, p, i) - w.skip < |items| && items[Rank(xs, p, i) - w.skip] == xs[i]
  {
    FilterRank(xs, p, i);
    SliceIsPage(xs, p, w);
    PageUnique(xs, p, w, items, Slice(Filter(xs, p), w.skip, w.size));
  }

  /** One page of the elements satisfying `p`, with the number of all of them. */
  function ListWhere<T>(xs: seq<T>, p: T -> bool, page: Option<int>, limit: Option<int>): (r: Result<Listing<T>>)
    ensures r.Err? <==> Paging(page, limit).Err?
    ensures r.Ok? ==> r.value.total == Count(xs, p)
    ensures r.Ok? ==> IsPage(xs, p, Paging(page, limit).value, r.value.items)
    ensures r.Ok? ==> |r.value.items| <= Paging(page, limit).value.size && |r.value.items| <= r.value.total
    ensures r.Ok? ==> forall i :: 0 <= i < |r.value.items| ==> r.value.items[i] in xs && p(r.value.items[i])
  {
    var w :- Paging(page, limit);
    var all := Filter(xs, p);
    SliceIsPage(xs, p, w);
    Ok(Listing(|all|, Slice(all, w.skip, w.size)))
  }

  /** A filter that keeps everything is the identity. */
  lemma {:induction false} FilterAll<T>(xs: seq<T>, p: T -> bool)
    requires forall x :: x in xs ==> p(x)
    ensures Filter(xs, p) == xs
    decreases |xs|
  {
    if |xs| > 0 {
      FilterAll(xs[1..], p);
    }
  }

  /** A filter that keeps nothing is empty. */
  lemma {:induction false} FilterNone<T>(xs: seq<T>, p: T -> bool)
    requires forall x :: x in xs ==> !p(x)
    ensures Filter(xs, p) == []
    decreases |xs|
  {
    if |xs| > 0 {
      FilterNone(xs[1..], p);
    }
  }

  /** A filter by a stronger predicate keeps no more elements. */
  lemma {:induction false} FilterMonotone<T>(xs: seq<T>, p: T -> bool, q: T -> bool)
    requires forall x :: x in xs && p(x) ==> q(x)
    ensures Count(xs, p) <= Count(xs, q)
    decreases |xs|
  {
    if |xs| > 0 {
      FilterMonotone(xs[1..], p, q);
    }
  }

  /** Pairwise exclusive predicates split a list: their counts add up to at most its length. */
  lemma {:induction false} DisjointCounts2<T>(xs: seq<T>, p: T -> bool, q: T -> bool)
    requires forall x :: x in xs ==> !(p(x) && q(x))
    ensures Count(xs, p) + Count(xs, q) <= |xs|
    decreases |xs|
  {
    if |xs| > 0 {
      DisjointCounts2(xs[1..], p, q);
    }
  }

  /** Four pairwise exclusive predicates: their counts add up to at most the list length. */
  lemma {:induction false} DisjointCounts4<T>(xs: seq<T>, p1: T -> bool, p2: T -> bool, p3: T -> bool, p4: T -> bool)
    requires forall x :: x in xs ==> !(p1(x) && p2(x)) && !(p1(x) && p3(x)) && !(p1(x) && p4(x))
    requires forall x :: x in xs ==> !(p2(x) && p3(x)) && !(p2(x) && p4(x)) && !(p3(x) && p4(x))
    ensures Count(xs, p1) + Count(xs, p2) + Count(xs, p3) + Count(xs, p4) <= |xs|
    decreases |xs|
  {
    if |xs| > 0 {
      DisjointCounts4(xs[1..], p1, p2, p3, p4);
    }
  }

  /** Counting distributes over concatenation. */
  lemma {:induction false} CountConcat<T>(a: seq<T>, b: seq<T>, p: T -> bool)
    ensures Count(a + b, p) == Count(a, p) + Count(b, p)
    decreases |a|
  {
    if |a| == 0 {
      assert a + b == b;
    } else {
      CountConcat(a[1..], b, p);
      assert (a + b)[1..] == a[1..] + b;
    }
  }

  /** Deleting the first match removes exactly one element satisfying `p`. */
  lemma DeleteFirstCount<T>(xs: seq<T>, p: T -> bool)
    requires FindIndex(xs, p).Some?
    ensures Count(DeleteFirst(xs, p), p) + 1 == Count(xs, p)
  {
    var i := FindIndex(xs, p).value;
    var one := [xs[i]];
    assert xs == xs[..i] + (one + xs[i + 1..]);
    CountConcat(xs[..i], one + xs[i + 1..], p);
    CountConcat(one, xs[i + 1..], p);
    CountConcat(xs[..i], xs[i + 1..], p);
    assert one[1..] == [];
    assert Count(one, p) == 1;
  }

  /** The first match is determined by where it is and that nothing before it matches. */
  lemma FindIndexIs<T>(xs: seq<T>, p: T -> bool, i: nat)
    requires i < |xs| && p(xs[i])
    requires forall j :: 0 <= j < i ==> !p(xs[j])
    ensures FindIndex(xs, p) == Some(i)
  {
  }
}
