/** Pages cut out of ordered results, when every page may come from a query of its own. */
module Paging {
  import opened Text

  // ---------------------------------------------------------------- pages of one list

  /** `OFFSET offset LIMIT limit`, and Python's `items[offset:offset + limit]`. */
  function Slice<T>(s: seq<T>, offset: nat, limit: nat): seq<T> {
    if offset >= |s| then [] else if offset + limit >= |s| then s[offset..] else s[offset..offset + limit]
  }

  function PageOf<T>(s: seq<T>, page: nat, size: nat): seq<T>
    requires page >= 1
  {
    Slice(s, (page - 1) * size, size)
  }

  lemma MulStep(a: nat, size: nat)
    requires a >= 1
    ensures a * size == (a - 1) * size + size
  {
  }

  lemma {:induction false} SliceIsChunk<T>(s: seq<T>, page: nat, size: nat, offset: nat)
    requires page >= 1 && size >= 1 && offset == (page - 1) * size
    ensures Slice(s, offset, size) == if page <= |Chunks(s, size)| then Chunks(s, size)[page - 1] else []
    decreases page
  {
    hide Slice;
    if page == 1 {
      FirstSlice(s, size);
    } else {
      var rest := if |s| <= size then [] else s[size..];
      MulStep(page - 1, size);
      SliceIsChunk(rest, page - 1, size, offset - size);
      SliceShift(s, offset - size, size);
    }
  }

  lemma FirstSlice<T>(s: seq<T>, size: nat)
    requires size >= 1
    ensures Slice(s, 0, size) == if Chunks(s, size) == [] then [] else Chunks(s, size)[0]
  {
  }

  /** The pages are the chunks of the whole result, so together they are the result. */
  lemma PageIsChunk<T>(s: seq<T>, page: nat, size: nat)
    requires page >= 1 && size >= 1
    ensures PageOf(s, page, size) == if page <= |Chunks(s, size)| then Chunks(s, size)[page - 1] else []
    ensures Flat(Chunks(s, size)) == s
  {
    SliceIsChunk(s, page, size, (page - 1) * size);
    ChunksFlat(s, size);
  }

  lemma SliceShift<T>(s: seq<T>, offset: nat, size: nat)
    requires size >= 1
    ensures Slice(s, offset + size, size) == Slice(if |s| <= size then [] else s[size..], offset, size)
  {
    if |s| > size && offset + size < |s| {
      if offset + 2 * size >= |s| {
        assert s[size..][offset..] == s[offset + size..];
      } else {
        assert s[size..][offset..offset + size] == s[offset + size..offset + 2 * size];
      }
    }
  }

  /** Row `k` of the result is on page k / size + 1 and on no other. */
  lemma RowOnOnePage<T>(s: seq<T>, k: nat, page: nat, size: nat)
    requires k < |s| && page >= 1 && size >= 1
    ensures (page - 1) * size <= k < page * size <==> page == k / size + 1
    ensures page == k / size + 1 ==> k % size < |PageOf(s, page, size)| && PageOf(s, page, size)[k % size] == s[k]
  {
    DivMod(k, size);
    RowOnPage(s, k, page, size, k / size, k % size);
  }

  lemma DivMod(k: nat, size: nat)
    requires size >= 1
    ensures k == (k / size) * size + k % size
  {
  }

  lemma RowOnPage<T>(s: seq<T>, k: nat, page: nat, size: nat, q: nat, r: nat)
    requires k < |s| && page >= 1 && r < size && k == q * size + r
    ensures (page - 1) * size <= k < page * size <==> page == q + 1
    ensures page == q + 1 ==> r < |PageOf(s, page, size)| && PageOf(s, page, size)[r] == s[k]
  {
    MulStep(page, size);
    RowAt(s, k, q * size, r, size);
    if page - 1 < q {
      MulLess(page, q, size);
    } else if page - 1 > q {
      MulLess(q + 1, page - 1, size);
      MulStep(q + 1, size);
    }
  }

  lemma RowAt<T>(s: seq<T>, k: nat, offset: nat, r: nat, size: nat)
    requires k < |s| && k == offset + r && r < size
    ensures r < |Slice(s, offset, size)| && Slice(s, offset, size)[r] == s[k]
  {
  }

  lemma MulLess(a: nat, b: nat, size: nat)
    requires a <= b
    ensures a * size <= b * size
  {
  }

  // ---------------------------------------------------------------- orders a query may return

  predicate Descending<T>(key: T -> int, s: seq<T>) { forall i, j :: 0 <= i < j < |s| ==> key(s[i]) >= key(s[j]) }

  /** `ORDER BY key DESC` fixes the order of the rows up to rows with the same key. */
  ghost predicate OrderOf<T>(key: T -> int, rows: seq<T>, s: seq<T>) {
    multiset(s) == multiset(rows) && Descending(key, s)
  }

  predicate NoTies<T>(key: T -> int, s: seq<T>) { forall i, j :: 0 <= i < j < |s| ==> key(s[i]) != key(s[j]) }

  lemma SameFirst<T>(key: T -> int, a: seq<T>, b: seq<T>)
    requires multiset(a) == multiset(b) && a != [] && b != []
    requires Descending(key, a) && Descending(key, b) && NoTies(key, a)
    ensures a[0] == b[0]
  {
    assert a[0] in multiset(b) && b[0] in multiset(a);
    var i :| 0 <= i < |a| && a[i] == b[0];
    var j :| 0 <= j < |b| && b[j] == a[0];
    assert key(b[0]) >= key(b[j]) && key(a[0]) >= key(a[i]);
  }

  lemma RestSame<T>(a: seq<T>, b: seq<T>)
    requires multiset(a) == multiset(b) && a != [] && b != [] && a[0] == b[0]
    ensures multiset(a[1..]) == multiset(b[1..])
  {
    assert a == [a[0]] + a[1..] && b == [b[0]] + b[1..];
    assert multiset(a[1..]) == multiset(a) - multiset{a[0]};
  }

  lemma RestOrdered<T>(key: T -> int, a: seq<T>)
    requires a != [] && Descending(key, a)
    ensures Descending(key, a[1..]) && (NoTies(key, a) ==> NoTies(key, a[1..]))
  {
  }

  /** Without ties there is only one order. */
  lemma {:induction false} OneOrder<T>(key: T -> int, a: seq<T>, b: seq<T>)
    requires multiset(a) == multiset(b) && Descending(key, a) && Descending(key, b) && NoTies(key, a)
    ensures a == b
  {
    hide Descending, NoTies;
    assert |a| == |multiset(a)| == |multiset(b)| == |b|;
    if a != [] {
      SameFirst(key, a, b);
      RestSame(a, b);
      RestOrdered(key, a);
      RestOrdered(key, b);
      OneOrder(key, a[1..], b[1..]);
      assert a == [a[0]] + a[1..] && b == [b[0]] + b[1..];
    }
  }

  lemma CountedOnce<T>(s: seq<T>, i: nat, j: nat)
    requires i < j < |s|
    ensures multiset(s)[s[i]] >= if s[i] == s[j] then 2 else 1
  {
    assert s == s[..i] + ([s[i]] + (s[i + 1..j] + ([s[j]] + s[j + 1..])));
  }

  /** Rows without repetition have none in any order. */
  lemma {:induction false} UniqueCount<T>(s: seq<T>, x: T)
    requires Unique(s)
    ensures multiset(s)[x] <= 1
  {
    if s != [] {
      assert s == [s[0]] + s[1..];
      assert s[0] !in s[1..];
      assert Unique(s[1..]);
      UniqueCount(s[1..], x);
    }
  }

  lemma UniqueKept<T>(s: seq<T>, o: seq<T>)
    requires multiset(s) == multiset(o) && Unique(s)
    ensures Unique(o)
  {
    forall i, j | 0 <= i < j < |o| ensures o[i] != o[j] {
      UniqueCount(s, o[i]);
      CountedOnce(o, i, j);
    }
  }

  /** Rows without ties have none in any order. */
  lemma TiesKept<T>(key: T -> int, s: seq<T>, o: seq<T>)
    requires multiset(s) == multiset(o) && NoTies(key, s)
    ensures NoTies(key, o)
  {
    UniqueKept(s, o);
    forall i, j | 0 <= i < j < |o| ensures key(o[i]) != key(o[j]) {
      assert o[i] in multiset(s) && o[j] in multiset(s);
      var a :| 0 <= a < |s| && s[a] == o[i];
      var b :| 0 <= b < |s| && s[b] == o[j];
      assert a != b;
    }
  }

  // ---------------------------------------------------------------- what the first n rows are

  function From<T>(key: T -> int, least: int, s: seq<T>): seq<T> { Filter(x => key(x) >= least, s) }

  function Without<T>(s: seq<T>, i: nat): seq<T>
    requires i < |s|
  {
    s[..i] + s[i + 1..]
  }

  lemma WithoutRow<T>(s: seq<T>, i: nat)
    requires i < |s|
    ensures multiset(Without(s, i)) == multiset(s) - multiset{s[i]}
  {
    assert s == s[..i] + [s[i]] + s[i + 1..];
  }

  lemma FilterWithout<T>(p: T -> bool, s: seq<T>, i: nat)
    requires i < |s|
    ensures multiset(Filter(p, s)) == multiset(Filter(p, [s[i]])) + multiset(Filter(p, Without(s, i)))
  {
    hide Filter;
    assert s == s[..i] + ([s[i]] + s[i + 1..]);
    FilterAppend(p, s[..i], [s[i]] + s[i + 1..]);
    FilterAppend(p, [s[i]], s[i + 1..]);
    FilterAppend(p, s[..i], s[i + 1..]);
  }

  lemma SameLength<T>(a: seq<T>, b: seq<T>)
    requires multiset(a) == multiset(b)
    ensures |a| == |b|
  {
    assert |a| == |multiset(a)| == |multiset(b)| == |b|;
  }

  lemma {:induction false} FilterMultiset<T>(p: T -> bool, a: seq<T>, b: seq<T>)
    requires multiset(a) == multiset(b)
    ensures multiset(Filter(p, a)) == multiset(Filter(p, b))
    decreases |a|
  {
    hide Filter, Without;
    SameLength(a, b);
    if a == [] {
      assert b == a;
    } else {
      assert a[0] in multiset(b);
      var i :| 0 <= i < |b| && b[i] == a[0];
      WithoutRow(a, 0);
      WithoutRow(b, i);
      ShorterBy(a);
      FilterMultiset(p, Without(a, 0), Without(b, i));
      FilterWithout(p, a, 0);
      FilterWithout(p, b, i);
    }
  }

  lemma ShorterBy<T>(s: seq<T>)
    requires s != []
    ensures |Without(s, 0)| == |s| - 1
  {
  }

  /** The rows with a key of at least `least` are a prefix. */
  lemma {:induction false} FromIsPrefix<T>(key: T -> int, least: int, s: seq<T>)
    requires Descending(key, s)
    ensures |From(key, least, s)| <= |s| && From(key, least, s) == s[..|From(key, least, s)|]
    ensures forall i :: 0 <= i < |s| ==> (key(s[i]) >= least <==> i < |From(key, least, s)|)
  {
    if s != [] {
      FromIsPrefix(key, least, s[1..]);
      assert s == [s[0]] + s[1..];
      assert forall i :: 1 <= i < |s| ==> s[i] == s[1..][i - 1];
      if key(s[0]) < least {
        FilterNone(x => key(x) >= least, s);
      }
    }
  }

  /** No two neighbours at n - 1 and n with the same key. */
  predicate CutAt<T>(key: T -> int, s: seq<T>, n: nat) { 0 < n < |s| ==> key(s[n - 1]) != key(s[n]) }

  /** Every order begins with the same n rows, unless a tie lies across the cut. */
  lemma SamePrefix<T>(key: T -> int, s: seq<T>, o: seq<T>, n: nat)
    requires OrderOf(key, s, o) && Descending(key, s) && n <= |s| && CutAt(key, s, n)
    ensures |o| == |s| && multiset(o[..n]) == multiset(s[..n])
  {
    hide From, Filter;
    assert |o| == |multiset(o)| == |multiset(s)| == |s|;
    if n == 0 {
    } else if n == |s| {
      assert o[..n] == o && s[..n] == s;
    } else {
      var least := key(s[n - 1]);
      FromIsPrefix(key, least, s);
      FromIsPrefix(key, least, o);
      FromSame(key, least, s, o);
      assert !(key(s[n]) >= least);
      assert |From(key, least, s)| == n;
    }
  }

  lemma FromSame<T>(key: T -> int, least: int, s: seq<T>, o: seq<T>)
    requires multiset(s) == multiset(o)
    ensures multiset(From(key, least, s)) == multiset(From(key, least, o))
      && |From(key, least, s)| == |From(key, least, o)|
  {
    hide Filter;
    FilterMultiset(x => key(x) >= least, s, o);
    SameLength(From(key, least, s), From(key, least, o));
  }

  // ---------------------------------------------------------------- pages of different orders

  /** The pages of a result when the query for page p + 1 returns the order `orders[p]`. */
  function Pages<T>(orders: seq<seq<T>>, size: nat): seq<seq<T>> {
    seq(|orders|, p requires 0 <= p < |orders| => PageOf(orders[p], p + 1, size))
  }

  ghost predicate Orders<T>(key: T -> int, s: seq<T>, orders: seq<seq<T>>) {
    forall p :: 0 <= p < |orders| ==> OrderOf(key, s, orders[p])
  }

  function PageStart(p: nat, size: nat): nat { p * size }

  predicate NoTieAcross<T>(key: T -> int, s: seq<T>, size: nat) {
    forall p: nat :: 1 <= p <= |s| ==> CutAt(key, s, PageStart(p, size))
  }

  function Least(a: nat, b: nat): nat { if a < b then a else b }

  lemma {:induction false} ChunkCount<T>(s: seq<T>, size: nat)
    requires size >= 1
    ensures PageStart(|Chunks(s, size)|, size) >= |s| && |Chunks(s, size)| <= |s|
    ensures forall p: nat :: PageStart(p, size) < |s| ==> p < |Chunks(s, size)|
  {
    if |s| > size {
      ChunkCount(s[size..], size);
      var n := |Chunks(s[size..], size)|;
      MulStep(n + 1, size);
      forall p: nat | PageStart(p, size) < |s| ensures p < |Chunks(s, size)| {
        if p > 0 {
          MulStep(p, size);
          assert PageStart(p - 1, size) < |s| - size;
        }
      }
    } else {
      forall p: nat | PageStart(p, size) < |s| ensures p < |Chunks(s, size)| {
        if p >= 1 {
          MulLess(1, p, size);
        }
      }
    }
  }

  /** A page is the stretch of its order between two page starts. */
  lemma PageStretch<T>(o: seq<T>, p: nat, size: nat)
    requires size >= 1 && PageStart(p, size) < |o|
    ensures var lo, hi := PageStart(p, size), Least(PageStart(p + 1, size), |o|);
      lo <= hi <= |o| && PageOf(o, p + 1, size) == o[lo..hi]
  {
    MulStep(p + 1, size);
  }

  lemma PageRows<T>(key: T -> int, s: seq<T>, o: seq<T>, p: nat, size: nat)
    requires size >= 1 && PageStart(p, size) < |s| && p < |s|
    requires OrderOf(key, s, o) && Descending(key, s) && NoTieAcross(key, s, size)
    ensures var lo, hi := PageStart(p, size), Least(PageStart(p + 1, size), |s|);
      lo <= hi <= |s| && multiset(s[..lo]) + multiset(PageOf(o, p + 1, size)) == multiset(s[..hi])
  {
    hide OrderOf, Descending, PageOf;
    var lo, hi := PageStart(p, size), Least(PageStart(p + 1, size), |s|);
    MulStep(p + 1, size);
    assert p >= 1 ==> CutAt(key, s, PageStart(p, size));
    assert p == 0 ==> lo == 0;
    SamePrefix(key, s, o, lo);
    assert CutAt(key, s, PageStart(p + 1, size)) || p + 1 > |s|;
    SamePrefix(key, s, o, hi);
    PageStretch(o, p, size);
    assert o[..hi] == o[..lo] + o[lo..hi];
  }

  lemma {:induction false} PagesAgree<T>(key: T -> int, s: seq<T>, orders: seq<seq<T>>, size: nat)
    requires size >= 1 && |orders| <= |Chunks(s, size)| && Descending(key, s)
    requires Orders(key, s, orders) && NoTieAcross(key, s, size)
    ensures multiset(Flat(Pages(orders, size))) == multiset(s[..Least(PageStart(|orders|, size), |s|)])
  {
    hide OrderOf, Descending, NoTieAcross, PageOf, Chunks;
    if orders == [] {
      assert s[..Least(PageStart(0, size), |s|)] == [];
    } else {
      var n := |orders| - 1;
      var front := orders[..n];
      PagesAgree(key, s, front, size);
      ChunkCount(s, size);
      StartBefore(s, n, size);
      PageRows(key, s, orders[n], n, size);
      assert Pages(orders, size) == Pages(front, size) + [PageOf(orders[n], n + 1, size)];
      FlatSnoc(Pages(front, size), PageOf(orders[n], n + 1, size));
    }
  }

  lemma {:induction false} StartBefore<T>(s: seq<T>, p: nat, size: nat)
    requires size >= 1 && p < |Chunks(s, size)|
    ensures PageStart(p, size) < |s|
  {
    if p > 0 {
      MulStep(p, size);
      StartBefore(s[size..], p - 1, size);
    }
  }

  function Swapped<T>(s: seq<T>, n: nat): seq<T>
    requires 0 < n < |s|
  {
    s[n - 1 := s[n]][n := s[n - 1]]
  }

  lemma SwappedIsOrder<T>(key: T -> int, s: seq<T>, n: nat)
    requires 0 < n < |s| && Descending(key, s) && key(s[n - 1]) == key(s[n])
    ensures OrderOf(key, s, Swapped(s, n))
  {
    var t := Swapped(s, n);
    assert multiset(t) == multiset(s);
  }

  lemma {:induction false} InFlat<T>(parts: seq<seq<T>>, x: T)
    requires x in Flat(parts)
    ensures exists p :: 0 <= p < |parts| && x in parts[p]
  {
    if x !in parts[0] {
      InFlat(parts[1..], x);
      var p :| 0 <= p < |parts| - 1 && x in parts[1..][p];
      assert parts[p + 1] == parts[1..][p];
    }
  }

  /** The queries up to page p return one order, the later ones the order with the tie at the page end swapped. */
  function TiedOrders<T>(s: seq<T>, p: nat, size: nat, count: nat): seq<seq<T>>
    requires 0 < PageStart(p, size) < |s|
  {
    seq(count, q => if q < p then s else Swapped(s, PageStart(p, size)))
  }

  lemma RowLost<T>(s: seq<T>, p: nat, size: nat, count: nat, q: nat)
    requires size >= 1 && 0 < PageStart(p, size) < |s| && Unique(s) && q < count && PageStart(q, size) < |s|
    ensures s[PageStart(p, size)] !in Pages(TiedOrders(s, p, size, count), size)[q]
  {
    hide Unique, PageOf, Swapped;
    var n := PageStart(p, size);
    SwappedLength(s, n);
    if q < p {
      MulLess(q + 1, p, size);
      PageStretch(s, q, size);
      StretchAvoids(s, n, PageStart(q, size), Least(PageStart(q + 1, size), |s|));
    } else {
      MulLess(p, q, size);
      PageStretch(Swapped(s, n), q, size);
      SwappedAvoids(s, n, PageStart(q, size), Least(PageStart(q + 1, size), |s|));
    }
  }

  lemma SwappedLength<T>(s: seq<T>, n: nat)
    requires 0 < n < |s|
    ensures |Swapped(s, n)| == |s|
  {
  }

  lemma StretchAvoids<T>(s: seq<T>, n: nat, lo: nat, hi: nat)
    requires Unique(s) && lo <= hi <= n < |s|
    ensures s[n] !in s[lo..hi]
  {
    forall i | lo <= i < hi ensures s[i] != s[n] {
    }
  }

  lemma SwappedAvoids<T>(s: seq<T>, n: nat, lo: nat, hi: nat)
    requires Unique(s) && 0 < n <= lo <= hi <= |s| && n < |s|
    ensures |Swapped(s, n)| == |s| && s[n] !in Swapped(s, n)[lo..hi]
  {
    forall i | lo <= i < hi ensures Swapped(s, n)[i] != s[n] {
      assert i > n ==> s[i] != s[n];
    }
  }

  /** Pages of separate queries show every row exactly once, whatever they do with ties. */
  ghost predicate EveryRowOnce<T(!new)>(key: T -> int, s: seq<T>, size: nat)
    requires size >= 1
  {
    forall orders :: |orders| == |Chunks(s, size)| && Orders(key, s, orders) ==> Shows(s, orders, size)
  }

  ghost predicate Shows<T>(s: seq<T>, orders: seq<seq<T>>, size: nat) {
    multiset(Flat(Pages(orders, size))) == multiset(s)
  }

  lemma TieLosesARow<T(!new)>(key: T -> int, s: seq<T>, size: nat, p: nat)
    requires size >= 1 && Descending(key, s) && Unique(s) && 1 <= p <= |s| && !CutAt(key, s, PageStart(p, size))
    ensures !EveryRowOnce(key, s, size)
  {
    hide OrderOf, Chunks;
    var n, count := PageStart(p, size), |Chunks(s, size)|;
    var orders := TiedOrders(s, p, size, count);
    SwappedIsOrder(key, s, n);
    OwnOrder(key, s);
    assert Orders(key, s, orders);
    if Shows(s, orders, size) {
      assert s[n] in multiset(s);
      assert s[n] in Flat(Pages(orders, size));
      InFlat(Pages(orders, size), s[n]);
      var q :| 0 <= q < count && s[n] in Pages(orders, size)[q];
      StartBefore(s, q, size);
      RowLost(s, p, size, count, q);
      assert false;
    }
  }

  lemma OwnOrder<T>(key: T -> int, s: seq<T>)
    requires Descending(key, s)
    ensures OrderOf(key, s, s)
  {
  }

  /**
   * When every page is a query of its own, each row is on exactly one page for all orders the database may
   * return, if and only if no two rows with the same key lie on either side of a page end.
   */
  lemma PagesPartitionExactly<T(!new)>(key: T -> int, s: seq<T>, size: nat)
    requires size >= 1 && Descending(key, s) && Unique(s)
    ensures EveryRowOnce(key, s, size) <==> NoTieAcross(key, s, size)
  {
    hide Descending, Unique, Chunks, Orders;
    if NoTieAcross(key, s, size) {
      ChunkCount(s, size);
      forall orders | |orders| == |Chunks(s, size)| && Orders(key, s, orders) ensures Shows(s, orders, size) {
        PagesAgree(key, s, orders, size);
        assert s[..|s|] == s;
      }
    } else {
      var p: nat :| 1 <= p <= |s| && !CutAt(key, s, PageStart(p, size));
      TieLosesARow(key, s, size, p);
    }
  }
}
