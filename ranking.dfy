/** `Object.entries(counts).sort((a, b) => b[1] - a[1]).slice(0, limit)`:
    `Array.prototype.sort` is stable, so the entries are ordered by descending
    count and entries with equal counts keep their table order. The sort is
    modelled as a stable insertion sort. */
module Ranking {
  import opened Frequency

  ghost predicate NonIncreasing(es: seq<Entry>) {
    forall i, j :: 0 <= i < j < |es| ==> es[i].count >= es[j].count
  }

  /** Insert `e` in front of the first entry whose count is not larger. */
  function Insert(e: Entry, sorted: seq<Entry>): (r: seq<Entry>)
    ensures |r| == |sorted| + 1
    ensures forall x :: x in r <==> x == e || x in sorted
  {
    if sorted == [] || sorted[0].count <= e.count then [e] + sorted
    else [sorted[0]] + Insert(e, sorted[1..])
  }

  lemma {:induction false} InsertPermutes(e: Entry, sorted: seq<Entry>)
    ensures multiset(Insert(e, sorted)) == multiset(sorted) + multiset{e}
  {
    if sorted != [] && sorted[0].count > e.count {
      InsertPermutes(e, sorted[1..]);
      assert sorted == [sorted[0]] + sorted[1..];
    }
  }

  lemma {:induction false} InsertKeepsOrder(e: Entry, sorted: seq<Entry>)
    requires NonIncreasing(sorted)
    ensures NonIncreasing(Insert(e, sorted))
  {
    if sorted != [] && sorted[0].count > e.count {
      InsertKeepsOrder(e, sorted[1..]);
      var r := Insert(e, sorted);
      forall j | 0 < j < |r| ensures r[0].count >= r[j].count {
        assert r[j] in Insert(e, sorted[1..]);
      }
    }
  }

  /** `sort((a, b) => b[1] - a[1])`, as a stable insertion sort. */
  function SortByCount(es: seq<Entry>): (r: seq<Entry>)
    ensures |r| == |es|
  {
    if es == [] then [] else Insert(es[0], SortByCount(es[1..]))
  }

  /** The sorted table is a permutation of the table, in descending order of count. */
  lemma {:induction false} SortByCountSorts(es: seq<Entry>)
    ensures multiset(SortByCount(es)) == multiset(es)
    ensures NonIncreasing(SortByCount(es))
  {
    if es != [] {
      var rest := SortByCount(es[1..]);
      SortByCountSorts(es[1..]);
      InsertPermutes(es[0], rest);
      InsertKeepsOrder(es[0], rest);
      assert es == [es[0]] + es[1..];
    }
  }

  ghost predicate OrderedBy(key: Entry -> int, es: seq<Entry>) {
    forall i, j :: 0 <= i < j < |es| ==> key(es[i]) < key(es[j])
  }

  /** Entries with equal counts appear in increasing order of `key`. */
  ghost predicate TiesOrderedBy(key: Entry -> int, es: seq<Entry>) {
    forall i, j :: 0 <= i < j < |es| && es[i].count == es[j].count ==> key(es[i]) < key(es[j])
  }

  /** `TiesOrderedBy`, stated head first. */
  ghost predicate TiesOrderedFrom(key: Entry -> int, es: seq<Entry>) {
    es != [] ==>
      && (forall x :: x in es[1..] && x.count == es[0].count ==> key(es[0]) < key(x))
      && TiesOrderedFrom(key, es[1..])
  }

  lemma {:induction false} TiesOrderedFromAll(key: Entry -> int, es: seq<Entry>)
    requires TiesOrderedFrom(key, es)
    ensures TiesOrderedBy(key, es)
  {
    if es != [] {
      TiesOrderedFromAll(key, es[1..]);
      forall i, j | 0 <= i < j < |es| && es[i].count == es[j].count ensures key(es[i]) < key(es[j]) {
        if i == 0 {
          assert es[j] in es[1..];
        } else {
          assert es[i] == es[1..][i - 1] && es[j] == es[1..][j - 1];
        }
      }
    }
  }

  lemma {:induction false} InsertKeepsTieOrder(key: Entry -> int, e: Entry, sorted: seq<Entry>)
    requires TiesOrderedFrom(key, sorted)
    requires forall x :: x in sorted ==> key(e) < key(x)
    ensures TiesOrderedFrom(key, Insert(e, sorted))
  {
    if sorted == [] || sorted[0].count <= e.count {
      assert Insert(e, sorted)[1..] == sorted;
    } else {
      InsertKeepsTieOrder(key, e, sorted[1..]);
      assert Insert(e, sorted)[1..] == Insert(e, sorted[1..]);
    }
  }

  lemma {:induction false} SortKeepsTieOrderFrom(key: Entry -> int, es: seq<Entry>)
    requires OrderedBy(key, es)
    ensures TiesOrderedFrom(key, SortByCount(es))
  {
    if es != [] {
      SortKeepsTieOrderFrom(key, es[1..]);
      SortByCountSorts(es[1..]);
      var rest := SortByCount(es[1..]);
      forall x | x in rest ensures key(es[0]) < key(x) {
        assert x in multiset(es[1..]);
        var k :| 0 <= k < |es[1..]| && es[1..][k] == x;
        assert es[k + 1] == x;
      }
      InsertKeepsTieOrder(key, es[0], rest);
    }
  }

  /** The sort is stable: entries of equal count keep the order they had. */
  lemma SortKeepsTieOrder(key: Entry -> int, es: seq<Entry>)
    requires OrderedBy(key, es)
    ensures TiesOrderedBy(key, SortByCount(es))
  {
    SortKeepsTieOrderFrom(key, es);
    TiesOrderedFromAll(key, SortByCount(es));
  }

  function Min(a: nat, b: nat): nat {
    if a <= b then a else b
  }

  /** `sort(...).slice(0, limit)` */
  function Top(es: seq<Entry>, limit: nat): (r: seq<Entry>)
    ensures |r| == Min(limit, |es|)
  {
    SortByCount(es)[..Min(limit, |es|)]
  }

  /** The first `min(limit, |es|)` entries of the full ordering: in descending
      order of count, taken from the table, and no entry left out has a larger
      count than one kept. */
  lemma TopIsBest(es: seq<Entry>, limit: nat)
    ensures |Top(es, limit)| == Min(limit, |es|)
    ensures NonIncreasing(Top(es, limit))
    ensures forall x :: x in Top(es, limit) ==> x in es
    ensures forall x, i :: x in es && x !in Top(es, limit) && 0 <= i < |Top(es, limit)| ==>
              Top(es, limit)[i].count >= x.count
  {
    var sorted := SortByCount(es);
    SortByCountSorts(es);
    var r := Top(es, limit);
    forall x | x in r ensures x in es {
      assert x in multiset(sorted);
    }
    forall x, i | x in es && x !in r && 0 <= i < |r| ensures r[i].count >= x.count {
      assert x in multiset(sorted);
      var j :| 0 <= j < |sorted| && sorted[j] == x;
      assert j >= |r|;
    }
  }

  /** In a table whose ties are ordered by `key`, an entry beyond the first `n`
      comes after every entry of equal count among the first `n`. */
  lemma TiesAcrossCut(key: Entry -> int, sorted: seq<Entry>, n: nat, x: Entry, i: nat)
    requires TiesOrderedBy(key, sorted) && n <= |sorted|
    requires x in sorted && x !in sorted[..n] && i < n && sorted[i].count == x.count
    ensures key(sorted[i]) < key(x)
  {
    var j :| 0 <= j < |sorted| && sorted[j] == x;
    assert j >= n;
  }

  /** Taking a prefix keeps the tie order of the sorted table, and at the cut
      every entry kept comes before every entry of equal count left out: the
      prefix is the first entries of the order by count, then by `key`. */
  lemma TopKeepsTieOrder(key: Entry -> int, es: seq<Entry>, limit: nat)
    requires OrderedBy(key, es)
    ensures TiesOrderedBy(key, Top(es, limit))
    ensures forall x, i ::
              (x in es && x !in Top(es, limit) && 0 <= i < |Top(es, limit)| && Top(es, limit)[i].count == x.count) ==>
              key(Top(es, limit)[i]) < key(x)
  {
    var sorted := SortByCount(es);
    var r := Top(es, limit);
    SortByCountSorts(es);
    SortKeepsTieOrder(key, es);
    forall x, i | x in es && x !in r && 0 <= i < |r| && r[i].count == x.count
      ensures key(r[i]) < key(x)
    {
      assert x in multiset(sorted);
      TiesAcrossCut(key, sorted, |r|, x, i);
    }
  }
}
