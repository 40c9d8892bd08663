/**
  The library sort the source uses with a numeric key: stable, highest key
  first. Triage orders files by risk with it, the per-lens bound findings by severity.
 */
module RankSort {
  import opened Wrappers

  function Insert<T>(x: (T, int), s: seq<(T, int)>): seq<(T, int)> {
    if s == [] || s[0].1 <= x.1 then [x] + s else [s[0]] + Insert(x, s[1..])
  }

  /** Highest rank first; equal ranks keep their order. */
  function SortByRank<T>(s: seq<(T, int)>): seq<(T, int)> {
    if s == [] then [] else Insert(s[0], SortByRank(s[1..]))
  }

  predicate Descending<T>(s: seq<(T, int)>) {
    forall i, j :: 0 <= i < j < |s| ==> s[i].1 >= s[j].1
  }

  function OfRank<T>(s: seq<(T, int)>, rank: int): seq<(T, int)> {
    if s == [] then [] else (if s[0].1 == rank then [s[0]] else []) + OfRank(s[1..], rank)
  }

  lemma DescendingCons<T>(x: (T, int), s: seq<(T, int)>)
    requires Descending(s) && forall i :: 0 <= i < |s| ==> x.1 >= s[i].1
    ensures Descending([x] + s)
  {
  }

  lemma {:induction false} InsertSorts<T>(x: (T, int), s: seq<(T, int)>)
    requires Descending(s)
    ensures Descending(Insert(x, s))
    ensures multiset(Insert(x, s)) == multiset{x} + multiset(s)
  {
    if s != [] && s[0].1 > x.1 {
      InsertSorts(x, s[1..]);
      assert s == [s[0]] + s[1..];
      var t := Insert(x, s[1..]);
      forall i | 0 <= i < |t|
        ensures s[0].1 >= t[i].1
      {
        assert t[i] in multiset(t);
        assert t[i] == x || t[i] in s[1..];
      }
      DescendingCons(s[0], t);
    } else if s != [] {
      DescendingCons(x, s);
    }
  }

  lemma {:induction false} InsertIsStable<T>(x: (T, int), s: seq<(T, int)>, rank: int)
    requires Descending(s)
    ensures OfRank(Insert(x, s), rank) == (if x.1 == rank then [x] else []) + OfRank(s, rank)
  {
    if s != [] && s[0].1 > x.1 {
      var more := Insert(x, s[1..]);
      assert Insert(x, s) == [s[0]] + more && s == [s[0]] + s[1..];
      hide Insert, OfRank;
      InsertIsStable(x, s[1..], rank);
      OfRankCons(s[0], more, rank);
      OfRankCons(s[0], s[1..], rank);
    } else {
      assert Insert(x, s) == [x] + s;
      hide Insert, OfRank;
      OfRankCons(x, s, rank);
    }
  }

  lemma OfRankCons<T>(x: (T, int), s: seq<(T, int)>, rank: int)
    ensures OfRank([x] + s, rank) == (if x.1 == rank then [x] else []) + OfRank(s, rank)
  {
    assert ([x] + s)[1..] == s;
  }

  /** The sort is a stable permutation into descending rank. */
  lemma {:induction false} SortIsStable<T>(s: seq<(T, int)>, rank: int)
    ensures Descending(SortByRank(s)) && multiset(SortByRank(s)) == multiset(s)
    ensures OfRank(SortByRank(s), rank) == OfRank(s, rank)
  {
    if s != [] {
      SortIsStable(s[1..], rank);
      InsertSorts(s[0], SortByRank(s[1..]));
      InsertIsStable(s[0], SortByRank(s[1..]), rank);
      assert s == [s[0]] + s[1..];
    }
  }

  /** A place in a list, and its rank. */
  type Rung = (nat, int)

  /** Higher ranks first, and among equal ranks the lower place. */
  predicate Ahead(a: Rung, b: Rung) { a.1 > b.1 || (a.1 == b.1 && a.0 < b.0) }

  predicate InOrder(s: seq<Rung>) {
    forall i, j :: 0 <= i < j < |s| ==> Ahead(s[i], s[j])
  }

  lemma InOrderCons(x: Rung, s: seq<Rung>)
    requires InOrder(s) && forall p :: p in s ==> Ahead(x, p)
    ensures InOrder([x] + s)
  {
    hide Ahead;
  }

  lemma {:induction false} InsertKeepsOrder(x: Rung, s: seq<Rung>)
    requires InOrder(s) && forall p :: p in s ==> x.0 < p.0
    ensures InOrder(Insert<nat>(x, s)) && forall p :: p in Insert<nat>(x, s) <==> p == x || p in s
  {
    if s == [] {
    } else {
      assert s == [s[0]] + s[1..];
      forall p | p in s[1..]
        ensures Ahead(s[0], p)
      {
        var i :| 0 < i < |s| && s[i] == p;
      }
      if s[0].1 <= x.1 {
        assert forall p :: p in s ==> Ahead(x, p);
        InOrderCons(x, s);
      } else {
        InsertKeepsOrder(x, s[1..]);
        InOrderCons(s[0], Insert<nat>(x, s[1..]));
      }
    }
  }

  /** Places in ascending order are sorted by rank, and by place where ranks are equal. */
  lemma {:induction false} SortOrders(s: seq<Rung>)
    requires forall i, j :: 0 <= i < j < |s| ==> s[i].0 < s[j].0
    ensures InOrder(SortByRank<nat>(s)) && forall p :: p in SortByRank<nat>(s) <==> p in s
  {
    hide Insert, InOrder;
    if s != [] {
      SortOrders(s[1..]);
      assert s == [s[0]] + s[1..];
      forall p | p in s[1..]
        ensures s[0].0 < p.0
      {
        var i :| 0 < i < |s| && s[i] == p;
      }
      InsertKeepsOrder(s[0], SortByRank<nat>(s[1..]));
    } else {
      NothingInOrder();
    }
  }

  lemma NothingInOrder()
    ensures InOrder([])
  {
  }

  predicate Within(places: seq<Rung>, n: nat) { forall p :: p in places ==> p.0 < n }

  /** The items at the places, ranked as the places are. */
  function Placed<T>(s: seq<T>, places: seq<Rung>): (r: seq<(T, int)>)
    requires Within(places, |s|)
    ensures |r| == |places| && forall i :: 0 <= i < |r| ==> places[i].0 < |s| && r[i] == (s[places[i].0], places[i].1)
  {
    if places == [] then [] else [(s[places[0].0], places[0].1)] + Placed(s, places[1..])
  }

  lemma {:induction false} InsertPlaced<T>(s: seq<T>, x: Rung, places: seq<Rung>)
    requires x.0 < |s| && Within(places, |s|)
    ensures Within(Insert<nat>(x, places), |s|)
    ensures Placed(s, Insert<nat>(x, places)) == Insert((s[x.0], x.1), Placed(s, places))
  {
    if places != [] && places[0].1 > x.1 {
      InsertPlaced(s, x, places[1..]);
    }
  }

  /** Sorting the items is sorting their places. */
  lemma {:induction false} SortPlaced<T>(s: seq<T>, places: seq<Rung>)
    requires Within(places, |s|)
    ensures Within(SortByRank<nat>(places), |s|)
    ensures Placed(s, SortByRank<nat>(places)) == SortByRank(Placed(s, places))
  {
    if places != [] {
      SortPlaced(s, places[1..]);
      InsertPlaced(s, places[0], SortByRank<nat>(places[1..]));
    }
  }

  function Items<T>(s: seq<(T, int)>): seq<T> {
    if s == [] then [] else [s[0].0] + Items(s[1..])
  }

  lemma {:induction false} InsertKeepsItems<T>(x: (T, int), s: seq<(T, int)>)
    ensures multiset(Items(Insert(x, s))) == multiset{x.0} + multiset(Items(s))
  {
    if s != [] && s[0].1 > x.1 {
      InsertKeepsItems(x, s[1..]);
      DropFirst(s[0], Insert(x, s[1..]));
    } else {
      DropFirst(x, s);
    }
  }

  lemma {:induction false} SortKeepsItems<T>(s: seq<(T, int)>)
    ensures multiset(Items(SortByRank(s))) == multiset(Items(s))
  {
    if s != [] {
      SortKeepsItems(s[1..]);
      InsertKeepsItems(s[0], SortByRank(s[1..]));
    }
  }

  lemma {:induction false} ItemsConcat<T>(a: seq<(T, int)>, b: seq<(T, int)>)
    ensures Items(a + b) == Items(a) + Items(b)
  {
    if a == [] {
      assert a + b == b;
    } else {
      assert (a + b)[1..] == a[1..] + b;
      ItemsConcat(a[1..], b);
    }
  }
}
