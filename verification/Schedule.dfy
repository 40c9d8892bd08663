/** The order of a fan-out: what may start when, whatever finishes first (`_fan_out` in `engine/engine.py`). */
module Schedule {
  import opened Wrappers

  /** How many calls each batch has and whether its first one runs alone to warm the cache. */
  datatype Batch = Batch(warm: bool, size: nat)

  function Offset(bs: seq<Batch>, b: nat): nat
    requires b <= |bs|
  {
    if b == 0 then 0 else Offset(bs, b - 1) + bs[b - 1].size
  }

  lemma {:induction false} OffsetsAscend(bs: seq<Batch>, a: nat, b: nat)
    requires a <= b <= |bs|
    ensures Offset(bs, a) <= Offset(bs, b)
    decreases b - a
  {
    if a < b {
      OffsetsAscend(bs, a, b - 1);
    }
  }

  /** Every call belongs to a batch. */
  lemma {:induction false} BatchOf(bs: seq<Batch>, n: nat, i: nat) returns (b: nat)
    requires n <= |bs| && i < Offset(bs, n)
    ensures b < n && Offset(bs, b) <= i < Offset(bs, b + 1)
  {
    if Offset(bs, n - 1) <= i {
      b := n - 1;
    } else {
      b := BatchOf(bs, n - 1, i);
    }
  }

  lemma OneBatch(bs: seq<Batch>, a: nat, b: nat, i: nat)
    requires a < |bs| && b < |bs|
    requires Offset(bs, a) <= i < Offset(bs, a + 1) && Offset(bs, b) <= i < Offset(bs, b + 1)
    ensures a == b
  {
    if a < b {
      OffsetsAscend(bs, a + 1, b);
    } else if b < a {
      OffsetsAscend(bs, b + 1, a);
    }
  }

  function Range(lo: nat, hi: nat): (r: seq<nat>)
    requires lo <= hi
    ensures forall i :: i in r <==> lo <= i < hi
    decreases hi - lo
  {
    if lo == hi then [] else [lo] + Range(lo + 1, hi)
  }

  /** The scheduler's books: what runs, which runs are primers, what waits for one, and what has finished. */
  datatype Books = Books(pending: set<nat>, primers: map<nat, nat>, deferred: map<nat, seq<nat>>, finished: set<nat>)

  /** One batch: either its primer runs and all the rest waits, or nothing waits. */
  ghost predicate Orderly(bs: seq<Batch>, q: Books, b: nat)
    requires b < |bs|
  {
    var lo, hi := Offset(bs, b), Offset(bs, b + 1);
    if b in q.deferred then
      && bs[b].warm && lo < hi && lo in q.pending && lo in q.primers && q.primers[lo] == b && q.deferred[b] == Range(lo + 1, hi)
      && forall i :: lo < i < hi ==> i !in q.pending && i !in q.finished
    else
      forall i :: lo <= i < hi ==> i in q.pending || i in q.finished
  }

  /** The first `n` batches are submitted and in order; running and finished calls are apart and among theirs. */
  ghost predicate Consistent(bs: seq<Batch>, n: nat, q: Books)
    requires n <= |bs|
  {
    && (forall b :: 0 <= b < n ==> Orderly(bs, q, b))
    && (forall b :: b in q.deferred ==> b < n)
    && (forall i :: i in q.primers ==> i in q.pending && q.primers[i] in q.deferred
                                       && q.primers[i] < n && Offset(bs, q.primers[i]) == i)
    && q.pending !! q.finished
    && (forall i :: i in q.pending || i in q.finished ==> i < Offset(bs, n))
  }

  /** A call waits when its batch is still deferred and it is not the primer. */
  predicate Waits(q: Books, i: nat) {
    exists b :: b in q.deferred && i in q.deferred[b]
  }

  /** Running, waiting and finished calls partition all calls, and a call waits only while its primer runs. */
  lemma Partition(bs: seq<Batch>, q: Books, i: nat)
    requires Consistent(bs, |bs|, q)
    ensures i < Offset(bs, |bs|) <==> i in q.pending || i in q.finished || Waits(q, i)
    ensures !(i in q.pending && i in q.finished)
    ensures Waits(q, i) ==> i !in q.pending && i !in q.finished
                            && exists b :: 0 <= b < |bs| && Offset(bs, b) < i < Offset(bs, b + 1) && Offset(bs, b) in q.pending
  {
    if i < Offset(bs, |bs|) {
      InSomeState(bs, q, i);
    }
    if Waits(q, i) {
      var b :| b in q.deferred && i in q.deferred[b];
      assert Orderly(bs, q, b);
      OffsetsAscend(bs, b + 1, |bs|);
    }
  }

  lemma InSomeState(bs: seq<Batch>, q: Books, i: nat)
    requires Consistent(bs, |bs|, q) && i < Offset(bs, |bs|)
    ensures i in q.pending || i in q.finished || Waits(q, i)
  {
    var b := BatchOf(bs, |bs|, i);
    hide Offset;
    assert Orderly(bs, q, b);
  }

  /** Nothing running means nothing waiting: the loop cannot stall. */
  lemma NoStall(bs: seq<Batch>, q: Books)
    requires Consistent(bs, |bs|, q) && q.pending == {}
    ensures q.deferred == map[] && forall i :: 0 <= i < Offset(bs, |bs|) ==> i in q.finished
  {
    forall b | b in q.deferred
      ensures Offset(bs, b) in q.pending
    {
      assert Orderly(bs, q, b);
    }
    assert forall b :: b !in q.deferred;
    forall i | 0 <= i < Offset(bs, |bs|)
      ensures i in q.finished
    {
      Partition(bs, q, i);
    }
  }

  /** The books after submitting batch `n`. */
  function Submit(bs: seq<Batch>, q: Books, n: nat): Books
    requires n < |bs| && (bs[n].warm ==> bs[n].size > 0)
  {
    var lo, hi := Offset(bs, n), Offset(bs, n + 1);
    if bs[n].warm then
      q.(pending := q.pending + {lo}, primers := q.primers[lo := n], deferred := q.deferred[n := Range(lo + 1, hi)])
    else
      q.(pending := q.pending + (set i | i in Range(lo, hi)))
  }

  lemma SubmitKeeps(bs: seq<Batch>, q: Books, n: nat)
    requires n < |bs| && Consistent(bs, n, q) && (bs[n].warm ==> bs[n].size > 0)
    ensures Consistent(bs, n + 1, Submit(bs, q, n))
  {
    var q' := Submit(bs, q, n);
    forall b | 0 <= b < n + 1
      ensures Orderly(bs, q', b)
    {
      if b < n {
        assert Orderly(bs, q, b);
        OffsetsAscend(bs, b + 1, n);
      }
    }
  }

  /** The books after call `i` finished: a primer releases its batch. */
  function Finish(q: Books, i: nat): Books {
    var q := q.(pending := q.pending - {i}, finished := q.finished + {i});
    if i in q.primers && q.primers[i] in q.deferred then
      var b := q.primers[i];
      q.(primers := q.primers - {i}, pending := q.pending + (set j | j in q.deferred[b]), deferred := q.deferred - {b})
    else
      q.(primers := q.primers - {i})
  }

  lemma FinishKeeps(bs: seq<Batch>, q: Books, i: nat)
    requires Consistent(bs, |bs|, q) && i in q.pending
    ensures Consistent(bs, |bs|, Finish(q, i))
    ensures i in Finish(q, i).finished && q.finished < Finish(q, i).finished
  {
    var q' := Finish(q, i);
    if i in q.primers {
      assert Orderly(bs, q, q.primers[i]);
      ReleaseKeeps(bs, q, i);
    } else {
      forall b | 0 <= b < |bs|
        ensures Orderly(bs, q', b)
      {
        assert Orderly(bs, q, b);
      }
    }
  }

  lemma ReleaseKeeps(bs: seq<Batch>, q: Books, i: nat)
    requires Consistent(bs, |bs|, q) && i in q.pending && i in q.primers
    ensures Consistent(bs, |bs|, Finish(q, i))
  {
    var q' := Finish(q, i);
    var own := q.primers[i];
    assert Orderly(bs, q, own);
    OffsetsAscend(bs, own + 1, |bs|);
    forall b | 0 <= b < |bs|
      ensures Orderly(bs, q', b)
    {
      assert Orderly(bs, q, b);
      if b < own {
        OffsetsAscend(bs, b + 1, own);
      } else if own < b {
        OffsetsAscend(bs, own + 1, b);
      }
    }
  }

  // ---------------------------------------------------------------------
  // Who waited for whom
  // ---------------------------------------------------------------------

  /** When each call was submitted, as the number of calls that had finished by then. */
  type Releases = map<nat, nat>

  /**
    `order` is the order the calls finished in. No call finished before it was
    submitted, no follower of a warmed batch was submitted before its primer had
    finished, and every other call was submitted before anything finished.
   */
  ghost predicate Waited(bs: seq<Batch>, order: seq<nat>, released: Releases) {
    && (forall i :: i in released ==> released[i] <= |order| && i !in order[..released[i]])
    && (forall b, i :: 0 <= b < |bs| && Offset(bs, b) <= i < Offset(bs, b + 1) && i in released ==>
          if bs[b].warm && i != Offset(bs, b) then Offset(bs, b) in order[..released[i]] else released[i] == 0)
  }

  /** At first all is submitted but the followers of the warmed batches. */
  lemma WaitedAtFirst(bs: seq<Batch>, q: Books, released: Releases)
    requires Consistent(bs, |bs|, q) && q.finished == {}
    requires forall b :: 0 <= b < |bs| && bs[b].warm ==> b in q.deferred
    requires released.Keys == q.pending && forall i :: i in released ==> released[i] == 0
    ensures Waited(bs, [], released)
  {
    forall b, i | 0 <= b < |bs| && Offset(bs, b) <= i < Offset(bs, b + 1) && i in released
      ensures !(bs[b].warm && i != Offset(bs, b))
    {
      assert Orderly(bs, q, b);
    }
  }

  function Release(q: Books, q': Books, released: Releases, now: nat): Releases {
    map i | i in q'.pending + q'.finished :: if i in released then released[i] else now
  }

  /** One completion later: whoever is released now waited for the call that just finished. */
  lemma {:induction false} WaitedNext(bs: seq<Batch>, q: Books, order: seq<nat>, released: Releases, i: nat)
    requires Consistent(bs, |bs|, q) && i in q.pending
    requires released.Keys == q.pending + q.finished && Waited(bs, order, released)
    requires forall j :: j in order <==> j in q.finished
    ensures Waited(bs, order + [i], Release(q, Finish(q, i), released, |order| + 1))
    ensures Release(q, Finish(q, i), released, |order| + 1).Keys == Finish(q, i).pending + Finish(q, i).finished
  {
    var q', order' := Finish(q, i), order + [i];
    var released' := Release(q, q', released, |order| + 1);
    hide Range, Consistent, Finish, Waited, Orderly;
    forall b, j | 0 <= b < |bs| && Offset(bs, b) <= j < Offset(bs, b + 1) && j in released'
      ensures if bs[b].warm && j != Offset(bs, b) then Offset(bs, b) in order'[..released'[j]] else released'[j] == 0
    {
      if j in released {
        WaitedStill(bs, order, released, i, b, j);
      } else {
        ReleasedNow(bs, q, i, b, j);
        assert order'[..|order'|] == order';
      }
    }
    forall j | j in released'
      ensures released'[j] <= |order'| && j !in order'[..released'[j]]
    {
      if j in released {
        StartedStill(bs, order, released, i, j);
      } else {
        NotYetRun(bs, q, i, j);
        assert order'[..|order'|] == order';
      }
    }
    WaitedIf(bs, order', released');
    FinishMoves(q, i);
  }

  lemma FinishMoves(q: Books, i: nat)
    ensures Finish(q, i).pending + Finish(q, i).finished >= q.pending + q.finished
  {
  }

  lemma WaitedIf(bs: seq<Batch>, order: seq<nat>, released: Releases)
    requires forall i :: i in released ==> released[i] <= |order| && i !in order[..released[i]]
    requires forall b, i :: 0 <= b < |bs| && Offset(bs, b) <= i < Offset(bs, b + 1) && i in released ==>
               if bs[b].warm && i != Offset(bs, b) then Offset(bs, b) in order[..released[i]] else released[i] == 0
    ensures Waited(bs, order, released)
  {
  }

  lemma WaitedStill(bs: seq<Batch>, order: seq<nat>, released: Releases, i: nat, b: nat, j: nat)
    requires Waited(bs, order, released) && j in released && b < |bs| && Offset(bs, b) <= j < Offset(bs, b + 1)
    ensures if bs[b].warm && j != Offset(bs, b) then Offset(bs, b) in (order + [i])[..released[j]] else released[j] == 0
  {
    assert released[j] <= |order| && (order + [i])[..released[j]] == order[..released[j]];
  }

  lemma StartedStill(bs: seq<Batch>, order: seq<nat>, released: Releases, i: nat, j: nat)
    requires Waited(bs, order, released) && j in released
    ensures released[j] <= |order + [i]| && j !in (order + [i])[..released[j]]
  {
    assert released[j] <= |order| && (order + [i])[..released[j]] == order[..released[j]];
  }

  /** A call newly submitted is none of those that ran. */
  lemma NotYetRun(bs: seq<Batch>, q: Books, i: nat, j: nat)
    requires Consistent(bs, |bs|, q) && i in q.pending && j !in q.pending + q.finished
    ensures j !in q.finished && j != i
  {
  }

  /** A call newly submitted follows the primer that just finished. */
  lemma ReleasedNow(bs: seq<Batch>, q: Books, i: nat, b: nat, j: nat)
    requires Consistent(bs, |bs|, q) && i in q.pending
    requires b < |bs| && Offset(bs, b) <= j < Offset(bs, b + 1)
    requires j in Finish(q, i).pending + Finish(q, i).finished && j !in q.pending + q.finished
    ensures bs[b].warm && j != Offset(bs, b) && i == Offset(bs, b)
  {
    var own := q.primers[i];
    assert Orderly(bs, q, own);
    assert Orderly(bs, q, b);
    OneBatch(bs, own, b, j);
  }
}
