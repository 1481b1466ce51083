/**
 Tables as sequences of rows, and the one relational operation the pipeline uses:
 pandas' `merge(..., how='left')` on a single key column. A missing value (pandas'
 NaN) is an `Option` that is `None`.
 */
module Frames {

  datatype Option<T> = None | Some(value: T) {
    function GetOr(default: T): T {
      match this
      case Some(v) => v
      case None => default
    }
  }

  /** No two rows share a key. */
  predicate UniqueKeys<R, K(==)>(rows: seq<R>, key: R -> K) {
    forall i, j :: 0 <= i < j < |rows| ==> key(rows[i]) != key(rows[j])
  }

  /** The rows whose key is `k`, in table order. */
  function Matches<R, K(==)>(rows: seq<R>, key: R -> K, k: K): (ms: seq<R>)
    ensures |ms| <= |rows|
    ensures forall x :: x in ms ==> x in rows && key(x) == k
    ensures ms == [] ==> forall i :: 0 <= i < |rows| ==> key(rows[i]) != k
  {
    if rows == [] then []
    else (if key(rows[0]) == k then [rows[0]] else []) + Matches(rows[1..], key, k)
  }

  /** The first row whose key is `k`, if there is one. */
  function Lookup<R, K(==)>(rows: seq<R>, key: R -> K, k: K): (r: Option<R>)
    ensures r.Some? ==> r.value in rows && key(r.value) == k
    ensures r.None? ==> forall i :: 0 <= i < |rows| ==> key(rows[i]) != k
  {
    if rows == [] then None
    else if key(rows[0]) == k then Some(rows[0])
    else Lookup(rows[1..], key, k)
  }

  /** `Lookup` finds the first row of the key, as `rows[rows.key == k].iloc[0]` does. */
  lemma {:induction false} LookupFindsFirst<R, K>(rows: seq<R>, key: R -> K, k: K)
    requires exists i :: 0 <= i < |rows| && key(rows[i]) == k
    ensures Lookup(rows, key, k).Some?
    ensures exists i :: (0 <= i < |rows| && rows[i] == Lookup(rows, key, k).value &&
                         forall j :: 0 <= j < i ==> key(rows[j]) != k)
  {
    if key(rows[0]) != k {
      var i :| 0 <= i < |rows| && key(rows[i]) == k;
      assert rows[1..][i - 1] == rows[i];
      LookupFindsFirst(rows[1..], key, k);
      var i' :| (0 <= i' < |rows[1..]| && rows[1..][i'] == Lookup(rows[1..], key, k).value &&
                 forall j :: 0 <= j < i' ==> key(rows[1..][j]) != k);
      assert rows[i' + 1] == Lookup(rows, key, k).value;
      forall j | 0 <= j < i' + 1
        ensures key(rows[j]) != k
      {
        if j > 0 {
          assert rows[j] == rows[1..][j - 1];
        }
      }
    }
  }

  /** Under unique keys a key matches at most one row, the one `Lookup` finds. */
  lemma {:induction false} MatchesUnique<R, K>(rows: seq<R>, key: R -> K, k: K)
    requires UniqueKeys(rows, key)
    ensures Matches(rows, key, k) == if Lookup(rows, key, k).Some? then [Lookup(rows, key, k).value] else []
  {
    if rows != [] {
      assert UniqueKeys(rows[1..], key) by {
        forall i, j | 0 <= i < j < |rows[1..]|
          ensures key(rows[1..][i]) != key(rows[1..][j])
        {
          assert rows[1..][i] == rows[i + 1] && rows[1..][j] == rows[j + 1];
        }
      }
      MatchesUnique(rows[1..], key, k);
      if key(rows[0]) == k {
        assert Lookup(rows[1..], key, k).None? by {
          forall i | 0 <= i < |rows[1..]|
            ensures key(rows[1..][i]) != k
          {
            assert rows[1..][i] == rows[i + 1];
          }
        }
      }
    }
  }

  /** One left row against its matches: one output row per match, or one with nothing joined. */
  function JoinRow<L, R>(l: L, ms: seq<R>): (out: seq<(L, Option<R>)>)
    ensures |out| == if ms == [] then 1 else |ms|
    ensures forall i :: 0 <= i < |out| ==> out[i].0 == l
    ensures forall i :: 0 <= i < |out| ==> if out[i].1.Some? then out[i].1.value in ms else ms == []
  {
    if ms == [] then [(l, None)] else seq(|ms|, i requires 0 <= i < |ms| => (l, Some(ms[i])))
  }

  /**
   `left.merge(right, on=key, how='left')`: every left row in left order, each
   paired with every right row of the same key in right order, or with nothing.
   */
  function LeftJoin<L, R, K(==)>(left: seq<L>, lkey: L -> K, right: seq<R>, rkey: R -> K): (out: seq<(L, Option<R>)>)
    ensures |out| >= |left|
  {
    if left == [] then []
    else JoinRow(left[0], Matches(right, rkey, lkey(left[0]))) + LeftJoin(left[1..], lkey, right, rkey)
  }

  /**
   Every row of `out` pairs a left row with a right row of the same key, or
   with nothing when the right table has no row of that key.
   */
  ghost predicate JoinedFrom<L, R, K>(out: seq<(L, Option<R>)>, left: seq<L>, lkey: L -> K, right: seq<R>, rkey: R -> K) {
    forall i :: 0 <= i < |out| ==>
      && out[i].0 in left
      && (out[i].1.Some? ==> out[i].1.value in right && rkey(out[i].1.value) == lkey(out[i].0))
      && (out[i].1.None? ==> forall j :: 0 <= j < |right| ==> rkey(right[j]) != lkey(out[i].0))
  }

  /** A left join invents no rows: each comes from the left table and its match, if any. */
  lemma {:induction false} LeftJoinRows<L, R, K>(left: seq<L>, lkey: L -> K, right: seq<R>, rkey: R -> K)
    ensures JoinedFrom(LeftJoin(left, lkey, right, rkey), left, lkey, right, rkey)
  {
    if left != [] {
      var head := JoinRow(left[0], Matches(right, rkey, lkey(left[0])));
      var tail := LeftJoin(left[1..], lkey, right, rkey);
      LeftJoinRows(left[1..], lkey, right, rkey);
      var out := LeftJoin(left, lkey, right, rkey);
      assert out == head + tail;
      forall i | 0 <= i < |out|
        ensures out[i].0 in left
        ensures out[i].1.Some? ==> out[i].1.value in right && rkey(out[i].1.value) == lkey(out[i].0)
        ensures out[i].1.None? ==> forall j :: 0 <= j < |right| ==> rkey(right[j]) != lkey(out[i].0)
      {
        if i < |head| {
          assert out[i] == head[i];
        } else {
          assert out[i] == tail[i - |head|];
          assert tail[i - |head|].0 in left[1..];
        }
      }
    }
  }

  /**
   When the right table has unique keys the left join keeps the left table's
   shape exactly: row i is left row i with the right row of the same key, if any.
   */
  lemma {:induction false} LeftJoinUnique<L, R, K>(left: seq<L>, lkey: L -> K, right: seq<R>, rkey: R -> K)
    requires UniqueKeys(right, rkey)
    ensures |LeftJoin(left, lkey, right, rkey)| == |left|
    ensures forall i :: 0 <= i < |left| ==>
      LeftJoin(left, lkey, right, rkey)[i] == (left[i], Lookup(right, rkey, lkey(left[i])))
  {
    if left != [] {
      MatchesUnique(right, rkey, lkey(left[0]));
      LeftJoinUnique(left[1..], lkey, right, rkey);
      var out := LeftJoin(left, lkey, right, rkey);
      forall i | 0 <= i < |left|
        ensures out[i] == (left[i], Lookup(right, rkey, lkey(left[i])))
      {
        if i > 0 {
          assert out[i] == LeftJoin(left[1..], lkey, right, rkey)[i - 1];
          assert left[1..][i - 1] == left[i];
        }
      }
    }
  }

  /** Whatever the right table holds, no left row is dropped by a left join. */
  lemma {:induction false} LeftJoinKeepsLeftRows<L, R, K>(left: seq<L>, lkey: L -> K, right: seq<R>, rkey: R -> K)
    ensures forall l :: l in left ==> exists o :: (l, o) in LeftJoin(left, lkey, right, rkey)
  {
    if left != [] {
      LeftJoinKeepsLeftRows(left[1..], lkey, right, rkey);
      var head := JoinRow(left[0], Matches(right, rkey, lkey(left[0])));
      assert head[0] in LeftJoin(left, lkey, right, rkey);
      forall l | l in left
        ensures exists o :: (l, o) in LeftJoin(left, lkey, right, rkey)
      {
        if l == left[0] {
          assert (l, head[0].1) in LeftJoin(left, lkey, right, rkey);
        } else {
          assert l in left[1..];
          var o :| (l, o) in LeftJoin(left[1..], lkey, right, rkey);
          assert (l, o) in LeftJoin(left, lkey, right, rkey);
        }
      }
    }
  }
}
