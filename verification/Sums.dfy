// Weighted sums over a sequence: how one entry's change moves the total.
// The step systems count goroutines, queued signals and carried demand with it.
module Sums {

  function Total<T>(w: T -> int, ts: seq<T>): int {
    if ts == [] then 0 else w(ts[0]) + Total(w, ts[1..])
  }

  ghost predicate NonNegative<T(!new)>(w: T -> int) {
    forall x :: w(x) >= 0
  }

  lemma {:induction false} TotalConcat<T>(w: T -> int, a: seq<T>, b: seq<T>)
    ensures Total(w, a + b) == Total(w, a) + Total(w, b)
  {
    if a == [] {
      assert a + b == b;
    } else {
      TotalConcat(w, a[1..], b);
      assert (a + b)[1..] == a[1..] + b;
    }
  }

  lemma TotalSingle<T>(w: T -> int, x: T)
    ensures Total(w, [x]) == w(x)
  {
    assert Total(w, [x]) == w(x) + Total(w, [x][1..]);
  }

  lemma TotalSplit<T>(w: T -> int, ts: seq<T>, i: nat)
    requires i < |ts|
    ensures Total(w, ts) == Total(w, ts[..i]) + w(ts[i]) + Total(w, ts[i + 1..])
  {
    assert ts == ts[..i] + ([ts[i]] + ts[i + 1..]);
    TotalConcat(w, ts[..i], [ts[i]] + ts[i + 1..]);
    TotalConcat(w, [ts[i]], ts[i + 1..]);
    TotalSingle(w, ts[i]);
  }

  // Replacing one entry moves the total by the difference of the two weights.
  lemma TotalUpdate<T>(w: T -> int, ts: seq<T>, i: nat, x: T)
    requires i < |ts|
    ensures Total(w, ts[i := x]) == Total(w, ts) - w(ts[i]) + w(x)
  {
    var us := ts[i := x];
    TotalSplit(w, ts, i);
    TotalSplit(w, us, i);
    assert us[..i] == ts[..i] && us[i + 1..] == ts[i + 1..];
  }

  lemma TotalAppend<T>(w: T -> int, ts: seq<T>, x: T)
    ensures Total(w, ts + [x]) == Total(w, ts) + w(x)
  {
    TotalConcat(w, ts, [x]);
    TotalSingle(w, x);
  }

  lemma {:induction false} TotalMonotone<T>(v: T -> int, w: T -> int, ts: seq<T>)
    requires forall i | 0 <= i < |ts| :: v(ts[i]) <= w(ts[i])
    ensures Total(v, ts) <= Total(w, ts)
  {
    if ts != [] {
      assert forall i | 0 <= i < |ts[1..]| :: ts[1..][i] == ts[i + 1];
      TotalMonotone(v, w, ts[1..]);
    }
  }

  lemma {:induction false} TotalZero<T>(w: T -> int, ts: seq<T>)
    requires forall i | 0 <= i < |ts| :: w(ts[i]) == 0
    ensures Total(w, ts) == 0
  {
    if ts != [] {
      assert forall i | 0 <= i < |ts[1..]| :: ts[1..][i] == ts[i + 1];
      TotalZero(w, ts[1..]);
    }
  }

  lemma {:induction false} TotalNonNegative<T(!new)>(w: T -> int, ts: seq<T>)
    requires NonNegative(w)
    ensures Total(w, ts) >= 0
  {
    if ts != [] {
      TotalNonNegative(w, ts[1..]);
    }
  }

  lemma TotalAtLeast<T(!new)>(w: T -> int, ts: seq<T>, i: nat)
    requires NonNegative(w) && i < |ts|
    ensures Total(w, ts) >= w(ts[i])
  {
    TotalSplit(w, ts, i);
    TotalNonNegative(w, ts[..i]);
    TotalNonNegative(w, ts[i + 1..]);
  }

  lemma TotalAtLeastTwo<T(!new)>(w: T -> int, ts: seq<T>, i: nat, j: nat)
    requires NonNegative(w) && i < j < |ts|
    ensures Total(w, ts) >= w(ts[i]) + w(ts[j])
  {
    TotalSplit(w, ts, i);
    TotalNonNegative(w, ts[..i]);
    assert ts[i + 1..][j - i - 1] == ts[j];
    TotalAtLeast(w, ts[i + 1..], j - i - 1);
  }

  lemma {:induction false} SomeoneCounts<T>(w: T -> int, ts: seq<T>)
    requires Total(w, ts) > 0
    ensures exists i :: 0 <= i < |ts| && w(ts[i]) > 0
  {
    if w(ts[0]) <= 0 {
      SomeoneCounts(w, ts[1..]);
      var i :| 0 <= i < |ts[1..]| && w(ts[1..][i]) > 0;
      assert w(ts[i + 1]) > 0;
    }
  }

  // A schedule went on from `before`, with a total weight of k in what was added.
  ghost predicate Took<T>(w: T -> int, before: seq<T>, after: seq<T>, k: int) {
    before <= after && Total(w, after) == Total(w, before) + k
  }

  lemma TookOne<T>(w: T -> int, ts: seq<T>, x: T)
    ensures Took(w, ts, ts + [x], w(x))
  {
    TotalAppend(w, ts, x);
  }
}
