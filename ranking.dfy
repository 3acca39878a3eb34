/** Scoring and top-k selection of the course search engine: the dot product of a
    query vector with every catalog vector, an argsort of the scores, and the
    "last k of the ascending order, reversed" selection. */
module Ranking {

  /** Inner product of two vectors of one dimension. */
  function Dot(u: seq<int>, v: seq<int>): int
    requires |u| == |v|
  {
    if |u| == 0 then 0 else u[0] * v[0] + Dot(u[1..], v[1..])
  }

  /** Every row has dimension d. */
  ghost predicate AllOfDimension(rows: seq<seq<int>>, d: nat)
  {
    forall i :: 0 <= i < |rows| ==> |rows[i]| == d
  }

  /** The score of every row against the query: the matrix-vector product of the
      row vectors with the query vector. */
  function Similarities(rows: seq<seq<int>>, query: seq<int>): seq<int>
    requires AllOfDimension(rows, |query|)
  {
    seq(|rows|, i requires 0 <= i < |rows| => Dot(rows[i], query))
  }

  /** Each entry of xs is a position of a sequence of length n. */
  ghost predicate IndicesInRange(xs: seq<int>, n: int)
  {
    forall a :: 0 <= a < |xs| ==> 0 <= xs[a] < n
  }

  /** No entry of xs occurs twice. */
  ghost predicate Distinct(xs: seq<int>)
  {
    forall a, b :: 0 <= a < b < |xs| ==> xs[a] != xs[b]
  }

  /** xs lists every position 0, ..., n-1 exactly once. */
  ghost predicate IsPermutationOfPositions(xs: seq<int>, n: nat)
  {
    |xs| == n && Distinct(xs) && forall x :: x in xs <==> 0 <= x < n
  }

  /** The scores of the positions xs are non-decreasing from first to last. */
  ghost predicate AscendingBy(s: seq<int>, xs: seq<int>)
    requires IndicesInRange(xs, |s|)
  {
    forall a, b :: 0 <= a < b < |xs| ==> s[xs[a]] <= s[xs[b]]
  }

  /** The scores of the positions xs are non-increasing from first to last. */
  ghost predicate DescendingBy(s: seq<int>, xs: seq<int>)
    requires IndicesInRange(xs, |s|)
  {
    forall a, b :: 0 <= a < b < |xs| ==> s[xs[a]] >= s[xs[b]]
  }

  /** Inserts position i into xs, which is ordered by ascending score, just before
      the first entry whose score is not below that of i. */
  function InsertByScore(s: seq<int>, i: int, xs: seq<int>): (r: seq<int>)
    requires 0 <= i < |s| && IndicesInRange(xs, |s|)
    ensures |r| == |xs| + 1
    ensures forall x :: x in r <==> x == i || x in xs
    ensures IndicesInRange(r, |s|)
    decreases |xs|
  {
    if xs == [] || s[i] <= s[xs[0]] then [i] + xs
    else [xs[0]] + InsertByScore(s, i, xs[1..])
  }

  /** Inserting into an ascending order gives an ascending order. */
  lemma {:induction false} InsertKeepsAscending(s: seq<int>, i: int, xs: seq<int>)
    requires 0 <= i < |s| && IndicesInRange(xs, |s|)
    requires AscendingBy(s, xs)
    ensures AscendingBy(s, InsertByScore(s, i, xs))
    decreases |xs|
  {
    if xs != [] && s[i] > s[xs[0]] {
      var rest := InsertByScore(s, i, xs[1..]);
      InsertKeepsAscending(s, i, xs[1..]);
      forall b | 0 <= b < |rest| ensures s[xs[0]] <= s[rest[b]] {
        assert rest[b] in rest;
        if rest[b] != i {
          var c :| 0 <= c < |xs[1..]| && xs[1..][c] == rest[b];
          assert xs[c + 1] == rest[b];
        }
      }
      var r := InsertByScore(s, i, xs);
      assert r == [xs[0]] + rest;
      forall a, b | 0 <= a < b < |r| ensures s[r[a]] <= s[r[b]] {
        assert r[b] == rest[b - 1];
        if a > 0 {
          assert r[a] == rest[a - 1];
        }
      }
    }
  }

  /** Inserting a position not yet present keeps the positions distinct. */
  lemma {:induction false} InsertKeepsDistinct(s: seq<int>, i: int, xs: seq<int>)
    requires 0 <= i < |s| && IndicesInRange(xs, |s|)
    requires Distinct(xs) && i !in xs
    ensures Distinct(InsertByScore(s, i, xs))
    decreases |xs|
  {
    var r := InsertByScore(s, i, xs);
    if xs == [] || s[i] <= s[xs[0]] {
      assert r == [i] + xs;
      forall a, b | 0 <= a < b < |r| ensures r[a] != r[b] {
        assert r[b] == xs[b - 1];
        if a > 0 {
          assert r[a] == xs[a - 1];
        }
      }
    } else {
      var rest := InsertByScore(s, i, xs[1..]);
      assert i !in xs[1..];
      InsertKeepsDistinct(s, i, xs[1..]);
      assert r == [xs[0]] + rest;
      forall b | 0 <= b < |rest| ensures xs[0] != rest[b] {
        assert rest[b] in rest;
        if rest[b] != i {
          var c :| 0 <= c < |xs[1..]| && xs[1..][c] == rest[b];
          assert xs[c + 1] == rest[b];
        }
      }
      forall a, b | 0 <= a < b < |r| ensures r[a] != r[b] {
        assert r[b] == rest[b - 1];
        if a > 0 {
          assert r[a] == rest[a - 1];
        }
      }
    }
  }

  /** The positions 0, ..., n-1 ordered by ascending score. */
  function ArgSortPrefix(s: seq<int>, n: nat): (r: seq<int>)
    requires n <= |s|
    ensures IsPermutationOfPositions(r, n)
    ensures IndicesInRange(r, |s|)
    ensures AscendingBy(s, r)
  {
    if n == 0 then []
    else
      var prev := ArgSortPrefix(s, n - 1);
      InsertKeepsAscending(s, n - 1, prev);
      InsertKeepsDistinct(s, n - 1, prev);
      InsertByScore(s, n - 1, prev)
  }

  /** numpy's argsort: an order of all positions of s under which the scores ascend.
      Equal scores may come in any order in the source; this one is one such order. */
  function ArgSort(s: seq<int>): (order: seq<int>)
    ensures IsPermutationOfPositions(order, |s|)
    ensures IndicesInRange(order, |s|)
    ensures AscendingBy(s, order)
  {
    ArgSortPrefix(s, |s|)
  }

  /** Python's xs[::-1]. */
  function Reversed(xs: seq<int>): seq<int>
  {
    seq(|xs|, a requires 0 <= a < |xs| => xs[|xs| - 1 - a])
  }

  /** Reversing keeps exactly the elements it was given. */
  lemma ReversedMembers(xs: seq<int>)
    ensures forall x :: x in Reversed(xs) <==> x in xs
  {
    var r := Reversed(xs);
    forall x | x in r ensures x in xs {
      var a :| 0 <= a < |r| && r[a] == x;
      assert xs[|xs| - 1 - a] == x;
    }
    forall x | x in xs ensures x in r {
      var a :| 0 <= a < |xs| && xs[a] == x;
      assert r[|xs| - 1 - a] == x;
    }
  }

  /** Reversing twice gives back the original sequence. */
  lemma ReversedTwice(xs: seq<int>)
    ensures Reversed(Reversed(xs)) == xs
  {
  }

  /** Where Python's slice xs[-k:] starts in a sequence of length n: a negative start
      -k counts from the end and is clipped at 0, a start of 0 or more is clipped at n. */
  function FromEndStart(n: nat, k: int): (start: nat)
    ensures start <= n
    ensures k >= 1 ==> n - start == Min(k, n)
    ensures k == 0 ==> start == 0
    ensures k < 0 ==> start == Min(-k, n)
  {
    if k > 0 then (if k < n then n - k else 0)
    else if -k < n then -k else n
  }

  function Min(a: int, b: int): int
  {
    if a <= b then a else b
  }

  /** np.argsort(similarities)[-top_k:][::-1]: the last top_k positions of the
      ascending order, highest score first. */
  function TopIndices(s: seq<int>, k: int): seq<int>
  {
    var order := ArgSort(s);
    Reversed(order[FromEndStart(|s|, k)..])
  }

  /** The positions that TopIndices returns are exactly those of the ascending order
      from the slice start on. */
  lemma TopIndicesMembers(s: seq<int>, k: int)
    ensures forall x :: x in TopIndices(s, k) <==> x in ArgSort(s)[FromEndStart(|s|, k)..]
  {
    ReversedMembers(ArgSort(s)[FromEndStart(|s|, k)..]);
  }

  /** The selection keeps the ascending order from the slice start on: its entry a
      is entry N-1-a of the ascending order, so for top_k of at least 1 it has
      min(top_k, N) entries, and for a negative top_k all but the first -top_k. */
  lemma TopIndicesShape(s: seq<int>, k: int)
    ensures |TopIndices(s, k)| == |s| - FromEndStart(|s|, k)
    ensures k >= 1 ==> |TopIndices(s, k)| == Min(k, |s|)
    ensures IndicesInRange(TopIndices(s, k), |s|)
    ensures forall a :: 0 <= a < |TopIndices(s, k)| ==> TopIndices(s, k)[a] == ArgSort(s)[|s| - 1 - a]
  {
    var tail := ArgSort(s)[FromEndStart(|s|, k)..];
    assert TopIndices(s, k) == Reversed(tail);
  }

  /** The selected positions are pairwise distinct and their scores do not increase
      from first to last. */
  lemma TopIndicesDistinctDescending(s: seq<int>, k: int)
    ensures IndicesInRange(TopIndices(s, k), |s|)
    ensures Distinct(TopIndices(s, k))
    ensures DescendingBy(s, TopIndices(s, k))
  {
    var order, top := ArgSort(s), TopIndices(s, k);
    TopIndicesShape(s, k);
    forall a, b | 0 <= a < b < |top|
      ensures top[a] != top[b] && s[top[a]] >= s[top[b]]
    {
      assert top[a] == order[|s| - 1 - a] && top[b] == order[|s| - 1 - b];
    }
  }

  /** Top-k correctness: no position left out scores above a selected one. */
  lemma TopIndicesDominate(s: seq<int>, k: int)
    ensures IndicesInRange(TopIndices(s, k), |s|)
    ensures forall a, i :: 0 <= a < |TopIndices(s, k)| && 0 <= i < |s| && i !in TopIndices(s, k)
              ==> s[TopIndices(s, k)[a]] >= s[i]
  {
    var order, top := ArgSort(s), TopIndices(s, k);
    var start := FromEndStart(|s|, k);
    var tail := order[start..];
    TopIndicesShape(s, k);
    TopIndicesMembers(s, k);
    forall a, i | 0 <= a < |top| && 0 <= i < |s| && i !in top
      ensures s[top[a]] >= s[i]
    {
      assert i in order;
      var p :| 0 <= p < |order| && order[p] == i;
      assert forall q :: start <= q < |order| ==> tail[q - start] == order[q];
      assert p < start;
    }
  }

  /** The top_k == 0 quirk of Python's slicing: xs[-0:] is all of xs, so every
      position is returned, highest score first. */
  lemma TopIndicesZero(s: seq<int>)
    ensures TopIndices(s, 0) == Reversed(ArgSort(s))
  {
    assert ArgSort(s)[0..] == ArgSort(s);
  }
}
