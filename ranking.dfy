/**
 * A descending sort on one column followed by taking the first k rows: rows ordered by
 * a score, largest first, and the first k of them. pandas' default sort is not
 * stable, so nothing here fixes the order of rows whose scores tie.
 */
module Ranking {

  /** Scores never increase along `s`. */
  ghost predicate SortedDesc<T>(s: seq<T>, score: T -> real)
  {
    forall i, j :: 0 <= i < j < |s| ==> score(s[i]) >= score(s[j])
  }

  /** Inserts `x` before the first row it does not score below. */
  function Insert<T>(x: T, s: seq<T>, score: T -> real): (r: seq<T>)
    ensures multiset(r) == multiset(s) + multiset{x}
  {
    if s == [] || score(x) >= score(s[0]) then
      [x] + s
    else
      assert s == [s[0]] + s[1..];
      [s[0]] + Insert(x, s[1..], score)
  }

  /** Inserting into a list sorted by descending score keeps it sorted. */
  lemma {:induction false} InsertSorted<T>(x: T, s: seq<T>, score: T -> real)
    requires SortedDesc(s, score)
    ensures SortedDesc(Insert(x, s, score), score)
    ensures Insert(x, s, score)[0] == x || Insert(x, s, score)[0] == s[0]
  {
    assert |Insert(x, s, score)| == |s| + 1 by {
      assert |multiset(Insert(x, s, score))| == |multiset(s)| + 1;
    }
    if s != [] && score(x) < score(s[0]) {
      var rest := Insert(x, s[1..], score);
      SortedTail(s, score);
      InsertSorted(x, s[1..], score);
      SortedCons(s[0], rest, score);
    } else {
      SortedCons(x, s, score);
    }
  }

  /** A row no lower than the head of a sorted list extends it. */
  lemma SortedCons<T>(h: T, t: seq<T>, score: T -> real)
    requires SortedDesc(t, score) && (t == [] || score(h) >= score(t[0]))
    ensures SortedDesc([h] + t, score)
  {
  }

  /** The rows rearranged in descending order of score. */
  function SortDesc<T>(s: seq<T>, score: T -> real): (r: seq<T>)
    ensures SortedDesc(r, score)
    ensures multiset(r) == multiset(s)
  {
    if s == [] then []
    else
      assert s == [s[0]] + s[1..];
      InsertSorted(s[0], SortDesc(s[1..], score), score);
      Insert(s[0], SortDesc(s[1..], score), score)
  }

  /** The first min(k, |s|) rows. */
  function Head<T>(s: seq<T>, k: nat): (r: seq<T>)
    ensures |r| == if k < |s| then k else |s|
    ensures forall i :: 0 <= i < |r| ==> r[i] == s[i]
  {
    if k < |s| then s[..k] else s
  }

  /** The first k rows of the ranking. */
  function TopK<T>(s: seq<T>, score: T -> real, k: nat): seq<T>
  {
    Head(SortDesc(s, score), k)
  }

  /** The top k rows are min(k, |s|) rows in descending order of score. */
  lemma TopKShape<T>(s: seq<T>, score: T -> real, k: nat)
    ensures |TopK(s, score, k)| == if k < |s| then k else |s|
    ensures SortedDesc(TopK(s, score, k), score)
  {
    var sorted := SortDesc(s, score);
    assert |sorted| == |s| by { assert |multiset(sorted)| == |multiset(s)|; }
  }

  /**
   * The top k rows are taken from the given rows, each no more often than it
   * occurs there, and no row left out scores above a row taken.
   */
  lemma TopKSelectsLargest<T>(s: seq<T>, score: T -> real, k: nat)
    ensures multiset(TopK(s, score, k)) <= multiset(s)
    ensures forall x, y :: x in TopK(s, score, k) && y in multiset(s) - multiset(TopK(s, score, k)) ==>
      score(x) >= score(y)
  {
    var sorted := SortDesc(s, score);
    var top := TopK(s, score, k);
    TopKShape(s, score, k);
    var n := |top|;
    assert |sorted| == |s| by { assert |multiset(sorted)| == |multiset(s)|; }
    assert sorted == top + sorted[n..];
    assert multiset(sorted) == multiset(top) + multiset(sorted[n..]);
    forall x, y | x in top && y in multiset(s) - multiset(top) ensures score(x) >= score(y) {
      assert y in sorted[n..];
      var i :| 0 <= i < n && top[i] == x;
      var j :| n <= j < |sorted| && sorted[j] == y;
    }
  }

  /** The same, stated on the rows' positions in the input. */
  lemma TopKMembers<T>(s: seq<T>, score: T -> real, k: nat)
    ensures forall x :: x in TopK(s, score, k) ==> x in s
    ensures forall i, x :: 0 <= i < |s| && s[i] !in TopK(s, score, k) && x in TopK(s, score, k) ==>
      score(x) >= score(s[i])
  {
    var top := TopK(s, score, k);
    TopKSelectsLargest(s, score, k);
    forall x | x in top ensures x in s {
      assert x in multiset(top);
    }
    forall i, x | 0 <= i < |s| && s[i] !in top && x in top ensures score(x) >= score(s[i]) {
      assert s[i] in multiset(s) && s[i] !in multiset(top);
    }
  }

  /** The scores of the rows, in order. */
  function Scores<T>(s: seq<T>, score: T -> real): (r: seq<real>)
    ensures |r| == |s|
    ensures forall i :: 0 <= i < |s| ==> r[i] == score(s[i])
  {
    if s == [] then [] else [score(s[0])] + Scores(s[1..], score)
  }

  /**
   * Any two descending arrangements of the same rows agree on the scores in
   * every position: however a sort breaks ties, the score column it reports,
   * and so that of every head(k), is the same.
   */
  lemma {:induction false} SortedScoresUnique<T>(a: seq<T>, b: seq<T>, score: T -> real)
    requires multiset(a) == multiset(b)
    requires SortedDesc(a, score) && SortedDesc(b, score)
    ensures Scores(a, score) == Scores(b, score)
  {
    ScoresPreservePermutation(a, b, score);
    SortedScores(a, score);
    SortedScores(b, score);
    SortedRealsUnique(Scores(a, score), Scores(b, score));
  }

  /** The scores of a descending arrangement descend. */
  lemma SortedScores<T>(s: seq<T>, score: T -> real)
    requires SortedDesc(s, score)
    ensures SortedDesc(Scores(s, score), Identity)
  {
  }

  /** Rearranging the rows rearranges their scores. */
  lemma {:induction false} ScoresPreservePermutation<T>(a: seq<T>, b: seq<T>, score: T -> real)
    requires multiset(a) == multiset(b)
    ensures multiset(Scores(a, score)) == multiset(Scores(b, score))
    decreases |a|
  {
    if a != [] {
      var x := a[0];
      assert x in multiset(b);
      var j :| 0 <= j < |b| && b[j] == x;
      var b' := RemoveAt(b, j);
      MultisetOfRemoveAt(a, 0);
      assert RemoveAt(a, 0) == a[1..];
      assert multiset(a[1..]) == multiset(b');
      ScoresPreservePermutation(a[1..], b', score);
      ScoresRemoveAt(a, 0, score);
      ScoresRemoveAt(b, j, score);
    }
  }

  /** `s` without its element at index `j`. */
  function RemoveAt<T>(s: seq<T>, j: nat): (r: seq<T>)
    requires j < |s|
    ensures multiset(r) == multiset(s) - multiset{s[j]}
  {
    assert s == s[..j] + [s[j]] + s[j + 1..];
    s[..j] + s[j + 1..]
  }

  /** Removing a row removes its score. */
  lemma {:induction false} ScoresRemoveAt<T>(s: seq<T>, j: nat, score: T -> real)
    requires j < |s|
    ensures multiset(Scores(s, score)) == multiset(Scores(RemoveAt(s, j), score)) + multiset{score(s[j])}
  {
    var all, rest := Scores(s, score), Scores(RemoveAt(s, j), score);
    ScoresOfRemoveAt(s, j, score);
    assert all[j] == score(s[j]);
    MultisetOfRemoveAt(all, j);
  }

  lemma ScoresOfRemoveAt<T>(s: seq<T>, j: nat, score: T -> real)
    requires j < |s|
    ensures Scores(RemoveAt(s, j), score) == RemoveAt(Scores(s, score), j)
  {
    var r, all := RemoveAt(s, j), Scores(s, score);
    assert r == s[..j] + s[j + 1..];
    var lhs, rhs := Scores(r, score), RemoveAt(all, j);
    assert rhs == all[..j] + all[j + 1..];
    assert |lhs| == |rhs|;
    forall i | 0 <= i < |lhs| ensures lhs[i] == rhs[i] {
      if i < j { assert r[i] == s[i]; } else { assert r[i] == s[i + 1]; }
    }
  }

  lemma MultisetOfRemoveAt<U>(s: seq<U>, j: nat)
    requires j < |s|
    ensures multiset(s) == multiset(RemoveAt(s, j)) + multiset{s[j]}
  {
  }

  /** Two descending sequences of reals with the same elements are equal. */
  lemma {:induction false} SortedRealsUnique(a: seq<real>, b: seq<real>)
    requires multiset(a) == multiset(b)
    requires SortedDesc(a, Identity) && SortedDesc(b, Identity)
    ensures a == b
    decreases |a|
  {
    assert |a| == |multiset(a)| == |b|;
    if a != [] {
      assert b[0] in multiset(a);
      HeadIsLargest(a, b[0]);
      assert a[0] in multiset(b);
      HeadIsLargest(b, a[0]);
      assert a[0] == b[0];
      assert a == [a[0]] + a[1..] && b == [b[0]] + b[1..];
      assert multiset(a[1..]) == multiset(a) - multiset{a[0]};
      assert multiset(b[1..]) == multiset(b) - multiset{b[0]};
      SortedTail(a, Identity);
      SortedTail(b, Identity);
      SortedRealsUnique(a[1..], b[1..]);
    }
  }

  function Identity(x: real): real
  {
    x
  }

  /** The head of a descending sequence is no smaller than any of its elements. */
  lemma HeadIsLargest(a: seq<real>, x: real)
    requires SortedDesc(a, Identity) && x in multiset(a)
    ensures a[0] >= x
  {
  }

  lemma SortedTail<T>(s: seq<T>, score: T -> real)
    requires SortedDesc(s, score) && s != []
    ensures SortedDesc(s[1..], score)
  {
  }
}
