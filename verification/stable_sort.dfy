/**
 A stable sort of (column index, score) pairs by descending score.

 This is the behaviour of Python's `sorted(pairs, reverse=True, key=lambda x: x[1])`:
 the result is ordered by non-increasing score, it is a permutation of the input, and
 pairs with equal scores keep the relative order they had in the input (`reverse=True`
 does not reverse ties). The sort is written as an insertion sort; only its observable
 result matters, not the algorithm Python uses.
 */
module StableSort {

  /** One entry of `list(enumerate(row))`: a column index and its similarity score. */
  datatype Scored = Scored(index: nat, score: real)

  /** Scores never increase from left to right. */
  ghost predicate SortedDesc(s: seq<Scored>)
  {
    forall i, j :: 0 <= i < j < |s| ==> s[i].score >= s[j].score
  }

  /** Indices strictly increase from left to right (true of `enumerate`). */
  ghost predicate IncreasingIndices(s: seq<Scored>)
  {
    forall i, j :: 0 <= i < j < |s| ==> s[i].index < s[j].index
  }

  /** Descending by score and, among equal scores, ascending by index. */
  ghost predicate RankOrdered(s: seq<Scored>)
  {
    forall i, j :: 0 <= i < j < |s| ==>
      s[i].score > s[j].score || (s[i].score == s[j].score && s[i].index < s[j].index)
  }

  /** The subsequence of the pairs whose score is `v`, in their order in `s`. */
  function WithScore(s: seq<Scored>, v: real): seq<Scored>
  {
    if s == [] then []
    else (if s[0].score == v then [s[0]] else []) + WithScore(s[1..], v)
  }

  /** A sort is stable when, for every score, the pairs with that score appear in the same order. */
  ghost predicate Stable(input: seq<Scored>, output: seq<Scored>)
  {
    forall v: real :: WithScore(output, v) == WithScore(input, v)
  }

  /**
   Places `p` in front of the first pair whose score is not greater than its own,
   so that `p` precedes every pair of equal score already in `s`.
   */
  function Insert(p: Scored, s: seq<Scored>): (r: seq<Scored>)
    ensures |r| == |s| + 1
    ensures multiset(r) == multiset(s) + multiset{p}
    ensures forall x :: x in r <==> x == p || x in s
  {
    if s == [] || p.score >= s[0].score then [p] + s
    else
      assert s == [s[0]] + s[1..];
      [s[0]] + Insert(p, s[1..])
  }

  /** Inserting into a descending list keeps it descending. */
  lemma {:induction false} InsertSorted(p: Scored, s: seq<Scored>)
    requires SortedDesc(s)
    ensures SortedDesc(Insert(p, s))
    decreases |s|
  {
    if s != [] && p.score < s[0].score {
      InsertSorted(p, s[1..]);
      var tail := Insert(p, s[1..]);
      forall j | 0 <= j < |tail|
        ensures s[0].score >= tail[j].score
      {
        var x := tail[j];
        assert x in tail;
        if x != p {
          assert x in s[1..];
          var k :| 0 <= k < |s[1..]| && s[1..][k] == x;
          assert s[k + 1] == x;
        }
      }
      var r := [s[0]] + tail;
      assert forall i, j :: 0 < i < j < |r| ==> r[i] == tail[i - 1] && r[j] == tail[j - 1];
    }
  }

  /** Stable sort by descending score. */
  function Sort(s: seq<Scored>): (r: seq<Scored>)
    ensures |r| == |s|
    ensures multiset(r) == multiset(s)
    ensures forall x :: x in r <==> x in s
    ensures SortedDesc(r)
  {
    if s == [] then []
    else
      assert s == [s[0]] + s[1..];
      InsertSorted(s[0], Sort(s[1..]));
      Insert(s[0], Sort(s[1..]))
  }

  /** The pairs of score `v` in `[x] + s`: `x` if it has that score, then those of `s`. */
  lemma WithScoreCons(x: Scored, s: seq<Scored>, v: real)
    ensures WithScore([x] + s, v) == (if x.score == v then [x] else []) + WithScore(s, v)
  {
    assert ([x] + s)[0] == x;
    assert ([x] + s)[1..] == s;
  }

  /** Inserting `p` puts it ahead of every pair of equal score, and disturbs no other tie. */
  lemma {:induction false} InsertWithScore(p: Scored, s: seq<Scored>, v: real)
    requires SortedDesc(s)
    ensures WithScore(Insert(p, s), v) == (if p.score == v then [p] else []) + WithScore(s, v)
    decreases |s|
  {
    if s == [] || p.score >= s[0].score {
      WithScoreCons(p, s, v);
    } else {
      var single := if p.score == v then [p] else [];
      var head := if s[0].score == v then [s[0]] else [];
      var tail := Insert(p, s[1..]);
      var rest := WithScore(s[1..], v);
      assert Insert(p, s) == [s[0]] + tail;
      WithScoreCons(s[0], tail, v);
      InsertWithScore(p, s[1..], v);
      assert WithScore(Insert(p, s), v) == head + (single + rest);
      assert s == [s[0]] + s[1..];
      WithScoreCons(s[0], s[1..], v);
      assert WithScore(s, v) == head + rest;
      assert head + (single + rest) == single + (head + rest) by {
        if p.score == v {
          assert s[0].score != v;
          assert head == [];
        } else {
          assert single == [];
        }
      }
    }
  }

  /** `Sort` keeps the input order among pairs of equal score. */
  lemma {:induction false} SortStable(s: seq<Scored>)
    ensures Stable(s, Sort(s))
    decreases |s|
  {
    if s != [] {
      SortStable(s[1..]);
      forall v: real
        ensures WithScore(Sort(s), v) == WithScore(s, v)
      {
        InsertWithScore(s[0], Sort(s[1..]), v);
      }
    }
  }

  /** Inserting a pair whose index is below every index in `s` keeps `s` rank-ordered. */
  lemma {:induction false} InsertRankOrdered(p: Scored, s: seq<Scored>)
    requires RankOrdered(s)
    requires forall x :: x in s ==> p.index < x.index
    ensures RankOrdered(Insert(p, s))
    decreases |s|
  {
    if s == [] || p.score >= s[0].score {
      var r := [p] + s;
      forall i, j | 0 <= i < j < |r|
        ensures r[i].score > r[j].score || (r[i].score == r[j].score && r[i].index < r[j].index)
      {
        if i == 0 {
          assert r[j] in s;
          assert SortedDesc(s);
          assert s[0].score >= s[j - 1].score by {
            if j - 1 > 0 {
              assert RankOrdered(s);
            }
          }
        }
      }
    } else {
      InsertRankOrdered(p, s[1..]);
      var tail := Insert(p, s[1..]);
      var r := [s[0]] + tail;
      forall i, j | 0 <= i < j < |r|
        ensures r[i].score > r[j].score || (r[i].score == r[j].score && r[i].index < r[j].index)
      {
        if i == 0 {
          var x := r[j];
          assert x in tail;
          if x != p {
            assert x in s[1..];
            var k :| 0 <= k < |s[1..]| && s[1..][k] == x;
            assert s[k + 1] == x;
          }
        }
      }
    }
  }

  /**
   Sorting a list whose indices increase (such as `enumerate(row)`) orders it by
   descending score and, among equal scores, by ascending index.
   */
  lemma {:induction false} SortRankOrdered(s: seq<Scored>)
    requires IncreasingIndices(s)
    ensures RankOrdered(Sort(s))
    decreases |s|
  {
    if s != [] {
      SortRankOrdered(s[1..]);
      forall x | x in Sort(s[1..])
        ensures s[0].index < x.index
      {
        assert x in s[1..];
      }
      InsertRankOrdered(s[0], Sort(s[1..]));
    }
  }

  /** Sorting three pairs that are already in descending order changes nothing. */
  lemma SortThreeDescending(s0: Scored, s1: Scored, s2: Scored)
    requires s0.score >= s1.score >= s2.score
    ensures Sort([s0, s1, s2]) == [s0, s1, s2]
  {
    assert [s2][1..] == [];
    assert Sort([s2]) == [s2];
    assert [s1, s2][1..] == [s2];
    assert Sort([s1, s2]) == [s1, s2];
    assert [s0, s1, s2][1..] == [s1, s2];
  }

}
