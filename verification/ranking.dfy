/**
 The ranking shared by both front-ends: find the queried title's row, pair every column
 of that row of the similarity matrix with its index, sort the pairs by descending score
 (stably), drop the first sorted pair by position and keep the next five.
 */
module Ranking {

  import opened Wrappers
  import opened StableSort

  /** One row of the movie table: the displayed title and the metadata service's id. */
  datatype Movie = Movie(title: string, movieId: int)

  /**
   The two artifacts loaded at start-up: the movie table and the similarity matrix,
   whose row and column `i` belong to movie `i`.
   */
  datatype Dataset = Dataset(movies: seq<Movie>, similarity: seq<seq<real>>)

  /** The matrix is square and aligned with the movie table. */
  ghost predicate WellFormed(ds: Dataset)
  {
    && |ds.similarity| == |ds.movies|
    && forall i :: 0 <= i < |ds.similarity| ==> |ds.similarity[i]| == |ds.movies|
  }

  /** How many results a query asks for. */
  const ResultCount: nat := 5

  function Min(a: int, b: int): int
  {
    if a <= b then a else b
  }

  /**
   The position of the first movie whose title is exactly `title`, or `None` when no
   row matches (where the source's `.index[0]` raises `IndexError`).
   */
  function FirstIndexOf(movies: seq<Movie>, title: string): (r: Option<nat>)
    ensures r.Some? ==> r.value < |movies| && movies[r.value].title == title
    ensures r.Some? ==> forall j :: 0 <= j < r.value ==> movies[j].title != title
    ensures r.None? <==> forall j :: 0 <= j < |movies| ==> movies[j].title != title
  {
    if movies == [] then None
    else if movies[0].title == title then Some(0)
    else
      match FirstIndexOf(movies[1..], title)
      case None => None
      case Some(k) => Some(k + 1)
  }

  /** `list(enumerate(row))`: each column paired with its index, in column order. */
  function Enumerate(row: seq<real>): (e: seq<Scored>)
    ensures |e| == |row|
    ensures forall j :: 0 <= j < |e| ==> e[j].index == j && e[j].score == row[j]
    ensures IncreasingIndices(e)
  {
    seq(|row|, j requires 0 <= j < |row| => Scored(j, row[j]))
  }

  /**
   `sorted(enumerate(row), reverse=True, key=score)`: every column once, by descending
   score and, among equal scores, by ascending index.
   */
  function Ranked(row: seq<real>): (r: seq<Scored>)
    ensures |r| == |row|
    ensures multiset(r) == multiset(Enumerate(row))
    ensures RankOrdered(r)
  {
    SortRankOrdered(Enumerate(row));
    Sort(Enumerate(row))
  }

  /** Python's `s[lo:hi]` for non-negative bounds: out-of-range bounds are clamped. */
  function Slice<T>(s: seq<T>, lo: nat, hi: nat): (r: seq<T>)
    requires lo <= hi
    ensures |r| == if |s| <= lo then 0 else Min(hi, |s|) - lo
    ensures forall k :: 0 <= k < |r| ==> r[k] == s[lo + k]
  {
    if |s| <= lo then [] else s[lo..Min(hi, |s|)]
  }

  /**
   `distances[1:6]`: the first sorted pair is dropped by position and at most five of
   the following pairs are kept, in order.
   */
  function TopAfterFirst(ranked: seq<Scored>): (r: seq<Scored>)
    ensures |r| == if |ranked| <= 1 then 0 else Min(ResultCount, |ranked| - 1)
    ensures forall k :: 0 <= k < |r| ==> k + 1 < |ranked| && r[k] == ranked[k + 1]
  {
    Slice(ranked, 1, 1 + ResultCount)
  }

  /** The pairs a query keeps from its row: those ranked second to sixth. */
  function Kept(row: seq<real>): (r: seq<Scored>)
    ensures |r| <= ResultCount
    ensures |row| >= 1 ==> |r| == Min(ResultCount, |row| - 1)
    ensures forall k :: 0 <= k < |r| ==> k + 1 < |row| && r[k] == Ranked(row)[k + 1]
  {
    TopAfterFirst(Ranked(row))
  }

  /**
   The ranking of a row holds every column exactly once, paired with its own score,
   ordered by descending score and, among equal scores, by ascending column index.
   */
  lemma RankedFacts(row: seq<real>)
    ensures |Ranked(row)| == |row|
    ensures multiset(Ranked(row)) == multiset(Enumerate(row))
    ensures RankOrdered(Ranked(row))
    ensures forall k :: 0 <= k < |Ranked(row)| ==>
      Ranked(row)[k].index < |row| && Ranked(row)[k].score == row[Ranked(row)[k].index]
    ensures forall j :: 0 <= j < |row| ==> Scored(j, row[j]) in Ranked(row)
    ensures forall k, l :: 0 <= k < l < |Ranked(row)| ==> Ranked(row)[k].index != Ranked(row)[l].index
  {
    var e := Enumerate(row);
    var r := Ranked(row);
    assert IncreasingIndices(e);
    SortRankOrdered(e);
    forall k | 0 <= k < |r|
      ensures r[k].index < |row| && r[k].score == row[r[k].index]
    {
      assert r[k] in e;
    }
    forall j | 0 <= j < |row|
      ensures Scored(j, row[j]) in r
    {
      assert e[j] == Scored(j, row[j]);
    }
  }

  /**
   The kept pairs are a rank-ordered run of distinct columns, each paired with its score.
   */
  lemma KeptFacts(row: seq<real>)
    ensures |Kept(row)| <= ResultCount
    ensures RankOrdered(Kept(row))
    ensures forall k :: 0 <= k < |Kept(row)| ==>
      Kept(row)[k].index < |row| && Kept(row)[k].score == row[Kept(row)[k].index]
    ensures forall k, l :: 0 <= k < l < |Kept(row)| ==> Kept(row)[k].index != Kept(row)[l].index
  {
    RankedFacts(row);
    var r := Ranked(row);
    var kept := Kept(row);
    assert forall k :: 0 <= k < |kept| ==> kept[k] == r[1 + k];
  }

  /**
   When the queried column scores strictly higher than every other column of its row,
   it sorts first and is therefore the pair that the positional drop removes.
   */
  lemma {:induction false} SelfExcludedWhenStrictMax(row: seq<real>, i: nat)
    requires i < |row|
    requires forall j :: 0 <= j < |row| && j != i ==> row[j] < row[i]
    ensures Ranked(row)[0].index == i
    ensures forall k :: 0 <= k < |Kept(row)| ==> Kept(row)[k].index != i
  {
    RankedFacts(row);
    var r := Ranked(row);
    var p :| 0 <= p < |r| && r[p] == Scored(i, row[i]);
    assert p == 0;
    forall k | 0 <= k < |Kept(row)|
      ensures Kept(row)[k].index != i
    {
      assert Kept(row)[k] == r[k + 1];
    }
  }

  /**
   The drop is by position, not by identity: when a column with a smaller index scores at
   least as high as the queried column, the queried column does not sort first, so it is
   not the pair the drop removes; in a row of at most six columns it is then among the
   kept pairs.
   */
  lemma {:induction false} TieNotDropped(row: seq<real>, i: nat, j: nat)
    requires j < i < |row| && row[j] >= row[i]
    ensures Ranked(row)[0].index != i
    ensures |row| <= 1 + ResultCount ==>
      exists k :: 0 <= k < |Kept(row)| && Kept(row)[k].index == i
  {
    RankedFacts(row);
    var r := Ranked(row);
    var p :| 0 <= p < |r| && r[p] == Scored(i, row[i]);
    var q :| 0 <= q < |r| && r[q] == Scored(j, row[j]);
    assert p != 0;
    assert r[0].index != i by {
      assert r[0].index != r[p].index;
    }
    if |row| <= 1 + ResultCount {
      var kept := Kept(row);
      assert kept[p - 1] == r[p];
    }
  }

  /**
   The smallest instance of the tie: in the row [1.0, 1.0], a query for column 1 drops
   column 0 and keeps its own column.
   */
  lemma SelfKeptOnTie()
    ensures var row := [1.0, 1.0];
      Ranked(row)[0].index == 0 && Kept(row) == [Scored(1, 1.0)]
  {
    var row := [1.0, 1.0];
    var e := Enumerate(row);
    assert e == [Scored(0, 1.0), Scored(1, 1.0)];
    assert e[1..] == [Scored(1, 1.0)];
    assert e[1..][1..] == [];
    assert Sort(e[1..]) == [Scored(1, 1.0)];
    assert Ranked(row) == [Scored(0, 1.0), Scored(1, 1.0)];
  }

  /** The ranking of the row [1.0, 0.8, 0.5] keeps the second and third columns. */
  lemma ThreeColumnRanking()
    ensures Kept([1.0, 0.8, 0.5]) == [Scored(1, 0.8), Scored(2, 0.5)]
  {
    var s0, s1, s2 := Scored(0, 1.0), Scored(1, 0.8), Scored(2, 0.5);
    assert Enumerate([1.0, 0.8, 0.5]) == [s0, s1, s2];
    SortThreeDescending(s0, s1, s2);
    assert [s0, s1, s2][1..3] == [s1, s2];
  }

}
