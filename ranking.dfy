/** Ranking of the backend: given the requested title and the precomputed
    similarity matrix, pick the five nearest neighbours of the movie. The
    similarity row is enumerated, sorted by score in descending order with
    Python's stable `sorted(..., reverse=True)`, the first ranked entry is
    skipped and the next five are returned as titles. */
module Ranking {
  import opened Wrappers
  import opened Catalog
  import opened Features

  /** One `(position, score)` pair of `enumerate(distances)`. */
  datatype Scored = Scored(index: nat, score: int)

  const SliceStart: nat := 1
  const SliceEnd: nat := 6

  /** `a` comes before `b` in a stable descending sort by score of an
      enumerated row: a higher score first, ties in position order. */
  predicate Before(a: Scored, b: Scored)
  {
    a.score > b.score || (a.score == b.score && a.index < b.index)
  }

  predicate RankedOrder(s: seq<Scored>)
  {
    forall i, j :: 0 <= i < j < |s| ==> Before(s[i], s[j])
  }

  predicate PositionOrder(s: seq<Scored>)
  {
    forall i, j :: 0 <= i < j < |s| ==> s[i].index < s[j].index
  }

  /** `similarity_matrix` is `n` by `n` for a table of `n` rows. */
  predicate Square(sim: seq<seq<int>>, n: nat)
  {
    |sim| == n && forall i :: 0 <= i < n ==> |sim[i]| == n
  }

  function Enumerate(row: seq<int>): (r: seq<Scored>)
    ensures |r| == |row|
    ensures forall i :: 0 <= i < |row| ==> r[i] == Scored(i, row[i])
  {
    seq(|row|, i requires 0 <= i < |row| => Scored(i, row[i]))
  }

  /** Where a new pair goes in a ranked sequence: after every entry whose
      score is at least its own, which keeps ties in arrival order. */
  function InsertPos(x: Scored, s: seq<Scored>): (p: nat)
    ensures p <= |s|
    ensures forall i :: 0 <= i < p ==> s[i].score >= x.score
    ensures p < |s| ==> s[p].score < x.score
  {
    if s == [] || s[0].score < x.score then 0 else 1 + InsertPos(x, s[1..])
  }

  /** Every pair of `s` comes from an earlier position than `x`. */
  predicate AllEarlier(s: seq<Scored>, x: Scored)
  {
    forall k :: 0 <= k < |s| ==> s[k].index < x.index
  }

  /** Element `i` of `s` with `x` inserted at position `p`. */
  lemma InsertedAt(s: seq<Scored>, p: nat, x: Scored, i: nat)
    requires p <= |s| && i <= |s|
    ensures (s[..p] + [x] + s[p..])[i] == if i < p then s[i] else if i == p then x else s[i - 1]
  {
  }

  lemma InsertRanked(x: Scored, s: seq<Scored>)
    requires RankedOrder(s)
    requires AllEarlier(s, x)
    ensures RankedOrder(s[..InsertPos(x, s)] + [x] + s[InsertPos(x, s)..])
  {
    var p := InsertPos(x, s);
    var r := s[..p] + [x] + s[p..];
    forall i, j | 0 <= i < j < |r|
      ensures Before(r[i], r[j])
    {
      InsertedAt(s, p, x, i);
      InsertedAt(s, p, x, j);
      if j < p {
        assert Before(s[i], s[j]);
      } else if j == p {
        assert s[i].index < x.index;
      } else if i == p {
        assert s[p].score < x.score;
        assert j - 1 == p || Before(s[p], s[j - 1]);
      } else if i < p {
        assert Before(s[i], s[j - 1]);
      } else {
        assert Before(s[i - 1], s[j - 1]);
      }
    }
  }

  function Insert(x: Scored, s: seq<Scored>): (r: seq<Scored>)
    ensures multiset(r) == multiset(s) + multiset{x}
    ensures RankedOrder(s) && AllEarlier(s, x) ==> RankedOrder(r)
  {
    var p := InsertPos(x, s);
    InsertMultiset(s, p, x);
    if RankedOrder(s) && AllEarlier(s, x) then
      InsertRanked(x, s);
      s[..p] + [x] + s[p..]
    else
      s[..p] + [x] + s[p..]
  }

  lemma InsertMultiset(s: seq<Scored>, p: nat, x: Scored)
    requires p <= |s|
    ensures multiset(s[..p] + [x] + s[p..]) == multiset(s) + multiset{x}
  {
    assert s == s[..p] + s[p..];
  }

  /** In a sequence in position order, the last pair is later than every
      pair of a permutation of the others. */
  lemma LastIsLatest(s: seq<Scored>, sorted: seq<Scored>)
    requires |s| > 0 && PositionOrder(s)
    requires multiset(sorted) == multiset(s[..|s| - 1])
    ensures AllEarlier(sorted, s[|s| - 1])
  {
    forall k | 0 <= k < |sorted|
      ensures sorted[k].index < s[|s| - 1].index
    {
      assert sorted[k] in multiset(s[..|s| - 1]);
      var i :| 0 <= i < |s| - 1 && s[..|s| - 1][i] == sorted[k];
      assert s[i] == sorted[k];
    }
  }

  /** Insertion sort that reproduces `sorted(pairs, reverse=True, key=score)`:
      a permutation, in ranked order when the pairs arrive in position order. */
  function SortDesc(s: seq<Scored>): (r: seq<Scored>)
    ensures multiset(r) == multiset(s)
    ensures PositionOrder(s) ==> RankedOrder(r)
  {
    if s == [] then []
    else
      var init, last := s[..|s| - 1], s[|s| - 1];
      assert s == init + [last];
      assert PositionOrder(s) ==> PositionOrder(init);
      var sorted := SortDesc(init);
      if PositionOrder(s) then
        LastIsLatest(s, sorted);
        Insert(last, sorted)
      else
        Insert(last, sorted)
  }

  /** Two ranked permutations of each other start with the same pair. */
  lemma RankedHeads(a: seq<Scored>, b: seq<Scored>)
    requires RankedOrder(a) && RankedOrder(b)
    requires multiset(a) == multiset(b) && a != []
    ensures b != [] && a[0] == b[0]
  {
    assert a[0] in multiset(b);
    assert b[0] in multiset(a);
    RankedFirst(b, a[0]);
    RankedFirst(a, b[0]);
  }

  /** The first pair of a ranked sequence comes before every other one. */
  lemma RankedFirst(s: seq<Scored>, x: Scored)
    requires RankedOrder(s) && x in s
    ensures x == s[0] || Before(s[0], x)
  {
    var i :| 0 <= i < |s| && s[i] == x;
    if i > 0 {
      assert Before(s[0], s[i]);
    }
  }

  /** Ranked order and the multiset of elements fix a sequence: there is only
      one stable descending sort of a row. */
  lemma {:induction false} RankedUnique(a: seq<Scored>, b: seq<Scored>)
    requires RankedOrder(a) && RankedOrder(b)
    requires multiset(a) == multiset(b)
    ensures a == b
  {
    if a == [] {
      assert |multiset(b)| == 0;
    } else {
      RankedHeads(a, b);
      SliceRanked(a, 1, |a|);
      SliceRanked(b, 1, |b|);
      assert a == [a[0]] + a[1..] && b == [b[0]] + b[1..];
      assert multiset(a[1..]) == multiset(a) - multiset{a[0]};
      assert multiset(b[1..]) == multiset(b) - multiset{b[0]};
      RankedUnique(a[1..], b[1..]);
    }
  }

  /** The enumerated similarity row in ranking order. */
  function RankRow(row: seq<int>): (r: seq<Scored>)
    ensures |r| == |row|
    ensures RankedOrder(r)
    ensures multiset(r) == multiset(Enumerate(row))
  {
    var e := Enumerate(row);
    assert |multiset(SortDesc(e))| == |multiset(e)|;
    SortDesc(e)
  }

  /** Every ranked pair is a genuine `(position, score)` pair of the row. */
  lemma RankRowMember(row: seq<int>, x: Scored)
    requires x in RankRow(row)
    ensures x.index < |row| && x.score == row[x.index]
  {
    assert x in multiset(Enumerate(row));
    var i :| 0 <= i < |row| && Enumerate(row)[i] == x;
  }

  lemma SliceRanked(s: seq<Scored>, lo: nat, hi: nat)
    requires RankedOrder(s) && lo <= hi <= |s|
    ensures RankedOrder(s[lo..hi])
  {
    var t := s[lo..hi];
    forall i, j | 0 <= i < j < |t|
      ensures Before(t[i], t[j])
    {
      assert t[i] == s[lo + i] && t[j] == s[lo + j];
    }
  }

  lemma RankedSliceMembers(row: seq<int>, lo: nat, hi: nat)
    requires lo <= hi <= |row|
    ensures forall k :: 0 <= k < hi - lo ==>
      RankRow(row)[lo..hi][k].index < |row| && RankRow(row)[lo..hi][k].score == row[RankRow(row)[lo..hi][k].index]
  {
    var ranked := RankRow(row);
    var r := ranked[lo..hi];
    forall k | 0 <= k < hi - lo
      ensures r[k].index < |row| && r[k].score == row[r[k].index]
    {
      assert r[k] == ranked[lo + k];
      RankRowMember(row, ranked[lo + k]);
    }
  }

  /** `sorted(...)[1:6]`: the five pairs ranked after the first one (fewer
      when the row is shorter). */
  function Neighbours(row: seq<int>): (r: seq<Scored>)
    ensures |row| >= SliceStart ==> |r| == Min(SliceEnd - SliceStart, |row| - SliceStart)
    ensures |row| < SliceStart ==> r == []
    ensures forall k :: 0 <= k < |r| ==> r[k] == RankRow(row)[k + SliceStart]
    ensures RankedOrder(r)
    ensures forall k :: 0 <= k < |r| ==> r[k].index < |row| && r[k].score == row[r[k].index]
  {
    var ranked := RankRow(row);
    var lo, hi := Min(SliceStart, |ranked|), Min(SliceEnd, |ranked|);
    SliceRanked(ranked, lo, hi);
    RankedSliceMembers(row, lo, hi);
    assert forall k :: 0 <= k < hi - lo ==> ranked[lo..hi][k] == ranked[k + lo];
    ranked[lo..hi]
  }

  /** The neighbours are the best of the row: every position that is neither
      returned nor the skipped first one ranks below each returned one. */
  lemma NeighboursAreTop(row: seq<int>, j: nat)
    requires j < |row|
    requires j != RankRow(row)[0].index
    requires forall k :: 0 <= k < |Neighbours(row)| ==> Neighbours(row)[k].index != j
    ensures forall k :: 0 <= k < |Neighbours(row)| ==> Before(Neighbours(row)[k], Scored(j, row[j]))
  {
    var ranked := RankRow(row);
    var nb := Neighbours(row);
    var lo := Min(SliceStart, |ranked|);
    assert lo == 1;
    assert nb == ranked[1..Min(SliceEnd, |ranked|)];
    assert Enumerate(row)[j] == Scored(j, row[j]);
    assert Scored(j, row[j]) in multiset(ranked);
    var p :| 0 <= p < |ranked| && ranked[p] == Scored(j, row[j]);
    forall q | 1 <= q <= |nb|
      ensures ranked[q].index != j
    {
      assert nb[q - 1] == ranked[q];
    }
    assert p > |nb|;
    forall k | 0 <= k < |nb|
      ensures Before(nb[k], Scored(j, row[j]))
    {
      assert nb[k] == ranked[k + 1];
      assert Before(ranked[k + 1], ranked[p]);
    }
  }

  lemma NeighboursDistinct(row: seq<int>)
    ensures forall k, l :: 0 <= k < l < |Neighbours(row)| ==>
      Neighbours(row)[k].index != Neighbours(row)[l].index
  {
    var nb := Neighbours(row);
    forall k, l | 0 <= k < l < |nb|
      ensures nb[k].index != nb[l].index
    {
      assert Before(nb[k], nb[l]);
    }
  }

  /** The titles of the table rows at the given positions, in order. */
  function TitlesAt(df: seq<Row>, picked: seq<Scored>): (r: seq<string>)
    requires forall k :: 0 <= k < |picked| ==> picked[k].index < |df|
    ensures |r| == |picked|
    ensures forall k :: 0 <= k < |picked| ==> r[k] == df[picked[k].index].title
  {
    seq(|picked|, k requires 0 <= k < |picked| => df[picked[k].index].title)
  }

  /** `get_recommendations`, with positions used as positions: no match gives
      the empty list; otherwise the titles of the five nearest neighbours. */
  function GetRecommendations(df: seq<Row>, sim: seq<seq<int>>, movie: Option<string>): (r: seq<string>)
    requires Square(sim, |df|)
    ensures FirstIndex(df, movie).None? ==> r == []
    ensures FirstIndex(df, movie).Some? ==> |r| == Min(SliceEnd - SliceStart, |df| - SliceStart)
    ensures FirstIndex(df, movie).Some? ==> forall k :: 0 <= k < |r| ==>
      r[k] == df[Neighbours(sim[FirstIndex(df, movie).value])[k].index].title
    ensures forall t :: t in r ==> t in GetMovies(df)
  {
    match FirstIndex(df, movie)
    case None => []
    case Some(m) =>
      var r := TitlesAt(df, Neighbours(sim[m]));
      assert forall k :: 0 <= k < |r| ==> r[k] == GetMovies(df)[Neighbours(sim[m])[k].index];
      r
  }

  /** What a successful lookup returns: the titles of the pairs ranked second
      to sixth in the requested movie's similarity row, the top-ranked pair
      skipped, in ranking order, so their scores never increase. */
  lemma RecommendationsFollowRanking(df: seq<Row>, sim: seq<seq<int>>, movie: Option<string>)
    requires Square(sim, |df|)
    requires FirstIndex(df, movie).Some?
    ensures var ranked := RankRow(sim[FirstIndex(df, movie).value]);
      var r := GetRecommendations(df, sim, movie);
      |r| == Min(SliceEnd - SliceStart, |ranked| - SliceStart)
      && (forall p :: SliceStart <= p < SliceStart + |r| ==> r[p - SliceStart] == df[ranked[p].index].title)
      && forall p, q :: SliceStart <= p < q < SliceStart + |r| ==> ranked[p].score >= ranked[q].score
  {
    var m := FirstIndex(df, movie).value;
    var ranked := RankRow(sim[m]);
    var nb := Neighbours(sim[m]);
    var r := GetRecommendations(df, sim, movie);
    assert |ranked| == |df| >= SliceStart;
    forall p | SliceStart <= p < SliceStart + |r|
      ensures r[p - SliceStart] == df[ranked[p].index].title
    {
      assert nb[p - SliceStart] == ranked[p];
    }
    forall p, q | SliceStart <= p < q < SliceStart + |r|
      ensures ranked[p].score >= ranked[q].score
    {
      assert Before(ranked[p], ranked[q]);
    }
  }

  // ---------------------------------------------------------------------
  // The lookup as written: the row's pandas label indexes the matrix.

  /** `get_recommendations` as written: the label of the first matching row
      selects the similarity row, and a label past the end of the matrix
      raises an `IndexError` that the `except` turns into the empty list. */
  function GetRecommendationsByLabel(df: seq<Row>, sim: seq<seq<int>>, movie: Option<string>): (r: seq<string>)
    requires Square(sim, |df|)
    ensures FirstIndex(df, movie).None? ==> r == []
    ensures FirstIndex(df, movie).Some? && df[FirstIndex(df, movie).value].indexLabel >= |df| ==> r == []
    ensures FirstIndex(df, movie).Some? && df[FirstIndex(df, movie).value].indexLabel < |df| ==>
      |r| == Min(SliceEnd - SliceStart, |df| - SliceStart)
      && forall k :: 0 <= k < |r| ==>
        r[k] == df[Neighbours(sim[df[FirstIndex(df, movie).value].indexLabel])[k].index].title
    ensures forall t :: t in r ==> t in GetMovies(df)
  {
    match FirstIndex(df, movie)
    case None => []
    case Some(m) =>
      var row := df[m].indexLabel;
      if row >= |sim| then []
      else
        var r := TitlesAt(df, Neighbours(sim[row]));
        assert forall k :: 0 <= k < |r| ==> r[k] == GetMovies(df)[Neighbours(sim[row])[k].index];
        r
  }

  /** When no row was dropped the labels are the positions and the two agree. */
  lemma ByLabelWhenContiguous(df: seq<Row>, sim: seq<seq<int>>, movie: Option<string>)
    requires Square(sim, |df|)
    requires forall i :: 0 <= i < |df| ==> df[i].indexLabel == i
    ensures GetRecommendationsByLabel(df, sim, movie) == GetRecommendations(df, sim, movie)
  {
  }

  /** A table whose row labelled 1 was dropped, and its similarity matrix. */
  const ExampleTable: seq<Row> := [Row(0, 10, "A", []), Row(2, 20, "B", []), Row(3, 30, "C", [])]
  const ExampleSimilarity: seq<seq<int>> := [[9, 1, 0], [1, 9, 5], [0, 5, 9]]

  /** Asking for "B" (position 1, label 2) reads the similarity row of "C":
      "B" is recommended for itself and "C", its nearest neighbour, is missing. */
  lemma ByLabelReadsWrongRow()
    ensures Square(ExampleSimilarity, |ExampleTable|)
    ensures GetRecommendationsByLabel(ExampleTable, ExampleSimilarity, Some("B")) == ["B", "A"]
    ensures GetRecommendations(ExampleTable, ExampleSimilarity, Some("B")) == ["C", "A"]
  {
    ExampleByLabel();
    ExampleByPosition();
  }

  lemma ExampleByLabel()
    ensures Square(ExampleSimilarity, |ExampleTable|)
    ensures GetRecommendationsByLabel(ExampleTable, ExampleSimilarity, Some("B")) == ["B", "A"]
  {
    var df, sim := ExampleTable, ExampleSimilarity;
    assert Square(sim, |df|);
    ExampleLookup();
    assert df[1].indexLabel == 2 && sim[2] == [0, 5, 9];
    ExampleRowByLabel();
    var picked := Neighbours(sim[2]);
    assert picked == [Scored(1, 5), Scored(0, 0)];
    assert GetRecommendationsByLabel(df, sim, Some("B")) == TitlesAt(df, picked);
    ExampleTitles();
  }

  lemma ExampleByPosition()
    ensures Square(ExampleSimilarity, |ExampleTable|)
    ensures GetRecommendations(ExampleTable, ExampleSimilarity, Some("B")) == ["C", "A"]
  {
    var df, sim := ExampleTable, ExampleSimilarity;
    assert Square(sim, |df|);
    ExampleLookup();
    assert sim[1] == [1, 9, 5];
    ExampleRowByPosition();
    var picked := Neighbours(sim[1]);
    assert picked == [Scored(2, 5), Scored(0, 1)];
    assert GetRecommendations(df, sim, Some("B")) == TitlesAt(df, picked);
    ExampleTitles();
  }

  lemma ExampleLookup()
    ensures FirstIndex(ExampleTable, Some("B")) == Some(1)
  {
    assert Some("B") != Some(ExampleTable[0].title);
    assert Some("B") == Some(ExampleTable[1].title);
  }

  lemma ExampleRowByLabel()
    ensures Neighbours([0, 5, 9]) == [Scored(1, 5), Scored(0, 0)]
  {
    EnumerateThree(0, 5, 9);
    assert multiset([Scored(2, 9), Scored(1, 5), Scored(0, 0)])
      == multiset([Scored(0, 0), Scored(1, 5), Scored(2, 9)]);
    ExampleNeighbours([0, 5, 9], Scored(2, 9), Scored(1, 5), Scored(0, 0));
  }

  lemma ExampleRowByPosition()
    ensures Neighbours([1, 9, 5]) == [Scored(2, 5), Scored(0, 1)]
  {
    EnumerateThree(1, 9, 5);
    var ranked := [Scored(1, 9), Scored(2, 5), Scored(0, 1)];
    assert Before(ranked[0], ranked[1]) && Before(ranked[0], ranked[2]) && Before(ranked[1], ranked[2]);
    assert multiset(ranked) == multiset([Scored(0, 1), Scored(1, 9), Scored(2, 5)]);
    ExampleNeighbours([1, 9, 5], Scored(1, 9), Scored(2, 5), Scored(0, 1));
  }

  lemma ExampleTitles()
    ensures TitlesAt(ExampleTable, [Scored(1, 5), Scored(0, 0)]) == ["B", "A"]
    ensures TitlesAt(ExampleTable, [Scored(2, 5), Scored(0, 1)]) == ["C", "A"]
  {
    var t := TitlesAt(ExampleTable, [Scored(1, 5), Scored(0, 0)]);
    assert t[0] == "B" && t[1] == "A";
    var u := TitlesAt(ExampleTable, [Scored(2, 5), Scored(0, 1)]);
    assert u[0] == "C" && u[1] == "A";
  }

  lemma EnumerateThree(x: int, y: int, z: int)
    ensures Enumerate([x, y, z]) == [Scored(0, x), Scored(1, y), Scored(2, z)]
  {
    var e := Enumerate([x, y, z]);
    assert e[0] == Scored(0, x) && e[1] == Scored(1, y) && e[2] == Scored(2, z);
  }

  /** The neighbours of a row of three, given its ranking. */
  lemma ExampleNeighbours(row: seq<int>, first: Scored, second: Scored, third: Scored)
    requires |row| == 3
    requires RankedOrder([first, second, third])
    requires multiset([first, second, third]) == multiset(Enumerate(row))
    ensures Neighbours(row) == [second, third]
  {
    RankedUnique(RankRow(row), [first, second, third]);
  }
}
