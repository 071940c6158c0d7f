/** The statistics the live chart section derives from the two emoji lists it
    reads: the counts fetched from the network and the locally held counts
    (src/components/sections/LiveChartSection.tsx). Nothing here mutates its
    input: the sort works on a fresh copy. */
module LiveChart {
  import opened Common

  /** One aggregate row: an emoji, its mood name, its vote count and its display colour. */
  datatype EmojiCount = EmojiCount(emoji: string, name: string, count: int, color: string)

  /** What the pie chart receives for one row. */
  datatype ChartPoint = ChartPoint(emoji: string, count: int, color: string)

  /** Shown as the most popular emoji when there is no data at all. */
  const UnknownEmoji: string := "❓"

  /** `items.reduce((sum, item) => sum + item.count, 0)`. */
  function SumCounts(items: seq<EmojiCount>): (total: int)
  {
    if items == [] then 0 else items[0].count + SumCounts(items[1..])
  }

  predicate NonNegativeCounts(items: seq<EmojiCount>)
  {
    forall i :: 0 <= i < |items| ==> items[i].count >= 0
  }

  /** With no negative counts, the sum is zero exactly when every count is zero. */
  lemma {:induction false} SumCountsZero(items: seq<EmojiCount>)
    requires NonNegativeCounts(items)
    ensures SumCounts(items) >= 0
    ensures SumCounts(items) == 0 <==> forall i :: 0 <= i < |items| ==> items[i].count == 0
  {
    if items != [] {
      assert NonNegativeCounts(items[1..]) by {
        forall i | 0 <= i < |items[1..]| ensures items[1..][i].count >= 0 {
          assert items[1..][i] == items[i + 1];
        }
      }
      SumCountsZero(items[1..]);
      if forall i :: 0 <= i < |items| ==> items[i].count == 0 {
        forall i | 0 <= i < |items[1..]| ensures items[1..][i].count == 0 {
          assert items[1..][i] == items[i + 1];
        }
      }
      if SumCounts(items) == 0 {
        forall i | 0 <= i < |items| ensures items[i].count == 0 {
          if i > 0 { assert items[i] == items[1..][i - 1]; }
        }
      }
    }
  }

  /** Total votes: the network sum when it is non-zero (JavaScript `||`), otherwise the local sum. */
  function TotalVotes(stellar: seq<EmojiCount>, local: seq<EmojiCount>): (total: int)
    ensures total == SumCounts(stellar) || total == SumCounts(local)
    ensures total != SumCounts(local) ==> total == SumCounts(stellar) != 0
  {
    var networkTotal := SumCounts(stellar);
    if networkTotal != 0 then networkTotal else SumCounts(local)
  }

  /** A network list whose counts are all zero, even a non-empty one, falls back to the local total. */
  lemma TotalVotesFallsBack(stellar: seq<EmojiCount>, local: seq<EmojiCount>)
    requires forall i :: 0 <= i < |stellar| ==> stellar[i].count == 0
    ensures TotalVotes(stellar, local) == SumCounts(local)
  {
    SumCountsZero(stellar);
  }

  /** A network list with no negative counts and one positive count decides the total. */
  lemma TotalVotesPrefersNetwork(stellar: seq<EmojiCount>, local: seq<EmojiCount>, k: nat)
    requires NonNegativeCounts(stellar)
    requires k < |stellar| && stellar[k].count > 0
    ensures TotalVotes(stellar, local) == SumCounts(stellar) > 0
  {
    SumCountsZero(stellar);
  }

  /** The list the statistics and the chart are computed from. */
  function Source(stellar: seq<EmojiCount>, local: seq<EmojiCount>): (items: seq<EmojiCount>)
    ensures |stellar| > 0 ==> items == stellar
    ensures |stellar| == 0 ==> items == local
  {
    if |stellar| > 0 then stellar else local
  }

  /** `items.reduce((prev, current) => prev.count > current.count ? prev : current)`:
      a left fold over a non-empty list that keeps the later element on ties. */
  function ReduceMostPopular(items: seq<EmojiCount>): (best: EmojiCount)
    requires |items| > 0
    ensures best in items
    ensures forall i :: 0 <= i < |items| ==> items[i].count <= best.count
  {
    if |items| == 1 then items[0]
    else
      var prev := ReduceMostPopular(items[..|items| - 1]);
      var current := items[|items| - 1];
      assert forall i :: 0 <= i < |items| - 1 ==> items[i] == items[..|items| - 1][i];
      if prev.count > current.count then prev else current
  }

  /** Because the comparison is strict, the fold lands on the LAST element of maximal count:
      every element after it has a strictly smaller count. */
  lemma {:induction false} ReduceIsLastMaximum(items: seq<EmojiCount>)
    requires |items| > 0
    ensures exists k :: 0 <= k < |items| && items[k] == ReduceMostPopular(items)
                        && forall j :: k < j < |items| ==> items[j].count < items[k].count
  {
    if |items| == 1 {
      assert items[0] == ReduceMostPopular(items);
    } else {
      var init := items[..|items| - 1];
      var last := |items| - 1;
      ReduceIsLastMaximum(init);
      var k :| 0 <= k < |init| && init[k] == ReduceMostPopular(init)
               && forall j :: k < j < |init| ==> init[j].count < init[k].count;
      if init[k].count > items[last].count {
        assert items[k] == ReduceMostPopular(items);
        forall j | k < j < |items| ensures items[j].count < items[k].count {
          if j < last { assert items[j] == init[j]; }
        }
      } else {
        assert items[last] == ReduceMostPopular(items);
      }
    }
  }

  /** The emoji shown as most popular. */
  function MostPopular(stellar: seq<EmojiCount>, local: seq<EmojiCount>): (emoji: string)
    ensures |Source(stellar, local)| == 0 ==> emoji == UnknownEmoji
    ensures |Source(stellar, local)| > 0 ==>
      exists k :: 0 <= k < |Source(stellar, local)| && Source(stellar, local)[k].emoji == emoji
        && forall j :: 0 <= j < |Source(stellar, local)| ==> Source(stellar, local)[j].count <= Source(stellar, local)[k].count
  {
    var items := Source(stellar, local);
    if |items| == 0 then UnknownEmoji
    else
      var best := ReduceMostPopular(items);
      assert exists k :: 0 <= k < |items| && items[k] == best;
      best.emoji
  }

  /** Non-increasing by count. */
  predicate SortedByCountDesc(items: seq<EmojiCount>)
  {
    forall i, j :: 0 <= i < j < |items| ==> items[i].count >= items[j].count
  }

  /** Inserts `x` before the first element whose count is not larger, so that equal
      counts keep their original order (the JavaScript sort is stable). */
  function InsertByCount(x: EmojiCount, sorted: seq<EmojiCount>): (r: seq<EmojiCount>)
  {
    if sorted == [] || sorted[0].count <= x.count then [x] + sorted
    else [sorted[0]] + InsertByCount(x, sorted[1..])
  }

  lemma {:induction false} InsertByCountPermutes(x: EmojiCount, sorted: seq<EmojiCount>)
    ensures multiset(InsertByCount(x, sorted)) == multiset(sorted) + multiset{x}
  {
    if sorted != [] && sorted[0].count > x.count {
      InsertByCountPermutes(x, sorted[1..]);
      assert sorted == [sorted[0]] + sorted[1..];
    }
  }

  /** Every count in `items` is at most `bound`. */
  predicate CountsAtMost(items: seq<EmojiCount>, bound: int)
  {
    forall i :: 0 <= i < |items| ==> items[i].count <= bound
  }

  /** Inserting a row that respects a bound into rows that respect it keeps the bound. */
  lemma {:induction false} InsertByCountBounded(x: EmojiCount, sorted: seq<EmojiCount>, bound: int)
    requires CountsAtMost(sorted, bound) && x.count <= bound
    ensures CountsAtMost(InsertByCount(x, sorted), bound)
  {
    if sorted != [] && sorted[0].count > x.count {
      assert CountsAtMost(sorted[1..], bound) by {
        forall i | 0 <= i < |sorted[1..]| ensures sorted[1..][i].count <= bound {
          assert sorted[1..][i] == sorted[i + 1];
        }
      }
      InsertByCountBounded(x, sorted[1..], bound);
    }
  }

  lemma {:induction false} InsertByCountSorted(x: EmojiCount, sorted: seq<EmojiCount>)
    requires SortedByCountDesc(sorted)
    ensures SortedByCountDesc(InsertByCount(x, sorted))
  {
    if sorted != [] && sorted[0].count > x.count {
      var tail := sorted[1..];
      assert SortedByCountDesc(tail) by {
        forall i, j | 0 <= i < j < |tail| ensures tail[i].count >= tail[j].count {
          assert tail[i] == sorted[i + 1] && tail[j] == sorted[j + 1];
        }
      }
      assert CountsAtMost(tail, sorted[0].count) by {
        forall i | 0 <= i < |tail| ensures tail[i].count <= sorted[0].count {
          assert tail[i] == sorted[i + 1];
        }
      }
      var rest := InsertByCount(x, tail);
      InsertByCountSorted(x, tail);
      InsertByCountBounded(x, tail, sorted[0].count);
      var r := [sorted[0]] + rest;
      forall i, j | 0 <= i < j < |r| ensures r[i].count >= r[j].count {
        assert r[j] == rest[j - 1];
        if i > 0 { assert r[i] == rest[i - 1]; }
      }
    }
  }

  /** `[...items].sort((a, b) => b.count - a.count)`: a stable sort by descending count. */
  function SortByCountDesc(items: seq<EmojiCount>): (r: seq<EmojiCount>)
  {
    if items == [] then [] else InsertByCount(items[0], SortByCountDesc(items[1..]))
  }

  lemma {:induction false} SortByCountDescCorrect(items: seq<EmojiCount>)
    ensures multiset(SortByCountDesc(items)) == multiset(items)
    ensures SortedByCountDesc(SortByCountDesc(items))
  {
    if items != [] {
      SortByCountDescCorrect(items[1..]);
      InsertByCountPermutes(items[0], SortByCountDesc(items[1..]));
      InsertByCountSorted(items[0], SortByCountDesc(items[1..]));
      assert items == [items[0]] + items[1..];
    }
  }

  /** The first three rows of the sorted copy. */
  function TopThree(stellar: seq<EmojiCount>, local: seq<EmojiCount>): (top: seq<EmojiCount>)
  {
    var sorted := SortByCountDesc(Source(stellar, local));
    sorted[..Min(3, |sorted|)]
  }

  /** The rows of the sorted copy that the top three leave out. */
  function LeftOutOfTopThree(stellar: seq<EmojiCount>, local: seq<EmojiCount>): (rest: seq<EmojiCount>)
  {
    var sorted := SortByCountDesc(Source(stellar, local));
    sorted[Min(3, |sorted|)..]
  }

  lemma SortByCountDescLength(items: seq<EmojiCount>)
    ensures |SortByCountDesc(items)| == |items|
  {
    SortByCountDescCorrect(items);
    assert |multiset(SortByCountDesc(items))| == |multiset(items)|;
  }

  /** The top three hold min(3, n) rows in non-increasing order, all taken from the source;
      together with the left-out rows they are exactly the source, and no left-out row
      beats an included one. */
  lemma TopThreeCorrect(stellar: seq<EmojiCount>, local: seq<EmojiCount>)
    ensures |TopThree(stellar, local)| == Min(3, |Source(stellar, local)|)
    ensures SortedByCountDesc(TopThree(stellar, local))
    ensures multiset(TopThree(stellar, local)) + multiset(LeftOutOfTopThree(stellar, local))
            == multiset(Source(stellar, local))
    ensures forall x, y :: x in LeftOutOfTopThree(stellar, local) && y in TopThree(stellar, local)
                           ==> x.count <= y.count
  {
    var items := Source(stellar, local);
    var sorted := SortByCountDesc(items);
    SortByCountDescCorrect(items);
    SortByCountDescLength(items);
    var n := Min(3, |sorted|);
    SortedSplit(sorted, n);
    assert TopThree(stellar, local) == sorted[..n];
    assert LeftOutOfTopThree(stellar, local) == sorted[n..];
  }

  /** Cutting a list sorted by descending count: the front stays sorted, the two parts make
      up the whole, and nothing behind the cut beats anything before it. */
  lemma SortedSplit(sorted: seq<EmojiCount>, n: nat)
    requires SortedByCountDesc(sorted) && n <= |sorted|
    ensures SortedByCountDesc(sorted[..n])
    ensures multiset(sorted[..n]) + multiset(sorted[n..]) == multiset(sorted)
    ensures forall x, y :: x in sorted[n..] && y in sorted[..n] ==> x.count <= y.count
  {
    assert sorted == sorted[..n] + sorted[n..];
    forall x, y | x in sorted[n..] && y in sorted[..n] ensures x.count <= y.count {
      var i :| 0 <= i < n && sorted[..n][i] == y;
      var j :| 0 <= j < |sorted[n..]| && sorted[n..][j] == x;
      assert sorted[i] == y && sorted[n + j] == x;
    }
  }

  /** The rows handed to the pie chart: emoji, count and colour of each source row, in order. */
  function ChartData(stellar: seq<EmojiCount>, local: seq<EmojiCount>): (points: seq<ChartPoint>)
    ensures |points| == |Source(stellar, local)|
    ensures forall i :: 0 <= i < |points| ==>
      points[i].emoji == Source(stellar, local)[i].emoji
      && points[i].count == Source(stellar, local)[i].count
      && points[i].color == Source(stellar, local)[i].color
  {
    var items := Source(stellar, local);
    seq(|items|, i requires 0 <= i < |items| => ChartPoint(items[i].emoji, items[i].count, items[i].color))
  }

  /** The emoji shown as most popular labels a slice of the chart with the largest count. */
  lemma MostPopularOnChart(stellar: seq<EmojiCount>, local: seq<EmojiCount>)
    requires |Source(stellar, local)| > 0
    ensures exists k :: 0 <= k < |ChartData(stellar, local)|
                        && ChartData(stellar, local)[k].emoji == MostPopular(stellar, local)
                        && forall j :: 0 <= j < |ChartData(stellar, local)| ==>
                             ChartData(stellar, local)[j].count <= ChartData(stellar, local)[k].count
  {
    var points := ChartData(stellar, local);
    var items := Source(stellar, local);
    var k :| 0 <= k < |items| && items[k].emoji == MostPopular(stellar, local)
             && forall j :: 0 <= j < |items| ==> items[j].count <= items[k].count;
    assert points[k].emoji == MostPopular(stellar, local);
  }
}
