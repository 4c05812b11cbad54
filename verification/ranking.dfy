/**
  The top-10 pipeline of the handler: copy the upstream `data` array (a
  missing one reads as empty), sort the copy by ascending `rank`, keep the
  first ten entries. Sequences are values, so the upstream array is never
  changed by any of this.
*/
module Ranking {
  import opened Wrappers

  /** One upstream leaderboard entry; `None` is a `null` or missing field. */
  datatype Item = Item(
    userId: string,
    name: Option<string>,
    avatar: Option<string>,
    rank: int,
    volume: real,
    expectedReward: real)

  /** How many entries the leaderboard shows. */
  const TopCount: nat := 10

  function Min(a: nat, b: nat): nat {
    if a <= b then a else b
  }

  /** `raw.data || []`: a missing array reads as empty, a present one as itself. */
  function Entries(data: Option<seq<Item>>): (r: seq<Item>)
    ensures data.None? ==> r == []
    ensures data.Some? ==> r == data.value
  {
    data.GetOr([])
  }

  predicate SortedByRank(s: seq<Item>) {
    forall i, j :: 0 <= i < j < |s| ==> s[i].rank <= s[j].rank
  }

  /** No entry of `all` left out of `kept` ranks better than an entry kept. */
  predicate KeepsLowest(all: seq<Item>, kept: seq<Item>) {
    forall x, i :: x in multiset(all) - multiset(kept) && 0 <= i < |kept| ==> kept[i].rank <= x.rank
  }

  /** The entries of `s` whose rank is `k`, in their order in `s`. */
  function WithRank(s: seq<Item>, k: int): seq<Item> {
    if |s| == 0 then []
    else if s[0].rank == k then [s[0]] + WithRank(s[1..], k)
    else WithRank(s[1..], k)
  }

  /**
    Places `x` before the first entry whose rank is not below its own, so it
    stays ahead of the entries with an equal rank.
  */
  function Insert(x: Item, s: seq<Item>): (r: seq<Item>)
    ensures multiset(r) == multiset(s) + multiset{x}
    ensures |r| == |s| + 1
    ensures r[0] == x || (0 < |s| && r[0] == s[0])
    ensures SortedByRank(s) ==> SortedByRank(r)
  {
    if |s| == 0 then [x]
    else if x.rank <= s[0].rank then [x] + s
    else
      var tail := Insert(x, s[1..]);
      assert s == [s[0]] + s[1..];
      assert multiset(s) == multiset{s[0]} + multiset(s[1..]);
      if SortedByRank(s) then
        ConsSorted(s[0], tail);
        [s[0]] + tail
      else
        [s[0]] + tail
  }

  /** Putting an entry ranked no worse than the head in front keeps a sequence sorted. */
  lemma ConsSorted(head: Item, s: seq<Item>)
    requires SortedByRank(s)
    requires 0 < |s| ==> head.rank <= s[0].rank
    ensures SortedByRank([head] + s)
  {
  }

  /**
    The sort of `[...data].sort((a, b) => a.rank - b.rank)`. The comparator
    orders by rank alone and `Array.prototype.sort` is stable, so entries of
    equal rank keep their upstream order; insertion sort has the same result.
  */
  function SortByRank(s: seq<Item>): (r: seq<Item>)
    ensures SortedByRank(r)
    ensures multiset(r) == multiset(s)
    ensures |r| == |s|
  {
    if |s| == 0 then []
    else
      assert s == [s[0]] + s[1..];
      Insert(s[0], SortByRank(s[1..]))
  }

  /** `.slice(0, 10)` of the sorted copy: the entries the leaderboard shows. */
  function Select(data: Option<seq<Item>>): (r: seq<Item>)
    ensures |r| == Min(TopCount, |Entries(data)|)
    ensures SortedByRank(r)
    ensures multiset(r) <= multiset(Entries(data))
    ensures KeepsLowest(Entries(data), r)
  {
    var sorted := SortByRank(Entries(data));
    var k := Min(TopCount, |sorted|);
    TakeOfSorted(sorted, k);
    sorted[..k]
  }

  // ---------------------------------------------------------------------------
  // Properties
  // ---------------------------------------------------------------------------

  /** A prefix of a sorted sequence holds no rank above what the rest holds. */
  lemma TakeOfSorted(s: seq<Item>, k: nat)
    requires SortedByRank(s)
    requires k <= |s|
    ensures multiset(s[..k]) <= multiset(s)
    ensures KeepsLowest(s, s[..k])
  {
    assert s == s[..k] + s[k..];
    assert multiset(s) == multiset(s[..k]) + multiset(s[k..]);
    forall x, i | x in multiset(s) - multiset(s[..k]) && 0 <= i < k
      ensures s[i].rank <= x.rank
    {
      assert x in multiset(s[k..]);
      var j :| k <= j < |s| && s[j] == x by {
        assert x in s[k..];
      }
    }
  }

  /** Inserting `x` adds it to the entries of its own rank, behind none of them. */
  lemma {:induction false} WithRankInsert(x: Item, s: seq<Item>, k: int)
    ensures WithRank(Insert(x, s), k) == if x.rank == k then [x] + WithRank(s, k) else WithRank(s, k)
  {
    if |s| == 0 {
    } else if x.rank <= s[0].rank {
      assert ([x] + s)[1..] == s;
    } else {
      assert ([s[0]] + Insert(x, s[1..]))[1..] == Insert(x, s[1..]);
      WithRankInsert(x, s[1..], k);
    }
  }

  /** The sort is stable: entries of each rank keep their upstream order. */
  lemma {:induction false} SortByRankStable(s: seq<Item>, k: int)
    ensures WithRank(SortByRank(s), k) == WithRank(s, k)
  {
    if |s| > 0 {
      WithRankInsert(s[0], SortByRank(s[1..]), k);
      SortByRankStable(s[1..], k);
    }
  }

  /** A missing `data` array shows nothing, and raises nothing. */
  lemma SelectMissing()
    ensures Select(None) == []
  {
  }
}
